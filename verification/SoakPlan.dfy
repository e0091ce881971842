/** The actions that the two plans of the soak supervisor schedule, and their offsets in seconds. */
module SoakPlan {

  const DRY_ROW1: seq<(string, int)> := [
    ("rules_check", 5), ("pause_start", 15), ("pause_resume", 75), ("pause_verify", 140), ("s4_probe", 90)
  ]

  const DRY_ROW2: seq<(string, int)> := [
    ("registrations_verify", 30), ("s9_cycle", 180), ("fault_kill_1", 5), ("fault_restart_1", 155),
    ("fault_recovery_verify_1", 180)
  ]

  const DRY_ROW3: seq<(string, int)> := [
    ("fault_runtime_kill_1", 220), ("fault_runtime_verify_1", 245), ("misfire_off", 60), ("misfire_on", 240),
    ("misfire_verify", 305)
  ]

  const DRY_ROW4: seq<(string, int)> := [
    ("upgrade_swap", 120), ("upgrade_verify", 240), ("s11_verify", 180), ("s8_cli", 120), ("agent_verify", 300)
  ]

  const DRY_NAMES: seq<(string, int)> := DRY_ROW1 + DRY_ROW2 + DRY_ROW3 + DRY_ROW4

  const SOAK_ROW1: seq<(string, int)> := [
    ("rules_check", 15), ("registrations_verify", 180), ("s4_probe_1", 1800), ("s4_probe_2", 28800),
    ("s4_probe_3", 57600), ("misfire_off", 900), ("misfire_on", 1080), ("misfire_verify", 1200)
  ]

  const SOAK_ROW2: seq<(string, int)> := [
    ("pause_start", 3600), ("pause_resume", 3900), ("pause_verify", 4260), ("s9_cycle", 21600),
    ("fault_kill_1", 7200), ("fault_restart_1", 7350), ("fault_recovery_verify_1", 7380),
    ("fault_runtime_kill_1", 14400)
  ]

  const SOAK_ROW3: seq<(string, int)> := [
    ("fault_runtime_verify_1", 14430), ("fault_kill_2", 43200), ("fault_restart_2", 43350),
    ("fault_recovery_verify_2", 43380), ("fault_runtime_kill_2", 50400), ("fault_runtime_verify_2", 50430),
    ("upgrade_swap", 3600), ("upgrade_verify", 3900)
  ]

  const SOAK_ROW4: seq<(string, int)> := [
    ("s8_cli_1", 7200), ("s8_cli_2", 82800), ("s11_verify", 600), ("agent_verify_1", 3600),
    ("agent_verify_2", 14400), ("agent_verify_3", 28800), ("agent_verify_4", 43200), ("agent_verify_5", 75600)
  ]

  const SOAK_NAMES: seq<(string, int)> := SOAK_ROW1 + SOAK_ROW2 + SOAK_ROW3 + SOAK_ROW4

  predicate Distinct(names: seq<(string, int)>) {
    forall i, j :: 0 <= i < j < |names| ==> names[i].0 != names[j].0
  }

  /** A number that tells the planned names apart: length, fourth and last character. */
  function Mark(name: string): int {
    if |name| < 4 then 0 else 1000 * |name| + name[3] as int + name[|name| - 1] as int
  }

  const DRY_MARKS1: seq<int> := [11208, 11231, 12216, 12236, 8213]
  const DRY_MARKS2: seq<int> := [20226, 8200, 12157, 15157, 23157]
  const DRY_MARKS3: seq<int> := [20157, 22157, 11204, 10212, 14223]
  const DRY_MARKS4: seq<int> := [12226, 14235, 10216, 6204, 12231]
  const DRY_MARKS: seq<int> := DRY_MARKS1 + DRY_MARKS2 + DRY_MARKS3 + DRY_MARKS4

  const SOAK_MARKS1: seq<int> := [11208, 20226, 10161, 10162, 10163, 11204, 10212, 14223]
  const SOAK_MARKS2: seq<int> := [11231, 12216, 12236, 8200, 12157, 15157, 23157, 20157]
  const SOAK_MARKS3: seq<int> := [22157, 12158, 15158, 23158, 20158, 22158, 12226, 14235]
  const SOAK_MARKS4: seq<int> := [8148, 8149, 10216, 14159, 14160, 14161, 14162, 14163]
  const SOAK_MARKS: seq<int> := SOAK_MARKS1 + SOAK_MARKS2 + SOAK_MARKS3 + SOAK_MARKS4

  predicate Marked(names: seq<(string, int)>, marks: seq<int>) {
    |names| == |marks| && forall i :: 0 <= i < |names| ==> Mark(names[i].0) == marks[i]
  }

  predicate AllDifferent(marks: seq<int>) {
    forall i, j :: 0 <= i < j < |marks| ==> marks[i] != marks[j]
  }

  lemma {:induction false} MarkedJoined(a: seq<(string, int)>, b: seq<(string, int)>, x: seq<int>, y: seq<int>)
    requires Marked(a, x) && Marked(b, y)
    ensures Marked(a + b, x + y)
  {
    hide Mark;
  }

  lemma {:induction false} DryRow1()
    ensures Marked(DRY_ROW1, DRY_MARKS1)
  {
  }

  lemma {:induction false} DryRow2()
    ensures Marked(DRY_ROW2, DRY_MARKS2)
  {
  }

  lemma {:induction false} DryRow3()
    ensures Marked(DRY_ROW3, DRY_MARKS3)
  {
  }

  lemma {:induction false} DryRow4()
    ensures Marked(DRY_ROW4, DRY_MARKS4)
  {
  }

  lemma {:induction false} DryMarked()
    ensures Marked(DRY_NAMES, DRY_MARKS)
  {
    hide Marked;
    DryRow1();
    DryRow2();
    DryRow3();
    DryRow4();
    MarkedJoined(DRY_ROW1, DRY_ROW2, DRY_MARKS1, DRY_MARKS2);
    MarkedJoined(DRY_ROW1 + DRY_ROW2, DRY_ROW3, DRY_MARKS1 + DRY_MARKS2, DRY_MARKS3);
    MarkedJoined(DRY_ROW1 + DRY_ROW2 + DRY_ROW3, DRY_ROW4, DRY_MARKS1 + DRY_MARKS2 + DRY_MARKS3, DRY_MARKS4);
  }

  lemma {:induction false} SoakRow1()
    ensures Marked(SOAK_ROW1, SOAK_MARKS1)
  {
  }

  lemma {:induction false} SoakRow2()
    ensures Marked(SOAK_ROW2, SOAK_MARKS2)
  {
  }

  lemma {:induction false} SoakRow3()
    ensures Marked(SOAK_ROW3, SOAK_MARKS3)
  {
  }

  lemma {:induction false} SoakRow4()
    ensures Marked(SOAK_ROW4, SOAK_MARKS4)
  {
  }

  lemma {:induction false} SoakMarked()
    ensures Marked(SOAK_NAMES, SOAK_MARKS)
  {
    hide Marked;
    SoakRow1();
    SoakRow2();
    SoakRow3();
    SoakRow4();
    MarkedJoined(SOAK_ROW1, SOAK_ROW2, SOAK_MARKS1, SOAK_MARKS2);
    MarkedJoined(SOAK_ROW1 + SOAK_ROW2, SOAK_ROW3, SOAK_MARKS1 + SOAK_MARKS2, SOAK_MARKS3);
    MarkedJoined(SOAK_ROW1 + SOAK_ROW2 + SOAK_ROW3, SOAK_ROW4, SOAK_MARKS1 + SOAK_MARKS2 + SOAK_MARKS3, SOAK_MARKS4);
  }

  predicate Disjoint(a: seq<int>, b: seq<int>) {
    forall i, j :: 0 <= i < |a| && 0 <= j < |b| ==> a[i] != b[j]
  }

  lemma {:induction false} DifferentJoined(a: seq<int>, b: seq<int>)
    requires AllDifferent(a) && AllDifferent(b) && Disjoint(a, b)
    ensures AllDifferent(a + b)
  {
  }

  lemma {:induction false} DisjointJoined(a: seq<int>, b: seq<int>, c: seq<int>)
    requires Disjoint(a, c) && Disjoint(b, c)
    ensures Disjoint(a + b, c)
  {
  }

  lemma {:induction false} DryMarksDiffer()
    ensures AllDifferent(DRY_MARKS)
  {
    DryRowsDiffer();
    DryRowsDisjoint();
    hide AllDifferent, Disjoint;
    DifferentJoined(DRY_MARKS1, DRY_MARKS2);
    DisjointJoined(DRY_MARKS1, DRY_MARKS2, DRY_MARKS3);
    DifferentJoined(DRY_MARKS1 + DRY_MARKS2, DRY_MARKS3);
    DisjointJoined(DRY_MARKS1, DRY_MARKS2, DRY_MARKS4);
    DisjointJoined(DRY_MARKS1 + DRY_MARKS2, DRY_MARKS3, DRY_MARKS4);
    DifferentJoined(DRY_MARKS1 + DRY_MARKS2 + DRY_MARKS3, DRY_MARKS4);
  }

  lemma {:induction false} DryRowsDiffer()
    ensures AllDifferent(DRY_MARKS1) && AllDifferent(DRY_MARKS2) && AllDifferent(DRY_MARKS3) && AllDifferent(DRY_MARKS4)
  {
  }

  lemma {:induction false} DryRowsDisjoint()
    ensures Disjoint(DRY_MARKS1, DRY_MARKS2) && Disjoint(DRY_MARKS1, DRY_MARKS3) && Disjoint(DRY_MARKS2, DRY_MARKS3)
    ensures Disjoint(DRY_MARKS1, DRY_MARKS4) && Disjoint(DRY_MARKS2, DRY_MARKS4) && Disjoint(DRY_MARKS3, DRY_MARKS4)
  {
  }

  lemma {:induction false} SoakMarksDiffer()
    ensures AllDifferent(SOAK_MARKS)
  {
    SoakRowsDiffer();
    SoakRowsDisjoint();
    hide AllDifferent, Disjoint;
    DifferentJoined(SOAK_MARKS1, SOAK_MARKS2);
    DisjointJoined(SOAK_MARKS1, SOAK_MARKS2, SOAK_MARKS3);
    DifferentJoined(SOAK_MARKS1 + SOAK_MARKS2, SOAK_MARKS3);
    DisjointJoined(SOAK_MARKS1, SOAK_MARKS2, SOAK_MARKS4);
    DisjointJoined(SOAK_MARKS1 + SOAK_MARKS2, SOAK_MARKS3, SOAK_MARKS4);
    DifferentJoined(SOAK_MARKS1 + SOAK_MARKS2 + SOAK_MARKS3, SOAK_MARKS4);
  }

  lemma {:induction false} SoakRowsDiffer()
    ensures AllDifferent(SOAK_MARKS1) && AllDifferent(SOAK_MARKS2)
    ensures AllDifferent(SOAK_MARKS3) && AllDifferent(SOAK_MARKS4)
  {
  }

  lemma {:induction false} SoakRowsDisjoint()
    ensures Disjoint(SOAK_MARKS1, SOAK_MARKS2) && Disjoint(SOAK_MARKS1, SOAK_MARKS3)
    ensures Disjoint(SOAK_MARKS2, SOAK_MARKS3) && Disjoint(SOAK_MARKS1, SOAK_MARKS4)
    ensures Disjoint(SOAK_MARKS2, SOAK_MARKS4) && Disjoint(SOAK_MARKS3, SOAK_MARKS4)
  {
  }

  /** No plan schedules a name twice. */
  lemma {:induction false} NamesDiffer()
    ensures Distinct(DRY_NAMES) && Distinct(SOAK_NAMES)
  {
    DryMarked();
    SoakMarked();
    DryMarksDiffer();
    SoakMarksDiffer();
    MarkedDiffer(DRY_NAMES, DRY_MARKS);
    MarkedDiffer(SOAK_NAMES, SOAK_MARKS);
    hide Marked, AllDifferent, Distinct;
  }

  lemma {:induction false} MarkedDiffer(names: seq<(string, int)>, marks: seq<int>)
    requires Marked(names, marks) && AllDifferent(marks)
    ensures Distinct(names)
  {
    hide Mark;
  }

  /** Wherever the two are scheduled, the first is due before the second. */
  predicate Precedes(names: seq<(string, int)>, a: string, b: string) {
    forall i, j :: 0 <= i < |names| && 0 <= j < |names| && names[i].0 == a && names[j].0 == b ==>
      names[i].1 < names[j].1
  }

  lemma {:induction false} PrecedesAt(names: seq<(string, int)>, i: nat, j: nat)
    requires Distinct(names) && i < |names| && j < |names| && names[i].1 < names[j].1
    ensures Precedes(names, names[i].0, names[j].0)
  {
  }

  /** The dry run: what resumes, restarts or verifies something is due after what it resumes, restarts or verifies. */
  lemma {:induction false} DryInOrder()
    ensures Precedes(DRY_NAMES, "pause_start", "pause_resume")
    ensures Precedes(DRY_NAMES, "pause_resume", "pause_verify")
    ensures Precedes(DRY_NAMES, "misfire_off", "misfire_on")
    ensures Precedes(DRY_NAMES, "misfire_on", "misfire_verify")
    ensures Precedes(DRY_NAMES, "upgrade_swap", "upgrade_verify")
    ensures Precedes(DRY_NAMES, "fault_kill_1", "fault_restart_1")
    ensures Precedes(DRY_NAMES, "fault_restart_1", "fault_recovery_verify_1")
    ensures Precedes(DRY_NAMES, "fault_runtime_kill_1", "fault_runtime_verify_1")
  {
    NamesDiffer();
    DryEntries();
    hide Distinct, Precedes;
    PrecedesAt(DRY_NAMES, 1, 2);
    PrecedesAt(DRY_NAMES, 2, 3);
    PrecedesAt(DRY_NAMES, 12, 13);
    PrecedesAt(DRY_NAMES, 13, 14);
    PrecedesAt(DRY_NAMES, 15, 16);
    PrecedesAt(DRY_NAMES, 7, 8);
    PrecedesAt(DRY_NAMES, 8, 9);
    PrecedesAt(DRY_NAMES, 10, 11);
  }

  lemma {:induction false} DryEntries()
    ensures |DRY_NAMES| == 20
    ensures DRY_NAMES[1] == ("pause_start", 15)
    ensures DRY_NAMES[2] == ("pause_resume", 75)
    ensures DRY_NAMES[3] == ("pause_verify", 140)
    ensures DRY_NAMES[7] == ("fault_kill_1", 5)
    ensures DRY_NAMES[8] == ("fault_restart_1", 155)
    ensures DRY_NAMES[9] == ("fault_recovery_verify_1", 180)
    ensures DRY_NAMES[10] == ("fault_runtime_kill_1", 220)
    ensures DRY_NAMES[11] == ("fault_runtime_verify_1", 245)
    ensures DRY_NAMES[12] == ("misfire_off", 60)
    ensures DRY_NAMES[13] == ("misfire_on", 240)
    ensures DRY_NAMES[14] == ("misfire_verify", 305)
    ensures DRY_NAMES[15] == ("upgrade_swap", 120)
    ensures DRY_NAMES[16] == ("upgrade_verify", 240)
  {
  }

  /** The soak run: what resumes, restarts or verifies something is due after what it resumes, restarts or verifies. */
  lemma {:induction false} SoakInOrder()
    ensures Precedes(SOAK_NAMES, "pause_start", "pause_resume")
    ensures Precedes(SOAK_NAMES, "pause_resume", "pause_verify")
    ensures Precedes(SOAK_NAMES, "misfire_off", "misfire_on")
    ensures Precedes(SOAK_NAMES, "misfire_on", "misfire_verify")
    ensures Precedes(SOAK_NAMES, "upgrade_swap", "upgrade_verify")
    ensures Precedes(SOAK_NAMES, "fault_kill_1", "fault_restart_1")
    ensures Precedes(SOAK_NAMES, "fault_restart_1", "fault_recovery_verify_1")
    ensures Precedes(SOAK_NAMES, "fault_runtime_kill_1", "fault_runtime_verify_1")
    ensures Precedes(SOAK_NAMES, "fault_kill_2", "fault_restart_2")
    ensures Precedes(SOAK_NAMES, "fault_restart_2", "fault_recovery_verify_2")
    ensures Precedes(SOAK_NAMES, "fault_runtime_kill_2", "fault_runtime_verify_2")
  {
    NamesDiffer();
    SoakEntries();
    hide Distinct, Precedes;
    PrecedesAt(SOAK_NAMES, 8, 9);
    PrecedesAt(SOAK_NAMES, 9, 10);
    PrecedesAt(SOAK_NAMES, 5, 6);
    PrecedesAt(SOAK_NAMES, 6, 7);
    PrecedesAt(SOAK_NAMES, 22, 23);
    PrecedesAt(SOAK_NAMES, 12, 13);
    PrecedesAt(SOAK_NAMES, 13, 14);
    PrecedesAt(SOAK_NAMES, 15, 16);
    PrecedesAt(SOAK_NAMES, 17, 18);
    PrecedesAt(SOAK_NAMES, 18, 19);
    PrecedesAt(SOAK_NAMES, 20, 21);
  }

  lemma {:induction false} SoakEntries()
    ensures |SOAK_NAMES| == 32
    ensures SOAK_NAMES[5] == ("misfire_off", 900)
    ensures SOAK_NAMES[6] == ("misfire_on", 1080)
    ensures SOAK_NAMES[7] == ("misfire_verify", 1200)
    ensures SOAK_NAMES[8] == ("pause_start", 3600)
    ensures SOAK_NAMES[9] == ("pause_resume", 3900)
    ensures SOAK_NAMES[10] == ("pause_verify", 4260)
    ensures SOAK_NAMES[12] == ("fault_kill_1", 7200)
    ensures SOAK_NAMES[13] == ("fault_restart_1", 7350)
    ensures SOAK_NAMES[14] == ("fault_recovery_verify_1", 7380)
    ensures SOAK_NAMES[15] == ("fault_runtime_kill_1", 14400)
    ensures SOAK_NAMES[16] == ("fault_runtime_verify_1", 14430)
    ensures SOAK_NAMES[17] == ("fault_kill_2", 43200)
    ensures SOAK_NAMES[18] == ("fault_restart_2", 43350)
    ensures SOAK_NAMES[19] == ("fault_recovery_verify_2", 43380)
    ensures SOAK_NAMES[20] == ("fault_runtime_kill_2", 50400)
    ensures SOAK_NAMES[21] == ("fault_runtime_verify_2", 50430)
    ensures SOAK_NAMES[22] == ("upgrade_swap", 3600)
    ensures SOAK_NAMES[23] == ("upgrade_verify", 3900)
  {
  }
}
