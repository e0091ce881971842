/** What a round of the soak supervisor does to one action, in plain terms. */
module SoakSteps {
  import opened SoakActions
  import opened SoakCoverage
  import opened SoakPlan
  import opened Wrappers

  /** Every action starts pending, untried and due at its offset from the start. */
  lemma {:induction false} PlansStart(mode: string, start: real, i: nat)
    requires var names := if mode == "dry-run" then DRY_NAMES else SOAK_NAMES; i < |names|
    ensures var names := if mode == "dry-run" then DRY_NAMES else SOAK_NAMES;
      var s := Initial(mode, start);
      s.dryRun == (mode == "dry-run") && s.errors == [] && |s.actions| == |names| &&
      s.actions[i].name == names[i].0 && s.actions[i].dueAt == start + names[i].1 as real &&
      s.actions[i].status == Pending && s.actions[i].attempts == 0
  {
    hide DRY_NAMES, SOAK_NAMES;
  }

  /**
   An action is executed exactly when it is pending and its time has come. What
   the handler answers settles it; a retry counts, and the fortieth one fails.
   Whatever fails leaves an error behind.
   */
  lemma {:induction false} DueSettles(s: State, round: Round, i: nat)
    requires Kept(s) && i < |s.actions|
    ensures var a, t := s.actions[i], Played(s, round);
      i < |t.actions| &&
      var b := t.actions[i];
      b.name == a.name && b.dueAt == a.dueAt && (b.status == Failed ==> b.name in t.errors) &&
      if a.status == Pending && a.dueAt <= round.now then
        match round.answers(i).outcome
        case Returned => b.status == Done && b.attempts == a.attempts
        case Raised => b.status == Failed && b.attempts == a.attempts
        case Retry => b.attempts == a.attempts + 1 && b.status == if b.attempts < 40 then Pending else Failed
      else b == a
  {
    PlayedKeeps(s, round);
    hide Played, Unique, Served;
    var t := Played(s, round);
    assert Accounted(t.actions[i], t.errors) && Accounted(s.actions[i], s.errors);
  }

  /** An action whose handler never gets further than asking for a retry is pending until its fortieth execution. */
  lemma {:induction false} RetriesExactly(s: State, rounds: seq<Round>, i: nat)
    requires Kept(s) && i < |s.actions| && s.actions[i].status == Pending
    requires forall j :: 0 <= j < |rounds| ==> rounds[j].answers(i).outcome == Retry
    ensures i < |Run(s, rounds).actions|
    ensures var tries := s.actions[i].attempts + Executions(s, rounds, i);
      tries <= 40 && Run(s, rounds).actions[i].status == if tries < 40 then Pending else Failed
    decreases |rounds|
  {
    ExecutionsBounded(s, rounds, i);
    assert Accounted(s.actions[i], s.errors);
    if rounds != [] {
      var t := Played(s, rounds[0]);
      PlayedKeeps(s, rounds[0]);
      DueSettles(s, rounds[0], i);
      assert rounds[0].answers(i).outcome == Retry;
      assert forall j :: 0 <= j < |rounds[1..]| ==> rounds[1..][j] == rounds[j + 1];
      hide Kept, Played, Stepped;
      if t.actions[i].status == Pending {
        RetriesExactly(t, rounds[1..], i);
      } else {
        SettledStays(t, rounds[1..], i);
      }
    }
  }

  /** A probe that gets as far as its window schedules its own check two and a half minutes later, once. */
  lemma {:induction false} ProbeSchedules(s: State, i: nat, k: string, r: Response)
    requires i < |s.actions| && !s.dryRun && '_' !in k && s.actions[i].name == "s4_probe_" + k
    ensures var added := Executed(s, i, r).actions[|s.actions|..];
      added ==
      if (r.scheduled || r.outcome == Returned) && !Listed(s.actions, "s4_verify_" + k)
      then [Action("s4_verify_" + k, r.at + 150.0, Pending, 0)] else []
  {
    S4ProbeByPrefix(k);
    VerifyOfProbe(k);
    hide HandlerFor, VerifyName;
  }

  /** In a dry run there is one probe, and its check is the first. */
  lemma {:induction false} DryProbeSchedules(s: State, i: nat, r: Response)
    requires i < |s.actions| && s.dryRun && s.actions[i].name == "s4_probe"
    ensures var added := Executed(s, i, r).actions[|s.actions|..];
      added ==
      if (r.scheduled || r.outcome == Returned) && !Listed(s.actions, "s4_verify_1")
      then [Action("s4_verify_1", r.at + 150.0, Pending, 0)] else []
  {
    ExactHandlers();
    VerifyOfProbe("1");
    assert "s4_verify_" + "1" == "s4_verify_1";
    hide HandlerFor, VerifyName;
  }

  /** No other action adds anything. */
  lemma {:induction false} OthersAddNothing(s: State, i: nat, r: Response)
    requires i < |s.actions| && HandlerFor(s.actions[i].name) != Some(S4Probe)
    ensures |Executed(s, i, r).actions| == |s.actions|
  {
    hide HandlerFor;
  }
}
