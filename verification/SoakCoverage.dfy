/** Which checks the handlers of the planned actions mark, against the checks that a verdict requires. */
module SoakCoverage {
  import opened SoakActions
  import opened SoakPlan
  import opened SoakVerdict
  import opened Strings
  import opened Wrappers

  /** The text after the last underscore. */
  function Suffix(name: string): string {
    var parts := Split(name, '_');
    parts[|parts| - 1]
  }

  /** The checks that a handler marks before it returns. */
  function Marks(handler: Handler, name: string): seq<string> {
    match handler
    case RulesCheck => ["S1_rules"]
    case PauseVerify => ["S1_pause_resume"]
    case S4Verify => ["S4_allow_execution_" + Suffix(name), "S4_" + Suffix(name)]
    case FaultRecoveryVerify => ["S5_dispatcher_" + Suffix(name)]
    case FaultRuntimeVerify => ["S5_runtime_" + Suffix(name)]
    case MisfireVerify => ["S6_misfire"]
    case UpgradeSwap => ["S7_replacement"]
    case UpgradeVerify => ["S7_continuity"]
    case S8Cli => ["S8_" + name]
    case S9Cycle => ["S9_install_uninstall"]
    case RegistrationsVerify => ["S9_registration"]
    case S11Verify => ["S11_on_demand"]
    case AgentVerify => ["S2_" + name]
    case _ => []
  }

  lemma {:induction false} SuffixIs(head: string, k: string)
    requires '_' !in k
    ensures Suffix(head + ['_'] + k) == k
  {
    SplitWhole(k, '_');
    SplitConcat(head, '_', k);
  }

  // ---- handlers, by name --------------------------------------------------

  /** The exact names, told from the prefixes by a character or by their length. */
  lemma {:induction false} ExactNames(name: string)
    requires name in EXACT
    ensures |name| >= 6 && name[0] != 'f'
    ensures name[0] == 'a' ==> |name| == 12
    ensures name[0] == 's' && name[1] == '4' ==> |name| == 8 && name[3] == 'p'
    ensures name[0] == 's' && name[1] == '8' ==> |name| == 6
  {
  }

  lemma {:induction false} NotExact(name: string)
    requires |name| >= 7
    requires name[0] == 'f' || (name[0] == 'a' && |name| > 12) ||
      (name[0] == 's' && (name[1] == '8' || (name[1] == '4' && |name| > 8)))
    ensures name !in EXACT
  {
    if name in EXACT {
      ExactNames(name);
    }
  }

  /** Two prefixes that differ in a character do not both begin a name. */
  lemma {:induction false} Apart(name: string, p: string, q: string, i: nat)
    requires p <= name && i < |p| && i < |q| && p[i] != q[i]
    ensures !(q <= name)
  {
  }

  lemma {:induction false} S4ProbeByPrefix(k: string)
    ensures HandlerFor("s4_probe_" + k) == Some(S4Probe)
  {
    var name := "s4_probe_" + k;
    assert name[0] == 's' && name[1] == '4';
    NotExact(name);
    hide EXACT;
  }

  lemma {:induction false} S4VerifyByPrefix(k: string)
    ensures HandlerFor("s4_verify_" + k) == Some(S4Verify)
  {
    var name := "s4_verify_" + k;
    assert name[0] == 's' && name[1] == '4';
    NotExact(name);
    Apart(name, "s4_verify_", "s4_probe_", 3);
    hide EXACT;
  }

  lemma {:induction false} S8CliByPrefix(k: string)
    ensures HandlerFor("s8_cli_" + k) == Some(S8Cli)
  {
    var name := "s8_cli_" + k;
    assert name[0] == 's' && name[1] == '8';
    NotExact(name);
    Apart(name, "s8_cli_", "s4_probe_", 1);
    Apart(name, "s8_cli_", "s4_verify_", 1);
    hide EXACT;
  }

  lemma {:induction false} AgentVerifyByPrefix(k: string)
    ensures HandlerFor("agent_verify_" + k) == Some(AgentVerify)
  {
    var name := "agent_verify_" + k;
    assert name[0] == 'a' && name[1] == 'g';
    NotExact(name);
    Apart(name, "agent_verify_", "s4_probe_", 0);
    Apart(name, "agent_verify_", "s4_verify_", 0);
    Apart(name, "agent_verify_", "s8_cli_", 0);
    hide EXACT;
  }

  lemma {:induction false} FaultKillByPrefix(k: string)
    ensures HandlerFor("fault_kill_" + k) == Some(FaultKill)
  {
    var name := "fault_kill_" + k;
    assert name[0] == 'f' && name[1] == 'a';
    NotExact(name);
    Apart(name, "fault_kill_", "s4_probe_", 0);
    Apart(name, "fault_kill_", "s4_verify_", 0);
    Apart(name, "fault_kill_", "s8_cli_", 0);
    Apart(name, "fault_kill_", "agent_verify_", 0);
    hide EXACT;
  }

  lemma {:induction false} FaultRestartByPrefix(k: string)
    ensures HandlerFor("fault_restart_" + k) == Some(FaultRestart)
  {
    var name := "fault_restart_" + k;
    assert name[0] == 'f' && name[1] == 'a';
    NotExact(name);
    Apart(name, "fault_restart_", "s4_probe_", 0);
    Apart(name, "fault_restart_", "s4_verify_", 0);
    Apart(name, "fault_restart_", "s8_cli_", 0);
    Apart(name, "fault_restart_", "agent_verify_", 0);
    Apart(name, "fault_restart_", "fault_kill_", 6);
    hide EXACT;
  }

  lemma {:induction false} FaultRecoveryVerifyByPrefix(k: string)
    ensures HandlerFor("fault_recovery_verify_" + k) == Some(FaultRecoveryVerify)
  {
    var name := "fault_recovery_verify_" + k;
    assert name[0] == 'f' && name[1] == 'a';
    NotExact(name);
    Apart(name, "fault_recovery_verify_", "s4_probe_", 0);
    Apart(name, "fault_recovery_verify_", "s4_verify_", 0);
    Apart(name, "fault_recovery_verify_", "s8_cli_", 0);
    Apart(name, "fault_recovery_verify_", "agent_verify_", 0);
    Apart(name, "fault_recovery_verify_", "fault_kill_", 6);
    Apart(name, "fault_recovery_verify_", "fault_restart_", 8);
    hide EXACT;
  }

  lemma {:induction false} FaultRuntimeKillByPrefix(k: string)
    ensures HandlerFor("fault_runtime_kill_" + k) == Some(FaultRuntimeKill)
  {
    var name := "fault_runtime_kill_" + k;
    assert name[0] == 'f' && name[1] == 'a';
    NotExact(name);
    Apart(name, "fault_runtime_kill_", "s4_probe_", 0);
    Apart(name, "fault_runtime_kill_", "s4_verify_", 0);
    Apart(name, "fault_runtime_kill_", "s8_cli_", 0);
    Apart(name, "fault_runtime_kill_", "agent_verify_", 0);
    Apart(name, "fault_runtime_kill_", "fault_kill_", 6);
    Apart(name, "fault_runtime_kill_", "fault_restart_", 7);
    Apart(name, "fault_runtime_kill_", "fault_recovery_verify_", 7);
    hide EXACT;
  }

  lemma {:induction false} FaultRuntimeVerifyByPrefix(k: string)
    ensures HandlerFor("fault_runtime_verify_" + k) == Some(FaultRuntimeVerify)
  {
    var name := "fault_runtime_verify_" + k;
    assert name[0] == 'f' && name[1] == 'a';
    NotExact(name);
    Apart(name, "fault_runtime_verify_", "s4_probe_", 0);
    Apart(name, "fault_runtime_verify_", "s4_verify_", 0);
    Apart(name, "fault_runtime_verify_", "s8_cli_", 0);
    Apart(name, "fault_runtime_verify_", "agent_verify_", 0);
    Apart(name, "fault_runtime_verify_", "fault_kill_", 6);
    Apart(name, "fault_runtime_verify_", "fault_restart_", 7);
    Apart(name, "fault_runtime_verify_", "fault_recovery_verify_", 7);
    Apart(name, "fault_runtime_verify_", "fault_runtime_kill_", 14);
    hide EXACT;
  }

  // ---- what the planned actions mark ---------------------------------------

  /** The handlers of the names without a number. */
  lemma {:induction false} ExactHandlers()
    ensures HandlerFor("rules_check") == Some(RulesCheck) && HandlerFor("pause_start") == Some(PauseStart)
    ensures HandlerFor("pause_resume") == Some(PauseResume) && HandlerFor("pause_verify") == Some(PauseVerify)
    ensures HandlerFor("s4_probe") == Some(S4Probe) && HandlerFor("misfire_off") == Some(MisfireOff)
    ensures HandlerFor("misfire_on") == Some(MisfireOn) && HandlerFor("misfire_verify") == Some(MisfireVerify)
    ensures HandlerFor("upgrade_swap") == Some(UpgradeSwap) && HandlerFor("upgrade_verify") == Some(UpgradeVerify)
    ensures HandlerFor("s11_verify") == Some(S11Verify) && HandlerFor("s8_cli") == Some(S8Cli)
    ensures HandlerFor("s9_cycle") == Some(S9Cycle) && HandlerFor("registrations_verify") == Some(RegistrationsVerify)
    ensures HandlerFor("agent_verify") == Some(AgentVerify)
  {
  }

  /** What an action and, when it is a probe, the check that it schedules mark. */
  function MarksOf(dryRun: bool, name: string): seq<string> {
    match HandlerFor(name)
    case None => []
    case Some(handler) =>
      if handler == S4Probe then
        var check := VerifyName(dryRun, name);
        if HandlerFor(check).Some? then Marks(HandlerFor(check).value, check) else []
      else Marks(handler, name)
  }

  /** Some action of the plan, or a check that it schedules, marks `n`. */
  predicate Provided(dryRun: bool, names: seq<(string, int)>, n: string) {
    exists i :: 0 <= i < |names| && n in MarksOf(dryRun, names[i].0)
  }

  lemma {:induction false} ProvidedConcat(dryRun: bool, a: seq<(string, int)>, b: seq<(string, int)>, n: string)
    ensures Provided(dryRun, a + b, n) <==> Provided(dryRun, a, n) || Provided(dryRun, b, n)
  {
    hide MarksOf;
    var all := a + b;
    if i :| 0 <= i < |a| && n in MarksOf(dryRun, a[i].0) {
      assert all[i] == a[i];
    }
    if i :| 0 <= i < |b| && n in MarksOf(dryRun, b[i].0) {
      assert all[|a| + i] == b[i];
    }
  }

  lemma {:induction false} NumberedSuffix(k: string)
    requires '_' !in k
    ensures Suffix("s4_probe_" + k) == k && Suffix("s4_verify_" + k) == k
    ensures Suffix("fault_recovery_verify_" + k) == k && Suffix("fault_runtime_verify_" + k) == k
  {
    SuffixIs("s4_probe", k);
    SuffixIs("s4_verify", k);
    SuffixIs("fault_recovery_verify", k);
    SuffixIs("fault_runtime_verify", k);
    assert "s4_probe" + ['_'] + k == "s4_probe_" + k && "s4_verify" + ['_'] + k == "s4_verify_" + k;
    assert "fault_recovery_verify" + ['_'] + k == "fault_recovery_verify_" + k;
    assert "fault_runtime_verify" + ['_'] + k == "fault_runtime_verify_" + k;
    hide Suffix;
  }

  lemma {:induction false} MarksIs(dryRun: bool, name: string, handler: Handler)
    requires HandlerFor(name) == Some(handler) && handler != S4Probe
    ensures MarksOf(dryRun, name) == Marks(handler, name)
  {
    hide HandlerFor, Marks;
  }

  lemma {:induction false} NumberedTable(name: string)
    ensures Marks(S8Cli, name) == ["S8_" + name] && Marks(AgentVerify, name) == ["S2_" + name]
    ensures Marks(FaultRecoveryVerify, name) == ["S5_dispatcher_" + Suffix(name)]
    ensures Marks(FaultRuntimeVerify, name) == ["S5_runtime_" + Suffix(name)]
    ensures Marks(FaultKill, name) == Marks(FaultRestart, name) == Marks(FaultRuntimeKill, name) == []
  {
    hide Suffix;
  }

  lemma {:induction false} PlainTable(name: string)
    ensures Marks(RulesCheck, name) == ["S1_rules"] && Marks(PauseVerify, name) == ["S1_pause_resume"]
    ensures Marks(PauseStart, name) == Marks(PauseResume, name) == []
    ensures Marks(MisfireOff, name) == Marks(MisfireOn, name) == []
    ensures Marks(MisfireVerify, name) == ["S6_misfire"] && Marks(UpgradeSwap, name) == ["S7_replacement"]
    ensures Marks(UpgradeVerify, name) == ["S7_continuity"] && Marks(S11Verify, name) == ["S11_on_demand"]
    ensures Marks(S9Cycle, name) == ["S9_install_uninstall"]
    ensures Marks(RegistrationsVerify, name) == ["S9_registration"]
  {
    hide Suffix;
  }

  lemma {:induction false} ProbeMarksIs(dryRun: bool, name: string, check: string)
    requires HandlerFor(name) == Some(S4Probe) && VerifyName(dryRun, name) == check
    requires HandlerFor(check) == Some(S4Verify)
    ensures MarksOf(dryRun, name) == ["S4_allow_execution_" + Suffix(check), "S4_" + Suffix(check)]
  {
    hide HandlerFor, VerifyName, Suffix;
  }

  /** What the numbered actions mark, for every number. */
  lemma {:induction false} NumberedMarks(dryRun: bool, k: string)
    requires '_' !in k
    ensures MarksOf(false, "s4_probe_" + k) == ["S4_allow_execution_" + k, "S4_" + k]
    ensures MarksOf(dryRun, "s8_cli_" + k) == ["S8_" + ("s8_cli_" + k)]
    ensures MarksOf(dryRun, "agent_verify_" + k) == ["S2_" + ("agent_verify_" + k)]
    ensures MarksOf(dryRun, "fault_recovery_verify_" + k) == ["S5_dispatcher_" + k]
    ensures MarksOf(dryRun, "fault_runtime_verify_" + k) == ["S5_runtime_" + k]
    ensures MarksOf(dryRun, "fault_kill_" + k) == MarksOf(dryRun, "fault_restart_" + k) == []
    ensures MarksOf(dryRun, "fault_runtime_kill_" + k) == []
  {
    NumberedSuffix(k);
    S4ProbeByPrefix(k);
    S4VerifyByPrefix(k);
    S8CliByPrefix(k);
    AgentVerifyByPrefix(k);
    FaultKillByPrefix(k);
    FaultRestartByPrefix(k);
    FaultRecoveryVerifyByPrefix(k);
    FaultRuntimeKillByPrefix(k);
    FaultRuntimeVerifyByPrefix(k);
    NumberedTable("s8_cli_" + k);
    NumberedTable("agent_verify_" + k);
    NumberedTable("fault_recovery_verify_" + k);
    NumberedTable("fault_runtime_verify_" + k);
    NumberedTable("fault_kill_" + k);
    NumberedTable("fault_restart_" + k);
    NumberedTable("fault_runtime_kill_" + k);
    hide HandlerFor, Suffix, Split, VerifyName, MarksOf, Marks;
    VerifyOfProbe(k);
    ProbeMarksIs(false, "s4_probe_" + k, "s4_verify_" + k);
    MarksIs(dryRun, "s8_cli_" + k, S8Cli);
    MarksIs(dryRun, "agent_verify_" + k, AgentVerify);
    MarksIs(dryRun, "fault_recovery_verify_" + k, FaultRecoveryVerify);
    MarksIs(dryRun, "fault_runtime_verify_" + k, FaultRuntimeVerify);
    MarksIs(dryRun, "fault_kill_" + k, FaultKill);
    MarksIs(dryRun, "fault_restart_" + k, FaultRestart);
    MarksIs(dryRun, "fault_runtime_kill_" + k, FaultRuntimeKill);
  }

  lemma {:induction false} VerifyOfProbe(k: string)
    requires '_' !in k
    ensures VerifyName(false, "s4_probe_" + k) == "s4_verify_" + k
    ensures VerifyName(true, "s4_probe") == "s4_verify_" + "1"
  {
    NumberedSuffix(k);
    hide Split;
  }

  /** What the actions without a number mark. */
  lemma {:induction false} ExactMarks(dryRun: bool)
    ensures MarksOf(dryRun, "rules_check") == ["S1_rules"]
    ensures MarksOf(dryRun, "pause_start") == []
    ensures MarksOf(dryRun, "pause_resume") == []
    ensures MarksOf(dryRun, "pause_verify") == ["S1_pause_resume"]
    ensures MarksOf(true, "s4_probe") == ["S4_allow_execution_" + "1", "S4_" + "1"]
    ensures MarksOf(dryRun, "misfire_off") == []
    ensures MarksOf(dryRun, "misfire_on") == []
    ensures MarksOf(dryRun, "misfire_verify") == ["S6_misfire"]
    ensures MarksOf(dryRun, "upgrade_swap") == ["S7_replacement"]
    ensures MarksOf(dryRun, "upgrade_verify") == ["S7_continuity"]
    ensures MarksOf(dryRun, "s11_verify") == ["S11_on_demand"]
    ensures MarksOf(dryRun, "s8_cli") == ["S8_" + "s8_cli"]
    ensures MarksOf(dryRun, "s9_cycle") == ["S9_install_uninstall"]
    ensures MarksOf(dryRun, "registrations_verify") == ["S9_registration"]
    ensures MarksOf(dryRun, "agent_verify") == ["S2_" + "agent_verify"]
  {
    ExactHandlers();
    S4VerifyByPrefix("1");
    NumberedSuffix("1");
    VerifyOfProbe("1");
    hide HandlerFor, Suffix, VerifyName, MarksOf, Marks;
    ProbeMarksIs(true, "s4_probe", "s4_verify_" + "1");
    PlainTable("rules_check");
    MarksIs(dryRun, "rules_check", RulesCheck);
    PlainTable("pause_start");
    MarksIs(dryRun, "pause_start", PauseStart);
    PlainTable("pause_resume");
    MarksIs(dryRun, "pause_resume", PauseResume);
    PlainTable("pause_verify");
    MarksIs(dryRun, "pause_verify", PauseVerify);
    PlainTable("misfire_off");
    MarksIs(dryRun, "misfire_off", MisfireOff);
    PlainTable("misfire_on");
    MarksIs(dryRun, "misfire_on", MisfireOn);
    PlainTable("misfire_verify");
    MarksIs(dryRun, "misfire_verify", MisfireVerify);
    PlainTable("upgrade_swap");
    MarksIs(dryRun, "upgrade_swap", UpgradeSwap);
    PlainTable("upgrade_verify");
    MarksIs(dryRun, "upgrade_verify", UpgradeVerify);
    PlainTable("s11_verify");
    MarksIs(dryRun, "s11_verify", S11Verify);
    NumberedTable("s8_cli");
    MarksIs(dryRun, "s8_cli", S8Cli);
    PlainTable("s9_cycle");
    MarksIs(dryRun, "s9_cycle", S9Cycle);
    PlainTable("registrations_verify");
    MarksIs(dryRun, "registrations_verify", RegistrationsVerify);
    NumberedTable("agent_verify");
    MarksIs(dryRun, "agent_verify", AgentVerify);
  }

  // ---- coverage ------------------------------------------------------------

  /** The checks that come from the evidence as a whole, from the resources and from what is left behind. */
  const EVIDENCE: seq<string> := [
    "S1_occurrences", "S_shell_outcomes", "S_effect_match", "S2_agent", "S3_mixed", "S9_residue", "S10_performance"]

  lemma {:induction false} ProvidedFive(dryRun: bool, row: seq<(string, int)>, n: string)
    requires |row| == 5
    ensures Provided(dryRun, row, n) <==>
      n in MarksOf(dryRun, row[0].0) || n in MarksOf(dryRun, row[1].0) || n in MarksOf(dryRun, row[2].0) ||
      n in MarksOf(dryRun, row[3].0) || n in MarksOf(dryRun, row[4].0)
  {
    hide MarksOf;
  }

  lemma {:induction false} ProvidedEight(dryRun: bool, row: seq<(string, int)>, n: string)
    requires |row| == 8
    ensures Provided(dryRun, row, n) <==>
      n in MarksOf(dryRun, row[0].0) || n in MarksOf(dryRun, row[1].0) || n in MarksOf(dryRun, row[2].0) ||
      n in MarksOf(dryRun, row[3].0) || n in MarksOf(dryRun, row[4].0) || n in MarksOf(dryRun, row[5].0) ||
      n in MarksOf(dryRun, row[6].0) || n in MarksOf(dryRun, row[7].0)
  {
    hide MarksOf;
  }

  lemma {:induction false} NumberedNames()
    ensures "fault_kill_" + "1" == "fault_kill_1"
    ensures "fault_restart_" + "1" == "fault_restart_1"
    ensures "fault_recovery_verify_" + "1" == "fault_recovery_verify_1"
    ensures "fault_runtime_kill_" + "1" == "fault_runtime_kill_1"
    ensures "fault_runtime_verify_" + "1" == "fault_runtime_verify_1"
    ensures "s4_probe_" + "1" == "s4_probe_1"
    ensures "s4_probe_" + "2" == "s4_probe_2"
    ensures "s4_probe_" + "3" == "s4_probe_3"
    ensures "fault_kill_" + "2" == "fault_kill_2"
    ensures "fault_restart_" + "2" == "fault_restart_2"
    ensures "fault_recovery_verify_" + "2" == "fault_recovery_verify_2"
    ensures "fault_runtime_kill_" + "2" == "fault_runtime_kill_2"
    ensures "fault_runtime_verify_" + "2" == "fault_runtime_verify_2"
    ensures "s8_cli_" + "1" == "s8_cli_1"
    ensures "s8_cli_" + "2" == "s8_cli_2"
    ensures "agent_verify_" + "1" == "agent_verify_1"
    ensures "agent_verify_" + "2" == "agent_verify_2"
    ensures "agent_verify_" + "3" == "agent_verify_3"
    ensures "agent_verify_" + "4" == "agent_verify_4"
    ensures "agent_verify_" + "5" == "agent_verify_5"
  {
  }

  lemma {:induction false} CheckNames()
    ensures "S4_allow_execution_" + "1" == "S4_allow_execution_1"
    ensures "S4_" + "1" == "S4_1"
    ensures "S5_dispatcher_" + "1" == "S5_dispatcher_1"
    ensures "S5_runtime_" + "1" == "S5_runtime_1"
    ensures "S8_" + "s8_cli" == "S8_s8_cli"
    ensures "S2_" + "agent_verify" == "S2_agent_verify"
    ensures "S4_allow_execution_" + "2" == "S4_allow_execution_2"
    ensures "S4_" + "2" == "S4_2"
    ensures "S4_allow_execution_" + "3" == "S4_allow_execution_3"
    ensures "S4_" + "3" == "S4_3"
    ensures "S5_dispatcher_" + "2" == "S5_dispatcher_2"
    ensures "S5_runtime_" + "2" == "S5_runtime_2"
    ensures "S8_" + "s8_cli_1" == "S8_s8_cli_1"
    ensures "S8_" + "s8_cli_2" == "S8_s8_cli_2"
    ensures "S2_" + "agent_verify_1" == "S2_agent_verify_1"
    ensures "S2_" + "agent_verify_2" == "S2_agent_verify_2"
    ensures "S2_" + "agent_verify_3" == "S2_agent_verify_3"
    ensures "S2_" + "agent_verify_4" == "S2_agent_verify_4"
    ensures "S2_" + "agent_verify_5" == "S2_agent_verify_5"
  {
  }

  lemma {:induction false} DryRow1(n: string)
    ensures Provided(true, DRY_ROW1, n) <==>
      n in ["S1_rules"] ||
      n in ["S1_pause_resume"] ||
      n in ["S4_allow_execution_" + "1", "S4_" + "1"]
  {
    hide Provided, MarksOf;
    ExactMarks(true);
    ProvidedFive(true, DRY_ROW1, n);
  }

  lemma {:induction false} DryRow2(n: string)
    ensures Provided(true, DRY_ROW2, n) <==>
      n in ["S9_registration"] ||
      n in ["S9_install_uninstall"] ||
      n in ["S5_dispatcher_" + "1"]
  {
    hide Provided, MarksOf;
    NumberedNames();
    ExactMarks(true);
    NumberedMarks(true, "1");
    ProvidedFive(true, DRY_ROW2, n);
  }

  lemma {:induction false} DryRow3(n: string)
    ensures Provided(true, DRY_ROW3, n) <==>
      n in ["S5_runtime_" + "1"] ||
      n in ["S6_misfire"]
  {
    hide Provided, MarksOf;
    NumberedNames();
    ExactMarks(true);
    NumberedMarks(true, "1");
    ProvidedFive(true, DRY_ROW3, n);
  }

  lemma {:induction false} DryRow4(n: string)
    ensures Provided(true, DRY_ROW4, n) <==>
      n in ["S7_replacement"] ||
      n in ["S7_continuity"] ||
      n in ["S11_on_demand"] ||
      n in ["S8_" + "s8_cli"] ||
      n in ["S2_" + "agent_verify"]
  {
    hide Provided, MarksOf;
    ExactMarks(true);
    ProvidedFive(true, DRY_ROW4, n);
  }

  lemma {:induction false} SoakRow1(n: string)
    ensures Provided(false, SOAK_ROW1, n) <==>
      n in ["S1_rules"] ||
      n in ["S9_registration"] ||
      n in ["S4_allow_execution_" + "1", "S4_" + "1"] ||
      n in ["S4_allow_execution_" + "2", "S4_" + "2"] ||
      n in ["S4_allow_execution_" + "3", "S4_" + "3"] ||
      n in ["S6_misfire"]
  {
    hide Provided, MarksOf;
    NumberedNames();
    ExactMarks(false);
    NumberedMarks(false, "1");
    NumberedMarks(false, "2");
    NumberedMarks(false, "3");
    ProvidedEight(false, SOAK_ROW1, n);
  }

  lemma {:induction false} SoakRow2(n: string)
    ensures Provided(false, SOAK_ROW2, n) <==>
      n in ["S1_pause_resume"] ||
      n in ["S9_install_uninstall"] ||
      n in ["S5_dispatcher_" + "1"]
  {
    hide Provided, MarksOf;
    NumberedNames();
    ExactMarks(false);
    NumberedMarks(false, "1");
    ProvidedEight(false, SOAK_ROW2, n);
  }

  lemma {:induction false} SoakRow3(n: string)
    ensures Provided(false, SOAK_ROW3, n) <==>
      n in ["S5_runtime_" + "1"] ||
      n in ["S5_dispatcher_" + "2"] ||
      n in ["S5_runtime_" + "2"] ||
      n in ["S7_replacement"] ||
      n in ["S7_continuity"]
  {
    hide Provided, MarksOf;
    NumberedNames();
    ExactMarks(false);
    NumberedMarks(false, "1");
    NumberedMarks(false, "2");
    ProvidedEight(false, SOAK_ROW3, n);
  }

  lemma {:induction false} SoakRow4(n: string)
    ensures Provided(false, SOAK_ROW4, n) <==>
      n in ["S8_" + ("s8_cli_" + "1")] ||
      n in ["S8_" + ("s8_cli_" + "2")] ||
      n in ["S11_on_demand"] ||
      n in ["S2_" + ("agent_verify_" + "1")] ||
      n in ["S2_" + ("agent_verify_" + "2")] ||
      n in ["S2_" + ("agent_verify_" + "3")] ||
      n in ["S2_" + ("agent_verify_" + "4")] ||
      n in ["S2_" + ("agent_verify_" + "5")]
  {
    hide Provided, MarksOf;
    NumberedNames();
    ExactMarks(false);
    NumberedMarks(false, "1");
    NumberedMarks(false, "2");
    NumberedMarks(false, "3");
    NumberedMarks(false, "4");
    NumberedMarks(false, "5");
    ProvidedEight(false, SOAK_ROW4, n);
  }

  lemma {:induction false} DryProvided(n: string)
    ensures Provided(true, DRY_NAMES, n) <==> n in [
      "S1_rules", "S1_pause_resume", "S4_allow_execution_1", "S4_1", "S9_registration", "S9_install_uninstall",
      "S5_dispatcher_1", "S5_runtime_1", "S6_misfire", "S7_replacement", "S7_continuity", "S11_on_demand",
      "S8_s8_cli", "S2_agent_verify"]
  {
    hide Provided;
    CheckNames();
    DryRow1(n);
    DryRow2(n);
    DryRow3(n);
    DryRow4(n);
    ProvidedConcat(true, DRY_ROW1, DRY_ROW2, n);
    ProvidedConcat(true, DRY_ROW1 + DRY_ROW2, DRY_ROW3, n);
    ProvidedConcat(true, DRY_ROW1 + DRY_ROW2 + DRY_ROW3, DRY_ROW4, n);
  }

  lemma {:induction false} SoakProvided(n: string)
    ensures Provided(false, SOAK_NAMES, n) <==> n in [
      "S1_rules", "S9_registration", "S4_allow_execution_1", "S4_1", "S4_allow_execution_2", "S4_2",
      "S4_allow_execution_3", "S4_3", "S6_misfire", "S1_pause_resume", "S9_install_uninstall",
      "S5_dispatcher_1", "S5_runtime_1", "S5_dispatcher_2", "S5_runtime_2", "S7_replacement", "S7_continuity",
      "S8_s8_cli_1", "S8_s8_cli_2", "S11_on_demand", "S2_agent_verify_1", "S2_agent_verify_2",
      "S2_agent_verify_3", "S2_agent_verify_4", "S2_agent_verify_5"]
  {
    hide Provided;
    CheckNames();
    NumberedNames();
    SoakRow1(n);
    SoakRow2(n);
    SoakRow3(n);
    SoakRow4(n);
    ProvidedConcat(false, SOAK_ROW1, SOAK_ROW2, n);
    ProvidedConcat(false, SOAK_ROW1 + SOAK_ROW2, SOAK_ROW3, n);
    ProvidedConcat(false, SOAK_ROW1 + SOAK_ROW2 + SOAK_ROW3, SOAK_ROW4, n);
  }

  /**
   A verdict requires exactly the checks that some planned action marks, or a
   check that a probe schedules, and the seven that are derived at the end.
   */
  lemma {:induction false} RequiredExactly(mode: string, n: string)
    ensures var names := if mode == "dry-run" then DRY_NAMES else SOAK_NAMES;
      n in RequiredChecks(mode) <==> Provided(mode == "dry-run", names, n) || n in EVIDENCE
  {
    DryProvided(n);
    SoakProvided(n);
    hide Provided;
  }
}
