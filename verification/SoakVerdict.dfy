/** The verdict of a soak run, from its checks, its recorded errors and how it ended. */
module SoakVerdict {
  import opened SoakData
  import opened Wrappers

  /** A check's `passed` field; a check that was not verified has `None`. */
  type Checks = map<string, Option<bool>>

  /** How the run ended: what the supervisor's state records. */
  datatype Ending = Ending(budgetStopped: bool, stopReason: string, errors: seq<string>, observed: Option<real>)

  datatype Verdict = PASS | FAIL | BUDGET_STOPPED | STOPPED

  datatype Reason =
    | BudgetReached
    | StopSignal
    | MissingChecks(names: seq<string>)
    | FailedChecks(names: seq<string>)
    | RunnerErrors(names: seq<string>)
    | EndedEarly
    | AllPassed

  const DRY_RUN := "dry-run"

  function RequiredChecks(mode: string): seq<string> {
    if mode == DRY_RUN then
      ["S1_rules", "S1_pause_resume", "S1_occurrences", "S_shell_outcomes", "S_effect_match", "S2_agent",
       "S2_agent_verify", "S3_mixed", "S4_1", "S4_allow_execution_1", "S5_dispatcher_1", "S5_runtime_1", "S6_misfire",
       "S7_replacement", "S7_continuity", "S8_s8_cli", "S9_install_uninstall", "S9_registration", "S9_residue",
       "S10_performance", "S11_on_demand"]
    else
      ["S1_rules", "S1_pause_resume", "S1_occurrences", "S_shell_outcomes", "S_effect_match", "S2_agent", "S3_mixed",
       "S4_1", "S4_2", "S4_3", "S4_allow_execution_1", "S4_allow_execution_2", "S4_allow_execution_3",
       "S5_dispatcher_1", "S5_dispatcher_2", "S5_runtime_1", "S5_runtime_2", "S6_misfire", "S7_replacement",
       "S7_continuity", "S8_s8_cli_1", "S8_s8_cli_2", "S9_install_uninstall", "S9_registration", "S9_residue",
       "S10_performance", "S11_on_demand", "S2_agent_verify_1", "S2_agent_verify_2", "S2_agent_verify_3",
       "S2_agent_verify_4", "S2_agent_verify_5"]
  }

  /** The checks that are derived from the aggregated snapshots are required in both modes. */
  lemma EvidenceIsRequired(mode: string)
    ensures "S1_occurrences" in RequiredChecks(mode) && "S_shell_outcomes" in RequiredChecks(mode)
    ensures "S_effect_match" in RequiredChecks(mode) && "S3_mixed" in RequiredChecks(mode)
  {
    var names := RequiredChecks(mode);
    assert names[2] == "S1_occurrences" && names[3] == "S_shell_outcomes" && names[4] == "S_effect_match";
    assert (if mode == DRY_RUN then names[7] else names[6]) == "S3_mixed";
  }

  predicate Early(mode: string, planned: int, observed: Option<real>) {
    mode != DRY_RUN && observed.Some? && observed.value < (planned - 120) as real
  }

  function Absent(checks: Checks): string -> bool {
    n => n !in checks
  }

  function Failing(checks: Checks): string -> bool {
    n => n in checks && checks[n] != Some(true)
  }

  function Missing(mode: string, checks: Checks): seq<string> {
    Filter(RequiredChecks(mode), Absent(checks))
  }

  function FailedOnes(mode: string, checks: Checks): seq<string> {
    Filter(RequiredChecks(mode), Failing(checks))
  }

  predicate AllPass(mode: string, checks: Checks) {
    forall n :: n in RequiredChecks(mode) ==> n in checks && checks[n] == Some(true)
  }

  predicate Passes(mode: string, planned: int, ending: Ending, checks: Checks) {
    !ending.budgetStopped && ending.stopReason != "signal" && ending.errors == [] &&
    !Early(mode, planned, ending.observed) && AllPass(mode, checks)
  }

  /** When a run passes: nothing stopped it, nothing went wrong, it lasted, and every required check passed. */
  lemma {:induction false} PassesExactly(mode: string, planned: int, ending: Ending, checks: Checks)
    ensures Passes(mode, planned, ending, checks) <==>
      !ending.budgetStopped && ending.stopReason != "signal" && ending.errors == [] &&
      (mode == "dry-run" || ending.observed.None? || ending.observed.value >= (planned - 120) as real) &&
      forall i :: 0 <= i < |RequiredChecks(mode)| ==>
        RequiredChecks(mode)[i] in checks && checks[RequiredChecks(mode)[i]] == Some(true)
  {
    hide RequiredChecks;
  }

  method CheckRows(mode: string, checks: Checks) returns (missing: seq<string>, failed: seq<string>)
    ensures missing == Missing(mode, checks) && failed == FailedOnes(mode, checks)
    ensures missing == [] && failed == [] <==> AllPass(mode, checks)
  {
    var required := RequiredChecks(mode);
    NothingFails(mode, checks);
    hide RequiredChecks, Filter, AllPass;
    missing, failed := [], [];
    for i := 0 to |required|
      invariant missing + Filter(required[i..], Absent(checks)) == Missing(mode, checks)
      invariant failed + Filter(required[i..], Failing(checks)) == FailedOnes(mode, checks)
    {
      var name := required[i];
      FilterStep(missing, required, i, Absent(checks));
      FilterStep(failed, required, i, Failing(checks));
      if name !in checks {
        missing := missing + [name];
        continue;
      }
      if checks[name] != Some(true) {
        failed := failed + [name];
      }
    }
    FilterNone(required, Absent(checks));
    FilterNone(required, Failing(checks));
  }

  method ComputeVerdict(mode: string, planned: int, ending: Ending, checks: Checks)
    returns (verdict: Verdict, reasons: seq<Reason>)
    ensures verdict == BUDGET_STOPPED <==> ending.budgetStopped
    ensures verdict == STOPPED <==> !ending.budgetStopped && ending.stopReason == "signal"
    ensures verdict == PASS <==> Passes(mode, planned, ending, checks)
    ensures forall names :: MissingChecks(names) in reasons ==> names == Missing(mode, checks) != []
    ensures forall names :: FailedChecks(names) in reasons ==> names == FailedOnes(mode, checks) != []
    ensures forall names :: RunnerErrors(names) in reasons ==> names == ending.errors != []
    ensures !ending.budgetStopped && ending.stopReason != "signal" ==>
      (Missing(mode, checks) != [] ==> MissingChecks(Missing(mode, checks)) in reasons) &&
      (FailedOnes(mode, checks) != [] ==> FailedChecks(FailedOnes(mode, checks)) in reasons) &&
      (ending.errors != [] ==> RunnerErrors(ending.errors) in reasons) &&
      (EndedEarly in reasons <==>
        mode != "dry-run" && ending.observed.Some? && ending.observed.value < (planned - 120) as real)
  {
    hide RequiredChecks, Missing, FailedOnes, AllPass;
    if ending.budgetStopped {
      return BUDGET_STOPPED, [BudgetReached];
    }
    if ending.stopReason == "signal" {
      return STOPPED, [StopSignal];
    }
    var missing, failed := CheckRows(mode, checks);
    reasons := [];
    if missing != [] {
      reasons := reasons + [MissingChecks(missing)];
    }
    if failed != [] {
      reasons := reasons + [FailedChecks(failed)];
    }
    if ending.errors != [] {
      reasons := reasons + [RunnerErrors(ending.errors)];
    }
    if Early(mode, planned, ending.observed) {
      reasons := reasons + [EndedEarly];
    }
    if reasons != [] {
      return FAIL, reasons;
    }
    return PASS, [AllPassed];
  }

  lemma {:induction false} NothingFails(mode: string, checks: Checks)
    ensures Missing(mode, checks) == [] && FailedOnes(mode, checks) == [] <==> AllPass(mode, checks)
  {
    hide RequiredChecks;
    var missing, failed := Missing(mode, checks), FailedOnes(mode, checks);
    if missing != [] {
      assert missing[0] in missing;
    }
    if failed != [] {
      assert failed[0] in failed;
    }
    forall n | n in RequiredChecks(mode) && missing == [] && failed == []
      ensures n in checks && checks[n] == Some(true)
    {
      assert n !in missing && n !in failed;
    }
  }
}
