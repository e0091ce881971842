/**
 The action list of the soak supervisor: what is scheduled, which handler runs,
 and what becomes of an action. What a handler does to the outside is left
 open; a round of the loop takes whatever each handler answers.
 */
module SoakActions {
  import opened SoakPlan
  import opened SoakVerdict
  import opened Strings
  import opened Wrappers

  datatype Status = Pending | Done | Failed

  datatype Action = Action(name: string, dueAt: real, status: Status, attempts: nat)

  datatype State = State(dryRun: bool, actions: seq<Action>, errors: seq<string>)

  // ---- names and handlers -------------------------------------------------

  datatype Handler =
    | RulesCheck | PauseStart | PauseResume | PauseVerify | S4Probe | S4Verify | MisfireOff | MisfireOn | MisfireVerify
    | UpgradeSwap | UpgradeVerify | S11Verify | S8Cli | S9Cycle | RegistrationsVerify | AgentVerify
    | FaultKill | FaultRestart | FaultRecoveryVerify | FaultRuntimeKill | FaultRuntimeVerify

  const EXACT: map<string, Handler> := map[
    "rules_check" := RulesCheck,
    "pause_start" := PauseStart,
    "pause_resume" := PauseResume,
    "pause_verify" := PauseVerify,
    "s4_probe" := S4Probe,
    "misfire_off" := MisfireOff,
    "misfire_on" := MisfireOn,
    "misfire_verify" := MisfireVerify,
    "upgrade_swap" := UpgradeSwap,
    "upgrade_verify" := UpgradeVerify,
    "s11_verify" := S11Verify,
    "s8_cli" := S8Cli,
    "s9_cycle" := S9Cycle,
    "registrations_verify" := RegistrationsVerify,
    "agent_verify" := AgentVerify]

  /** `action_handler`: exact names first, then prefixes in order. */
  function HandlerFor(name: string): Option<Handler> {
    if name in EXACT then Some(EXACT[name])
    else if "s4_probe_" <= name then Some(S4Probe)
    else if "s4_verify_" <= name then Some(S4Verify)
    else if "s8_cli_" <= name then Some(S8Cli)
    else if "agent_verify_" <= name then Some(AgentVerify)
    else if "fault_kill_" <= name then Some(FaultKill)
    else if "fault_restart_" <= name then Some(FaultRestart)
    else if "fault_recovery_verify_" <= name then Some(FaultRecoveryVerify)
    else if "fault_runtime_kill_" <= name then Some(FaultRuntimeKill)
    else if "fault_runtime_verify_" <= name then Some(FaultRuntimeVerify)
    else None
  }

  function Planned(names: seq<(string, int)>, start: real): (actions: seq<Action>)
    ensures |actions| == |names|
    ensures forall i :: 0 <= i < |names| ==> actions[i] == Action(names[i].0, start + names[i].1 as real, Pending, 0)
  {
    seq(|names|, i requires 0 <= i < |names| => Action(names[i].0, start + names[i].1 as real, Pending, 0))
  }

  /** `initial_actions`, and the state a supervisor starts from. */
  function Initial(mode: string, start: real): State {
    State(mode == DRY_RUN, Planned(if mode == DRY_RUN then DRY_NAMES else SOAK_NAMES, start), [])
  }

  /** What a supervisor starts from: an action list that was saved is kept, and so are recorded errors. */
  function Resumed(mode: string, start: real, saved: Option<seq<Action>>, errors: seq<string>): State {
    State(mode == DRY_RUN, if saved.Some? then saved.value else Initial(mode, start).actions, errors)
  }

  // ---- one execution ------------------------------------------------------

  const RETRIES: nat := 40

  datatype Outcome = Returned | Retry | Raised

  /** What a handler does: its outcome, and whether an overlap probe got as far as scheduling its check. */
  datatype Response = Response(outcome: Outcome, scheduled: bool, at: real)

  predicate Listed(actions: seq<Action>, name: string) {
    exists i :: 0 <= i < |actions| && actions[i].name == name
  }

  /** `add_action`: a name that is listed is not added again. */
  function Added(actions: seq<Action>, name: string, dueAt: real): seq<Action> {
    if Listed(actions, name) then actions else actions + [Action(name, dueAt, Pending, 0)]
  }

  /** The check that an overlap probe schedules for itself. */
  function VerifyName(dryRun: bool, name: string): string {
    var parts := Split(name, '_');
    "s4_verify_" + (if dryRun then "1" else parts[|parts| - 1])
  }

  /** The handler's own effect on the list. */
  function Handled(s: State, handler: Handler, name: string, r: Response): State {
    if handler == S4Probe && (r.scheduled || r.outcome == Returned) then
      s.(actions := Added(s.actions, VerifyName(s.dryRun, name), r.at + 150.0))
    else s
  }

  /** What one execution makes of an action. */
  function Settled(a: Action, outcome: Outcome): Action {
    match outcome
    case Returned => a.(status := Done)
    case Raised => a.(status := Failed)
    case Retry => a.(attempts := a.attempts + 1, status := if a.attempts + 1 >= RETRIES then Failed else a.status)
  }

  predicate Fails(a: Action, outcome: Outcome) {
    outcome == Raised || (outcome == Retry && a.attempts + 1 >= RETRIES)
  }

  function Executed(s: State, i: nat, r: Response): State
    requires i < |s.actions|
  {
    var a := s.actions[i];
    match HandlerFor(a.name)
    case None => s.(actions := s.actions[i := a.(status := Failed)])
    case Some(handler) =>
      var t := Handled(s, handler, a.name, r);
      t.(actions := t.actions[i := Settled(a, r.outcome)],
         errors := if Fails(a, r.outcome) then t.errors + [a.name] else t.errors)
  }

  // ---- the loop -----------------------------------------------------------

  /** One pass of the loop: the time, what each handler answers, and errors recorded elsewhere. */
  datatype Round = Round(now: real, answers: nat -> Response, recorded: seq<string>)

  predicate Due(a: Action, now: real) {
    a.status == Pending && now >= a.dueAt
  }

  /** Works off the actions `i` to `n`; ones that are added meanwhile wait for the next round. */
  function Worked(s: State, round: Round, i: nat, n: nat): State
    requires i <= n <= |s.actions|
    decreases n - i
  {
    if i == n then s
    else Worked(Tried(s, round, i), round, i + 1, n)
  }

  function Tried(s: State, round: Round, i: nat): (t: State)
    requires i < |s.actions|
    ensures |s.actions| <= |t.actions|
  {
    if Due(s.actions[i], round.now) then Executed(s, i, round.answers(i)) else s
  }

  function Played(s: State, round: Round): State {
    var t := s.(errors := s.errors + round.recorded);
    Worked(t, round, 0, |t.actions|)
  }

  function Run(s: State, rounds: seq<Round>): State
    decreases |rounds|
  {
    if rounds == [] then s else Run(Played(s, rounds[0]), rounds[1..])
  }

  class Supervisor {
    var dryRun: bool
    var actions: seq<Action>
    var errors: seq<string>

    function Current(): State
      reads this
    {
      State(dryRun, actions, errors)
    }

    constructor (mode: string, start: real, saved: Option<seq<Action>>, errors: seq<string>)
      ensures Current() == Resumed(mode, start, saved, errors)
    {
      dryRun := mode == DRY_RUN;
      actions :=
        if saved.Some? then saved.value else Planned(if mode == DRY_RUN then DRY_NAMES else SOAK_NAMES, start);
      this.errors := errors;
    }

    method AddAction(name: string, dueAt: real)
      modifies this
      ensures Current() == old(Current()).(actions := Added(old(actions), name, dueAt))
    {
      for i := 0 to |actions|
        invariant Current() == old(Current())
        invariant forall j :: 0 <= j < i ==> actions[j].name != name
      {
        if actions[i].name == name {
          return;
        }
      }
      actions := actions + [Action(name, dueAt, Pending, 0)];
    }

    /** Runs the handler; only the overlap probe touches the list. */
    method RunHandler(handler: Handler, name: string, r: Response)
      modifies this
      ensures Current() == Handled(old(Current()), handler, name, r)
    {
      if handler == S4Probe && (r.scheduled || r.outcome == Returned) {
        AddAction(VerifyName(dryRun, name), r.at + 150.0);
      }
    }

    method ExecuteAction(i: nat, r: Response)
      requires i < |actions|
      modifies this
      ensures Current() == Executed(old(Current()), i, r)
    {
      var name := actions[i].name;
      var handler := HandlerFor(name);
      if handler.None? {
        actions := actions[i := actions[i].(status := Failed)];
        return;
      }
      RunHandler(handler.value, name, r);
      match r.outcome {
        case Retry =>
          actions := actions[i := actions[i].(attempts := actions[i].attempts + 1)];
          if actions[i].attempts >= RETRIES {
            actions := actions[i := actions[i].(status := Failed)];
            errors := errors + [name];
          }
        case Raised =>
          actions := actions[i := actions[i].(status := Failed)];
          errors := errors + [name];
        case Returned =>
          actions := actions[i := actions[i].(status := Done)];
      }
    }

    /** The part of the loop that works off due actions, over a copy of the list. */
    method Play(round: Round)
      modifies this
      ensures Current() == Played(old(Current()), round)
    {
      errors := errors + round.recorded;
      ghost var start := Current();
      var n := |actions|;
      for i := 0 to n
        invariant n <= |actions|
        invariant Worked(Current(), round, i, n) == Worked(start, round, 0, n)
      {
        var a := actions[i];
        if a.status != Pending || round.now < a.dueAt {
          continue;
        }
        ExecuteAction(i, round.answers(i));
      }
    }
  }

  // ---- what every run keeps -----------------------------------------------

  predicate Unique(actions: seq<Action>) {
    forall i, j :: 0 <= i < j < |actions| ==> actions[i].name != actions[j].name
  }

  predicate Served(actions: seq<Action>) {
    forall i :: 0 <= i < |actions| ==> HandlerFor(actions[i].name).Some?
  }

  /** A pending action has tries left, and a failed one has left an error. */
  predicate Accounted(a: Action, errors: seq<string>) {
    (a.status == Pending ==> a.attempts < RETRIES) && (a.status == Failed ==> a.name in errors)
  }

  predicate Kept(s: State) {
    Unique(s.actions) && Served(s.actions) && forall i :: 0 <= i < |s.actions| ==> Accounted(s.actions[i], s.errors)
  }

  /** What is recorded stays recorded; actions are only added at the end. */
  predicate Grows(s: State, t: State) {
    s.dryRun == t.dryRun && |s.actions| <= |t.actions| && s.errors <= t.errors &&
    forall i :: |s.actions| <= i < |t.actions| ==> t.actions[i].status == Pending && t.actions[i].attempts == 0
  }

  lemma {:induction false} InitialKept(mode: string, start: real)
    ensures Kept(Initial(mode, start))
  {
    var actions := Initial(mode, start).actions;
    NamesDiffer();
    NamesServed();
    SoakNamesServed();
    hide HandlerFor;
    forall i | 0 <= i < |actions|
      ensures HandlerFor(actions[i].name).Some?
    {
    }
  }

  predicate AllServed(names: seq<(string, int)>) {
    forall i :: 0 <= i < |names| ==> HandlerFor(names[i].0).Some?
  }

  /** Every name that either plan schedules has a handler. */
  lemma {:induction false} NamesServed()
    ensures AllServed(DRY_NAMES)
  {
  }

  lemma {:induction false} SoakNamesServed()
    ensures AllServed(SOAK_NAMES)
  {
  }

  lemma {:induction false} VerifyServed(dryRun: bool, name: string)
    ensures HandlerFor(VerifyName(dryRun, name)).Some?
  {
  }

  lemma {:induction false} HandledKeeps(s: State, handler: Handler, name: string, r: Response)
    requires Kept(s)
    ensures var t := Handled(s, handler, name, r);
      Kept(t) && Grows(s, t) && t.errors == s.errors && s.actions <= t.actions
  {
    VerifyServed(s.dryRun, name);
    hide HandlerFor, VerifyName;
  }

  lemma {:induction false} ExecutedKeeps(s: State, i: nat, r: Response)
    requires Kept(s) && i < |s.actions| && s.actions[i].status == Pending
    ensures var t := Executed(s, i, r);
      Kept(t) && Grows(s, t) && t.actions[i] == Settled(s.actions[i], r.outcome) &&
      forall j :: 0 <= j < |s.actions| && j != i ==> t.actions[j] == s.actions[j]
  {
    var a := s.actions[i];
    assert HandlerFor(a.name).Some?;
    HandledKeeps(s, HandlerFor(a.name).value, a.name, r);
    hide HandlerFor, Handled;
  }

  /** After a round each due action is settled by what its handler answered, and no other is touched. */
  predicate Stepped(s: State, t: State, round: Round, i: nat, n: nat)
    requires i <= n <= |s.actions| <= |t.actions|
  {
    forall j :: 0 <= j < |s.actions| ==>
      t.actions[j] ==
      if i <= j < n && Due(s.actions[j], round.now) then Settled(s.actions[j], round.answers(j).outcome)
      else s.actions[j]
  }

  lemma {:induction false} WorkedKeeps(s: State, round: Round, i: nat, n: nat)
    requires Kept(s) && i <= n <= |s.actions|
    ensures var t := Worked(s, round, i, n);
      Kept(t) && Grows(s, t) && Stepped(s, t, round, i, n)
    decreases n - i
  {
    if i < n {
      TriedKeeps(s, round, i);
      var next := Tried(s, round, i);
      hide Kept, Tried, Settled, Due, Stepped, Grows;
      WorkedKeeps(next, round, i + 1, n);
      var t := Worked(next, round, i + 1, n);
      assert Worked(s, round, i, n) == t;
      GrowsThen(s, next, t);
      SteppedThen(s, next, t, round, i, n);
    } else {
      assert s.errors <= s.errors;
    }
  }

  lemma {:induction false} TriedKeeps(s: State, round: Round, i: nat)
    requires Kept(s) && i < |s.actions|
    ensures var t := Tried(s, round, i);
      Kept(t) && Grows(s, t) &&
      t.actions[i] ==
        (if Due(s.actions[i], round.now) then Settled(s.actions[i], round.answers(i).outcome) else s.actions[i]) &&
      forall j :: 0 <= j < |s.actions| && j != i ==> t.actions[j] == s.actions[j]
  {
    if Due(s.actions[i], round.now) {
      ExecutedKeeps(s, i, round.answers(i));
    }
    hide Kept, Settled, Executed;
  }

  lemma {:induction false} GrowsThen(s: State, t: State, u: State)
    requires Grows(s, t) && Grows(t, u)
    requires forall j :: |s.actions| <= j < |t.actions| ==> u.actions[j] == t.actions[j]
    ensures Grows(s, u)
  {
  }

  lemma {:induction false} SteppedThen(s: State, next: State, t: State, round: Round, i: nat, n: nat)
    requires i < n <= |s.actions| <= |next.actions| <= |t.actions| && Stepped(next, t, round, i + 1, n)
    requires next.actions[i] ==
      if Due(s.actions[i], round.now) then Settled(s.actions[i], round.answers(i).outcome) else s.actions[i]
    requires forall j :: 0 <= j < |s.actions| && j != i ==> next.actions[j] == s.actions[j]
    ensures Stepped(s, t, round, i, n)
  {
    hide Settled, Due;
  }

  lemma {:induction false} PlayedKeeps(s: State, round: Round)
    requires Kept(s)
    ensures var t := Played(s, round);
      Kept(t) && Grows(s, t) && Stepped(s, t, round, 0, |s.actions|)
  {
    var u := s.(errors := s.errors + round.recorded);
    forall i | 0 <= i < |u.actions|
      ensures Accounted(u.actions[i], u.errors)
    {
    }
    WorkedKeeps(u, round, 0, |u.actions|);
  }

  /** How often action `i` is executed. */
  function Executions(s: State, rounds: seq<Round>, i: nat): nat
    decreases |rounds|
  {
    if rounds == [] then 0
    else
      (if i < |s.actions| && Due(s.actions[i], rounds[0].now) then 1 else 0) +
      Executions(Played(s, rounds[0]), rounds[1..], i)
  }

  lemma {:induction false} RunKeeps(s: State, rounds: seq<Round>)
    requires Kept(s)
    ensures Kept(Run(s, rounds)) && |s.actions| <= |Run(s, rounds).actions|
    ensures forall e :: e in s.errors ==> e in Run(s, rounds).errors
    decreases |rounds|
  {
    if rounds != [] {
      PlayedKeeps(s, rounds[0]);
      RunKeeps(Played(s, rounds[0]), rounds[1..]);
      hide Kept, Played;
    }
  }

  /** A settled action never changes again, and is never executed again. */
  lemma {:induction false} SettledStays(s: State, rounds: seq<Round>, i: nat)
    requires Kept(s) && i < |s.actions| && s.actions[i].status != Pending
    ensures i < |Run(s, rounds).actions| && Run(s, rounds).actions[i] == s.actions[i]
    ensures Executions(s, rounds, i) == 0
    decreases |rounds|
  {
    if rounds != [] {
      PlayedKeeps(s, rounds[0]);
      hide Kept, Played;
      SettledStays(Played(s, rounds[0]), rounds[1..], i);
    }
  }

  /** A pending action has used one try for each execution, and is settled by the fortieth. */
  lemma {:induction false} ExecutionsBounded(s: State, rounds: seq<Round>, i: nat)
    requires Kept(s) && i < |s.actions| && s.actions[i].status == Pending
    ensures i < |Run(s, rounds).actions|
    ensures var e, a := Executions(s, rounds, i), Run(s, rounds).actions[i];
      a.name == s.actions[i].name && s.actions[i].attempts + e <= RETRIES &&
      (a.status == Pending ==> a.attempts == s.actions[i].attempts + e < RETRIES)
    decreases |rounds|
  {
    if rounds != [] {
      var t := Played(s, rounds[0]);
      PlayedKeeps(s, rounds[0]);
      assert Accounted(s.actions[i], s.errors);
      hide Kept, Played;
      if t.actions[i].status == Pending {
        ExecutionsBounded(t, rounds[1..], i);
      } else {
        SettledStays(t, rounds[1..], i);
      }
    }
  }

  /** The state after any rounds of any supervisor. */
  function Reached(mode: string, start: real, rounds: seq<Round>): State {
    Run(Initial(mode, start), rounds)
  }

  /** The same for an action that is added in the course of the run. */
  lemma {:induction false} AddedBounded(s: State, rounds: seq<Round>, i: nat)
    requires Kept(s) && i < |Run(s, rounds).actions|
    ensures Executions(s, rounds, i) <= RETRIES
    ensures Run(s, rounds).actions[i].status == Pending ==> Executions(s, rounds, i) < RETRIES
    decreases |rounds|
  {
    if i >= |s.actions| {
      var t := Played(s, rounds[0]);
      PlayedKeeps(s, rounds[0]);
      hide Kept, Played;
      AddedBounded(t, rounds[1..], i);
    } else if s.actions[i].status == Pending {
      ExecutionsBounded(s, rounds, i);
    } else {
      SettledStays(s, rounds, i);
    }
  }

  /**
   In every run of either plan: names stay unique, every name has a handler,
   and every action, planned or added meanwhile, has been settled by its
   fortieth execution.
   */
  lemma {:induction false} EveryRun(mode: string, start: real, rounds: seq<Round>, i: nat)
    requires i < |Reached(mode, start, rounds).actions|
    ensures var s := Reached(mode, start, rounds);
      Unique(s.actions) && Served(s.actions) && Executions(Initial(mode, start), rounds, i) <= RETRIES &&
      (Executions(Initial(mode, start), rounds, i) == RETRIES ==> s.actions[i].status != Pending)
  {
    InitialKept(mode, start);
    RunKeeps(Initial(mode, start), rounds);
    AddedBounded(Initial(mode, start), rounds, i);
    hide Initial, Executions;
  }

  /** A run in which any action failed never passes, whatever its checks say. */
  lemma {:induction false} FailedNeverPasses(mode: string, start: real, rounds: seq<Round>, i: nat,
                                             planned: int, ending: Ending, checks: Checks)
    requires var s := Reached(mode, start, rounds);
      i < |s.actions| && s.actions[i].status == Failed && s.errors <= ending.errors
    ensures !Passes(mode, planned, ending, checks)
  {
    InitialKept(mode, start);
    RunKeeps(Initial(mode, start), rounds);
    var s := Reached(mode, start, rounds);
    assert Accounted(s.actions[i], s.errors);
    hide Reached;
    assert s.actions[i].name in ending.errors;
  }

  lemma {:induction false} RunConcat(s: State, a: seq<Round>, b: seq<Round>)
    ensures Run(s, a + b) == Run(Run(s, a), b)
    decreases |a|
  {
    if a == [] {
      assert a + b == b;
    } else {
      assert (a + b)[1..] == a[1..] + b;
      RunConcat(Played(s, a[0]), a[1..], b);
    }
  }

  /** A run in which a handler once raised never passes either. */
  lemma {:induction false} RaisedNeverPasses(mode: string, start: real, before: seq<Round>, round: Round,
                                             later: seq<Round>, i: nat, planned: int, ending: Ending, checks: Checks)
    requires var s := Reached(mode, start, before);
      i < |s.actions| && Due(s.actions[i], round.now) && round.answers(i).outcome == Raised
    requires Reached(mode, start, before + ([round] + later)).errors <= ending.errors
    ensures !Passes(mode, planned, ending, checks)
  {
    var s := Reached(mode, start, before);
    InitialKept(mode, start);
    RunKeeps(Initial(mode, start), before);
    PlayedKeeps(s, round);
    var t := Played(s, round);
    SettledStays(t, later, i);
    RunConcat(Initial(mode, start), before, [round] + later);
    assert ([round] + later)[1..] == later;
    hide Initial, Played, Kept;
    FailedNeverPasses(mode, start, before + ([round] + later), i, planned, ending, checks);
  }

  lemma {:induction false} RunKeepsMode(s: State, rounds: seq<Round>)
    requires Kept(s)
    ensures Run(s, rounds).dryRun == s.dryRun
    decreases |rounds|
  {
    if rounds != [] {
      PlayedKeeps(s, rounds[0]);
      hide Kept, Played;
      RunKeepsMode(Played(s, rounds[0]), rounds[1..]);
    }
  }

  /** A supervisor that is started again on what was saved goes on as if it had never stopped. */
  lemma {:induction false} RestartContinues(mode: string, start: real, again: real, a: seq<Round>, b: seq<Round>)
    ensures var s := Reached(mode, start, a);
      Run(Resumed(mode, again, Some(s.actions), s.errors), b) == Reached(mode, start, a + b)
  {
    InitialKept(mode, start);
    RunKeepsMode(Initial(mode, start), a);
    RunConcat(Initial(mode, start), a, b);
    hide Run, Kept;
  }
}
