/**
 Clean snapshots and evidence rows in the states, names and numbers that the
 rows themselves hold, without the sets and predicates that the judgement uses.
 */
module SoakClean {
  import opened Dict
  import opened SoakData
  import opened SoakEvidence
  import opened SoakPass
  import opened SoakVerdict
  import opened Wrappers

  // ---- counting -----------------------------------------------------------

  ghost function Where<T(!new)>(xs: seq<T>, keep: T -> bool): set<int> {
    set i | 0 <= i < |xs| && keep(xs[i])
  }

  /** A tally is the number of positions that it counts. */
  lemma {:induction false} TallyIs<T(!new)>(xs: seq<T>, keep: T -> bool)
    ensures Tally(xs, keep) == |Where(xs, keep)|
  {
    if xs != [] {
      var n := |xs| - 1;
      TallyIs(xs[..n], keep);
      var before := Where(xs[..n], keep);
      assert n !in before;
      assert Where(xs, keep) == if keep(xs[n]) then before + {n} else before;
    }
  }

  /** The runs of a definition that succeeded, by position. */
  ghost function SucceededRuns(lane: Lane, definition: string): set<int> {
    var runs := lane.snapshot.runs;
    set i | 0 <= i < |runs| && runs[i].state == "succeeded" && runs[i].definition == definition
  }

  ghost function UnknownRuns(lane: Lane): set<int> {
    var runs := lane.snapshot.runs;
    set i | 0 <= i < |runs| && runs[i].state == "unknown"
  }

  // ---- marker files -------------------------------------------------------

  /** As many lines as the definition's runs succeeded; in the fault lane up to one more for each unknown run. */
  ghost predicate LinesFit(lane: Lane, key: string, marker: string) {
    var lines := if marker in lane.files then lane.files[marker] else 0;
    var succeeded := |SucceededRuns(lane, if key in lane.defs then lane.defs[key] else "")|;
    lines == succeeded || (lane.name == "fault" && succeeded <= lines <= succeeded + |UnknownRuns(lane)|)
  }

  /** No spec with the same key after position `m` has a marker. */
  predicate LastMarked(specs: seq<Spec>, m: nat, key: string) {
    m < |specs| && specs[m].key == key && specs[m].marker != "" &&
    forall j :: m < j < |specs| && specs[j].key == key ==> specs[j].marker == ""
  }

  /** The lines that count for a shell marker are those of the last marker with its key. */
  ghost predicate MarkerFits(lane: Lane, k: nat)
    requires k < |lane.specs|
  {
    var spec := lane.specs[k];
    spec.kind == "shell" && spec.marker != "" ==>
      forall m: nat :: LastMarked(lane.specs, m, spec.key) ==> LinesFit(lane, spec.key, lane.specs[m].marker)
  }

  lemma {:induction false} LastMarkerAt(specs: seq<Spec>, m: nat, key: string)
    requires LastMarked(specs, m, key)
    ensures LastMarker(specs, key) == Some(specs[m].marker)
  {
    var n := |specs| - 1;
    if m < n {
      LastMarkerAt(specs[..n], m, key);
    }
  }

  lemma {:induction false} LastMarkerFound(specs: seq<Spec>, key: string) returns (m: nat)
    requires LastMarker(specs, key).Some?
    ensures LastMarked(specs, m, key)
  {
    var n := |specs| - 1;
    if specs[n].key == key && specs[n].marker != "" {
      m := n;
    } else {
      m := LastMarkerFound(specs[..n], key);
    }
  }

  lemma {:induction false} LinesAllowedIs(lane: Lane, key: string, marker: string)
    ensures LinesAllowed(lane, key, Lines(lane, marker)) <==> LinesFit(lane, key, marker)
  {
    var runs, definition := lane.snapshot.runs, if key in lane.defs then lane.defs[key] else "";
    TallyIs(runs, SucceededFor(definition));
    TallyIs(runs, InState("unknown"));
    assert Where(runs, SucceededFor(definition)) == SucceededRuns(lane, definition);
    assert Where(runs, InState("unknown")) == UnknownRuns(lane);
    hide Tally;
  }

  lemma {:induction false} CleanMarkerIs(lane: Lane, k: nat)
    requires k < |lane.specs|
    ensures CleanMarker(lane, lane.specs[k]) <==> MarkerFits(lane, k)
  {
    var spec := lane.specs[k];
    if spec.kind == "shell" && spec.marker != "" {
      HasMarker(lane.specs, k);
      var m := LastMarkerFound(lane.specs, spec.key);
      LastMarkerAt(lane.specs, m, spec.key);
      LinesAllowedIs(lane, spec.key, lane.specs[m].marker);
      hide LastMarker, LinesAllowed, LinesFit, Lines;
      forall j: nat | LastMarked(lane.specs, j, spec.key)
        ensures j == m
      {
      }
    }
  }

  // ---- clean, spelled out -------------------------------------------------

  /** No run is under way, and outside the fault and the agent lane none ended badly. */
  ghost predicate RunsFit(lane: Lane) {
    forall r :: r in lane.snapshot.runs ==>
      r.state !in {"dispatching", "running"} &&
      (lane.name !in {"fault", "agent"} ==> r.state !in {"failed", "unknown", "blocked", "waiting_approval"})
  }

  /**
   No slot ran twice, none was lost without a run, none is completed without a
   run, and none that was due long before the lanes were told to stop still waits.
   */
  ghost predicate SlotsFit(lane: Lane, clock: Clock) {
    forall o :: o in lane.snapshot.occurrences ==>
      |o.runs| <= 1 &&
      (o.runs == [] ==>
        o.state !in {"skipped", "interrupted", "blocked", "cancelled", "waiting_approval", "completed"}) &&
      (o.state == "pending" && o.due.Some? ==>
        o.due.value.at >= clock.now - 300 || o.due.value.at >= clock.quiesced - 300)
  }

  /** Every lane's runs, occurrences and marker files are in order. */
  ghost predicate Tidy(lanes: seq<Lane>, clock: Clock) {
    forall i :: 0 <= i < |lanes| ==>
      RunsFit(lanes[i]) && SlotsFit(lanes[i], clock) &&
      forall k :: 0 <= k < |lanes[i].specs| ==> MarkerFits(lanes[i], k)
  }

  /** A run of a lane that is neither the fault nor the agent lane. */
  predicate ProductRun(lanes: seq<Lane>, i: int, r: Run) {
    0 <= i < |lanes| && r in lanes[i].snapshot.runs && lanes[i].name != "fault" && lanes[i].name != "agent"
  }

  lemma {:induction false} TidyProductRuns(lanes: seq<Lane>, clock: Clock)
    requires Tidy(lanes, clock)
    ensures forall i, r :: ProductRun(lanes, i, r) ==>
      r.state !in {"failed", "unknown", "blocked", "waiting_approval", "dispatching", "running"}
  {
    forall i, r | ProductRun(lanes, i, r)
      ensures r.state !in {"failed", "unknown", "blocked", "waiting_approval", "dispatching", "running"}
    {
      assert RunsFit(lanes[i]);
    }
  }

  /** What clean snapshots are, exactly. */
  lemma {:induction false} CleanExactly(lanes: seq<Lane>, clock: Clock)
    ensures Clean(lanes, clock) <==> Tidy(lanes, clock)
  {
    forall i | 0 <= i < |lanes|
      ensures CleanLane(lanes[i], clock) <==>
        RunsFit(lanes[i]) && SlotsFit(lanes[i], clock) &&
        forall k :: 0 <= k < |lanes[i].specs| ==> MarkerFits(lanes[i], k)
    {
      LaneExactly(lanes[i], clock);
    }
    hide CleanLane, RunsFit, SlotsFit, MarkerFits;
  }

  lemma {:induction false} LaneExactly(lane: Lane, clock: Clock)
    ensures CleanLane(lane, clock) <==>
      RunsFit(lane) && SlotsFit(lane, clock) && forall k :: 0 <= k < |lane.specs| ==> MarkerFits(lane, k)
  {
    forall k | 0 <= k < |lane.specs|
      ensures CleanMarker(lane, lane.specs[k]) <==> MarkerFits(lane, k)
    {
      CleanMarkerIs(lane, k);
    }
    RunsExactly(lane);
    SlotsExactly(lane, clock);
    hide CleanMarker, MarkerFits, CleanRun, CleanOccurrence, RunsFit, SlotsFit;
  }

  lemma {:induction false} RunsExactly(lane: Lane)
    ensures (forall r :: r in lane.snapshot.runs ==> CleanRun(lane.name, r)) <==> RunsFit(lane)
  {
  }

  lemma {:induction false} SlotsExactly(lane: Lane, clock: Clock)
    ensures (forall o :: o in lane.snapshot.occurrences ==> CleanOccurrence(o, clock)) <==> SlotsFit(lane, clock)
  {
  }

  // ---- the rows of the evidence -------------------------------------------

  /** Some run of some lane in one of the states stands behind the row. */
  ghost predicate RunRow(lanes: seq<Lane>, states: set<string>, row: Row) {
    exists i, r :: 0 <= i < |lanes| && r in lanes[i].snapshot.runs && r.state in states &&
      row == Row(lanes[i].name, r.id, r.state)
  }

  /** The lists of runs hold exactly those under way and those that ended in one of five ways. */
  lemma {:induction false} RunRowsExactly(e: Evidence, lanes: seq<Lane>, clock: Clock, row: Row)
    requires Describes(e, lanes, clock)
    ensures row in e.unsettled <==> RunRow(lanes, {"dispatching", "running"}, row)
    ensures row in e.failures <==>
      RunRow(lanes, {"failed", "unknown", "blocked", "waiting_approval", "cancelled"}, row)
  {
    AllRunRowsHold(lanes, Unsettled(), row);
    AllRunRowsHold(lanes, Failure(), row);
    BehindIs(lanes, Unsettled(), {"dispatching", "running"}, row);
    BehindIs(lanes, Failure(), {"failed", "unknown", "blocked", "waiting_approval", "cancelled"}, row);
    hide AllRunRows, AllOccurrenceRows, DescribesLane, CountsAll, RunBehind, RunRow;
  }

  lemma {:induction false} BehindIs(lanes: seq<Lane>, keep: Run -> bool, states: set<string>, row: Row)
    requires forall r :: keep(r) <==> r.state in states
    ensures (exists i: nat, r :: RunBehind(lanes, keep, i, r, row)) <==> RunRow(lanes, states, row)
  {
    if i: nat, r :| RunBehind(lanes, keep, i, r, row) {
      assert 0 <= i < |lanes| && r in lanes[i].snapshot.runs && r.state in states;
    }
    if RunRow(lanes, states, row) {
      var i, r :| 0 <= i < |lanes| && r in lanes[i].snapshot.runs && r.state in states &&
        row == Row(lanes[i].name, r.id, r.state);
      assert RunBehind(lanes, keep, i, r, row);
    }
  }

  /** Some occurrence of some lane that the test admits stands behind the row. */
  ghost predicate SlotRow(lanes: seq<Lane>, admits: Occurrence -> bool, row: Row) {
    exists i: nat, o :: OccurrenceBehind(lanes, admits, i, o, row)
  }

  /** The lists of occurrences hold exactly the doubled, the lost or skipped without a run, and the stranded. */
  lemma {:induction false} SlotRowsExactly(e: Evidence, lanes: seq<Lane>, clock: Clock, row: Row)
    requires Describes(e, lanes, clock)
    ensures row in e.duplicates <==> SlotRow(lanes, (o: Occurrence) => |o.runs| >= 2, row)
    ensures row in e.withoutRun <==>
      SlotRow(lanes, (o: Occurrence) =>
        o.state in {"skipped", "missed", "interrupted", "blocked", "cancelled", "waiting_approval"} && o.runs == [],
        row)
    ensures row in e.stranded <==>
      SlotRow(lanes, (o: Occurrence) =>
        (o.state == "completed" && o.runs == []) ||
        (o.state == "pending" && o.due.Some? && o.due.value.at < clock.now - 300 &&
         o.due.value.at < clock.quiesced - 300), row)
  {
    AllOccurrenceRowsHold(lanes, Duplicated(), row);
    AllOccurrenceRowsHold(lanes, WithoutRun(), row);
    AllOccurrenceRowsHold(lanes, Stranded(clock), row);
    hide AllRunRows, AllOccurrenceRows, DescribesLane, CountsAll;
    SameSlots(lanes, Duplicated(), (o: Occurrence) => |o.runs| >= 2, row);
    SameSlots(lanes, WithoutRun(), (o: Occurrence) =>
      o.state in {"skipped", "missed", "interrupted", "blocked", "cancelled", "waiting_approval"} && o.runs == [],
      row);
    SameSlots(lanes, Stranded(clock), (o: Occurrence) =>
      (o.state == "completed" && o.runs == []) ||
      (o.state == "pending" && o.due.Some? && o.due.value.at < clock.now - 300 &&
       o.due.value.at < clock.quiesced - 300), row);
  }

  lemma {:induction false} SameSlots(lanes: seq<Lane>, keep: Occurrence -> bool, admits: Occurrence -> bool, row: Row)
    requires forall o :: keep(o) <==> admits(o)
    ensures (exists i: nat, o :: OccurrenceBehind(lanes, keep, i, o, row)) <==> SlotRow(lanes, admits, row)
  {
    if i: nat, o :| OccurrenceBehind(lanes, keep, i, o, row) {
      assert OccurrenceBehind(lanes, admits, i, o, row);
    }
    if i: nat, o :| OccurrenceBehind(lanes, admits, i, o, row) {
      assert OccurrenceBehind(lanes, keep, i, o, row);
    }
  }

  // ---- excess lines -------------------------------------------------------

  /** What one effect adds to the duplicates: the lines beyond the successes, when it does not match. */
  lemma {:induction false} ExcessOfOne(key: string, v: Effect)
    ensures ExcessIn([Entry(key, v)]) ==
      if v.succeeded.None? || v.matches == Some(true) || v.lines <= v.succeeded.value then 0
      else v.lines - v.succeeded.value
  {
    var d: Dictionary<Effect> := [Entry(key, v)];
    assert d[..|d| - 1] == [] && ExcessIn([]) == 0;
  }

  lemma {:induction false} ExcessAdds(a: Dictionary<Effect>, b: Dictionary<Effect>)
    ensures ExcessIn(a + b) == ExcessIn(a) + ExcessIn(b)
    decreases |b|
  {
    if b == [] {
      assert a + b == a;
    } else {
      var n := |b| - 1;
      assert (a + b)[..|a + b| - 1] == a + b[..n];
      ExcessAdds(a, b[..n]);
    }
  }

  // ---- successes of the two lanes -----------------------------------------

  /** The successes of the last lane with the name, by counting its runs. */
  lemma {:induction false} LaneSuccessesAre(es: seq<LaneEvidence>, lanes: seq<Lane>, i: nat)
    requires |es| == |lanes| && i < |lanes| && (forall j :: 0 <= j < |es| ==> DescribesLane(es[j], lanes[j]))
    requires forall j :: i < j < |lanes| ==> lanes[j].name != lanes[i].name
    ensures var runs := lanes[i].snapshot.runs;
      LaneSuccesses(es, lanes[i].name) == |set k | 0 <= k < |runs| && runs[k].state == "succeeded"|
  {
    var n := |es| - 1;
    assert DescribesLane(es[n], lanes[n]);
    if i < n {
      LaneSuccessesAre(es[..n], lanes[..n], i);
    } else {
      SuccessesOfOne(es[n], lanes[n]);
      hide DescribesLane, Count;
    }
  }

  lemma {:induction false} SuccessesOfOne(e: LaneEvidence, lane: Lane)
    requires DescribesLane(e, lane)
    ensures var runs := lane.snapshot.runs;
      e.name == lane.name &&
      Count(e.states, "succeeded") == |set k | 0 <= k < |runs| && runs[k].state == "succeeded"|
  {
    var runs := lane.snapshot.runs;
    TallyIs(runs, InState("succeeded"));
    assert Where(runs, InState("succeeded")) == set k | 0 <= k < |runs| && runs[k].state == "succeeded";
    assert Count([], "succeeded") == 0;
    hide Expected, Get, Tally, UniqueKeys, Where;
  }

  /** A lane that does not exist has none. */
  lemma {:induction false} NoLaneNoSuccesses(es: seq<LaneEvidence>, name: string)
    requires forall j :: 0 <= j < |es| ==> es[j].name != name
    ensures LaneSuccesses(es, name) == 0
  {
    if es != [] {
      NoLaneNoSuccesses(es[..|es| - 1], name);
    }
  }

  // ---- the verdict --------------------------------------------------------

  /** A verdict of PASS needs the four checks that the evidence decides. */
  lemma {:induction false} PassedEvidence(mode: string, planned: int, ending: Ending, checks: Checks)
    requires Passes(mode, planned, ending, checks)
    ensures forall n :: n in {"S1_occurrences", "S_shell_outcomes", "S_effect_match", "S3_mixed"} ==>
      n in checks && checks[n] == Some(true)
  {
    EvidenceIsRequired(mode);
    hide RequiredChecks;
  }

  /** Aggregation, checks and verdict in one, as the run is finalised. */
  method Finalize(mode: string, planned: int, ending: Ending, lanes: seq<Lane>, clock: Clock, others: Checks)
    returns (verdict: Verdict, e: Evidence, checks: Checks)
    ensures Describes(e, lanes, clock)
    ensures verdict == PASS <==> Passes(mode, planned, ending, checks)
    ensures verdict == PASS ==> Tidy(lanes, clock)
    ensures !Tidy(lanes, clock) && !ending.budgetStopped && ending.stopReason != "signal" ==> verdict == FAIL
    ensures verdict == PASS ==> forall i, r :: ProductRun(lanes, i, r) ==>
      r.state !in {"failed", "unknown", "blocked", "waiting_approval", "dispatching", "running"}
    ensures verdict == PASS ==>
      var os, agent := LaneSuccesses(e.lanes, "os"), LaneSuccesses(e.lanes, "agent");
      os >= 1 && (mode == "dry-run" || (agent >= 1 && os >= 10 * agent))
  {
    hide Describes, CountsConserved, Clean, Tidy, ProductRun, OccurrencesOk, ShellOk, EffectsOk, LaneSuccesses, Passes,
      Early, Missing, FailedOnes, RequiredChecks;
    e := AggregateRun(lanes, clock);
    checks := DeriveChecks(mode, e, FROZEN, others);
    ChecksExactlyClean(e, lanes, clock);
    CleanExactly(lanes, clock);
    if Tidy(lanes, clock) {
      TidyProductRuns(lanes, clock);
    }
    if Passes(mode, planned, ending, checks) {
      PassedEvidence(mode, planned, ending, checks);
    }
    var reasons;
    verdict, reasons := ComputeVerdict(mode, planned, ending, checks);
  }
}
