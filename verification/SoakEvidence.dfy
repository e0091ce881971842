/**
 Aggregating the lanes' snapshots to evidence, and deriving checks from it.
 */
module SoakEvidence {
  import opened Dict
  import opened SoakData
  import opened SoakVerdict
  import opened Wrappers

  datatype Spec = Spec(key: string, kind: string, marker: string)

  /**
   One lane: its snapshot, its specs, the definition ids that its setup created
   by key, and how many nonblank lines each marker file has that exists.
   */
  datatype Lane = Lane(name: string, snapshot: Snapshot, specs: seq<Spec>, defs: map<string, string>,
                       files: map<string, nat>)

  // ---- counting -----------------------------------------------------------

  function Tally<T>(xs: seq<T>, keep: T -> bool): nat {
    if xs == [] then 0 else Tally(xs[..|xs| - 1], keep) + if keep(xs[|xs| - 1]) then 1 else 0
  }

  lemma {:induction false} TallyNext<T>(xs: seq<T>, i: nat, keep: T -> bool)
    requires i < |xs|
    ensures Tally(xs[..i + 1], keep) == Tally(xs[..i], keep) + if keep(xs[i]) then 1 else 0
  {
    assert xs[..i + 1][..i] == xs[..i];
  }

  function InState(state: string): Run -> bool {
    (r: Run) => r.state == state
  }

  function SucceededFor(definition: string): Run -> bool {
    (r: Run) => r.state == "succeeded" && r.definition == definition
  }

  // ---- rows ---------------------------------------------------------------

  datatype Row = Row(lane: string, id: string, state: string)

  function RunRows(name: string, runs: seq<Run>, keep: Run -> bool): seq<Row> {
    if runs == [] then []
    else
      var n := |runs| - 1;
      RunRows(name, runs[..n], keep) + if keep(runs[n]) then [Row(name, runs[n].id, runs[n].state)] else []
  }

  function OccurrenceRows(name: string, occurrences: seq<Occurrence>, keep: Occurrence -> bool): seq<Row> {
    if occurrences == [] then []
    else
      var n := |occurrences| - 1;
      OccurrenceRows(name, occurrences[..n], keep) +
      if keep(occurrences[n]) then [Row(name, occurrences[n].id, occurrences[n].state)] else []
  }

  lemma {:induction false} RunRowsNext(name: string, runs: seq<Run>, i: nat, keep: Run -> bool)
    requires i < |runs|
    ensures RunRows(name, runs[..i + 1], keep) ==
      RunRows(name, runs[..i], keep) + if keep(runs[i]) then [Row(name, runs[i].id, runs[i].state)] else []
  {
    assert runs[..i + 1][..i] == runs[..i];
  }

  lemma {:induction false} OccurrenceRowsNext(name: string, occurrences: seq<Occurrence>, i: nat,
                                              keep: Occurrence -> bool)
    requires i < |occurrences|
    ensures OccurrenceRows(name, occurrences[..i + 1], keep) ==
      OccurrenceRows(name, occurrences[..i], keep) +
      if keep(occurrences[i]) then [Row(name, occurrences[i].id, occurrences[i].state)] else []
  {
    assert occurrences[..i + 1][..i] == occurrences[..i];
  }

  const UNSETTLED: set<string> := {"dispatching", "running"}
  const FAILURES: set<string> := {"failed", "unknown", "blocked", "waiting_approval", "cancelled"}
  const CLASSIFIED: set<string> := {"skipped", "missed", "interrupted", "blocked", "cancelled", "waiting_approval"}
  const SILENT: set<string> := {"skipped", "interrupted", "blocked", "cancelled", "waiting_approval"}
  const PRODUCT_FAILURES: set<string> := {"failed", "unknown", "blocked", "waiting_approval"}

  function Unsettled(): Run -> bool {
    (r: Run) => r.state in UNSETTLED
  }

  function Failure(): Run -> bool {
    (r: Run) => r.state in FAILURES
  }

  function Duplicated(): Occurrence -> bool {
    (o: Occurrence) => |o.runs| > 1
  }

  function WithoutRun(): Occurrence -> bool {
    (o: Occurrence) => o.state in CLASSIFIED && o.runs == []
  }

  /** When the evidence was taken, and when the lanes were told to stop. */
  datatype Clock = Clock(now: int, quiesced: int)

  function Stranded(clock: Clock): Occurrence -> bool {
    (o: Occurrence) =>
      (o.state == "completed" && o.runs == []) ||
      (o.state == "pending" && o.due.Some? && clock.now - o.due.value.at > 300 &&
       o.due.value.at < clock.quiesced - 300)
  }

  // ---- one lane -----------------------------------------------------------

  /** The counter holds what `base` held, and one more for each of the states. */
  ghost predicate Counts(d: Counter, base: Counter, runs: seq<Run>) {
    (forall k :: Count(d, k) == Count(base, k) + Tally(runs, InState(k))) && Sum(d) == Sum(base) + |runs|
  }

  ghost predicate CountsSuccesses(d: Counter, runs: seq<Run>) {
    forall k :: Count(d, k) == Tally(runs, SucceededFor(k))
  }

  lemma {:induction false} CountsNext(d: Counter, base: Counter, runs: seq<Run>, i: nat)
    requires i < |runs| && Counts(d, base, runs[..i])
    ensures Counts(Bump(d, runs[i].state), base, runs[..i + 1])
  {
    BumpCounts(d, runs[i].state);
    forall k
      ensures Tally(runs[..i + 1], InState(k)) == Tally(runs[..i], InState(k)) + if runs[i].state == k then 1 else 0
    {
      TallyNext(runs, i, InState(k));
    }
  }

  lemma {:induction false} CountsSuccessesNext(d: Counter, runs: seq<Run>, i: nat)
    requires i < |runs| && CountsSuccesses(d, runs[..i])
    ensures CountsSuccesses(if runs[i].state == "succeeded" then Bump(d, runs[i].definition) else d, runs[..i + 1])
  {
    BumpCounts(d, runs[i].definition);
    forall k
      ensures Tally(runs[..i + 1], SucceededFor(k)) ==
        Tally(runs[..i], SucceededFor(k)) + if runs[i].state == "succeeded" && runs[i].definition == k then 1 else 0
    {
      TallyNext(runs, i, SucceededFor(k));
    }
  }

  lemma {:induction false} RowAdded(before: seq<Row>, rows: seq<Row>, more: seq<Row>)
    ensures before + (rows + more) == (before + rows) + more
  {
  }

  /** The loop over a lane's runs. */
  method CountRuns(lane: Lane, totals: Counter, unsettled: seq<Row>, failures: seq<Row>)
    returns (states: Counter, succeeded: Counter, newTotals: Counter, newUnsettled: seq<Row>, newFailures: seq<Row>)
    ensures Counts(states, [], lane.snapshot.runs) && Counts(newTotals, totals, lane.snapshot.runs)
    ensures CountsSuccesses(succeeded, lane.snapshot.runs)
    ensures newUnsettled == unsettled + RunRows(lane.name, lane.snapshot.runs, Unsettled())
    ensures newFailures == failures + RunRows(lane.name, lane.snapshot.runs, Failure())
  {
    var runs := lane.snapshot.runs;
    states, succeeded, newTotals := [], [], totals;
    newUnsettled, newFailures := unsettled, failures;
    for i := 0 to |runs|
      invariant Counts(states, [], runs[..i]) && Counts(newTotals, totals, runs[..i])
      invariant CountsSuccesses(succeeded, runs[..i])
      invariant newUnsettled == unsettled + RunRows(lane.name, runs[..i], Unsettled())
      invariant newFailures == failures + RunRows(lane.name, runs[..i], Failure())
    {
      hide Counts, CountsSuccesses, RunRows, Bump, Put;
      var run := runs[i];
      var row := Row(lane.name, run.id, run.state);
      CountsNext(states, [], runs, i);
      CountsNext(newTotals, totals, runs, i);
      CountsSuccessesNext(succeeded, runs, i);
      RunRowsNext(lane.name, runs, i, Unsettled());
      RunRowsNext(lane.name, runs, i, Failure());
      RowAdded(unsettled, RunRows(lane.name, runs[..i], Unsettled()), [row]);
      RowAdded(failures, RunRows(lane.name, runs[..i], Failure()), [row]);
      states := Bump(states, run.state);
      newTotals := Bump(newTotals, run.state);
      if run.state == "succeeded" {
        succeeded := Bump(succeeded, run.definition);
      }
      if run.state in UNSETTLED {
        newUnsettled := newUnsettled + [row];
      }
      if run.state in FAILURES {
        newFailures := newFailures + [row];
      }
    }
    assert runs[..|runs|] == runs;
  }

  /** The loop over a lane's occurrences. */
  method SortOccurrences(lane: Lane, clock: Clock, duplicates: seq<Row>, withoutRun: seq<Row>, stranded: seq<Row>)
    returns (newDuplicates: seq<Row>, newWithoutRun: seq<Row>, newStranded: seq<Row>)
    ensures newDuplicates == duplicates + OccurrenceRows(lane.name, lane.snapshot.occurrences, Duplicated())
    ensures newWithoutRun == withoutRun + OccurrenceRows(lane.name, lane.snapshot.occurrences, WithoutRun())
    ensures newStranded == stranded + OccurrenceRows(lane.name, lane.snapshot.occurrences, Stranded(clock))
  {
    var rows := lane.snapshot.occurrences;
    newDuplicates, newWithoutRun, newStranded := duplicates, withoutRun, stranded;
    for i := 0 to |rows|
      invariant newDuplicates == duplicates + OccurrenceRows(lane.name, rows[..i], Duplicated())
      invariant newWithoutRun == withoutRun + OccurrenceRows(lane.name, rows[..i], WithoutRun())
      invariant newStranded == stranded + OccurrenceRows(lane.name, rows[..i], Stranded(clock))
    {
      hide OccurrenceRows;
      var o := rows[i];
      var row := Row(lane.name, o.id, o.state);
      OccurrenceRowsNext(lane.name, rows, i, Duplicated());
      OccurrenceRowsNext(lane.name, rows, i, WithoutRun());
      OccurrenceRowsNext(lane.name, rows, i, Stranded(clock));
      RowAdded(duplicates, OccurrenceRows(lane.name, rows[..i], Duplicated()), [row]);
      RowAdded(withoutRun, OccurrenceRows(lane.name, rows[..i], WithoutRun()), [row]);
      RowAdded(stranded, OccurrenceRows(lane.name, rows[..i], Stranded(clock)), [row]);
      if |o.runs| > 1 {
        newDuplicates := newDuplicates + [row];
      }
      if o.state in CLASSIFIED && o.runs == [] {
        newWithoutRun := newWithoutRun + [row];
      }
      if o.state == "completed" && o.runs == [] {
        newStranded := newStranded + [row];
      }
      if o.state == "pending" && o.due.Some? {
        var overdue := clock.now - o.due.value.at;
        if overdue > 300 && o.due.value.at < clock.quiesced - 300 {
          newStranded := newStranded + [row];
        }
      }
    }
    assert rows[..|rows|] == rows;
  }

  // ---- marker files -------------------------------------------------------

  /** The lines of a marker file, and, once judged, whether they are as many as the succeeded runs allow. */
  datatype Effect = Effect(lines: nat, succeeded: Option<nat>, matches: Option<bool>)

  function Lines(lane: Lane, marker: string): nat {
    if marker in lane.files then lane.files[marker] else 0
  }

  /** The marker of the last spec with this key that has one. */
  function LastMarker(specs: seq<Spec>, key: string): Option<string> {
    if specs == [] then None
    else
      var n := |specs| - 1;
      if specs[n].key == key && specs[n].marker != "" then Some(specs[n].marker) else LastMarker(specs[..n], key)
  }

  predicate ShellMarked(spec: Spec) {
    spec.kind == "shell" && spec.marker != ""
  }

  predicate Judged(specs: seq<Spec>, key: string) {
    exists i :: 0 <= i < |specs| && specs[i].key == key && ShellMarked(specs[i])
  }

  /** `definition_id_for`: a key without a definition counts as the empty id. */
  function DefinitionFor(lane: Lane, key: string): string {
    if key in lane.defs then lane.defs[key] else ""
  }

  function Succeeded(lane: Lane, key: string): nat {
    Tally(lane.snapshot.runs, SucceededFor(DefinitionFor(lane, key)))
  }

  /** One line for each succeeded run; in the fault lane a run whose outcome was lost may have left one more. */
  predicate LinesAllowed(lane: Lane, key: string, lines: nat) {
    lines == Succeeded(lane, key) ||
    (lane.name == "fault" &&
     Succeeded(lane, key) <= lines <= Succeeded(lane, key) + Tally(lane.snapshot.runs, InState("unknown")))
  }

  function Expected(lane: Lane, judged: seq<Spec>, key: string): Option<Effect> {
    match LastMarker(lane.specs, key)
    case None => None
    case Some(marker) =>
      var lines := Lines(lane, marker);
      Some(if Judged(judged, key) then Effect(lines, Some(Succeeded(lane, key)), Some(LinesAllowed(lane, key, lines)))
           else Effect(lines, None, None))
  }

  function Counted(lane: Lane, specs: seq<Spec>, key: string): Option<Effect> {
    match LastMarker(specs, key)
    case None => None
    case Some(marker) => Some(Effect(Lines(lane, marker), None, None))
  }

  /** `marker_counts`. */
  method MarkerCounts(lane: Lane) returns (effects: Dictionary<Effect>)
    ensures UniqueKeys(effects) && forall k :: Get(effects, k) == Expected(lane, [], k)
  {
    var specs := lane.specs;
    effects := [];
    for i := 0 to |specs|
      invariant UniqueKeys(effects)
      invariant forall k :: Get(effects, k) == Counted(lane, specs[..i], k)
    {
      var spec := specs[i];
      assert specs[..i + 1][..i] == specs[..i];
      if spec.marker == "" {
        continue;
      }
      var effect := Effect(Lines(lane, spec.marker), None, None);
      PutGet(effects, spec.key, effect);
      PutUnique(effects, spec.key, effect);
      hide Put, Get;
      effects := Put(effects, spec.key, effect);
    }
    assert specs[..|specs|] == specs;
  }

  lemma {:induction false} HasMarker(specs: seq<Spec>, i: nat)
    requires i < |specs| && specs[i].marker != ""
    ensures LastMarker(specs, specs[i].key).Some?
  {
    var n := |specs| - 1;
    if i < n {
      HasMarker(specs[..n], i);
    }
  }

  lemma {:induction false} JudgedNext(specs: seq<Spec>, i: nat, key: string)
    requires i < |specs|
    ensures Judged(specs[..i + 1], key) <==> Judged(specs[..i], key) || (specs[i].key == key && ShellMarked(specs[i]))
  {
    var more := specs[..i + 1];
    assert more[i] == specs[i];
    if Judged(specs[..i], key) {
      var j :| 0 <= j < i && specs[..i][j].key == key && ShellMarked(specs[..i][j]);
      assert more[j] == specs[..i][j];
    }
    if Judged(more, key) {
      var j :| 0 <= j < i + 1 && more[j].key == key && ShellMarked(more[j]);
      assert j < i ==> specs[..i][j] == more[j];
    }
  }

  /** The loop over a lane's specs compares lines with successes. */
  method JudgeEffects(lane: Lane, counted: Dictionary<Effect>, states: Counter, succeeded: Counter)
    returns (effects: Dictionary<Effect>)
    requires UniqueKeys(counted) && forall k :: Get(counted, k) == Expected(lane, [], k)
    requires Counts(states, [], lane.snapshot.runs) && CountsSuccesses(succeeded, lane.snapshot.runs)
    ensures UniqueKeys(effects) && forall k :: Get(effects, k) == Expected(lane, lane.specs, k)
  {
    var specs := lane.specs;
    effects := counted;
    assert specs[..0] == [];
    assert Count(states, "unknown") == Tally(lane.snapshot.runs, InState("unknown"));
    for i := 0 to |specs|
      invariant UniqueKeys(effects) && forall k :: Get(effects, k) == Expected(lane, specs[..i], k)
    {
      var spec := specs[i];
      forall k
        ensures Judged(specs[..i + 1], k) <==> Judged(specs[..i], k) || (spec.key == k && ShellMarked(spec))
      {
        JudgedNext(specs, i, k);
      }
      var lines := 0;
      if Get(effects, spec.key).Some? {
        lines := Get(effects, spec.key).value.lines;
      }
      var successes := Count(succeeded, DefinitionFor(lane, spec.key));
      var unknown := Count(states, "unknown");
      assert successes == Succeeded(lane, spec.key);
      if spec.kind == "shell" && spec.marker != "" {
        HasMarker(specs, i);
        var ok := lines == successes || (lane.name == "fault" && successes <= lines <= successes + unknown);
        var effect := Effect(lines, Some(successes), Some(ok));
        assert Expected(lane, specs[..i + 1], spec.key) == Some(effect);
        PutGet(effects, spec.key, effect);
        PutUnique(effects, spec.key, effect);
        hide Put, Get, LastMarker, Judged, Succeeded, LinesAllowed;
        effects := Put(effects, spec.key, effect);
      }
    }
    assert specs[..|specs|] == specs;
  }

  // ---- all lanes ----------------------------------------------------------

  datatype LaneEvidence = LaneEvidence(name: string, states: Counter, effects: Dictionary<Effect>)

  datatype Evidence = Evidence(lanes: seq<LaneEvidence>, totals: Counter, total: nat, duplicates: seq<Row>,
                               stranded: seq<Row>, unsettled: seq<Row>, withoutRun: seq<Row>, failures: seq<Row>)

  function AllRunRows(lanes: seq<Lane>, keep: Run -> bool): seq<Row> {
    if lanes == [] then []
    else
      var n := |lanes| - 1;
      AllRunRows(lanes[..n], keep) + RunRows(lanes[n].name, lanes[n].snapshot.runs, keep)
  }

  function AllOccurrenceRows(lanes: seq<Lane>, keep: Occurrence -> bool): seq<Row> {
    if lanes == [] then []
    else
      var n := |lanes| - 1;
      AllOccurrenceRows(lanes[..n], keep) + OccurrenceRows(lanes[n].name, lanes[n].snapshot.occurrences, keep)
  }

  function TotalIn(lanes: seq<Lane>, keep: Run -> bool): nat {
    if lanes == [] then 0
    else
      var n := |lanes| - 1;
      TotalIn(lanes[..n], keep) + Tally(lanes[n].snapshot.runs, keep)
  }

  function TotalRuns(lanes: seq<Lane>): nat {
    if lanes == [] then 0
    else
      var n := |lanes| - 1;
      TotalRuns(lanes[..n]) + |lanes[n].snapshot.runs|
  }

  ghost predicate DescribesLane(e: LaneEvidence, lane: Lane) {
    e.name == lane.name && Counts(e.states, [], lane.snapshot.runs) && UniqueKeys(e.effects) &&
    forall k :: Get(e.effects, k) == Expected(lane, lane.specs, k)
  }

  ghost predicate CountsAll(d: Counter, lanes: seq<Lane>) {
    (forall k :: Count(d, k) == TotalIn(lanes, InState(k))) && Sum(d) == TotalRuns(lanes)
  }

  /** The evidence lists exactly these rows, and counts every run once. */
  ghost predicate Describes(e: Evidence, lanes: seq<Lane>, clock: Clock) {
    |e.lanes| == |lanes| && (forall i :: 0 <= i < |lanes| ==> DescribesLane(e.lanes[i], lanes[i])) &&
    CountsAll(e.totals, lanes) && e.total == TotalRuns(lanes) &&
    e.unsettled == AllRunRows(lanes, Unsettled()) && e.failures == AllRunRows(lanes, Failure()) &&
    e.duplicates == AllOccurrenceRows(lanes, Duplicated()) && e.withoutRun == AllOccurrenceRows(lanes, WithoutRun()) &&
    e.stranded == AllOccurrenceRows(lanes, Stranded(clock))
  }

  lemma {:induction false} NextRunRows(lanes: seq<Lane>, i: nat, keep: Run -> bool)
    requires i < |lanes|
    ensures AllRunRows(lanes[..i + 1], keep) ==
            AllRunRows(lanes[..i], keep) + RunRows(lanes[i].name, lanes[i].snapshot.runs, keep)
  {
    assert lanes[..i + 1][..i] == lanes[..i];
  }

  lemma {:induction false} NextOccurrenceRows(lanes: seq<Lane>, i: nat, keep: Occurrence -> bool)
    requires i < |lanes|
    ensures AllOccurrenceRows(lanes[..i + 1], keep) ==
            AllOccurrenceRows(lanes[..i], keep) +
            OccurrenceRows(lanes[i].name, lanes[i].snapshot.occurrences, keep)
  {
    assert lanes[..i + 1][..i] == lanes[..i];
  }

  lemma {:induction false} NextTotals(lanes: seq<Lane>, i: nat, before: Counter, after: Counter)
    requires i < |lanes| && CountsAll(before, lanes[..i]) && Counts(after, before, lanes[i].snapshot.runs)
    ensures CountsAll(after, lanes[..i + 1])
  {
    assert lanes[..i + 1][..i] == lanes[..i];
  }

  /** The counts per state add up to the number of runs, in each lane and in all. */
  ghost predicate CountsConserved(e: Evidence, lanes: seq<Lane>) {
    e.total == Sum(e.totals) == TotalRuns(lanes) &&
    (forall k :: Count(e.totals, k) == TotalIn(lanes, InState(k))) &&
    |e.lanes| == |lanes| && forall i :: 0 <= i < |lanes| ==> Sum(e.lanes[i].states) == |lanes[i].snapshot.runs|
  }

  lemma {:induction false} DescribedIsConserved(e: Evidence, lanes: seq<Lane>, clock: Clock)
    requires Describes(e, lanes, clock)
    ensures CountsConserved(e, lanes)
  {
    assert forall i :: 0 <= i < |lanes| ==> DescribesLane(e.lanes[i], lanes[i]);
    assert Sum([]) == 0;
  }

  /** `aggregate_run`, for the parts of the evidence that are modelled. */
  method AggregateRun(lanes: seq<Lane>, clock: Clock) returns (e: Evidence)
    ensures Describes(e, lanes, clock) && CountsConserved(e, lanes)
  {
    var rows: seq<LaneEvidence> := [];
    var totals: Counter := [];
    var duplicates, stranded, unsettled, withoutRun, failures: seq<Row> := [], [], [], [], [];
    for i := 0 to |lanes|
      invariant |rows| == i && forall j :: 0 <= j < i ==> DescribesLane(rows[j], lanes[j])
      invariant CountsAll(totals, lanes[..i])
      invariant unsettled == AllRunRows(lanes[..i], Unsettled()) && failures == AllRunRows(lanes[..i], Failure())
      invariant duplicates == AllOccurrenceRows(lanes[..i], Duplicated())
      invariant withoutRun == AllOccurrenceRows(lanes[..i], WithoutRun())
      invariant stranded == AllOccurrenceRows(lanes[..i], Stranded(clock))
    {
      var lane := lanes[i];
      hide AllRunRows, AllOccurrenceRows, RunRows, OccurrenceRows, CountsAll, Counts, CountsSuccesses, Expected, Get,
        UniqueKeys;
      NextRunRows(lanes, i, Unsettled());
      NextRunRows(lanes, i, Failure());
      NextOccurrenceRows(lanes, i, Duplicated());
      NextOccurrenceRows(lanes, i, WithoutRun());
      NextOccurrenceRows(lanes, i, Stranded(clock));
      var effects := MarkerCounts(lane);
      var states, succeeded, newTotals;
      ghost var before := totals;
      states, succeeded, newTotals, unsettled, failures := CountRuns(lane, totals, unsettled, failures);
      NextTotals(lanes, i, before, newTotals);
      totals := newTotals;
      duplicates, withoutRun, stranded := SortOccurrences(lane, clock, duplicates, withoutRun, stranded);
      effects := JudgeEffects(lane, effects, states, succeeded);
      var row := LaneEvidence(lane.name, states, effects);
      assert DescribesLane(row, lane);
      hide DescribesLane;
      rows := rows + [row];
    }
    assert lanes[..|lanes|] == lanes;
    e := Evidence(rows, totals, Sum(totals), duplicates, stranded, unsettled, withoutRun, failures);
    assert Describes(e, lanes, clock);
    DescribedIsConserved(e, lanes, clock);
    hide Describes, CountsConserved;
  }

  // ---- the checks that come from the evidence -----------------------------

  datatype Thresholds = Thresholds(duplicates: int, stranded: int)

  const FROZEN := Thresholds(0, 0)

  function ExcessIn(effects: Dictionary<Effect>): nat {
    if effects == [] then 0
    else
      var n := |effects| - 1;
      var v := effects[n].value;
      ExcessIn(effects[..n]) +
      if v.succeeded.Some? && v.matches != Some(true) && v.lines > v.succeeded.value then v.lines - v.succeeded.value
      else 0
  }

  function Excess(lanes: seq<LaneEvidence>): nat {
    if lanes == [] then 0
    else
      var n := |lanes| - 1;
      Excess(lanes[..n]) + ExcessIn(lanes[n].effects)
  }

  /** `duplicate_side_effect_count`. */
  method DuplicateSideEffects(e: Evidence) returns (extra: nat)
    ensures extra == |e.duplicates| + Excess(e.lanes)
  {
    extra := |e.duplicates|;
    for i := 0 to |e.lanes|
      invariant extra == |e.duplicates| + Excess(e.lanes[..i])
    {
      var effects := e.lanes[i].effects;
      assert e.lanes[..i + 1][..i] == e.lanes[..i];
      ghost var before := extra;
      for j := 0 to |effects|
        invariant extra == before + ExcessIn(effects[..j])
      {
        var v := effects[j].value;
        assert effects[..j + 1][..j] == effects[..j];
        if v.succeeded.None? || v.matches == Some(true) {
          continue;
        }
        if v.lines > v.succeeded.value {
          extra := extra + v.lines - v.succeeded.value;
        }
      }
      assert effects[..|effects|] == effects;
    }
    assert e.lanes[..|e.lanes|] == e.lanes;
  }

  /** Some judged effect does not match. */
  predicate Mismatch(lane: LaneEvidence, i: nat) {
    i < |lane.effects| && lane.effects[i].value.matches == Some(false)
  }

  /** `effect_mismatches`, by lane and key. */
  method EffectMismatches(e: Evidence) returns (found: seq<(string, string)>)
    ensures found == [] <==> forall i, j: nat :: 0 <= i < |e.lanes| ==> !Mismatch(e.lanes[i], j)
  {
    found := [];
    for i := 0 to |e.lanes|
      invariant found == [] <==> forall k, j: nat :: 0 <= k < i ==> !Mismatch(e.lanes[k], j)
    {
      var lane := e.lanes[i];
      ghost var before := found;
      for j := 0 to |lane.effects|
        invariant found == [] <==> before == [] && forall k: nat :: k < j ==> !Mismatch(lane, k)
      {
        if lane.effects[j].value.matches == Some(false) {
          assert Mismatch(lane, j);
          found := found + [(lane.name, lane.effects[j].key)];
        }
      }
    }
  }

  function Silent(): Row -> bool {
    (row: Row) => row.state in SILENT
  }

  function ProductFailure(): Row -> bool {
    (row: Row) => row.lane !in {"fault", "agent"} && row.state in PRODUCT_FAILURES
  }

  function LaneSuccesses(lanes: seq<LaneEvidence>, name: string): nat {
    if lanes == [] then 0
    else
      var n := |lanes| - 1;
      if lanes[n].name == name then Count(lanes[n].states, "succeeded") else LaneSuccesses(lanes[..n], name)
  }

  predicate Mixed(mode: string, os: nat, agent: nat) {
    os >= 1 && (mode == DRY_RUN || (agent >= 1 && os >= 10 * agent))
  }

  /** The check that shell runs far outnumber agent runs. */
  method MixedOk(mode: string, e: Evidence) returns (ok: bool)
    ensures ok == Mixed(mode, LaneSuccesses(e.lanes, "os"), LaneSuccesses(e.lanes, "agent"))
  {
    var os, agent := 0, 0;
    for i := 0 to |e.lanes|
      invariant os == LaneSuccesses(e.lanes[..i], "os") && agent == LaneSuccesses(e.lanes[..i], "agent")
    {
      assert e.lanes[..i + 1][..i] == e.lanes[..i];
      if e.lanes[i].name == "os" {
        os := Count(e.lanes[i].states, "succeeded");
      }
      if e.lanes[i].name == "agent" {
        agent := Count(e.lanes[i].states, "succeeded");
      }
    }
    assert e.lanes[..|e.lanes|] == e.lanes;
    ok := os >= 1 && agent >= 1 && os >= 10 * (if agent > 1 then agent else 1);
    if mode == DRY_RUN {
      ok := os >= 1;
    }
  }

  predicate OccurrencesOk(e: Evidence, limits: Thresholds) {
    |e.duplicates| + Excess(e.lanes) <= limits.duplicates && |e.stranded| <= limits.stranded &&
    e.unsettled == [] && Filter(e.withoutRun, Silent()) == []
  }

  predicate ShellOk(e: Evidence) {
    Filter(e.failures, ProductFailure()) == []
  }

  ghost predicate EffectsOk(e: Evidence) {
    forall i, j: nat :: 0 <= i < |e.lanes| ==> !Mismatch(e.lanes[i], j)
  }

  const DERIVED: set<string> := {"S1_occurrences", "S_shell_outcomes", "S_effect_match", "S3_mixed"}

  /**
   `derive_checks` for the checks that the aggregated snapshots decide; `others`
   holds the ones that come from probes, resources, usage and cleanup.
   */
  method DeriveChecks(mode: string, e: Evidence, limits: Thresholds, others: Checks) returns (checks: Checks)
    ensures forall n :: n !in DERIVED ==> (n in checks <==> n in others) && (n in others ==> checks[n] == others[n])
    ensures DERIVED <= checks.Keys
    ensures checks["S1_occurrences"] == Some(OccurrencesOk(e, limits))
    ensures checks["S_shell_outcomes"] == Some(ShellOk(e))
    ensures checks["S_effect_match"].Some? && (checks["S_effect_match"].value <==> EffectsOk(e))
    ensures checks["S3_mixed"] == Some(Mixed(mode, LaneSuccesses(e.lanes, "os"), LaneSuccesses(e.lanes, "agent")))
  {
    var swallowed := Filter(e.withoutRun, Silent());
    var duplicates := DuplicateSideEffects(e);
    var mismatches := EffectMismatches(e);
    var mixed := MixedOk(mode, e);
    var occurrences := duplicates <= limits.duplicates && |e.stranded| <= limits.stranded && e.unsettled == [] &&
      swallowed == [];
    var failures := Filter(e.failures, ProductFailure());
    assert occurrences == OccurrencesOk(e, limits) && (failures == []) == ShellOk(e);
    assert mismatches == [] <==> EffectsOk(e);
    hide OccurrencesOk, ShellOk, EffectsOk, Mixed, LaneSuccesses, Filter;
    checks := others["S1_occurrences" := Some(occurrences)];
    checks := checks["S_shell_outcomes" := Some(failures == [])];
    checks := checks["S_effect_match" := Some(mismatches == [])];
    checks := checks["S3_mixed" := Some(mixed)];
  }
}
