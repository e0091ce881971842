/**
 Finding natural instances of the three overlap policies in a snapshot, and
 combining them to a status.
 */
module SoakOverlap {
  import opened SoakData
  import opened Sorting
  import opened Strings
  import opened Wrappers

  // ---- rows of one definition ---------------------------------------------

  /** No definition has no rows. */
  function RunsFor(s: Snapshot, id: string): (runs: seq<Run>)
    ensures forall r :: r in runs <==> id != "" && r in s.runs && r.definition == id
  {
    if id == "" then [] else Filter(s.runs, (r: Run) => r.definition == id)
  }

  function OccurrencesFor(s: Snapshot, id: string): (occurrences: seq<Occurrence>)
    ensures forall o :: o in occurrences <==> id != "" && o in s.occurrences && o.definition == id
  {
    if id == "" then [] else Filter(s.occurrences, (o: Occurrence) => o.definition == id)
  }

  /** The run was active at `due`. */
  predicate Covers(run: Run, due: int) {
    run.started.Some? && run.finished.Some? && run.started.value.at <= due < run.finished.value.at
  }

  /** The first run that was active at `due`. */
  function CoveringRun(runs: seq<Run>, due: int): (found: Option<Run>)
    ensures found.Some? ==> found.value in runs && Covers(found.value, due)
    ensures found.None? ==> forall r :: r in runs ==> !Covers(r, due)
  {
    if runs == [] then None
    else if Covers(runs[0], due) then Some(runs[0])
    else
      assert forall r :: r in runs ==> r == runs[0] || r in runs[1..];
      CoveringRun(runs[1..], due)
  }

  datatype Observation =
    | Missing
    | Found(occurrence: Option<Occurrence>, covering: Run, terminal: bool, policyOk: bool, executionOk: bool,
            runs: seq<Run>)

  /** How an observation enters the status: terminal, and as the policy demands. */
  function Slot(o: Observation): (bool, bool) {
    if o.Missing? then (false, false) else (o.terminal, o.policyOk)
  }

  // ---- skip-if-running ----------------------------------------------------

  function Skipped(o: Occurrence): seq<Run> {
    Filter(o.runs, (r: Run) => r.state == "skipped")
  }

  /** A slot of the definition that was skipped, due after the probe began and inside another run. */
  predicate SkipWitness(s: Snapshot, id: string, after: int, o: Occurrence) {
    o in OccurrencesFor(s, id) && o.due.Some? && o.due.value.at >= after && o.state == "skipped" &&
    |Skipped(o)| == 1 && exists r :: r in RunsFor(s, id) && Covers(r, o.due.value.at)
  }

  function DueKey(): Occurrence -> string {
    (o: Occurrence) => Key(o.due)
  }

  lemma {:induction false} SkipQualifies(s: Snapshot, id: string, after: int, o: Occurrence)
    ensures SkipWitness(s, id, after, o) <==>
      o in OccurrencesFor(s, id) && o.due.Some? && o.due.value.at >= after && o.state == "skipped" &&
      |Skipped(o)| == 1 && CoveringRun(RunsFor(s, id), o.due.value.at).Some?
  {
  }

  ghost predicate SkipResult(s: Snapshot, id: string, after: int, found: Observation) {
    (found.Missing? <==> forall o :: !SkipWitness(s, id, after, o)) &&
    (found.Found? ==>
      found.occurrence.Some? &&
      var o := found.occurrence.value;
      SkipWitness(s, id, after, o) &&
      (forall p :: SkipWitness(s, id, after, p) ==> !TextLess(p.due.value.text, o.due.value.text)) &&
      found.covering in RunsFor(s, id) && Covers(found.covering, o.due.value.at) &&
      found.runs == Skipped(o) && found.terminal && found.policyOk && found.executionOk)
  }

  /**
   Missing exactly when the snapshot holds no witness; otherwise the witness
   that sorts first, with a run that was active when it was due.
   */
  method ObserveSkip(s: Snapshot, id: string, after: int) returns (found: Observation)
    ensures SkipResult(s, id, after, found)
  {
    var rows := Sorted(OccurrencesFor(s, id), DueKey());
    SortedHolds(OccurrencesFor(s, id), DueKey());
    SortedIs(OccurrencesFor(s, id), DueKey());
    hide Sorted, RunsFor, OccurrencesFor, SkipWitness;
    forall o
      ensures SkipWitness(s, id, after, o) ==> o in rows
    {
      SkipQualifies(s, id, after, o);
    }
    for i := 0 to |rows|
      invariant forall j :: 0 <= j < i ==> !SkipWitness(s, id, after, rows[j])
    {
      var o := rows[i];
      SkipQualifies(s, id, after, o);
      if o.due.None? || o.due.value.at < after {
        continue;
      }
      var skipped := Skipped(o);
      if o.state != "skipped" || |skipped| != 1 {
        continue;
      }
      var covering := CoveringRun(RunsFor(s, id), o.due.value.at);
      if covering.None? {
        continue;
      }
      assert skipped[0] in skipped;
      Earliest(rows, DueKey(), i, p => SkipWitness(s, id, after, p));
      return Found(Some(o), covering.value, skipped[0].state in TERMINAL, true, true, skipped);
    }
    return Missing;
  }

  /** The first witness in a sorted list is one that no witness sorts before. */
  lemma {:induction false} Earliest<T>(rows: seq<T>, key: T -> string, i: nat, counts: T -> bool)
    requires i < |rows| && Ascending(rows, key) && forall j :: 0 <= j < i ==> !counts(rows[j])
    ensures forall p :: p in rows && counts(p) ==> !TextLess(key(p), key(rows[i]))
  {
    forall p | p in rows && counts(p)
      ensures !TextLess(key(p), key(rows[i]))
    {
      var j :| 0 <= j < |rows| && rows[j] == p;
      TextLessSame(key(p));
    }
  }

  // ---- queue-one ----------------------------------------------------------

  datatype Candidate = Candidate(run: Run, occurrence: Occurrence)

  predicate StartedSince(run: Run, after: int) {
    run.started.Some? && run.started.value.at >= after
  }

  function CandidatesOf(o: Occurrence, runs: seq<Run>, after: int): (cs: seq<Candidate>)
    ensures forall c :: c in cs <==> c.occurrence == o && c.run in runs && StartedSince(c.run, after)
  {
    if runs == [] then []
    else
      assert runs == [runs[0]] + runs[1..];
      (if StartedSince(runs[0], after) then [Candidate(runs[0], o)] else []) + CandidatesOf(o, runs[1..], after)
  }

  function Candidates(occurrences: seq<Occurrence>, after: int): (cs: seq<Candidate>)
    ensures forall c :: c in cs <==>
      c.occurrence in occurrences && c.run in c.occurrence.runs && StartedSince(c.run, after)
  {
    if occurrences == [] then []
    else
      assert occurrences == [occurrences[0]] + occurrences[1..];
      CandidatesOf(occurrences[0], occurrences[0].runs, after) + Candidates(occurrences[1..], after)
  }

  function Others(runs: seq<Run>, id: string): (others: seq<Run>)
    ensures forall r :: r in others <==> r in runs && r.id != id
  {
    Filter(runs, (r: Run) => r.id != id)
  }

  /** A settled run, started after the probe began, whose slot was due inside another run. */
  predicate QueueWitness(s: Snapshot, id: string, after: int, c: Candidate) {
    c.occurrence in OccurrencesFor(s, id) && c.run in c.occurrence.runs && StartedSince(c.run, after) &&
    c.occurrence.due.Some? && c.run.finished.Some? && c.run.state in TERMINAL &&
    exists r :: r in RunsFor(s, id) && r.id != c.run.id && Covers(r, c.occurrence.due.value.at)
  }

  lemma {:induction false} QueueQualifies(s: Snapshot, id: string, after: int, c: Candidate)
    ensures QueueWitness(s, id, after, c) <==>
      c in Candidates(OccurrencesFor(s, id), after) && c.occurrence.due.Some? && c.run.finished.Some? &&
      c.run.state in TERMINAL && CoveringRun(Others(RunsFor(s, id), c.run.id), c.occurrence.due.value.at).Some?
    ensures c in Candidates(OccurrencesFor(s, id), after) ==> c.run.started.Some?
  {
  }

  function StartKey(): Candidate -> string {
    (c: Candidate) => Key(c.run.started)
  }

  ghost predicate QueueResult(s: Snapshot, id: string, after: int, found: Observation) {
    (found.Missing? <==> forall c :: !QueueWitness(s, id, after, c)) &&
    (found.Found? ==>
      found.occurrence.Some? && |found.runs| == 1 &&
      var c := Candidate(found.runs[0], found.occurrence.value);
      QueueWitness(s, id, after, c) &&
      (forall d :: QueueWitness(s, id, after, d) ==>
        !TextLess(d.run.started.value.text, c.run.started.value.text)) &&
      found.covering in RunsFor(s, id) && found.covering.id != c.run.id &&
      Covers(found.covering, c.occurrence.due.value.at) &&
      found.terminal && (found.executionOk <==> c.run.state == "succeeded") &&
      (found.policyOk <==>
        c.run.state == "succeeded" && c.run.started.value.at >= found.covering.finished.value.at))
  }

  /** As above; the policy held exactly when the run succeeded and began no earlier than the blocking run ended. */
  method ObserveQueue(s: Snapshot, id: string, after: int) returns (found: Observation)
    ensures QueueResult(s, id, after, found)
  {
    var candidates := Candidates(OccurrencesFor(s, id), after);
    var rows := Sorted(candidates, StartKey());
    SortedHolds(candidates, StartKey());
    SortedIs(candidates, StartKey());
    hide Sorted, RunsFor, OccurrencesFor, Candidates, QueueWitness;
    forall c
      ensures QueueWitness(s, id, after, c) ==> c in rows
    {
      QueueQualifies(s, id, after, c);
    }
    for i := 0 to |rows|
      invariant forall j :: 0 <= j < i ==> !QueueWitness(s, id, after, rows[j])
    {
      var c := rows[i];
      assert c in candidates;
      QueueQualifies(s, id, after, c);
      if c.occurrence.due.None? || c.run.finished.None? || c.run.state !in TERMINAL {
        continue;
      }
      var covering := CoveringRun(Others(RunsFor(s, id), c.run.id), c.occurrence.due.value.at);
      if covering.None? {
        continue;
      }
      var ok := c.run.state == "succeeded" && c.run.started.value.at >= covering.value.finished.value.at;
      Earliest(rows, StartKey(), i, d => QueueWitness(s, id, after, d));
      return Found(Some(c.occurrence), covering.value, true, ok, c.run.state == "succeeded", [c.run]);
    }
    return Missing;
  }

  // ---- allow-concurrent ---------------------------------------------------

  function Finished(runs: seq<Run>): (finished: seq<Run>)
    ensures forall r :: r in finished <==> r in runs && r.started.Some? && r.finished.Some?
  {
    Filter(runs, (r: Run) => r.started.Some? && r.finished.Some?)
  }

  /** Both runs are active when the second starts. */
  predicate Overlaps(first: Run, second: Run) {
    first.started.Some? && first.finished.Some? && second.started.Some? && second.finished.Some? &&
    first.id != second.id && first.started.value.at <= second.started.value.at < first.finished.value.at
  }

  predicate AllowWitness(s: Snapshot, id: string, after: int, second: Run) {
    second in RunsFor(s, id) && StartedSince(second, after) &&
    exists first :: first in RunsFor(s, id) && Overlaps(first, second)
  }

  function RunKey(): Run -> string {
    (r: Run) => Key(r.started)
  }

  function FirstOverlapping(runs: seq<Run>, second: Run): (found: Option<Run>)
    ensures found.Some? ==> found.value in runs && Overlaps(found.value, second)
    ensures found.None? ==> forall r :: r in runs ==> !Overlaps(r, second)
  {
    if runs == [] then None
    else if Overlaps(runs[0], second) then Some(runs[0])
    else
      assert forall r :: r in runs ==> r == runs[0] || r in runs[1..];
      FirstOverlapping(runs[1..], second)
  }

  lemma {:induction false} AllowQualifies(s: Snapshot, id: string, after: int, rows: seq<Run>, second: Run)
    requires forall r :: r in rows <==> r in Finished(RunsFor(s, id))
    ensures AllowWitness(s, id, after, second) <==>
      second in rows && second.started.value.at >= after && FirstOverlapping(rows, second).Some?
    ensures second in rows ==> second.started.Some?
  {
  }

  ghost predicate AllowResult(s: Snapshot, id: string, after: int, found: Observation) {
    (found.Missing? <==> forall second :: !AllowWitness(s, id, after, second)) &&
    (found.Found? ==>
      |found.runs| == 2 && found.covering == found.runs[0] &&
      var second := found.runs[1];
      AllowWitness(s, id, after, second) &&
      (forall r :: AllowWitness(s, id, after, r) ==> !TextLess(r.started.value.text, second.started.value.text)) &&
      found.covering in RunsFor(s, id) && Overlaps(found.covering, second) &&
      (found.terminal <==> second.state in TERMINAL) &&
      (found.policyOk <==> second.state == "succeeded") && found.executionOk == found.policyOk)
  }

  /** As above; a reported pair overlaps, and the policy held exactly when the second run succeeded. */
  method ObserveAllow(s: Snapshot, id: string, after: int) returns (found: Observation)
    ensures AllowResult(s, id, after, found)
  {
    var runs := Finished(RunsFor(s, id));
    var rows := Sorted(runs, RunKey());
    SortedHolds(runs, RunKey());
    SortedIs(runs, RunKey());
    hide Sorted, RunsFor, Finished, AllowWitness;
    forall r
      ensures AllowWitness(s, id, after, r) ==> r in rows
    {
      AllowQualifies(s, id, after, rows, r);
    }
    for i := 0 to |rows|
      invariant forall j :: 0 <= j < i ==> !AllowWitness(s, id, after, rows[j])
    {
      var second := rows[i];
      assert second in runs;
      AllowQualifies(s, id, after, rows, second);
      if second.started.value.at < after {
        continue;
      }
      var first := FirstOverlapping(rows, second);
      if first.None? {
        continue;
      }
      Earliest(rows, RunKey(), i, r => AllowWitness(s, id, after, r));
      var ok := second.state == "succeeded";
      assert first.value in runs;
      return Found(None, first.value, second.state in TERMINAL, ok, ok, [first.value, second]);
    }
    return Missing;
  }

  // ---- the status of a probe ----------------------------------------------

  datatype Status = PASS | FAIL | OPEN | UNKNOWN

  const OBSERVE_SECS := 180.0

  function ObservationStatus(terminal: bool, ok: bool, elapsed: real): Status {
    if terminal && ok then PASS
    else if terminal && !ok then FAIL
    else if elapsed < OBSERVE_SECS then OPEN
    else UNKNOWN
  }

  /** Combines the slots as the runner does: with four passes over their statuses. */
  method ProbeStatus(rows: seq<(bool, bool)>, elapsed: real) returns (status: Status)
    ensures status == PASS <==> rows != [] && forall i :: 0 <= i < |rows| ==> rows[i].0 && rows[i].1
    ensures status == FAIL <==> exists i :: 0 <= i < |rows| && rows[i].0 && !rows[i].1
    ensures status == OPEN ==> elapsed < 180.0
    ensures status == UNKNOWN ==> elapsed >= 180.0
  {
    if rows == [] {
      return if elapsed < OBSERVE_SECS then OPEN else UNKNOWN;
    }
    var statuses := seq(|rows|, i requires 0 <= i < |rows| => ObservationStatus(rows[i].0, rows[i].1, elapsed));
    assert forall i :: 0 <= i < |rows| ==>
      statuses[i] in statuses && statuses[i] == ObservationStatus(rows[i].0, rows[i].1, elapsed);
    if FAIL in statuses {
      return FAIL;
    }
    if OPEN in statuses {
      return OPEN;
    }
    if forall i :: 0 <= i < |statuses| ==> statuses[i] == PASS {
      assert forall i :: 0 <= i < |rows| ==> statuses[i] == PASS;
      return PASS;
    }
    return UNKNOWN;
  }

  /** The status of three slots. */
  method ThreeSlots(a: (bool, bool), b: (bool, bool), c: (bool, bool), elapsed: real) returns (status: Status)
    ensures status == PASS <==> a == b == c == (true, true)
    ensures status == FAIL <==> a == (true, false) || b == (true, false) || c == (true, false)
    ensures status == OPEN ==> elapsed < 180.0
    ensures status == UNKNOWN ==> elapsed >= 180.0
  {
    var rows := [a, b, c];
    status := ProbeStatus(rows, elapsed);
    assert rows[0] == a && rows[1] == b && rows[2] == c;
  }

  datatype Ids = Ids(skip: string, queue: string, allow: string)

  /** A slot skipped inside a run. */
  predicate SkipShown(s: Snapshot, ids: Ids, after: int, o: Occurrence, r: Run) {
    SkipWitness(s, ids.skip, after, o) && r in RunsFor(s, ids.skip) && Covers(r, o.due.value.at)
  }

  /** A settled run whose slot was due inside the run `r` before it. */
  predicate QueueShown(s: Snapshot, ids: Ids, after: int, c: Candidate, r: Run) {
    QueueWitness(s, ids.queue, after, c) && r in RunsFor(s, ids.queue) && r.id != c.run.id &&
    Covers(r, c.occurrence.due.value.at)
  }

  /** It waited for that run to end, and succeeded. */
  predicate Waited(c: Candidate, r: Run) {
    c.run.started.Some? && r.finished.Some? && c.run.state == "succeeded" &&
    c.run.started.value.at >= r.finished.value.at
  }

  predicate AllowShown(s: Snapshot, ids: Ids, after: int, first: Run, second: Run) {
    AllowWitness(s, ids.allow, after, second) && first in RunsFor(s, ids.allow) && Overlaps(first, second)
  }

  ghost predicate SkipSeen(s: Snapshot, ids: Ids, after: int) {
    exists o, r :: SkipShown(s, ids, after, o, r)
  }

  ghost predicate QueueKept(s: Snapshot, ids: Ids, after: int) {
    exists c, r :: QueueShown(s, ids, after, c, r) && Waited(c, r)
  }

  ghost predicate QueueBroken(s: Snapshot, ids: Ids, after: int) {
    exists c, r :: QueueShown(s, ids, after, c, r) && !Waited(c, r)
  }

  ghost predicate AllowKept(s: Snapshot, ids: Ids, after: int) {
    exists first, second :: AllowShown(s, ids, after, first, second) && second.state == "succeeded"
  }

  ghost predicate AllowBroken(s: Snapshot, ids: Ids, after: int) {
    exists first, second ::
      AllowShown(s, ids, after, first, second) && second.state in TERMINAL && second.state != "succeeded"
  }

  /** An overlapping pair whose second run has not been settled. */
  ghost predicate AllowOpen(s: Snapshot, ids: Ids, after: int) {
    exists first, second :: AllowShown(s, ids, after, first, second) && second.state !in TERMINAL
  }

  lemma {:induction false} SkipSlot(s: Snapshot, ids: Ids, after: int, found: Observation)
    requires SkipResult(s, ids.skip, after, found)
    ensures Slot(found) == if SkipSeen(s, ids, after) then (true, true) else (false, false)
  {
    if found.Found? {
      assert SkipShown(s, ids, after, found.occurrence.value, found.covering);
    }
  }

  lemma {:induction false} QueueSlot(s: Snapshot, ids: Ids, after: int, found: Observation)
    requires QueueResult(s, ids.queue, after, found)
    ensures Slot(found) == (false, false) <==> !QueueKept(s, ids, after) && !QueueBroken(s, ids, after)
    ensures Slot(found) != (false, true)
    ensures Slot(found) == (true, true) ==> QueueKept(s, ids, after)
    ensures Slot(found) == (true, false) ==> QueueBroken(s, ids, after)
  {
    if found.Found? {
      var c := Candidate(found.runs[0], found.occurrence.value);
      assert QueueShown(s, ids, after, c, found.covering) && (Waited(c, found.covering) <==> Slot(found).1);
    }
  }

  lemma {:induction false} AllowSlot(s: Snapshot, ids: Ids, after: int, found: Observation)
    requires AllowResult(s, ids.allow, after, found)
    ensures Slot(found) != (false, true)
    ensures Slot(found) == (true, true) ==> AllowKept(s, ids, after)
    ensures Slot(found) == (true, false) ==> AllowBroken(s, ids, after)
    ensures Slot(found) == (false, false) ==>
      AllowOpen(s, ids, after) || (!AllowKept(s, ids, after) && !AllowBroken(s, ids, after))
    ensures AllowKept(s, ids, after) || AllowBroken(s, ids, after) || AllowOpen(s, ids, after) ==> found.Found?
  {
    assert "succeeded" in TERMINAL;
    if found.Found? {
      assert AllowShown(s, ids, after, found.runs[0], found.runs[1]);
    }
  }

  /**
   A probe passes only when the snapshot shows every policy kept, and fails
   only when it shows the queue or the allow policy broken. When it shows none
   broken and no pair unsettled, it passes exactly when each policy is shown;
   it is open, or unknown, only for want of an instance or of an end.
   */
  method Probe(s: Snapshot, ids: Ids, after: int, elapsed: real) returns (status: Status)
    ensures status == PASS ==> SkipSeen(s, ids, after) && QueueKept(s, ids, after) && AllowKept(s, ids, after)
    ensures status == FAIL ==> QueueBroken(s, ids, after) || AllowBroken(s, ids, after)
    ensures !QueueBroken(s, ids, after) && !AllowBroken(s, ids, after) && !AllowOpen(s, ids, after) ==>
      (status == PASS <==> SkipSeen(s, ids, after) && QueueKept(s, ids, after) && AllowKept(s, ids, after))
    ensures QueueBroken(s, ids, after) && !QueueKept(s, ids, after) ==> status == FAIL
    ensures AllowBroken(s, ids, after) && !AllowKept(s, ids, after) && !AllowOpen(s, ids, after) ==> status == FAIL
    ensures status == OPEN || status == UNKNOWN ==>
      !SkipSeen(s, ids, after) || (!QueueKept(s, ids, after) && !QueueBroken(s, ids, after)) ||
      (!AllowKept(s, ids, after) && !AllowBroken(s, ids, after)) || AllowOpen(s, ids, after)
    ensures status == OPEN ==> elapsed < 180.0
    ensures status == UNKNOWN ==> elapsed >= 180.0
  {
    var skip := ObserveSkip(s, ids.skip, after);
    var queue := ObserveQueue(s, ids.queue, after);
    var allow := ObserveAllow(s, ids.allow, after);
    SkipSlot(s, ids, after, skip);
    QueueSlot(s, ids, after, queue);
    AllowSlot(s, ids, after, allow);
    hide SkipSeen, QueueKept, QueueBroken, AllowKept, AllowBroken, AllowOpen, SkipResult, QueueResult, AllowResult;
    status := ThreeSlots(Slot(skip), Slot(queue), Slot(allow), elapsed);
  }
}
