/** The instances of the three overlap policies, in the states and instants that the rows themselves hold. */
module SoakWitness {
  import opened SoakData
  import opened SoakOverlap

  /** The run is one of the definition's, and was active at the instant: from its start on, and before its finish. */
  predicate ActiveAt(s: Snapshot, id: string, r: Run, at: int) {
    id != "" && r in s.runs && r.definition == id && r.started.Some? && r.finished.Some? &&
    r.started.value.at <= at && at < r.finished.value.at
  }

  /** Of two runs that follow each other without a gap, exactly one is active at every instant of either. */
  lemma {:induction false} OneIsActive(first: Run, second: Run, at: int)
    requires first.started.Some? && first.finished.Some? && second.started == first.finished && second.finished.Some?
    requires first.started.value.at <= at < second.finished.value.at
    ensures Covers(first, at) <==> !Covers(second, at)
  {
  }

  /** Exactly one of the slot's runs was skipped. */
  ghost predicate OneSkipped(o: Occurrence) {
    exists before, r, rest ::
      o.runs == before + [r] + rest && r.state == "skipped" && NoneSkipped(before) && NoneSkipped(rest)
  }

  predicate NoneSkipped(runs: seq<Run>) {
    forall i :: 0 <= i < |runs| ==> runs[i].state != "skipped"
  }

  function SkippedState(): Run -> bool {
    (r: Run) => r.state == "skipped"
  }

  lemma {:induction false} FilterConcat<T(!new)>(a: seq<T>, b: seq<T>, keep: T -> bool)
    ensures Filter(a + b, keep) == Filter(a, keep) + Filter(b, keep)
  {
    if a == [] {
      assert a + b == b;
    } else {
      assert (a + b)[1..] == a[1..] + b;
      FilterConcat(a[1..], b, keep);
    }
  }

  lemma {:induction false} FilterNothing(runs: seq<Run>)
    ensures Filter(runs, SkippedState()) == [] <==> NoneSkipped(runs)
  {
    if runs != [] {
      FilterNothing(runs[1..]);
      assert forall i :: 1 <= i < |runs| ==> runs[i] == runs[1..][i - 1];
    }
  }

  lemma {:induction false} FilterSplits(runs: seq<Run>) returns (before: seq<Run>, r: Run, rest: seq<Run>)
    requires Filter(runs, SkippedState()) != []
    ensures runs == before + [r] + rest && r.state == "skipped" && NoneSkipped(before)
  {
    if runs[0].state == "skipped" {
      before, r, rest := [], runs[0], runs[1..];
    } else {
      var more;
      more, r, rest := FilterSplits(runs[1..]);
      before := [runs[0]] + more;
      assert runs == [runs[0]] + (more + [r] + rest);
    }
  }

  lemma {:induction false} OneSkippedIs(o: Occurrence)
    ensures |Skipped(o)| == 1 <==> OneSkipped(o)
  {
    assert Skipped(o) == Filter(o.runs, SkippedState()) by {
      SameFilter(o.runs, (r: Run) => r.state == "skipped", SkippedState());
    }
    if |Skipped(o)| == 1 {
      var before, r, rest := FilterSplits(o.runs);
      SplitCount(before, r, rest);
    }
    if before, r, rest :|
      o.runs == before + [r] + rest && r.state == "skipped" && NoneSkipped(before) && NoneSkipped(rest) {
      SplitCount(before, r, rest);
    }
  }

  lemma {:induction false} SameFilter(runs: seq<Run>, f: Run -> bool, g: Run -> bool)
    requires forall r :: f(r) == g(r)
    ensures Filter(runs, f) == Filter(runs, g)
  {
    if runs != [] {
      SameFilter(runs[1..], f, g);
    }
  }

  lemma {:induction false} SplitCount(before: seq<Run>, r: Run, rest: seq<Run>)
    requires r.state == "skipped" && NoneSkipped(before)
    ensures |Filter(before + [r] + rest, SkippedState())| == 1 <==> NoneSkipped(rest)
  {
    FilterConcat(before + [r], rest, SkippedState());
    FilterConcat(before, [r], SkippedState());
    FilterNothing(before);
    FilterNothing(rest);
    assert [r][1..] == [] && Filter([r], SkippedState()) == [r] + [];
  }

  /** A slot that was skipped, with one skipped run, due since the probe began and while a run was active. */
  ghost predicate SkippedWhile(s: Snapshot, id: string, after: int, o: Occurrence, r: Run) {
    o in s.occurrences && o.definition == id && o.state == "skipped" && OneSkipped(o) &&
    o.due.Some? && o.due.value.at >= after && ActiveAt(s, id, r, o.due.value.at)
  }

  lemma {:induction false} SkipShownIs(s: Snapshot, ids: Ids, after: int, o: Occurrence, r: Run)
    ensures SkipShown(s, ids, after, o, r) <==> SkippedWhile(s, ids.skip, after, o, r)
  {
    OneSkippedIs(o);
    hide OneSkipped, Skipped, RunsFor, OccurrencesFor;
    if SkippedWhile(s, ids.skip, after, o, r) {
      assert o in OccurrencesFor(s, ids.skip);
      assert r in RunsFor(s, ids.skip) && Covers(r, o.due.value.at);
    }
  }

  lemma {:induction false} SkipSeenExactly(s: Snapshot, ids: Ids, after: int)
    ensures SkipSeen(s, ids, after) <==> exists o, r :: SkippedWhile(s, ids.skip, after, o, r)
  {
    forall o, r
      ensures SkipShown(s, ids, after, o, r) <==> SkippedWhile(s, ids.skip, after, o, r)
    {
      SkipShownIs(s, ids, after, o, r);
    }
    hide SkipShown, SkippedWhile;
  }

  /** A run of a slot that came due while another run was active, started since the probe began and ended since. */
  predicate Queued(s: Snapshot, id: string, after: int, o: Occurrence, q: Run, r: Run) {
    o in s.occurrences && o.definition == id && q in o.runs && o.due.Some? &&
    q.started.Some? && q.started.value.at >= after && q.finished.Some? &&
    q.state in {"succeeded", "failed", "unknown", "blocked", "cancelled", "skipped"} &&
    ActiveAt(s, id, r, o.due.value.at) && r.id != q.id
  }

  lemma {:induction false} QueueShownIs(s: Snapshot, ids: Ids, after: int, c: Candidate, r: Run)
    ensures QueueShown(s, ids, after, c, r) <==> Queued(s, ids.queue, after, c.occurrence, c.run, r)
    ensures QueueShown(s, ids, after, c, r) ==>
      (Waited(c, r) <==> c.run.state == "succeeded" && c.run.started.value.at >= r.finished.value.at)
  {
    hide RunsFor, OccurrencesFor;
    EndsAre();
    if Queued(s, ids.queue, after, c.occurrence, c.run, r) {
      assert c.occurrence in OccurrencesFor(s, ids.queue);
      assert r in RunsFor(s, ids.queue) && Covers(r, c.occurrence.due.value.at);
    }
    hide TERMINAL;
  }

  /** It succeeded, and began no earlier than the other one finished. */
  predicate InTurn(q: Run, r: Run) {
    q.started.Some? && r.finished.Some? && q.state == "succeeded" && q.started.value.at >= r.finished.value.at
  }

  /** The queue policy is shown kept by one that took its turn, and broken by any that did not. */
  lemma {:induction false} QueueExactly(s: Snapshot, ids: Ids, after: int)
    ensures QueueKept(s, ids, after) <==>
      exists o, q, r :: Queued(s, ids.queue, after, o, q, r) && InTurn(q, r)
    ensures QueueBroken(s, ids, after) <==>
      exists o, q, r :: Queued(s, ids.queue, after, o, q, r) && !InTurn(q, r)
  {
    forall o, q, r
      ensures QueueShown(s, ids, after, Candidate(q, o), r) <==> Queued(s, ids.queue, after, o, q, r)
      ensures Waited(Candidate(q, o), r) <==> InTurn(q, r)
    {
      QueueShownIs(s, ids, after, Candidate(q, o), r);
    }
    assert forall c: Candidate :: c == Candidate(c.run, c.occurrence);
    hide QueueShown, Queued, Waited, InTurn;
    if QueueKept(s, ids, after) {
      var c, r :| QueueShown(s, ids, after, c, r) && Waited(c, r);
      assert QueueShown(s, ids, after, Candidate(c.run, c.occurrence), r);
    }
    if QueueBroken(s, ids, after) {
      var c, r :| QueueShown(s, ids, after, c, r) && !Waited(c, r);
      assert QueueShown(s, ids, after, Candidate(c.run, c.occurrence), r);
    }
    forall o, q, r | Queued(s, ids.queue, after, o, q, r)
      ensures if InTurn(q, r) then QueueKept(s, ids, after) else QueueBroken(s, ids, after)
    {
      assert QueueShown(s, ids, after, Candidate(q, o), r);
    }
  }

  /** Two different runs of the definition, the second started since the probe began and while the first was active. */
  predicate Together(s: Snapshot, id: string, after: int, first: Run, second: Run) {
    second in s.runs && second.definition == id && second.started.Some? && second.finished.Some? &&
    second.started.value.at >= after && ActiveAt(s, id, first, second.started.value.at) && first.id != second.id
  }

  /** The concurrent policy is shown kept, broken or open by how the second of such a pair ended. */
  lemma {:induction false} AllowExactly(s: Snapshot, ids: Ids, after: int)
    ensures AllowKept(s, ids, after) <==>
      exists first, second :: Together(s, ids.allow, after, first, second) && second.state == "succeeded"
    ensures AllowBroken(s, ids, after) <==>
      exists first, second :: Together(s, ids.allow, after, first, second) &&
        second.state in {"failed", "unknown", "blocked", "cancelled", "skipped"}
    ensures AllowOpen(s, ids, after) <==>
      exists first, second :: Together(s, ids.allow, after, first, second) &&
        second.state !in {"succeeded", "failed", "unknown", "blocked", "cancelled", "skipped"}
  {
    forall first, second
      ensures AllowShown(s, ids, after, first, second) <==> Together(s, ids.allow, after, first, second)
    {
      AllowShownIs(s, ids, after, first, second);
    }
    EndsAre();
    hide AllowShown, Together, TERMINAL;
  }

  lemma {:induction false} EndsAre()
    ensures forall state :: state in TERMINAL <==>
      state in {"succeeded", "failed", "unknown", "blocked", "cancelled", "skipped"}
    ensures forall state :: state in TERMINAL && state != "succeeded" <==>
      state in {"failed", "unknown", "blocked", "cancelled", "skipped"}
  {
  }

  lemma {:induction false} AllowShownIs(s: Snapshot, ids: Ids, after: int, first: Run, second: Run)
    ensures AllowShown(s, ids, after, first, second) <==> Together(s, ids.allow, after, first, second)
  {
  }
}
