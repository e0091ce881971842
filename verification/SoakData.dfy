/** The rows of a schedule snapshot that the soak runner's judgements read. */
module SoakData {
  import opened Wrappers

  /** A timestamp as it is stored, and the instant it denotes. A row without one, or with an empty text, has `None`. */
  datatype Stamp = Stamp(text: string, at: int)

  /** What a row sorts by: the stored text, or nothing. */
  function Key(stamp: Option<Stamp>): string {
    if stamp.Some? then stamp.value.text else ""
  }

  datatype Run = Run(id: string, definition: string, state: string, started: Option<Stamp>, finished: Option<Stamp>)

  datatype Occurrence = Occurrence(id: string, definition: string, state: string, due: Option<Stamp>, runs: seq<Run>)

  datatype Snapshot = Snapshot(runs: seq<Run>, occurrences: seq<Occurrence>)

  const TERMINAL: set<string> := {"succeeded", "failed", "unknown", "blocked", "cancelled", "skipped"}

  function Filter<T(!new)>(xs: seq<T>, keep: T -> bool): (ys: seq<T>)
    ensures forall y :: y in ys <==> y in xs && keep(y)
    ensures |ys| <= |xs|
  {
    if xs == [] then []
    else
      assert xs == [xs[0]] + xs[1..];
      (if keep(xs[0]) then [xs[0]] else []) + Filter(xs[1..], keep)
  }

  /** One step of a loop that collects what it keeps. */
  lemma {:induction false} FilterStep<T(!new)>(kept: seq<T>, xs: seq<T>, i: nat, keep: T -> bool)
    requires i < |xs|
    ensures kept + Filter(xs[i..], keep) ==
      (if keep(xs[i]) then kept + [xs[i]] else kept) + Filter(xs[i + 1..], keep)
  {
    assert xs[i..][1..] == xs[i + 1..];
    var rest := Filter(xs[i + 1..], keep);
    assert Filter(xs[i..], keep) == (if keep(xs[i]) then [xs[i]] else []) + rest;
    hide Filter;
    assert kept + ([xs[i]] + rest) == (kept + [xs[i]]) + rest;
    assert [] + rest == rest;
  }

  lemma {:induction false} FilterNone<T(!new)>(xs: seq<T>, keep: T -> bool)
    ensures Filter(xs[|xs|..], keep) == []
  {
  }
}
