/** What the checks on the evidence say about the snapshots themselves. */
module SoakPass {
  import opened Dict
  import opened SoakData
  import opened SoakEvidence
  import opened Wrappers

  // ---- clean snapshots ----------------------------------------------------

  /** Every occurrence has at most one run, is not silently lost, and is not stranded. */
  predicate CleanOccurrence(o: Occurrence, clock: Clock) {
    |o.runs| <= 1 && !(o.state in SILENT && o.runs == []) && !Stranded(clock)(o)
  }

  /** Every run has ended, and, in a product lane, none ended in a product failure. */
  predicate CleanRun(name: string, r: Run) {
    r.state !in UNSETTLED && (name !in {"fault", "agent"} ==> r.state !in PRODUCT_FAILURES)
  }

  /** The recorded lines of each shell marker are as many as the succeeded runs allow. */
  predicate CleanMarker(lane: Lane, spec: Spec) {
    ShellMarked(spec) ==>
      LastMarker(lane.specs, spec.key).Some? &&
      LinesAllowed(lane, spec.key, Lines(lane, LastMarker(lane.specs, spec.key).value))
  }

  ghost predicate CleanLane(lane: Lane, clock: Clock) {
    (forall r :: r in lane.snapshot.runs ==> CleanRun(lane.name, r)) &&
    (forall o :: o in lane.snapshot.occurrences ==> CleanOccurrence(o, clock)) &&
    (forall i :: 0 <= i < |lane.specs| ==> CleanMarker(lane, lane.specs[i]))
  }

  ghost predicate Clean(lanes: seq<Lane>, clock: Clock) {
    forall i :: 0 <= i < |lanes| ==> CleanLane(lanes[i], clock)
  }

  // ---- rows and the runs they stand for -----------------------------------

  lemma {:induction false} RunRowsHold(name: string, runs: seq<Run>, keep: Run -> bool, row: Row)
    ensures row in RunRows(name, runs, keep) <==>
      exists r :: r in runs && keep(r) && row == Row(name, r.id, r.state)
  {
    if runs != [] {
      var n := |runs| - 1;
      RunRowsHold(name, runs[..n], keep, row);
      assert runs == runs[..n] + [runs[n]];
    }
  }

  lemma {:induction false} OccurrenceRowsHold(name: string, rows: seq<Occurrence>, keep: Occurrence -> bool, row: Row)
    ensures row in OccurrenceRows(name, rows, keep) <==>
      exists o :: o in rows && keep(o) && row == Row(name, o.id, o.state)
  {
    if rows != [] {
      var n := |rows| - 1;
      OccurrenceRowsHold(name, rows[..n], keep, row);
      assert rows == rows[..n] + [rows[n]];
    }
  }

  /** Some lane's run stands behind the row. */
  predicate RunBehind(lanes: seq<Lane>, keep: Run -> bool, i: nat, r: Run, row: Row) {
    i < |lanes| && r in lanes[i].snapshot.runs && keep(r) && row == Row(lanes[i].name, r.id, r.state)
  }

  predicate OccurrenceBehind(lanes: seq<Lane>, keep: Occurrence -> bool, i: nat, o: Occurrence, row: Row) {
    i < |lanes| && o in lanes[i].snapshot.occurrences && keep(o) && row == Row(lanes[i].name, o.id, o.state)
  }

  lemma {:induction false} AllRunRowsHold(lanes: seq<Lane>, keep: Run -> bool, row: Row)
    ensures row in AllRunRows(lanes, keep) <==> exists i: nat, r :: RunBehind(lanes, keep, i, r, row)
  {
    if lanes != [] {
      var n := |lanes| - 1;
      AllRunRowsHold(lanes[..n], keep, row);
      RunRowsHold(lanes[n].name, lanes[n].snapshot.runs, keep, row);
      assert AllRunRows(lanes, keep) ==
        AllRunRows(lanes[..n], keep) + RunRows(lanes[n].name, lanes[n].snapshot.runs, keep);
      hide AllRunRows, RunRows;
      if row in AllRunRows(lanes[..n], keep) {
        var i: nat, r :| RunBehind(lanes[..n], keep, i, r, row);
        assert RunBehind(lanes, keep, i, r, row);
      } else if row in RunRows(lanes[n].name, lanes[n].snapshot.runs, keep) {
        var r :| r in lanes[n].snapshot.runs && keep(r) && row == Row(lanes[n].name, r.id, r.state);
        assert RunBehind(lanes, keep, n, r, row);
      }
      if i: nat, r :| RunBehind(lanes, keep, i, r, row) {
        assert i < n ==> RunBehind(lanes[..n], keep, i, r, row);
      }
    }
  }

  lemma {:induction false} AllOccurrenceRowsHold(lanes: seq<Lane>, keep: Occurrence -> bool, row: Row)
    ensures row in AllOccurrenceRows(lanes, keep) <==> exists i: nat, o :: OccurrenceBehind(lanes, keep, i, o, row)
  {
    if lanes != [] {
      var n := |lanes| - 1;
      AllOccurrenceRowsHold(lanes[..n], keep, row);
      OccurrenceRowsHold(lanes[n].name, lanes[n].snapshot.occurrences, keep, row);
      assert AllOccurrenceRows(lanes, keep) ==
        AllOccurrenceRows(lanes[..n], keep) + OccurrenceRows(lanes[n].name, lanes[n].snapshot.occurrences, keep);
      hide AllOccurrenceRows, OccurrenceRows;
      if row in AllOccurrenceRows(lanes[..n], keep) {
        var i: nat, o :| OccurrenceBehind(lanes[..n], keep, i, o, row);
        assert OccurrenceBehind(lanes, keep, i, o, row);
      } else if row in OccurrenceRows(lanes[n].name, lanes[n].snapshot.occurrences, keep) {
        var o :| o in lanes[n].snapshot.occurrences && keep(o) && row == Row(lanes[n].name, o.id, o.state);
        assert OccurrenceBehind(lanes, keep, n, o, row);
      }
      if i: nat, o :| OccurrenceBehind(lanes, keep, i, o, row) {
        assert i < n ==> OccurrenceBehind(lanes[..n], keep, i, o, row);
      }
    }
  }

  // ---- each list is empty exactly when nothing stands behind it -----------

  /** No row passes the second test exactly when no run passes both. */
  lemma {:induction false} NoRunRows(lanes: seq<Lane>, keep: Run -> bool, also: Row -> bool)
    ensures Filter(AllRunRows(lanes, keep), also) == [] <==>
      forall i, r :: 0 <= i < |lanes| && r in lanes[i].snapshot.runs && keep(r) ==>
        !also(Row(lanes[i].name, r.id, r.state))
  {
    var rows := AllRunRows(lanes, keep);
    var kept := Filter(rows, also);
    forall i, r | 0 <= i < |lanes| && r in lanes[i].snapshot.runs && keep(r) && kept == []
      ensures !also(Row(lanes[i].name, r.id, r.state))
    {
      var row := Row(lanes[i].name, r.id, r.state);
      AllRunRowsHold(lanes, keep, row);
      assert RunBehind(lanes, keep, i, r, row);
      assert row !in kept;
    }
    if kept != [] {
      var row := kept[0];
      assert row in kept;
      AllRunRowsHold(lanes, keep, row);
      var i: nat, r :| RunBehind(lanes, keep, i, r, row);
      assert also(Row(lanes[i].name, r.id, r.state));
    }
  }

  lemma {:induction false} NoOccurrenceRows(lanes: seq<Lane>, keep: Occurrence -> bool, also: Row -> bool)
    ensures Filter(AllOccurrenceRows(lanes, keep), also) == [] <==>
      forall i, o :: 0 <= i < |lanes| && o in lanes[i].snapshot.occurrences && keep(o) ==>
        !also(Row(lanes[i].name, o.id, o.state))
  {
    var rows := AllOccurrenceRows(lanes, keep);
    var kept := Filter(rows, also);
    forall i, o | 0 <= i < |lanes| && o in lanes[i].snapshot.occurrences && keep(o) && kept == []
      ensures !also(Row(lanes[i].name, o.id, o.state))
    {
      var row := Row(lanes[i].name, o.id, o.state);
      AllOccurrenceRowsHold(lanes, keep, row);
      assert OccurrenceBehind(lanes, keep, i, o, row);
      assert row !in kept;
    }
    if kept != [] {
      var row := kept[0];
      assert row in kept;
      AllOccurrenceRowsHold(lanes, keep, row);
      var i: nat, o :| OccurrenceBehind(lanes, keep, i, o, row);
      assert also(Row(lanes[i].name, o.id, o.state));
    }
  }

  function Any(): Row -> bool {
    (row: Row) => true
  }

  lemma {:induction false} FilterAny(rows: seq<Row>)
    ensures Filter(rows, Any()) == [] <==> rows == []
  {
    if rows != [] {
      assert rows[0] in Filter(rows, Any());
    }
  }

  // ---- effects ------------------------------------------------------------

  lemma {:induction false} ShellIsJudged(specs: seq<Spec>, i: nat)
    requires i < |specs| && ShellMarked(specs[i])
    ensures Judged(specs, specs[i].key) && LastMarker(specs, specs[i].key).Some?
  {
    HasMarker(specs, i);
  }

  /** A lane has no mismatch exactly when all its shell markers are clean. */
  lemma {:induction false} MismatchesAreUnclean(e: LaneEvidence, lane: Lane)
    requires DescribesLane(e, lane)
    ensures (forall j: nat :: !Mismatch(e, j)) <==>
      forall i :: 0 <= i < |lane.specs| ==> CleanMarker(lane, lane.specs[i])
  {
    EntriesAreGets(e.effects);
    hide LinesAllowed, Get, LastMarker, Counts, UniqueKeys;
    forall i | 0 <= i < |lane.specs| && forall j: nat :: !Mismatch(e, j)
      ensures CleanMarker(lane, lane.specs[i])
    {
      if ShellMarked(lane.specs[i]) {
        ShellIsJudged(lane.specs, i);
        var key := lane.specs[i].key;
        var entry := Entry(key, Get(e.effects, key).value);
        var j :| 0 <= j < |e.effects| && e.effects[j] == entry;
        assert !Mismatch(e, j);
      }
    }
    forall j: nat | Mismatch(e, j)
      ensures exists i :: 0 <= i < |lane.specs| && !CleanMarker(lane, lane.specs[i])
    {
      var entry := e.effects[j];
      assert Get(e.effects, entry.key) == Some(entry.value);
      var i :| 0 <= i < |lane.specs| && lane.specs[i].key == entry.key && ShellMarked(lane.specs[i]);
      assert !CleanMarker(lane, lane.specs[i]);
    }
  }

  lemma {:induction false} NoExcessIn(effects: Dictionary<Effect>)
    requires forall j :: 0 <= j < |effects| ==>
      (effects[j].value.succeeded.Some? ==> effects[j].value.matches == Some(true))
    ensures ExcessIn(effects) == 0
  {
    if effects != [] {
      NoExcessIn(effects[..|effects| - 1]);
    }
  }

  /** Without a mismatch no marker line counts as a duplicate. */
  lemma {:induction false} NoExcess(es: seq<LaneEvidence>, lanes: seq<Lane>)
    requires |es| == |lanes| && forall i :: 0 <= i < |es| ==> DescribesLane(es[i], lanes[i])
    requires forall i, j: nat :: 0 <= i < |es| ==> !Mismatch(es[i], j)
    ensures Excess(es) == 0
  {
    if es != [] {
      var n := |es| - 1;
      NoExcess(es[..n], lanes[..n]);
      var effects := es[n].effects;
      EntriesAreGets(effects);
      forall j | 0 <= j < |effects|
        ensures effects[j].value.succeeded.Some? ==> effects[j].value.matches == Some(true)
      {
        assert !Mismatch(es[n], j);
        assert effects[j] in effects;
        assert Get(effects, effects[j].key) == Expected(lanes[n], lanes[n].specs, effects[j].key);
      }
      NoExcessIn(effects);
    }
  }

  // ---- the checks and the snapshots ---------------------------------------

  lemma {:induction false} RunsClean(e: Evidence, lanes: seq<Lane>, clock: Clock)
    requires Describes(e, lanes, clock)
    ensures e.unsettled == [] && ShellOk(e) <==>
      forall i, r :: 0 <= i < |lanes| && r in lanes[i].snapshot.runs ==> CleanRun(lanes[i].name, r)
  {
    NoRunRows(lanes, Unsettled(), Any());
    FilterAny(e.unsettled);
    NoRunRows(lanes, Failure(), ProductFailure());
    assert PRODUCT_FAILURES <= FAILURES;
    hide Filter, AllRunRows, DescribesLane, CountsAll, AllOccurrenceRows;
  }

  lemma {:induction false} NoneKept(lanes: seq<Lane>, keep: Occurrence -> bool)
    ensures AllOccurrenceRows(lanes, keep) == [] <==>
      forall i, o :: 0 <= i < |lanes| && o in lanes[i].snapshot.occurrences ==> !keep(o)
  {
    NoOccurrenceRows(lanes, keep, Any());
    FilterAny(AllOccurrenceRows(lanes, keep));
    hide Filter, AllOccurrenceRows;
    assert forall row :: Any()(row);
  }

  lemma {:induction false} NoneSilent(lanes: seq<Lane>)
    ensures Filter(AllOccurrenceRows(lanes, WithoutRun()), Silent()) == [] <==>
      forall i, o :: 0 <= i < |lanes| && o in lanes[i].snapshot.occurrences ==> !(o.state in SILENT && o.runs == [])
  {
    NoOccurrenceRows(lanes, WithoutRun(), Silent());
    assert SILENT <= CLASSIFIED;
    hide Filter, AllOccurrenceRows;
  }

  lemma {:induction false} OccurrencesClean(e: Evidence, lanes: seq<Lane>, clock: Clock)
    requires Describes(e, lanes, clock)
    ensures e.duplicates == [] && e.stranded == [] && Filter(e.withoutRun, Silent()) == [] <==>
      forall i, o :: 0 <= i < |lanes| && o in lanes[i].snapshot.occurrences ==> CleanOccurrence(o, clock)
  {
    NoneKept(lanes, Duplicated());
    NoneKept(lanes, Stranded(clock));
    NoneSilent(lanes);
    hide Filter, AllRunRows, DescribesLane, CountsAll, AllOccurrenceRows;
    forall i, o | 0 <= i < |lanes| && o in lanes[i].snapshot.occurrences
      ensures CleanOccurrence(o, clock) <==>
        !Duplicated()(o) && !Stranded(clock)(o) && !(o.state in SILENT && o.runs == [])
    {
    }
    hide Stranded, Duplicated, WithoutRun, Silent, CleanOccurrence;
  }

  lemma {:induction false} MarkersClean(e: Evidence, lanes: seq<Lane>, clock: Clock)
    requires Describes(e, lanes, clock)
    ensures EffectsOk(e) <==>
      forall i, k :: 0 <= i < |lanes| && 0 <= k < |lanes[i].specs| ==> CleanMarker(lanes[i], lanes[i].specs[k])
    ensures EffectsOk(e) ==> Excess(e.lanes) == 0
  {
    forall i | 0 <= i < |lanes|
      ensures (forall j: nat :: !Mismatch(e.lanes[i], j)) <==>
        forall k :: 0 <= k < |lanes[i].specs| ==> CleanMarker(lanes[i], lanes[i].specs[k])
    {
      assert DescribesLane(e.lanes[i], lanes[i]);
      MismatchesAreUnclean(e.lanes[i], lanes[i]);
    }
    if EffectsOk(e) {
      NoExcess(e.lanes, lanes);
    }
    hide Mismatch, CleanMarker, DescribesLane;
  }

  /**
   Under the frozen thresholds the three checks on the evidence pass exactly
   when the snapshots are clean.
   */
  lemma {:induction false} ChecksExactlyClean(e: Evidence, lanes: seq<Lane>, clock: Clock)
    requires Describes(e, lanes, clock)
    ensures OccurrencesOk(e, FROZEN) && ShellOk(e) && EffectsOk(e) <==> Clean(lanes, clock)
  {
    RunsClean(e, lanes, clock);
    OccurrencesClean(e, lanes, clock);
    MarkersClean(e, lanes, clock);
    hide Describes, CleanRun, CleanOccurrence, CleanMarker, EffectsOk, ShellOk, Filter, Excess;
  }
}
