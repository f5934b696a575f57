/**
 What the playback lookup says of a file, and what each operation does to its row,
 told without the triggers (internal/store/playback_lookup_schema.go, recordings.go,
 recording_segment_delete.go).
 */
module LookupMeaning {
  import opened Bytes
  import opened Options
  import opened RecordingIndex
  import opened PlaybackDb
  import opened Publication
  import opened PublishedInterval
  import opened LookupRuns

  // ---------- the lookup ----------

  /** Within half a millisecond. */
  predicate Nearest(ms: int, seconds: real) { -0.5 <= ms as real - seconds * 1000.0 <= 0.5 }

  lemma RoundMsNearest(ts: real)
    ensures Nearest(RoundMs(ts), ts)
  {
  }

  /** A legacy file has cached times once it is ready and ends behind its start, and then those of its row. */
  predicate LegacyTimes(s: Segment) {
    && (s.startMs.Some? <==> s.status == Ready && s.tsEnd.Some? && s.tsEnd.value > s.tsStart)
    && (s.endMs.Some? <==> s.startMs.Some?)
    && (s.startMs.Some? ==> Nearest(s.startMs.value, s.tsStart) && Nearest(s.endMs.value, s.tsEnd.value))
  }

  /** A fragmented file has cached times once it has fragment rows: the earliest start and the latest end of them. */
  predicate FragmentTimes(db: Db, id: int, s: Segment) {
    && (s.startMs.Some? <==> exists k | k in db.fragments :: k.0 == id)
    && (s.endMs.Some? <==> s.startMs.Some?)
    && (s.startMs.Some? ==>
          && (forall k | k in db.fragments && k.0 == id :: s.startMs.value <= db.fragments[k].startMs && db.fragments[k].endMs <= s.endMs.value)
          && (exists k | k in db.fragments && k.0 == id :: db.fragments[k].startMs == s.startMs.value)
          && (exists k | k in db.fragments && k.0 == id :: db.fragments[k].endMs == s.endMs.value))
  }

  /** A file is in the range table when it has cached times and is ready, recording, finalizing or failed. */
  predicate InRanges(s: Segment) {
    s.startMs.Some? && s.endMs.Some? && (s.status == Ready || s.status == Recording || s.status == Finalizing || s.status == FailedFile)
  }

  /** The lookup says of every file what its row and its fragment rows say. */
  lemma LookupMeans(db: Db, r: Rounding, id: int)
    requires Inv(db, r)
    ensures id in db.segments ==>
              var s := db.segments[id];
              && (s.fragmented <==> id in db.media)
              && (if id in db.media then FragmentTimes(db, id, s) else LegacyTimes(s))
    ensures id in db.ranges <==> id in db.segments && InRanges(db.segments[id])
    ensures id in db.ranges ==>
              var s, row := db.segments[id], db.ranges[id];
              && row.cameraMin == r.down(s.camera) && row.cameraMax == r.up(s.camera)
              && row.startMs == r.down(s.startMs.value) && row.endMs == r.up(s.endMs.value)
  {
    hide RoundMs;
    assert RangeExact(db, id, r);
    if id in db.segments {
      var s := db.segments[id];
      assert RowExact(db, id, s);
      RoundMsNearest(s.tsStart);
      if s.tsEnd.Some? { RoundMsNearest(s.tsEnd.value); }
    }
  }

  // ---------- the operations ----------

  /** Only the row of this file changes; what is published stays. */
  predicate TouchesOnly(was: Db, now: Db, id: int) {
    && now.media == was.media && now.fragments == was.fragments
    && now.segments.Keys == was.segments.Keys && forall j | j in was.segments && j != id :: now.segments[j] == was.segments[j]
  }

  /** Up to its end, its status and its cached times a row stays. */
  predicate SameBut(was: Segment, now: Segment, tsEnd: Option<real>, status: Status) {
    now.camera == was.camera && now.tsStart == was.tsStart && now.tsEnd == tsEnd && now.status == status && now.fragmented == was.fragmented
  }

  predicate StatusSet(was: Db, now: Db, id: int, status: Status) {
    if id !in was.segments then now == was
    else TouchesOnly(was, now, id) && SameBut(was.segments[id], now.segments[id], was.segments[id].tsEnd, status)
  }

  lemma UpdateTouches(db: Db, id: int, row: Segment, cols: set<Column>, r: Rounding)
    requires Inv(db, r) && id in db.segments && ChangesOnly(db.segments[id], row, cols)
    ensures var now := UpdateRow(db, id, row, cols, r, NewestFirst);
            TouchesOnly(db, now, id) && SameBut(row, now.segments[id], row.tsEnd, row.status)
  {
    hide UpdateRow, RowExact;
    assert RangeExact(db, id, r);
    UpdateLeaves(db, id, row, cols, r);
  }

  lemma StatusIsSet(db: Db, id: int, status: Status, r: Rounding)
    requires Inv(db, r)
    ensures StatusSet(db, SetStatus(db, id, status, r), id, status)
  {
    hide Inv, UpdateRow;
    if id in db.segments { UpdateTouches(db, id, db.segments[id].(status := status), {StatusColumn}, r); }
  }

  /** The new file has the row it was opened with; its cached times are the lookup's. */
  predicate Opened(was: Db, now: Db, id: int, row: Segment) {
    && now.media == was.media && now.fragments == was.fragments && now.segments.Keys == was.segments.Keys + {id}
    && (forall j | j in was.segments :: now.segments[j] == was.segments[j])
    && SameBut(row.(fragmented := false), now.segments[id], row.tsEnd, row.status)
  }

  lemma InsertOpens(db: Db, id: int, row: Segment, r: Rounding)
    requires Inv(db, r) && id !in db.segments
    ensures Opened(db, InsertRow(db, id, row, r), id, row)
  {
    NothingUnder(db, id, r);
    var blank := row.(fragmented := false, startMs := None, endMs := None);
    var db1 := RangeUpdate(db.(segments := db.segments[id := blank]), id, blank, r);
    assert db1.ranges == db.ranges;
    SetExtremaRanges(db1, id, WithLegacy(blank), r);
  }

  /** Closing works on files that are recording, finalizing or failed, deleting on ready ones; opening works on a new number; a publication is refused or writes the interval of its fragments. */
  ghost predicate Does(was: Db, now: Db, op: Op) {
    match op
    case Open(id, row) => if id in was.segments then now == was else Opened(was, now, id, row)
    case Reopen(id, status) => StatusSet(was, now, id, status)
    case Close(id, tsEnd, status) =>
      if id in was.segments && (was.segments[id].status == Recording || was.segments[id].status == Finalizing || was.segments[id].status == FailedFile)
      then TouchesOnly(was, now, id) && SameBut(was.segments[id], now.segments[id], Some(tsEnd), status)
      else now == was
    case Mark(id, status) => StatusSet(was, now, id, status)
    case Delete(id) => if id in was.segments && was.segments[id].status == Ready then StatusSet(was, now, id, Deleted) else now == was
    case PublishOp(id, x) =>
      if Publishable(was, id, x) then
        && OnlyRow(was, now, id) && IntervalWritten(was.segments[id], now.segments[id], x.index.fragments)
        && id in now.media && now.media[id] == Media(x.index.initLength, x.index.committedOffset, x.codec, x.basis)
        && Added(was.fragments, now.fragments, id, x.index.fragments)
        && forall j | j != id :: (j in now.media) == (j in was.media) && (j in was.media ==> now.media[j] == was.media[j])
      else now == was
  }

  /** What every operation does to the rows. */
  lemma OperationDoes(db: Db, op: Op, r: Rounding)
    requires Inv(db, r)
    ensures Does(db, Apply(db, op, r), op)
  {
    hide Inv, UpdateRow, InsertRow, Publish, Publishable, StatusSet, SameBut, TouchesOnly, Opened, Added, IntervalWritten;
    match op
    case Open(id, row) => if id !in db.segments { InsertOpens(db, id, row, r); }
    case Reopen(id, status) => StatusIsSet(db, id, status, r);
    case Close(id, tsEnd, status) => if id in db.segments { CloseDoes(db, id, tsEnd, status, r); }
    case Mark(id, status) => StatusIsSet(db, id, status, r);
    case Delete(id) => StatusIsSet(db, id, Deleted, r);
    case PublishOp(id, x) =>
      PublishedExactly(db, id, x, r);
      if Publish(db, id, x, r).Published? {
        PublishWrites(db, id, x, r);
        PublishKeeps(db, id, x, r);
      }
  }

  lemma CloseDoes(db: Db, id: int, tsEnd: real, status: Status, r: Rounding)
    requires Inv(db, r) && id in db.segments
    ensures var now := UpdateRow(db, id, db.segments[id].(tsEnd := Some(tsEnd), status := status), {TsEnd, StatusColumn}, r, NewestFirst);
            TouchesOnly(db, now, id) && SameBut(db.segments[id], now.segments[id], Some(tsEnd), status)
  {
    hide Inv, UpdateRow;
    UpdateTouches(db, id, db.segments[id].(tsEnd := Some(tsEnd), status := status), {TsEnd, StatusColumn}, r);
  }
}
