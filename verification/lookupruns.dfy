/**
 Whole histories of the recordings database: segment opens, closes, failures,
 deletions and publications (internal/store/recordings.go, playback_media.go,
 recording_segment_delete.go), the migration that installs the lookup, and what
 depends on the order of its triggers.
 */
module LookupRuns {
  import opened Bytes
  import opened Options
  import opened Listings
  import opened RecordingIndex
  import opened PlaybackDb
  import opened Publication

  datatype Op =
    | Open(id: int, row: Segment)
    | Reopen(id: int, status: Status)
    | Close(id: int, tsEnd: real, status: Status)
    | Mark(id: int, status: Status)
    | Delete(id: int)
    | PublishOp(id: int, index: MediaIndex)

  /** An operation that finds no row to work on, or is refused, changes nothing. */
  function Apply(db: Db, op: Op, r: Rounding): Db {
    match op
    case Open(id, row) => if id in db.segments then db else InsertRow(db, id, row, r)
    case Reopen(id, status) => SetStatus(db, id, status, r)
    case Close(id, tsEnd, status) =>
      if id !in db.segments || !(db.segments[id].status in {Recording, Finalizing, FailedFile}) then db
      else UpdateRow(db, id, db.segments[id].(tsEnd := Some(tsEnd), status := status), {TsEnd, StatusColumn}, r, NewestFirst)
    case Mark(id, status) => SetStatus(db, id, status, r)
    case Delete(id) => if id in db.segments && db.segments[id].status == Ready then SetStatus(db, id, Deleted, r) else db
    case PublishOp(id, x) => match Publish(db, id, x, r) case Published(db') => db' case _ => db
  }

  function SetStatus(db: Db, id: int, status: Status, r: Rounding): Db {
    if id !in db.segments then db
    else UpdateRow(db, id, db.segments[id].(status := status), {StatusColumn}, r, NewestFirst)
  }

  function Run(db: Db, ops: seq<Op>, r: Rounding): Db {
    if ops == [] then db else Apply(Run(db, ops[..|ops| - 1], r), ops[|ops| - 1], r)
  }

  lemma ApplyKeeps(db: Db, op: Op, r: Rounding)
    requires Inv(db, r)
    ensures Inv(Apply(db, op, r), r)
  {
    hide Inv, UpdateRow, InsertRow, Publish;
    match op
    case Open(id, row) => if id !in db.segments { InsertKeeps(db, id, row, r); }
    case Reopen(id, status) => SetStatusKeeps(db, id, status, r);
    case Close(id, tsEnd, status) =>
      if id in db.segments {
        UpdateKeeps(db, id, db.segments[id].(tsEnd := Some(tsEnd), status := status), {TsEnd, StatusColumn}, r);
      }
    case Mark(id, status) => SetStatusKeeps(db, id, status, r);
    case Delete(id) => SetStatusKeeps(db, id, Deleted, r);
    case PublishOp(id, x) => if Publish(db, id, x, r).Published? { PublishKeeps(db, id, x, r); }
  }

  lemma SetStatusKeeps(db: Db, id: int, status: Status, r: Rounding)
    requires Inv(db, r)
    ensures Inv(SetStatus(db, id, status, r), r)
  {
    hide Inv, UpdateRow;
    if id in db.segments { UpdateKeeps(db, id, db.segments[id].(status := status), {StatusColumn}, r); }
  }

  /** After any history the cached extrema are those of the fragment rows, and the range table lists exactly the available files. */
  lemma {:induction false} LookupStaysExact(db: Db, ops: seq<Op>, r: Rounding)
    requires Inv(db, r)
    ensures Inv(Run(db, ops, r), r)
    decreases |ops|
  {
    hide Inv, Apply;
    if ops != [] {
      LookupStaysExact(db, ops[..|ops| - 1], r);
      ApplyKeeps(Run(db, ops[..|ops| - 1], r), ops[|ops| - 1], r);
    }
  }

  lemma RoundMsMonotone(a: real, b: real)
    requires a <= b
    ensures RoundMs(a) <= RoundMs(b)
  {
  }

  /** R-tree rows never have their start behind their end, which SQLite would refuse. */
  lemma RangeRowsOrdered(db: Db, id: int, r: Rounding)
    requires Inv(db, r) && Outward(r) && id in db.ranges
    ensures db.ranges[id].startMs <= db.ranges[id].endMs && db.ranges[id].cameraMin <= db.ranges[id].cameraMax
    ensures id in db.segments && Available(db.segments[id]) && db.segments[id].startMs.value <= db.segments[id].endMs.value
  {
    assert RangeExact(db, id, r);
    var s := db.segments[id];
    assert RowExact(db, id, s);
    if s.fragmented {
      var k :| k in db.fragments && k.0 == id && db.fragments[k].startMs == s.startMs.value;
      assert db.fragments[k].startMs < db.fragments[k].endMs;
    } else {
      RoundMsMonotone(s.tsStart, s.tsEnd.value);
    }
    assert r.down(s.startMs.value) <= s.startMs.value as real <= s.endMs.value as real <= r.up(s.endMs.value);
    assert r.down(s.camera) <= s.camera as real <= r.up(s.camera);
  }

  // ---------- trigger order ----------

  /**
   Were the oldest trigger to run first, the range trigger would run last with the
   row values from before the legacy trigger.  Closing or marking a legacy file
   keeps the lookup exact under that order exactly when its status stays, or it is
   neither playable afterwards nor playable before and still listed.
   */
  lemma OldestFirstOrder(db: Db, id: int, tsEnd: Option<real>, status: Status, r: Rounding)
    requires Inv(db, r) && id in db.segments && !db.segments[id].fragmented
    ensures var was := db.segments[id];
            var row := was.(tsEnd := tsEnd, status := status);
            Inv(UpdateRow(db, id, row, {TsEnd, StatusColumn}, r, OldestFirst), r)
            <==> (was.status == status || !(LegacyPlayable(row) || (LegacyPlayable(was) && Listed(status))))
  {
    var was := db.segments[id];
    var row := was.(tsEnd := tsEnd, status := status);
    var db' := UpdateRow(db, id, row, {TsEnd, StatusColumn}, r, OldestFirst);
    assert RowExact(db, id, was) && RangeExact(db, id, r);
    OldestFirstRange(db, id, row, r);
    if RangeExact(db', id, r) {
      assert RowExact(db', id, db'.segments[id]) by { SameFragments(db, db', id, db'.segments[id]); }
      OtherRowsKept(db, db', id, r);
    }
  }

  lemma OldestFirstRange(db: Db, id: int, row: Segment, r: Rounding)
    requires id in db.segments && RangeExact(db, id, r) && !db.segments[id].fragmented && db.segments[id] == WithLegacy(db.segments[id])
    requires var was := db.segments[id]; row == was.(tsEnd := row.tsEnd, status := row.status)
    ensures var was := db.segments[id];
            var db' := UpdateRow(db, id, row, {TsEnd, StatusColumn}, r, OldestFirst);
            && db'.segments == db.segments[id := WithLegacy(row)] && db'.media == db.media && db'.fragments == db.fragments
            && (forall j | j != id :: (j in db'.ranges) == (j in db.ranges) && (j in db.ranges ==> db'.ranges[j] == db.ranges[j]))
            && (RangeExact(db', id, r)
                <==> (was.status == row.status || !(LegacyPlayable(row) || (LegacyPlayable(was) && Listed(row.status)))))
  {
    var was := db.segments[id];
    var db1 := db.(segments := db.segments[id := row]);
    if LegacyFires(was, row, {TsEnd, StatusColumn}) {
      assert db1.segments[id := WithLegacy(row)] == db.segments[id := WithLegacy(row)];
    }
  }

  // ---------- the migration ----------

  /** A database from before the lookup: no cached columns, no range table. */
  predicate OldSchema(db: Db) {
    && db.ranges == map[]
    && (forall id | id in db.segments :: !db.segments[id].fragmented && db.segments[id].startMs == None && db.segments[id].endMs == None)
    && (forall id | id in db.media :: id in db.segments)
    && (forall k | k in db.fragments :: k.0 in db.media && db.fragments[k].startMs < db.fragments[k].endMs)
  }

  /** SELECT MIN(start_ms), MAX(end_ms) over the fragment rows of a file. */
  method Aggregate(fragments: map<(int, int), Fragment>, id: int) returns (low: Option<int>, high: Option<int>)
    ensures low.Some? == high.Some? == (exists k | k in fragments :: k.0 == id)
    ensures low.Some? ==>
              && (forall k | k in fragments && k.0 == id :: low.value <= fragments[k].startMs && fragments[k].endMs <= high.value)
              && (exists k | k in fragments && k.0 == id :: fragments[k].startMs == low.value)
              && (exists k | k in fragments && k.0 == id :: fragments[k].endMs == high.value)
  {
    low, high := None, None;
    var keys := fragments.Keys;
    while keys != {}
      invariant keys <= fragments.Keys
      invariant low.Some? == high.Some? == (exists k | k in fragments :: k !in keys && k.0 == id)
      invariant low.Some? ==>
                  && (forall k | k in fragments && k !in keys && k.0 == id :: low.value <= fragments[k].startMs && fragments[k].endMs <= high.value)
                  && (exists k | k in fragments && k.0 == id :: fragments[k].startMs == low.value)
                  && (exists k | k in fragments && k.0 == id :: fragments[k].endMs == high.value)
      decreases |keys|
    {
      var k :| k in keys;
      keys := keys - {k};
      if k.0 == id {
        low, high := Some(MinOpt(low, fragments[k].startMs)), Some(MaxOpt(high, fragments[k].endMs));
      }
    }
  }

  /** Nothing but the columns of the lookup differs. */
  predicate CacheOnly(was: Segment, now: Segment) {
    was == now.(fragmented := was.fragmented, startMs := was.startMs, endMs := was.endMs)
  }

  /** One row of the backfill: the cached columns a file gets. */
  method BackfillRow(db: Db, id: int) returns (row: Segment)
    requires OldSchema(db) && id in db.segments
    ensures RowExact(db, id, row) && CacheOnly(db.segments[id], row)
  {
    var s := db.segments[id];
    if id in db.media {
      var low, high := Aggregate(db.fragments, id);
      row := s.(fragmented := true, startMs := low, endMs := high);
    } else {
      row := WithLegacy(s);
    }
  }

  /** Outside the files still to do, every cached column is right and listed when available. */
  ghost predicate BackfilledBut(db: Db, segments: map<int, Segment>, ranges: map<int, RangeRow>, todo: set<int>, r: Rounding) {
    && todo <= db.segments.Keys == segments.Keys
    && (forall id | id in segments && id !in todo :: RowExact(db, id, segments[id]))
    && (forall id | id in ranges :: id in segments && id !in todo)
    && (forall id | id in segments && id !in todo :: RangeExact(Db(segments, db.media, db.fragments, ranges), id, r))
  }

  lemma BackfillStep(db: Db, segments: map<int, Segment>, ranges: map<int, RangeRow>, todo: set<int>, id: int, row: Segment, r: Rounding)
    requires BackfilledBut(db, segments, ranges, todo, r) && id in todo && RowExact(db, id, row)
    ensures BackfilledBut(db, segments[id := row], if Available(row) then ranges[id := RangeOf(row, r)] else ranges, todo - {id}, r)
  {
    hide RowExact, Available, RangeOf;
    var next := if Available(row) then ranges[id := RangeOf(row, r)] else ranges;
    forall j | j in segments && j !in todo - {id}
      ensures RangeExact(Db(segments[id := row], db.media, db.fragments, next), j, r)
    {
      if j != id { assert RangeExact(Db(segments, db.media, db.fragments, ranges), j, r); }
    }
  }

  lemma BackfillDone(db: Db, segments: map<int, Segment>, ranges: map<int, RangeRow>, r: Rounding)
    requires OldSchema(db) && BackfilledBut(db, segments, ranges, {}, r)
    ensures Inv(db.(segments := segments, ranges := ranges), r)
  {
    hide RowExact, Available, RangeOf;
    var db' := db.(segments := segments, ranges := ranges);
    forall id | id in db'.segments
      ensures RowExact(db', id, db'.segments[id])
    {
      SameFragments(db, db', id, db'.segments[id]);
    }
    forall id: int
      ensures RangeExact(db', id, r)
    {
      if id in segments { assert RangeExact(Db(segments, db.media, db.fragments, ranges), id, r); }
    }
  }

  /** The migration computes every cached column once, then fills the range table. */
  method Backfill(db: Db, r: Rounding) returns (db': Db)
    requires OldSchema(db)
    ensures Inv(db', r)
    ensures db'.media == db.media && db'.fragments == db.fragments && db'.segments.Keys == db.segments.Keys
    ensures forall id | id in db.segments :: CacheOnly(db.segments[id], db'.segments[id])
  {
    var segments, ranges: map<int, RangeRow> := db.segments, map[];
    var todo: set<int> := db.segments.Keys;
    assert BackfilledBut(db, segments, ranges, todo, r);
    hide BackfilledBut, RowExact, Inv, Available, RangeOf, OldSchema;
    while todo != {}
      invariant BackfilledBut(db, segments, ranges, todo, r)
      invariant todo <= db.segments.Keys && segments.Keys == db.segments.Keys
      invariant forall id | id in db.segments :: CacheOnly(db.segments[id], segments[id])
      decreases |todo|
    {
      Inhabited(todo);
      var id :| id in todo;
      var row := BackfillRow(db, id);
      BackfillStep(db, segments, ranges, todo, id, row, r);
      todo := todo - {id};
      segments := segments[id := row];
      if Available(row) { ranges := ranges[id := RangeOf(row, r)]; }
    }
    BackfillDone(db, segments, ranges, r);
    db' := db.(segments := segments, ranges := ranges);
  }
}
