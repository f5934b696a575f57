/**
 The playback lookup of internal/store/playback_lookup_schema.go: cached extrema
 of each recording file and a range table over them, kept up to date by triggers.

 Tables are maps.  A trigger body runs after the row it fires for is written, with
 the row values of that statement in NEW.  Two triggers can fire for one UPDATE;
 SQLite fires the one created last first, which the schema relies on, so the
 order is a parameter here.
 */
module PlaybackDb {
  import opened Bytes
  import opened Options
  import opened RecordingIndex

  datatype Status = Recording | Finalizing | Ready | FailedFile | Deleted | Unlisted

  datatype Segment = Segment(
    camera: int,
    tsStart: real,
    tsEnd: Option<real>,
    status: Status,
    fragmented: bool,
    startMs: Option<int>,
    endMs: Option<int>)

  datatype Media = Media(initLength: int, committedOffset: int, codec: bytes, basis: string)

  /** An R-tree row: coordinates are rounded outward. */
  datatype RangeRow = RangeRow(cameraMin: real, cameraMax: real, startMs: real, endMs: real)

  datatype Rounding = Rounding(down: int -> real, up: int -> real)

  ghost predicate Outward(r: Rounding) {
    forall x: int :: r.down(x) <= x as real <= r.up(x)
  }

  datatype Db = Db(
    segments: map<int, Segment>,
    media: map<int, Media>,
    fragments: map<(int, int), Fragment>,
    ranges: map<int, RangeRow>)

  datatype TriggerOrder = NewestFirst | OldestFirst

  datatype Column = Camera | TsStart | TsEnd | StatusColumn | FragmentedColumn | StartMs | EndMs

  /** CAST(ROUND(ts*1000) AS INTEGER): the nearest millisecond, halves away from zero. */
  function RoundMs(ts: real): int {
    if ts >= 0.0 then (ts * 1000.0 + 0.5).Floor else -((-ts * 1000.0 + 0.5).Floor)
  }

  predicate Listed(s: Status) {
    s == Ready || s == Recording || s == Finalizing || s == FailedFile
  }

  /** The predicate playbackAvailable. */
  predicate Available(s: Segment) {
    s.startMs.Some? && s.endMs.Some? && Listed(s.status)
  }

  /** A legacy file is playable once it is ready and its end lies behind its start. */
  predicate LegacyPlayable(s: Segment) {
    s.status == Ready && s.tsEnd.Some? && s.tsEnd.value > s.tsStart
  }

  function WithLegacy(s: Segment): Segment {
    WithLegacyOf(s, s)
  }

  function WithLegacyOf(row: Segment, from: Segment): Segment {
    if LegacyPlayable(from) then row.(startMs := Some(RoundMs(from.tsStart)), endMs := Some(RoundMs(from.tsEnd.value)))
    else row.(startMs := None, endMs := None)
  }

  function RangeOf(s: Segment, r: Rounding): RangeRow
    requires Available(s)
  {
    RangeRow(r.down(s.camera), r.up(s.camera), r.down(s.startMs.value), r.up(s.endMs.value))
  }

  // ---------- triggers ----------

  /** playbackRangeUpdate: replaces the range row by that of NEW. */
  function RangeUpdate(db: Db, id: int, row: Segment, r: Rounding): Db {
    var cleared := db.ranges - {id};
    db.(ranges := if Available(row) then cleared[id := RangeOf(row, r)] else cleared)
  }

  predicate RangeFires(was: Segment, row: Segment, cols: set<Column>) {
    && (Camera in cols || StatusColumn in cols || StartMs in cols || EndMs in cols)
    && (was.camera != row.camera || was.status != row.status || was.startMs != row.startMs || was.endMs != row.endMs)
  }

  predicate LegacyFires(was: Segment, row: Segment, cols: set<Column>) {
    && (TsStart in cols || TsEnd in cols || StatusColumn in cols)
    && !row.fragmented
    && (was.tsStart != row.tsStart || was.tsEnd != row.tsEnd || was.status != row.status)
  }

  /** An UPDATE of the two cached columns; only the range trigger listens to them. */
  function SetExtrema(db: Db, id: int, row: Segment, r: Rounding): Db
    requires id in db.segments
  {
    var db' := db.(segments := db.segments[id := row]);
    if RangeFires(db.segments[id], row, {StartMs, EndMs}) then RangeUpdate(db', id, row, r) else db'
  }

  /** playbackLegacyUpdate: recomputes the cached columns of a legacy file from NEW. */
  function LegacyUpdate(db: Db, id: int, from: Segment, r: Rounding): Db
    requires id in db.segments
  {
    SetExtrema(db, id, WithLegacyOf(db.segments[id], from), r)
  }

  /** UPDATE recording_segments SET cols of one row, with its triggers. */
  function UpdateRow(db: Db, id: int, row: Segment, cols: set<Column>, r: Rounding, order: TriggerOrder): Db
    requires id in db.segments
  {
    var was := db.segments[id];
    var db1 := db.(segments := db.segments[id := row]);
    var range, legacy := RangeFires(was, row, cols), LegacyFires(was, row, cols);
    match order
    case NewestFirst =>
      var db2 := if range then RangeUpdate(db1, id, row, r) else db1;
      if legacy then LegacyUpdate(db2, id, row, r) else db2
    case OldestFirst =>
      var db2 := if legacy then LegacyUpdate(db1, id, row, r) else db1;
      if range then RangeUpdate(db2, id, row, r) else db2
  }

  /** INSERT INTO recording_segments, with its triggers; the cached columns start out empty. */
  function InsertRow(db: Db, id: int, row: Segment, r: Rounding): Db
    requires id !in db.segments
  {
    var fresh0 := row.(fragmented := false, startMs := None, endMs := None);
    var db1 := RangeUpdate(db.(segments := db.segments[id := fresh0]), id, fresh0, r);
    LegacyUpdate(db1, id, fresh0, r)
  }

  /** INSERT INTO recording_media: the file is fragmented from now on. */
  function InsertMedia(db: Db, id: int, m: Media, r: Rounding): Db
    requires id in db.segments
  {
    var row := db.segments[id].(fragmented := true, startMs := None, endMs := None);
    UpdateRow(db.(media := db.media[id := m]), id, row, {FragmentedColumn, StartMs, EndMs}, r, NewestFirst)
  }

  function MinOpt(a: Option<int>, b: int): int { if a.None? then b else if a.value <= b then a.value else b }

  function MaxOpt(a: Option<int>, b: int): int { if a.None? then b else if a.value >= b then a.value else b }

  /** INSERT INTO recording_fragments: widens the cached extrema when the fragment lies outside them. */
  function InsertFragment(db: Db, id: int, f: Fragment, r: Rounding): Db
    requires id in db.segments
  {
    var s := db.segments[id];
    var db1 := db.(fragments := db.fragments[(id, f.sequence) := f]);
    if s.startMs.None? || s.endMs.None? || f.startMs < s.startMs.value || f.endMs > s.endMs.value then
      SetExtrema(db1, id, s.(startMs := Some(MinOpt(s.startMs, f.startMs)), endMs := Some(MaxOpt(s.endMs, f.endMs))), r)
    else db1
  }

  // ---------- the invariant ----------

  predicate HasFragments(db: Db, id: int) { exists k | k in db.fragments :: k.0 == id }

  /** The cached columns are the extrema of the file's fragment rows. */
  predicate ExtremaExact(db: Db, id: int, s: Segment) {
    if !HasFragments(db, id) then s.startMs == None && s.endMs == None
    else
      && s.startMs.Some? && s.endMs.Some?
      && (forall k | k in db.fragments && k.0 == id :: s.startMs.value <= db.fragments[k].startMs && db.fragments[k].endMs <= s.endMs.value)
      && (exists k | k in db.fragments && k.0 == id :: db.fragments[k].startMs == s.startMs.value)
      && (exists k | k in db.fragments && k.0 == id :: db.fragments[k].endMs == s.endMs.value)
  }

  predicate RowExact(db: Db, id: int, s: Segment) {
    && s.fragmented == (id in db.media)
    && (if s.fragmented then ExtremaExact(db, id, s) else !HasFragments(db, id) && s == WithLegacy(s))
  }

  predicate RangeExact(db: Db, id: int, r: Rounding) {
    if id in db.segments && Available(db.segments[id]) then id in db.ranges && db.ranges[id] == RangeOf(db.segments[id], r)
    else id !in db.ranges
  }

  /** Cached extrema and range table agree with the rows they summarise. */
  ghost predicate Inv(db: Db, r: Rounding) {
    && (forall id | id in db.media :: id in db.segments)
    && (forall k | k in db.fragments :: k.0 in db.media && db.fragments[k].startMs < db.fragments[k].endMs)
    && (forall id | id in db.segments :: RowExact(db, id, db.segments[id]))
    && (forall id: int :: RangeExact(db, id, r))
  }

  // ---------- single statements ----------

  lemma SameFragments(a: Db, b: Db, id: int, s: Segment)
    requires a.fragments == b.fragments && (id in a.media) == (id in b.media)
    ensures RowExact(a, id, s) == RowExact(b, id, s)
  {
  }

  /** What SetExtrema leaves: the row, and a range row for it, provided the range table was right before. */
  lemma SetExtremaRanges(db: Db, id: int, row: Segment, r: Rounding)
    requires id in db.segments && RangeExact(db, id, r)
    requires row.camera == db.segments[id].camera && row.status == db.segments[id].status
    ensures var db' := SetExtrema(db, id, row, r);
            && RangeExact(db', id, r)
            && db'.segments == db.segments[id := row] && db'.media == db.media && db'.fragments == db.fragments
            && forall j | j != id :: (j in db'.ranges) == (j in db.ranges) && (j in db.ranges ==> db'.ranges[j] == db.ranges[j])
  {
  }

  /** Values a row holds apart from the cached columns. */
  predicate KeepsCache(was: Segment, row: Segment) {
    row.fragmented == was.fragmented && row.startMs == was.startMs && row.endMs == was.endMs
  }

  predicate ChangesOnly(was: Segment, row: Segment, cols: set<Column>) {
    && (Camera in cols || row.camera == was.camera)
    && (TsStart in cols || row.tsStart == was.tsStart)
    && (TsEnd in cols || row.tsEnd == was.tsEnd)
    && (StatusColumn in cols || row.status == was.status)
    && (FragmentedColumn in cols || row.fragmented == was.fragmented)
    && (StartMs in cols || row.startMs == was.startMs)
    && (EndMs in cols || row.endMs == was.endMs)
  }

  lemma OtherRowsKept(db: Db, db': Db, id: int, r: Rounding)
    requires Inv(db, r) && id in db.segments
    requires db'.media == db.media && db'.fragments == db.fragments
    requires db'.segments.Keys == db.segments.Keys && forall j | j in db.segments && j != id :: db'.segments[j] == db.segments[j]
    requires forall j | j != id :: (j in db'.ranges) == (j in db.ranges) && (j in db.ranges ==> db'.ranges[j] == db.ranges[j])
    requires RowExact(db', id, db'.segments[id]) && RangeExact(db', id, r)
    ensures Inv(db', r)
  {
    forall j | j in db'.segments
      ensures RowExact(db', j, db'.segments[j])
    {
      if j != id { SameFragments(db, db', j, db.segments[j]); }
    }
    forall j: int
      ensures RangeExact(db', j, r)
    {
      assert RangeExact(db, j, r);
    }
  }

  /** The rows an UPDATE leaves, whatever its columns: the range trigger runs on the new row, then the legacy trigger. */
  lemma UpdateLeaves(db: Db, id: int, row: Segment, cols: set<Column>, r: Rounding)
    requires id in db.segments && ChangesOnly(db.segments[id], row, cols) && RangeExact(db, id, r)
    ensures var db' := UpdateRow(db, id, row, cols, r, NewestFirst);
            var final := if LegacyFires(db.segments[id], row, cols) then WithLegacy(row) else row;
            && db'.segments == db.segments[id := final] && db'.media == db.media && db'.fragments == db.fragments
            && RangeExact(db', id, r)
            && forall j | j != id :: (j in db'.ranges) == (j in db.ranges) && (j in db.ranges ==> db'.ranges[j] == db.ranges[j])
  {
    var was := db.segments[id];
    var db1 := db.(segments := db.segments[id := row]);
    var db2 := if RangeFires(was, row, cols) then RangeUpdate(db1, id, row, r) else db1;
    assert RangeExact(db2, id, r);
    if LegacyFires(was, row, cols) {
      SetExtremaRanges(db2, id, WithLegacy(row), r);
      assert db1.segments[id := WithLegacy(row)] == db.segments[id := WithLegacy(row)];
    }
  }

  /** An UPDATE that leaves the cached columns to the triggers keeps everything exact. */
  lemma UpdateKeeps(db: Db, id: int, row: Segment, cols: set<Column>, r: Rounding)
    requires Inv(db, r) && id in db.segments
    requires KeepsCache(db.segments[id], row) && ChangesOnly(db.segments[id], row, cols)
    ensures Inv(UpdateRow(db, id, row, cols, r, NewestFirst), r)
  {
    var was := db.segments[id];
    UpdateLeaves(db, id, row, cols, r);
    var db' := UpdateRow(db, id, row, cols, r, NewestFirst);
    assert RowExact(db, id, was);
    assert RowExact(db', id, db'.segments[id]);
    OtherRowsKept(db, db', id, r);
  }

  lemma NothingUnder(db: Db, id: int, r: Rounding)
    requires Inv(db, r) && id !in db.segments
    ensures !HasFragments(db, id) && id !in db.media && id !in db.ranges
  {
    assert RangeExact(db, id, r);
  }

  lemma InsertKeeps(db: Db, id: int, row: Segment, r: Rounding)
    requires Inv(db, r) && id !in db.segments
    ensures Inv(InsertRow(db, id, row, r), r)
    ensures var db' := InsertRow(db, id, row, r);
            && db'.segments.Keys == db.segments.Keys + {id} && db'.media == db.media && db'.fragments == db.fragments
            && db'.segments[id].status == row.status && db'.segments[id].camera == row.camera
  {
    NothingUnder(db, id, r);
    var fresh0 := row.(fragmented := false, startMs := None, endMs := None);
    var db1 := RangeUpdate(db.(segments := db.segments[id := fresh0]), id, fresh0, r);
    assert db1.ranges == db.ranges;
    SetExtremaRanges(db1, id, WithLegacy(fresh0), r);
    var db' := InsertRow(db, id, row, r);
    forall j | j in db'.segments
      ensures RowExact(db', j, db'.segments[j])
    {
      if j != id { SameFragments(db, db', j, db.segments[j]); }
    }
    forall j: int
      ensures RangeExact(db', j, r)
    {
      assert RangeExact(db, j, r);
    }
  }

  lemma InsertMediaKeeps(db: Db, id: int, m: Media, r: Rounding)
    requires Inv(db, r) && id in db.segments && id !in db.media
    ensures Inv(InsertMedia(db, id, m, r), r)
    ensures var db' := InsertMedia(db, id, m, r);
            && db'.media == db.media[id := m] && db'.fragments == db.fragments && db'.segments.Keys == db.segments.Keys
            && db'.segments[id] == db.segments[id].(fragmented := true, startMs := None, endMs := None)
            && forall j | j in db.segments && j != id :: db'.segments[j] == db.segments[j]
  {
    var was := db.segments[id];
    var row := was.(fragmented := true, startMs := None, endMs := None);
    var db0 := db.(media := db.media[id := m]);
    assert RowExact(db, id, was);
    assert RangeExact(db, id, r);
    assert RangeExact(db0, id, r);
    UpdateLeaves(db0, id, row, {FragmentedColumn, StartMs, EndMs}, r);
    var db' := InsertMedia(db, id, m, r);
    forall j | j in db'.segments
      ensures RowExact(db', j, db'.segments[j])
    {
      if j != id { SameFragments(db, db', j, db.segments[j]); }
    }
    forall j: int
      ensures RangeExact(db', j, r)
    {
      assert RangeExact(db, j, r);
    }
  }

  /** Extrema widened by one more fragment are the extrema of one more fragment. */
  lemma WidenedExact(db: Db, id: int, s: Segment, f: Fragment)
    requires ExtremaExact(db, id, s) && (id, f.sequence) !in db.fragments && f.startMs < f.endMs
    ensures var db' := db.(fragments := db.fragments[(id, f.sequence) := f]);
            ExtremaExact(db', id, s.(startMs := Some(MinOpt(s.startMs, f.startMs)), endMs := Some(MaxOpt(s.endMs, f.endMs))))
  {
    var db' := db.(fragments := db.fragments[(id, f.sequence) := f]);
    assert (id, f.sequence) in db'.fragments && db'.fragments[(id, f.sequence)] == f;
    if HasFragments(db, id) {
      var a :| a in db.fragments && a.0 == id && db.fragments[a].startMs == s.startMs.value;
      var b :| b in db.fragments && b.0 == id && db.fragments[b].endMs == s.endMs.value;
      assert db'.fragments[a] == db.fragments[a] && db'.fragments[b] == db.fragments[b];
    }
  }

  lemma OtherFragments(db: Db, db': Db, id: int, f: Fragment, j: int, s: Segment)
    requires db'.fragments == db.fragments[(id, f.sequence) := f] && db'.media == db.media && j != id
    ensures RowExact(db, j, s) ==> RowExact(db', j, s)
  {
    assert forall k: (int, int) | k.0 == j :: (k in db'.fragments) == (k in db.fragments) && (k in db.fragments ==> db'.fragments[k] == db.fragments[k]);
  }

  function Widen(s: Segment, f: Fragment): Segment {
    s.(startMs := Some(MinOpt(s.startMs, f.startMs)), endMs := Some(MaxOpt(s.endMs, f.endMs)))
  }

  lemma FragmentInserted(db: Db, id: int, f: Fragment, r: Rounding)
    requires id in db.segments && RangeExact(db, id, r)
    ensures var db' := InsertFragment(db, id, f, r);
            && db'.segments == db.segments[id := Widen(db.segments[id], f)]
            && db'.media == db.media && db'.fragments == db.fragments[(id, f.sequence) := f]
            && RangeExact(db', id, r)
            && forall j | j != id :: (j in db'.ranges) == (j in db.ranges) && (j in db.ranges ==> db'.ranges[j] == db.ranges[j])
  {
    var s := db.segments[id];
    var db1 := db.(fragments := db.fragments[(id, f.sequence) := f]);
    assert RangeExact(db1, id, r);
    SetExtremaRanges(db1, id, Widen(s, f), r);
    if !(s.startMs.None? || s.endMs.None? || f.startMs < s.startMs.value || f.endMs > s.endMs.value) {
      assert Widen(s, f) == s && db.segments[id := s] == db.segments;
    }
  }

  lemma InsertFragmentKeeps(db: Db, id: int, f: Fragment, r: Rounding)
    requires Inv(db, r) && id in db.media && (id, f.sequence) !in db.fragments && f.startMs < f.endMs
    ensures id in db.segments && Inv(InsertFragment(db, id, f, r), r)
    ensures var db' := InsertFragment(db, id, f, r);
            && db'.media == db.media && db'.fragments == db.fragments[(id, f.sequence) := f]
            && db'.segments == db.segments[id := Widen(db.segments[id], f)]
  {
    hide SetExtrema, InsertFragment, ExtremaExact, Available, WithLegacy, MinOpt, MaxOpt;
    var s := db.segments[id];
    assert RowExact(db, id, s) && RangeExact(db, id, r);
    FragmentInserted(db, id, f, r);
    WidenedExact(db, id, s, f);
    var db' := InsertFragment(db, id, f, r);
    ExtremaOf(db', db.(fragments := db.fragments[(id, f.sequence) := f]), id, Widen(s, f));
    forall j | j in db'.segments
      ensures RowExact(db', j, db'.segments[j])
    {
      if j != id { OtherFragments(db, db', id, f, j, db.segments[j]); }
    }
    forall j: int
      ensures RangeExact(db', j, r)
    {
      assert RangeExact(db, j, r);
    }
  }

  lemma ExtremaOf(a: Db, b: Db, id: int, s: Segment)
    requires a.fragments == b.fragments
    ensures ExtremaExact(a, id, s) == ExtremaExact(b, id, s)
  {
  }
}
