/**
 The playback queries of internal/store/playback.go and the two handlers of
 cmd/camstationd/routes_playback.go that answer from them: paging through the
 spans of a window, and resolving an instant to a place in a file.
 */
module Playback {
  import opened Bytes
  import opened Options
  import opened RecordingIndex
  import opened PlaybackDb
  import opened Listings
  import opened LookupRuns
  import opened Resolution

  datatype Window = Window(camera: int, fromMs: int, toMs: int)

  /** What a query is meant to find: the available files of the camera that overlap the window. */
  predicate Overlaps(s: Segment, w: Window) {
    Available(s) && s.camera == w.camera && s.endMs.value > w.fromMs && s.startMs.value < w.toMs
  }

  /** The first WHERE line of playbackRangeQuery, on R-tree coordinates. */
  predicate MayOverlap(c: RangeRow, w: Window) {
    && c.cameraMin <= w.camera as real <= c.cameraMax
    && c.endMs > w.fromMs as real && c.startMs < w.toMs as real
  }

  function SpanKey(db: Db, id: int): Key
    requires id in db.segments && db.segments[id].startMs.Some?
  {
    Key(db.segments[id].startMs.value, id)
  }

  function Overlapping(db: Db, w: Window): set<Key> {
    set id | id in db.segments && Overlaps(db.segments[id], w) :: SpanKey(db, id)
  }

  /** playbackRangeQuery: range rows first, then the exact columns. */
  function RangeQuery(db: Db, w: Window): set<Key> {
    set id | id in db.ranges && MayOverlap(db.ranges[id], w) && id in db.segments && Overlaps(db.segments[id], w) :: SpanKey(db, id)
  }

  /** The cursor condition of PlaybackSpansPage; row ids start at 1, and 0 means no cursor. */
  predicate UnderCursor(db: Db, k: Key, cursor: Key) {
    cursor.id > 0 ==> k.id in db.ranges && db.ranges[k.id].startMs <= cursor.rank as real && Before(k, cursor)
  }

  const NO_CURSOR := Key(0, 0)

  function PageRows(db: Db, w: Window, cursor: Key): set<Key> {
    set k | k in RangeQuery(db, w) && UnderCursor(db, k, cursor)
  }

  function Take(s: seq<Key>, limit: nat): seq<Key> { if |s| > limit then s[..limit] else s }

  function SpansPage(db: Db, w: Window, cursor: Key, limit: nat): seq<Key> {
    Take(Descending(PageRows(db, w, cursor)), limit)
  }

  function Spans(db: Db, w: Window): seq<Key> {
    Ascending(RangeQuery(db, w))
  }

  lemma CoarseFilterKeeps(db: Db, w: Window, r: Rounding, id: int)
    requires Inv(db, r) && Outward(r) && id in db.segments && Overlaps(db.segments[id], w)
    ensures id in db.ranges && MayOverlap(db.ranges[id], w) && db.ranges[id].startMs <= db.segments[id].startMs.value as real
  {
    hide RowExact;
    assert RangeExact(db, id, r);
    var s := db.segments[id];
    assert r.down(s.camera) <= s.camera as real <= r.up(s.camera);
    assert r.down(s.startMs.value) <= s.startMs.value as real && s.endMs.value as real <= r.up(s.endMs.value);
  }

  /** However the R-tree rounds outward, the query finds exactly the overlapping files. */
  lemma RangeQueryExact(db: Db, w: Window, r: Rounding)
    requires Inv(db, r) && Outward(r)
    ensures RangeQuery(db, w) == Overlapping(db, w)
  {
    hide Inv, Overlaps, MayOverlap, SpanKey, Outward;
    forall id | id in db.segments && Overlaps(db.segments[id], w)
      ensures id in db.ranges && MayOverlap(db.ranges[id], w)
    {
      CoarseFilterKeeps(db, w, r, id);
    }
  }

  /** A span is found exactly when it is shown and touches the window; when both last, exactly when it holds an instant of the window. */
  lemma FoundExactly(db: Db, w: Window, r: Rounding, k: Key)
    requires Inv(db, r) && Outward(r)
    ensures k in RangeQuery(db, w)
            <==> Shown(db, w.camera, k.id) && k.rank == StartOf(db, k.id) && StartOf(db, k.id) < w.toMs && w.fromMs < EndOf(db, k.id)
    ensures w.fromMs < w.toMs && StartOf(db, k.id) < EndOf(db, k.id) && k.rank == StartOf(db, k.id) ==>
              (k in RangeQuery(db, w) <==> exists t: int :: w.fromMs <= t < w.toMs && Holds(db, w.camera, t, k.id))
  {
    RangeQueryExact(db, w, r);
    hide Inv, Outward, RangeQuery;
    if k in Overlapping(db, w) {
      var id :| id in db.segments && Overlaps(db.segments[id], w) && SpanKey(db, id) == k;
      assert id == k.id;
    }
    if Shown(db, w.camera, k.id) && k.rank == StartOf(db, k.id) && StartOf(db, k.id) < w.toMs && w.fromMs < EndOf(db, k.id) {
      assert Overlaps(db.segments[k.id], w) && SpanKey(db, k.id) == k;
      var t := if w.fromMs < StartOf(db, k.id) then StartOf(db, k.id) else w.fromMs;
      assert StartOf(db, k.id) < EndOf(db, k.id) && w.fromMs < w.toMs ==> Holds(db, w.camera, t, k.id);
    }
  }

  /** And a cursor selects exactly the keys before it. */
  lemma PageRowsExact(db: Db, w: Window, cursor: Key, r: Rounding)
    requires Inv(db, r) && Outward(r)
    ensures PageRows(db, w, cursor) == if cursor.id > 0 then Earlier(Overlapping(db, w), cursor) else Overlapping(db, w)
  {
    RangeQueryExact(db, w, r);
    hide Inv, Overlaps, MayOverlap, Outward, RangeQuery;
    forall k | k in Overlapping(db, w) && Before(k, cursor)
      ensures k.id in db.ranges && db.ranges[k.id].startMs <= cursor.rank as real
    {
      CoarseFilterKeeps(db, w, r, k.id);
    }
  }

  /** handlePlaybackSegments: one row more than asked for tells whether a cursor is due. */
  method SegmentsPage(db: Db, w: Window, cursor: Key, limit: nat) returns (page: seq<Key>, next: Option<Key>)
    requires 1 <= limit <= 200
    ensures IsPage(Descending(PageRows(db, w, cursor)), limit, page, next)
  {
    page := SpansPage(db, w, cursor, limit + 1);
    next := None;
    if |page| > limit {
      page := page[..limit];
      assert page == Descending(PageRows(db, w, cursor))[..limit];
      next := Some(page[|page| - 1]);
    }
  }

  /** A page is the front of the listing, with its last key as cursor exactly when something follows. */
  predicate IsPage(rows: seq<Key>, limit: nat, page: seq<Key>, next: Option<Key>) {
    && page <= rows && |page| == (if |rows| > limit then limit else |rows|)
    && (next.Some? <==> |rows| > limit)
    && (next.Some? ==> page != [] && next.value == page[|page| - 1])
  }

  /** After n keys have been seen, the cursor of the last one selects the rest. */
  lemma CursorContinues(db: Db, w: Window, n: nat, r: Rounding)
    requires Inv(db, r) && Outward(r) && n <= |Descending(Overlapping(db, w))|
    requires forall id | id in db.segments :: id > 0
    ensures Descending(PageRows(db, w, if n == 0 then NO_CURSOR else Descending(Overlapping(db, w))[n - 1])) == Descending(Overlapping(db, w))[n..]
  {
    hide Inv, Outward, PageRows, Descending, Descends;
    var listing := Descending(Overlapping(db, w));
    if n == 0 {
      PageRowsExact(db, w, NO_CURSOR, r);
      assert listing[0..] == listing;
    } else {
      DescendingLists(Overlapping(db, w));
      assert listing[n - 1] in listing;
      PageRowsExact(db, w, listing[n - 1], r);
      RestOfListing(Overlapping(db, w), n);
    }
  }

  /** A client that asks again with every cursor it is given sees every overlapping span exactly once, latest start first. */
  method FollowCursors(db: Db, w: Window, limit: nat, r: Rounding) returns (all: seq<Key>)
    requires 1 <= limit <= 200 && Inv(db, r) && Outward(r)
    requires forall id | id in db.segments :: id > 0
    ensures all == Descending(Overlapping(db, w))
  {
    hide Overlapping, PageRows, Inv, Outward, Descending;
    ghost var listing := Descending(Overlapping(db, w));
    CursorContinues(db, w, 0, r);
    var page, next := SegmentsPage(db, w, NO_CURSOR, limit);
    all := page;
    while next.Some?
      invariant all <= listing
      invariant next.None? ==> all == listing
      invariant next.Some? ==> all != [] && next.value == listing[|all| - 1]
      decreases |listing| - |all|, next.Some?
    {
      CursorContinues(db, w, |all|, r);
      page, next := SegmentsPage(db, w, next.value, limit);
      all := all + page;
    }
  }

  // ---------- resolving an instant ----------

  predicate Covers(s: Segment, camera: int, at: int) {
    Available(s) && s.camera == camera && s.startMs.value <= at < s.endMs.value
  }

  predicate Covered(db: Db, camera: int, at: int) {
    exists id | id in db.segments :: Covers(db.segments[id], camera, at)
  }

  function Largest(xs: set<int>): (m: Option<int>)
    ensures m.None? <==> xs == {}
    ensures m.Some? ==> m.value in xs && forall x | x in xs :: x <= m.value
  {
    if xs == {} then None
    else
      var keys := set x | x in xs :: Key(x, 0);
      Inhabited(xs);
      assert forall x | x in xs :: Key(x, 0) in keys;
      var last := Last(keys);
      Some(last.rank)
  }

  predicate Playable(db: Db, camera: int, id: int) {
    id in db.segments && Available(db.segments[id]) && db.segments[id].camera == camera
  }

  function EndsUpTo(db: Db, camera: int, at: int): set<int> {
    set id | id in db.segments && Playable(db, camera, id) && db.segments[id].endMs.value <= at :: db.segments[id].endMs.value
  }

  function StartsAfter(db: Db, camera: int, at: int): set<int> {
    set id | id in db.segments && Playable(db, camera, id) && db.segments[id].startMs.value > at :: -db.segments[id].startMs.value
  }

  /** PlaybackNeighbors: the latest end at or before the instant, and the earliest start behind it. */
  function PreviousEnd(db: Db, camera: int, at: int): Option<int> {
    Largest(EndsUpTo(db, camera, at))
  }

  function NextStart(db: Db, camera: int, at: int): Option<int> {
    var m := Largest(StartsAfter(db, camera, at));
    if m.None? then None else Some(-m.value)
  }

  /** An instant no span covers lies in an uncovered stretch that reaches from the previous end to the next start. */
  lemma NeighboursBoundGap(db: Db, camera: int, at: int, t: int)
    requires !Covered(db, camera, at)
    ensures var p, n := PreviousEnd(db, camera, at), NextStart(db, camera, at);
            && (p.Some? ==> p.value <= at) && (n.Some? ==> at < n.value)
            && ((p.None? || p.value <= t) && (n.None? || t < n.value) ==> !Covered(db, camera, t))
  {
    if Covered(db, camera, t) {
      var id :| id in db.segments && Covers(db.segments[id], camera, t);
      var s := db.segments[id];
      assert !Covers(s, camera, at);
      assert s.endMs.value <= at ==> s.endMs.value in EndsUpTo(db, camera, at);
      assert s.startMs.value > at ==> -s.startMs.value in StartsAfter(db, camera, at);
    }
  }

  /**
   That stretch is the whole gap, and the instants offered instead are playable,
   exactly when a span of some length ends or starts there.  A legacy file whose
   rounded start and end coincide is the only kind without length.
   */
  lemma OfferedInstantsPlayable(db: Db, camera: int, at: int)
    requires !Covered(db, camera, at)
    ensures var p := PreviousEnd(db, camera, at);
            p.Some? ==> (Covered(db, camera, p.value - 1)
                         <==> exists id | Playable(db, camera, id) :: db.segments[id].startMs.value < db.segments[id].endMs.value == p.value)
    ensures var n := NextStart(db, camera, at);
            n.Some? ==> (Covered(db, camera, n.value)
                         <==> exists id | Playable(db, camera, id) :: n.value == db.segments[id].startMs.value < db.segments[id].endMs.value)
  {
    var p, n := PreviousEnd(db, camera, at), NextStart(db, camera, at);
    if p.Some? && Covered(db, camera, p.value - 1) {
      var id :| id in db.segments && Covers(db.segments[id], camera, p.value - 1);
      assert !Covers(db.segments[id], camera, at) && Playable(db, camera, id);
      assert db.segments[id].endMs.value in EndsUpTo(db, camera, at);
    }
    if n.Some? && Covered(db, camera, n.value) {
      var id :| id in db.segments && Covers(db.segments[id], camera, n.value);
      assert !Covers(db.segments[id], camera, at) && Playable(db, camera, id);
      assert -db.segments[id].startMs.value in StartsAfter(db, camera, at);
    }
    forall id | Playable(db, camera, id)
      ensures p.Some? && db.segments[id].startMs.value < db.segments[id].endMs.value == p.value ==> Covers(db.segments[id], camera, p.value - 1)
      ensures n.Some? && n.value == db.segments[id].startMs.value < db.segments[id].endMs.value ==> Covers(db.segments[id], camera, n.value)
    {
    }
  }

  const NO_ROWS: Db := Db(map[], map[], map[], map[])

  /** A legacy file that is closed a tenth of a millisecond after it starts. */
  const BRIEF: seq<Op> := [Open(1, Segment(7, 1.0, None, Recording, false, None, None)), Close(1, 1.0001, Ready)]

  function BriefRow(): Segment { Segment(7, 1.0, Some(1.0001), Ready, false, Some(1000), Some(1000)) }

  lemma BriefRun(r: Rounding)
    ensures var db := Run(NO_ROWS, BRIEF, r);
            db.segments == map[1 := BriefRow()] && Inv(db, r)
  {
    hide Inv, RangeOf, RoundMs;
    RoundedAlike();
    var begun := Segment(7, 1.0, None, Recording, false, None, None);
    assert BRIEF[..1] == [BRIEF[0]] && BRIEF[..1][..0] == [] && Run(NO_ROWS, [], r) == NO_ROWS;
    var db1 := Run(NO_ROWS, BRIEF[..1], r);
    assert db1 == InsertRow(NO_ROWS, 1, begun, r);
    assert db1.segments[1] == begun && db1.segments.Keys == {1} && db1.segments == map[1 := begun];
    var db2 := Run(NO_ROWS, BRIEF, r);
    assert db2.segments[1] == BriefRow() && db2.segments.Keys == {1} && db2.segments == map[1 := BriefRow()];
    EmptyOk(r);
    LookupStaysExact(NO_ROWS, BRIEF, r);
  }

  lemma RoundedAlike()
    ensures RoundMs(1.0) == 1000 && RoundMs(1.0001) == 1000
  {
    assert 1.0001 * 1000.0 + 0.5 == 1000.6;
  }

  lemma EmptyOk(r: Rounding)
    ensures Inv(NO_ROWS, r)
  {
  }

  /** Such a file is listed with start and end in the same millisecond, and neither instant offered beside it can be played. */
  lemma BriefSpanNotPlayable(r: Rounding)
    ensures var db := Run(NO_ROWS, BRIEF, r);
            && Inv(db, r) && Playable(db, 7, 1)
            && !Covered(db, 7, 2000) && PreviousEnd(db, 7, 2000) == Some(1000) && !Covered(db, 7, 1000 - 1)
            && !Covered(db, 7, 0) && NextStart(db, 7, 0) == Some(1000) && !Covered(db, 7, 1000)
  {
    hide Inv, Run;
    BriefRun(r);
    var db := Run(NO_ROWS, BRIEF, r);
    assert db.segments[1] == BriefRow();
    assert 1000 in EndsUpTo(db, 7, 2000) && -1000 in StartsAfter(db, 7, 0);
  }

  /** Fragmented files always have length. */
  lemma FragmentedHaveLength(db: Db, camera: int, id: int, r: Rounding)
    requires Inv(db, r) && Playable(db, camera, id) && db.segments[id].fragmented
    ensures db.segments[id].startMs.value < db.segments[id].endMs.value
  {
    var s := db.segments[id];
    assert RowExact(db, id, s);
    var k :| k in db.fragments && k.0 == id && db.fragments[k].startMs == s.startMs.value;
    assert db.fragments[k].startMs < db.fragments[k].endMs;
  }

  // ---------- the resolve handler ----------

  const AVC1: bytes := [0x61, 0x76, 0x63, 0x31]
  const HVC1: bytes := [0x68, 0x76, 0x63, 0x31]
  const HEV1: bytes := [0x68, 0x65, 0x76, 0x31]

  /** Video codecs a browser is expected to play. */
  predicate Browsable(codec: bytes) {
    codec == AVC1 || codec == HVC1 || codec == HEV1
  }

  /** RecordingMedia: the published rows of a file, ORDER BY sequence. */
  function FragmentKeys(db: Db, id: int): set<Key> {
    set k | k in db.fragments && k.0 == id :: Key(k.1, k.0)
  }

  function PublishedFragments(db: Db, id: int): seq<Fragment> {
    var keys := Ascending(FragmentKeys(db, id));
    DescendingLists(FragmentKeys(db, id));
    seq(|keys|, i requires 0 <= i < |keys| => db.fragments[(id, keys[i].rank)])
  }

  function CodecOf(db: Db, id: int): bytes {
    if id in db.media then db.media[id].codec else []
  }

  /** PlaybackBounds: the end of what is playable, and whether a recording is running. */
  function PlayableEnd(db: Db, camera: int): Option<int> {
    Largest(set id | id in db.segments && Playable(db, camera, id) :: db.segments[id].endMs.value)
  }

  predicate Running(s: Segment, camera: int) {
    s.camera == camera && (s.status == Recording || s.status == Finalizing)
  }

  predicate Active(db: Db, camera: int) { exists id | id in db.segments :: Running(db.segments[id], camera) }

  predicate WaitingAt(db: Db, camera: int, at: int) {
    exists id | id in db.segments :: Running(db.segments[id], camera) && db.segments[id].tsStart <= at as real / 1000.0
  }

  /** The file that answers for an instant: of those covering it, the one that starts last. */
  ghost predicate Answers(db: Db, camera: int, at: int, id: int) {
    && Playable(db, camera, id) && Covers(db.segments[id], camera, at)
    && forall j | Playable(db, camera, j) && Covers(db.segments[j], camera, at) && j != id :: Before(SpanKey(db, j), SpanKey(db, id))
  }

  predicate NothingAt(db: Db, camera: int, at: int, previous: Option<int>, next: Option<int>) {
    && !Covered(db, camera, at)
    && (var p := PreviousEnd(db, camera, at); previous == if p.None? then None else Some(p.value - 1))
    && next == NextStart(db, camera, at)
  }

  /** The instant lies behind everything playable while the camera records, at most five seconds ahead of the clock. */
  predicate AtEdge(db: Db, camera: int, at: int, now: int) {
    && Active(db, camera) && NextStart(db, camera, at).None? && at <= now + 5000
    && (PlayableEnd(db, camera).None? || at >= PlayableEnd(db, camera).value) && WaitingAt(db, camera, at)
  }

  lemma SpansAtInstant(db: Db, camera: int, at: int, r: Rounding)
    requires Inv(db, r) && Outward(r)
    ensures var spans := Spans(db, Window(camera, at, at + 1));
            if spans == [] then !Covered(db, camera, at) else Answers(db, camera, at, spans[|spans| - 1].id)
  {
    hide Inv, Outward, RangeQuery;
    var w := Window(camera, at, at + 1);
    var keys := Overlapping(db, w);
    RangeQueryExact(db, w, r);
    DescendingLists(keys);
    forall id | id in db.segments
      ensures Covers(db.segments[id], camera, at) <==> Overlaps(db.segments[id], w)
      ensures Overlaps(db.segments[id], w) ==> SpanKey(db, id) in keys
    {
    }
    if keys != {} {
      var last := Spans(db, w)[|Spans(db, w)| - 1];
      assert last == Descending(keys)[0] == Last(keys);
      forall j | Playable(db, camera, j) && Covers(db.segments[j], camera, at) && j != last.id
        ensures Before(SpanKey(db, j), SpanKey(db, last.id))
      {
        assert SpanKey(db, j) in keys;
      }
    }
  }

  // ---------- the same, by the rows alone ----------

  lemma PlayableIsShown(db: Db, camera: int, id: int)
    ensures Playable(db, camera, id) <==> Shown(db, camera, id)
    ensures Playable(db, camera, id) ==> StartOf(db, id) == db.segments[id].startMs.value && EndOf(db, id) == db.segments[id].endMs.value
  {
  }

  lemma CoversIsHolds(db: Db, camera: int, at: int, id: int)
    ensures Holds(db, camera, at, id) <==> id in db.segments && Covers(db.segments[id], camera, at)
    ensures Holds(db, camera, at, id) ==> Playable(db, camera, id)
  {
  }

  lemma AnswersIsChosen(db: Db, camera: int, at: int, id: int)
    ensures Answers(db, camera, at, id) <==> Chosen(db, camera, at, id)
  {
    forall j
      ensures Holds(db, camera, at, j) <==> Playable(db, camera, j) && Covers(db.segments[j], camera, at)
      ensures Holds(db, camera, at, j) ==> SpanKey(db, j) == Key(StartOf(db, j), j)
    {
      CoversIsHolds(db, camera, at, j);
      PlayableIsShown(db, camera, j);
    }
    hide Holds, Covers, Playable, SpanKey, StartOf;
    if Answers(db, camera, at, id) {
      forall j | Holds(db, camera, at, j) && j != id
        ensures StartOf(db, j) < StartOf(db, id) || (StartOf(db, j) == StartOf(db, id) && j < id)
      {
        assert Before(SpanKey(db, j), SpanKey(db, id));
      }
    }
    if Chosen(db, camera, at, id) {
      forall j | Playable(db, camera, j) && Covers(db.segments[j], camera, at) && j != id
        ensures Before(SpanKey(db, j), SpanKey(db, id))
      {
        assert Holds(db, camera, at, j);
      }
    }
  }

  lemma CodecIs(db: Db, id: int, r: Rounding)
    requires Inv(db, r) && id in db.segments && db.segments[id].fragmented
    ensures PlaysInBrowser(db, id) <==> Browsable(CodecOf(db, id))
  {
    assert RowExact(db, id, db.segments[id]);
  }

  lemma RowsAreThere(db: Db, id: int)
    ensures HasRows(db, id) <==> PublishedFragments(db, id) != []
    ensures PublishedFragments(db, id) != [] ==>
              exists sequence :: FirstRow(db, id, sequence) && PublishedFragments(db, id)[0] == db.fragments[(id, sequence)]
  {
    var keys := FragmentKeys(db, id);
    DescendingLists(keys);
    var down := Descending(keys);
    if HasRows(db, id) {
      var k :| k in db.fragments && k.0 == id;
      assert Key(k.1, k.0) in keys;
    }
    if down != [] {
      var first := down[|down| - 1];
      assert first in down && Ascending(keys)[0] == first;
      forall k | k in db.fragments && k.0 == id
        ensures first.rank <= k.1
      {
        assert Key(k.1, k.0) in keys && Key(k.1, k.0) in down;
        var i :| 0 <= i < |down| && down[i] == Key(k.1, k.0);
        if i < |down| - 1 { assert Before(first, down[i]); }
      }
      FirstKey(db, id, first);
      assert FirstRow(db, id, first.rank);
    }
  }

  lemma FirstKey(db: Db, id: int, k: Key)
    requires k in FragmentKeys(db, id)
    ensures k.id == id && (id, k.rank) in db.fragments
  {
  }

  lemma GapIs(db: Db, camera: int, at: int, previous: Option<int>, next: Option<int>)
    requires NothingAt(db, camera, at, previous, next)
    ensures NothingThere(db, camera, at, previous, next)
  {
    forall id
      ensures Playable(db, camera, id) <==> Shown(db, camera, id)
      ensures Playable(db, camera, id) ==> StartOf(db, id) == db.segments[id].startMs.value && EndOf(db, id) == db.segments[id].endMs.value
      ensures !Holds(db, camera, at, id)
    {
      PlayableIsShown(db, camera, id);
      CoversIsHolds(db, camera, at, id);
    }
    hide Covered, Holds, Shown, StartOf, EndOf;
    NeighboursAre(db, camera, at, previous, next);
  }

  lemma NeighboursAre(db: Db, camera: int, at: int, previous: Option<int>, next: Option<int>)
    requires NothingAt(db, camera, at, previous, next)
    ensures forall id | Playable(db, camera, id) && db.segments[id].endMs.value <= at :: previous.Some? && db.segments[id].endMs.value - 1 <= previous.value
    ensures previous.Some? ==> exists id | Playable(db, camera, id) :: db.segments[id].endMs.value <= at && previous.value == db.segments[id].endMs.value - 1
    ensures forall id | Playable(db, camera, id) && at < db.segments[id].startMs.value :: next.Some? && next.value <= db.segments[id].startMs.value
    ensures next.Some? ==> exists id | Playable(db, camera, id) :: at < db.segments[id].startMs.value && next.value == db.segments[id].startMs.value
  {
    hide Covered;
    forall id | Playable(db, camera, id)
      ensures db.segments[id].endMs.value <= at ==> db.segments[id].endMs.value in EndsUpTo(db, camera, at)
      ensures at < db.segments[id].startMs.value ==> -db.segments[id].startMs.value in StartsAfter(db, camera, at)
    {
    }
    if previous.Some? {
      var id :| id in db.segments && Playable(db, camera, id) && db.segments[id].endMs.value <= at && db.segments[id].endMs.value == previous.value + 1;
    }
    if next.Some? {
      var id :| id in db.segments && Playable(db, camera, id) && db.segments[id].startMs.value > at && -db.segments[id].startMs.value == -next.value;
    }
  }

  lemma EdgeIs(db: Db, camera: int, at: int, now: int)
    ensures AtEdge(db, camera, at, now) <==> BeingRecorded(db, camera, at, now)
  {
    EndsAre(db, camera, at);
    if exists id :: UnderWay(db, camera, at, id) {
      var id :| UnderWay(db, camera, at, id);
      assert Running(db.segments[id], camera);
    }
    if WaitingAt(db, camera, at) {
      var id :| id in db.segments && Running(db.segments[id], camera) && db.segments[id].tsStart <= at as real / 1000.0;
      assert UnderWay(db, camera, at, id);
    }
    hide Shown, PlayableEnd, NextStart, UnderWay, Running, StartOf, EndOf;
  }

  lemma EndsAre(db: Db, camera: int, at: int)
    ensures NextStart(db, camera, at).None? && (PlayableEnd(db, camera).None? || at >= PlayableEnd(db, camera).value)
            <==> forall id | Shown(db, camera, id) :: EndOf(db, id) <= at && StartOf(db, id) <= at
  {
    forall id
      ensures Playable(db, camera, id) <==> Shown(db, camera, id)
      ensures Playable(db, camera, id) ==> StartOf(db, id) == db.segments[id].startMs.value && EndOf(db, id) == db.segments[id].endMs.value
      ensures Playable(db, camera, id) && at < db.segments[id].startMs.value ==> -db.segments[id].startMs.value in StartsAfter(db, camera, at)
    {
      PlayableIsShown(db, camera, id);
    }
    hide Shown, StartOf, EndOf;
    var ends := set id | id in db.segments && Playable(db, camera, id) :: db.segments[id].endMs.value;
    forall id | Playable(db, camera, id)
      ensures db.segments[id].endMs.value in ends
    {
    }
  }

  /** What is right when a file answers. */
  lemma FileAnswers(db: Db, camera: int, at: int, now: int, id: int, r: Rounding)
    requires Inv(db, r) && Answers(db, camera, at, id)
    ensures var s := db.segments[id];
            && (s.fragmented && !Browsable(CodecOf(db, id)) ==> AnswerRight(db, camera, at, now, Unsupported))
            && (s.fragmented && Browsable(CodecOf(db, id)) && PublishedFragments(db, id) == [] ==> AnswerRight(db, camera, at, now, NoFragments))
            && (s.fragmented && Browsable(CodecOf(db, id)) && PublishedFragments(db, id) != [] ==>
                  var start := PublishedFragments(db, id)[0].mediaStartMs as real / 1000.0;
                  AnswerRight(db, camera, at, now, Place(id, start, start + (at - s.startMs.value) as real / 1000.0)))
            && (!s.fragmented ==> AnswerRight(db, camera, at, now, Place(id, 0.0, 0.0 + (at - s.startMs.value) as real / 1000.0)))
  {
    PlayableIsShown(db, camera, id);
    AnswersIsChosen(db, camera, at, id);
    if db.segments[id].fragmented { CodecIs(db, id, r); }
    RowsAreThere(db, id);
    hide Inv, Browsable, CodecOf, PublishedFragments, PlaysInBrowser, HasRows, FirstRow, StartOf, Chosen, Answers, NothingThere, BeingRecorded, Shown;
  }

  /** And when none does. */
  lemma NoFileAnswers(db: Db, camera: int, at: int, now: int, previous: Option<int>, next: Option<int>)
    requires NothingAt(db, camera, at, previous, next)
    ensures AnswerRight(db, camera, at, now, if AtEdge(db, camera, at, now) then EdgeWait(previous, next) else Gap(previous, next))
  {
    GapIs(db, camera, at, previous, next);
    EdgeIs(db, camera, at, now);
    hide NothingThere, NothingAt, AtEdge, BeingRecorded;
  }

  /** For every database, instant and clock exactly one answer is right. */
  lemma ExactlyOneAnswer(db: Db, camera: int, at: int, now: int, r: Rounding)
    requires Inv(db, r) && Outward(r)
    ensures exists a :: AnswerRight(db, camera, at, now, a) && forall b :: AnswerRight(db, camera, at, now, b) ==> b == a
  {
    hide *;
    var a := AnAnswer(db, camera, at, now, r);
    forall b | AnswerRight(db, camera, at, now, b)
      ensures b == a
    {
      AnswersUnique(db, camera, at, now, a, b);
    }
  }

  lemma AnAnswer(db: Db, camera: int, at: int, now: int, r: Rounding) returns (a: Answer)
    requires Inv(db, r) && Outward(r)
    ensures AnswerRight(db, camera, at, now, a)
  {
    SpansAtInstant(db, camera, at, r);
    var spans := Spans(db, Window(camera, at, at + 1));
    if spans == [] {
      var p := PreviousEnd(db, camera, at);
      var previous := if p.None? then None else Some(p.value - 1);
      NoFileAnswers(db, camera, at, now, previous, NextStart(db, camera, at));
      a := if AtEdge(db, camera, at, now) then EdgeWait(previous, NextStart(db, camera, at)) else Gap(previous, NextStart(db, camera, at));
    } else {
      var id := spans[|spans| - 1].id;
      FileAnswers(db, camera, at, now, id, r);
      var s, rows := db.segments[id], PublishedFragments(db, id);
      if s.fragmented && !Browsable(CodecOf(db, id)) {
        a := Unsupported;
      } else if s.fragmented && rows == [] {
        a := NoFragments;
      } else {
        var start := if s.fragmented then rows[0].mediaStartMs as real / 1000.0 else 0.0;
        a := Place(id, start, start + (at - s.startMs.value) as real / 1000.0);
      }
    }
    hide Inv, Outward, Spans, AnswerRight, Answers, Browsable, CodecOf, PublishedFragments, AtEdge, PreviousEnd, NextStart;
  }

  // ---------- the handler ----------

  method ResolveGap(db: Db, camera: int, at: int, now: int) returns (a: Answer)
    requires !Covered(db, camera, at)
    ensures AnswerRight(db, camera, at, now, a)
  {
    hide Covered, PreviousEnd, NextStart, PlayableEnd, WaitingAt, Active, AnswerRight;
    var previous, next := PreviousEnd(db, camera, at), NextStart(db, camera, at);
    var previousAt := if previous.None? then None else Some(previous.value - 1);
    var end := PlayableEnd(db, camera);
    NoFileAnswers(db, camera, at, now, previousAt, next);
    if Active(db, camera) && next.None? && at <= now + 5000 && (end.None? || at >= end.value) && WaitingAt(db, camera, at) {
      return EdgeWait(previousAt, next);
    }
    return Gap(previousAt, next);
  }

  /** handlePlaybackResolve. */
  method Resolve(db: Db, camera: int, at: int, now: int, r: Rounding) returns (a: Answer)
    requires Inv(db, r) && Outward(r)
    ensures AnswerRight(db, camera, at, now, a)
  {
    SpansAtInstant(db, camera, at, r);
    var spans := Spans(db, Window(camera, at, at + 1));
    assert spans != [] ==> Playable(db, camera, spans[|spans| - 1].id);
    hide AtEdge, NothingAt, Browsable, Answers, SpanKey, Before, Covers, Descending, RangeQuery, AnswerRight;
    hide Inv, Outward, Spans, Covered, PreviousEnd, NextStart, PublishedFragments, PlayableEnd, WaitingAt, Active, CodecOf;
    if |spans| > 0 {
      var id := spans[|spans| - 1].id;
      FileAnswers(db, camera, at, now, id, r);
      var s := db.segments[id];
      if s.fragmented && !Browsable(CodecOf(db, id)) { return Unsupported; }
      var mediaStart := 0.0;
      if s.fragmented {
        var rows := PublishedFragments(db, id);
        if |rows| == 0 { return NoFragments; }
        mediaStart := rows[0].mediaStartMs as real / 1000.0;
      }
      return Place(id, mediaStart, mediaStart + (at - s.startMs.value) as real / 1000.0);
    }
    a := ResolveGap(db, camera, at, now);
  }
}
