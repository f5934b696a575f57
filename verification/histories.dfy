/**
 Histories in which one growing file is looked at again and again while anything
 else happens to the recordings database: other files open, close, are published,
 marked or deleted, and so does the file itself.
 */
module Histories {
  import opened Bytes
  import opened Options
  import opened Listings
  import opened RecordingIndex
  import opened PlaybackDb
  import opened Publication
  import opened LookupRuns
  import opened PublishedInterval
  import opened LookupMeaning

  /** One look at a growing file: how much of it was there, and the codec and time basis found. */
  datatype Reading = Reading(size: nat, codec: bytes, basis: string)

  /** Only looks publish the file; everything else is an operation of its own. */
  datatype Event = Look(reading: Reading) | Other(op: Op)

  predicate Elsewhere(op: Op, id: int) { op.PublishOp? ==> op.id != id }

  function Attempt(db: Db, id: int, src: bytes, reading: Reading, r: Rounding): PublishResult
    requires reading.size <= |src|
  {
    match ReadIndex(src, reading.size)
    case Failed(_) => Unchanged
    case Indexed(x) => Publish(db, id, MediaIndex(x, reading.codec, reading.basis), r)
  }

  /** `closed`: the file has been closed since the last accepted look. */
  datatype History = History(db: Db, size: nat, accepted: seq<Fragment>, closed: bool)

  predicate Closes(op: Op, id: int) { op.Close? && op.id == id }

  predicate EventFits(e: Event, id: int, src: bytes) {
    match e case Look(x) => x.size <= |src| case Other(op) => Elsewhere(op, id)
  }

  function Happen(h: History, id: int, src: bytes, e: Event, r: Rounding): History
    requires EventFits(e, id, src)
  {
    match e
    case Other(op) => h.(db := Apply(h.db, op, r), closed := h.closed || Closes(op, id))
    case Look(x) =>
      match Attempt(h.db, id, src, x, r)
      case Published(db') => History(db', x.size, ReadIndex(src, x.size).index.fragments, false)
      case _ => h
  }

  predicate AllFit(events: seq<Event>, id: int, src: bytes) { forall e | e in events :: EventFits(e, id, src) }

  /** The database after the events, with the fragments of the last accepted index. */
  function After(db: Db, id: int, src: bytes, events: seq<Event>, r: Rounding): History
    requires AllFit(events, id, src)
  {
    if events == [] then History(db, 0, [], false)
    else Happen(After(db, id, src, events[..|events| - 1], r), id, src, events[|events| - 1], r)
  }

  /** The file only grows from look to look. */
  predicate Growing(events: seq<Event>) {
    forall i, j | 0 <= i <= j < |events| && events[i].Look? && events[j].Look? :: events[i].reading.size <= events[j].reading.size
  }

  predicate RowsKept(was: Db, now: Db) {
    forall k | k in was.fragments :: k in now.fragments && now.fragments[k] == was.fragments[k]
  }

  predicate InSequence(fs: seq<Fragment>) {
    forall i | 0 < i < |fs| :: InOrder(fs[i - 1], fs[i])
  }

  ghost predicate HistoryOk(h: History, id: int, src: bytes, r: Rounding) {
    && Inv(h.db, r) && RowsAre(h.db, id, h.accepted) && h.size <= |src| && InSequence(h.accepted)
    && (h.accepted != [] ==>
          && ReadIndex(src, h.size).Indexed? && h.accepted == ReadIndex(src, h.size).index.fragments
          && id in h.db.media && h.db.media[id].committedOffset == ReadIndex(src, h.size).index.committedOffset
          && Laid(h.accepted, h.db.media[id].committedOffset) && h.db.media[id].committedOffset <= h.size
          && RowTells(h.db, id, h.accepted, h.closed))
  }

  /** The row of the file starts with the first of these fragments and, unless it was closed since, ends with the last one. */
  predicate RowTells(db: Db, id: int, fs: seq<Fragment>, closed: bool)
    requires fs != []
  {
    && id in db.segments
    && db.segments[id].tsStart == fs[0].startMs as real / 1000.0
    && (!closed ==> db.segments[id].tsEnd == Some(fs[|fs| - 1].endMs as real / 1000.0))
  }

  // ---------- a look ----------

  lemma AttemptExtends(h: History, id: int, src: bytes, reading: Reading, r: Rounding)
    requires HistoryOk(h, id, src, r) && h.size <= reading.size <= |src|
    requires Attempt(h.db, id, src, reading, r).Published?
    ensures ReadIndex(src, reading.size).Indexed?
    ensures var db' := Attempt(h.db, id, src, reading, r).db;
            && HistoryOk(History(db', reading.size, ReadIndex(src, reading.size).index.fragments, false), id, src, r)
            && RowsKept(h.db, db') && MediaKept(h.db, db')
  {
    hide *;
    AttemptIs(h.db, id, src, reading, r);
    var x, db' := ReadIndex(src, reading.size).index, Attempt(h.db, id, src, reading, r).db;
    var m := MediaIndex(x, reading.codec, reading.basis);
    KnownHistory(h, id, src, r);
    PublishKeeps(h.db, id, m, r);
    PublishWrites(h.db, id, m, r);
    CommittedWhole(src, reading.size);
    if h.accepted != [] { PrefixMonotone(src, h.size, reading.size); }
    RowsGrow(h.db, db', id, h.accepted, x.fragments);
    IntervalTells(h.db, db', id, x.fragments);
    NewHistory(db', id, src, reading.size, r);
    RowsAdded(h.db, db', id, x.fragments);
  }

  lemma AttemptIs(db: Db, id: int, src: bytes, reading: Reading, r: Rounding)
    requires reading.size <= |src| && Attempt(db, id, src, reading, r).Published?
    ensures ReadIndex(src, reading.size).Indexed?
    ensures var x := ReadIndex(src, reading.size).index;
            && Publish(db, id, MediaIndex(x, reading.codec, reading.basis), r) == Attempt(db, id, src, reading, r)
            && x.fragments != [] && InSequence(x.fragments)
  {
    hide ReadIndex, SaveMedia, SaveInterval, InsertFragments, InOrder, FragmentFits;
  }

  lemma KnownHistory(h: History, id: int, src: bytes, r: Rounding)
    requires HistoryOk(h, id, src, r)
    ensures Inv(h.db, r) && RowsAre(h.db, id, h.accepted) && h.size <= |src|
    ensures h.accepted != [] ==> ReadIndex(src, h.size).Indexed? && h.accepted == ReadIndex(src, h.size).index.fragments
  {
    hide Inv, ReadIndex, Listing, Laid, InSequence, RowTells;
  }

  lemma IntervalTells(was: Db, now: Db, id: int, fs: seq<Fragment>)
    requires fs != [] && id in was.segments && id in now.segments && IntervalWritten(was.segments[id], now.segments[id], fs)
    ensures RowTells(now, id, fs, false)
  {
  }

  lemma RowsAdded(was: Db, now: Db, id: int, fs: seq<Fragment>)
    requires Added(was.fragments, now.fragments, id, fs)
    requires id in was.media ==> id in now.media && was.media[id].committedOffset <= now.media[id].committedOffset
    requires forall j | j != id :: (j in now.media) == (j in was.media) && (j in was.media ==> now.media[j] == was.media[j])
    ensures RowsKept(was, now) && MediaKept(was, now)
  {
  }

  lemma NewHistory(db: Db, id: int, src: bytes, size: nat, r: Rounding)
    requires Inv(db, r) && size <= |src| && ReadIndex(src, size).Indexed?
    requires var x := ReadIndex(src, size).index;
             && x.fragments != [] && RowsAre(db, id, x.fragments) && InSequence(x.fragments)
             && id in db.media && db.media[id].committedOffset == x.committedOffset
             && Laid(x.fragments, x.committedOffset) && x.committedOffset <= size && RowTells(db, id, x.fragments, false)
    ensures HistoryOk(History(db, size, ReadIndex(src, size).index.fragments, false), id, src, r)
  {
    hide Inv, ReadIndex, Listing, Laid, InSequence, RowTells;
  }

  // ---------- everything else ----------

  /** No media row goes, and no committed offset falls. */
  predicate MediaKept(was: Db, now: Db) {
    forall j | j in was.media :: j in now.media && was.media[j].committedOffset <= now.media[j].committedOffset
  }

  /** The fragment rows and the media row of the file stay as they are. */
  ghost predicate FileUntouched(was: Db, now: Db, id: int) {
    && (forall k: (int, int) | k.0 == id :: (k in was.fragments) == (k in now.fragments))
    && (forall k | k in was.fragments && k.0 == id && k in now.fragments :: now.fragments[k] == was.fragments[k])
    && (id in was.media) == (id in now.media) && (id in was.media ==> now.media[id] == was.media[id])
  }

  lemma StatusLeaves(db: Db, id: int, row: Segment, cols: set<Column>, r: Rounding)
    requires Inv(db, r) && id in db.segments && ChangesOnly(db.segments[id], row, cols)
    ensures var db' := UpdateRow(db, id, row, cols, r, NewestFirst); db'.media == db.media && db'.fragments == db.fragments
  {
    hide UpdateRow, RowExact;
    assert RangeExact(db, id, r);
    UpdateLeaves(db, id, row, cols, r);
  }

  lemma PublishElsewhere(db: Db, j: int, x: MediaIndex, r: Rounding, id: int)
    requires Inv(db, r) && j != id && Publish(db, j, x, r).Published?
    ensures var db' := Publish(db, j, x, r).db; FileUntouched(db, db', id) && RowsKept(db, db') && MediaKept(db, db')
  {
    hide Inv, Publish;
    PublishKeeps(db, j, x, r);
  }

  /** No other operation touches the rows of the file, removes a row, or takes back committed bytes. */
  lemma OtherLeaves(db: Db, op: Op, r: Rounding, id: int)
    requires Inv(db, r) && Elsewhere(op, id)
    ensures Inv(Apply(db, op, r), r) && FileUntouched(db, Apply(db, op, r), id)
    ensures RowsKept(db, Apply(db, op, r)) && MediaKept(db, Apply(db, op, r))
  {
    hide Inv, UpdateRow, InsertRow, Publish;
    ApplyKeeps(db, op, r);
    match op
    case Open(j, row) => if j !in db.segments { InsertKeeps(db, j, row, r); }
    case Reopen(j, status) => StatusChangeLeaves(db, j, status, r);
    case Close(j, tsEnd, status) =>
      if j in db.segments {
        StatusLeaves(db, j, db.segments[j].(tsEnd := Some(tsEnd), status := status), {TsEnd, StatusColumn}, r);
      }
    case Mark(j, status) => StatusChangeLeaves(db, j, status, r);
    case Delete(j) => StatusChangeLeaves(db, j, Deleted, r);
    case PublishOp(j, x) => if Publish(db, j, x, r).Published? { PublishElsewhere(db, j, x, r, id); }
  }

  lemma StatusChangeLeaves(db: Db, id: int, status: Status, r: Rounding)
    requires Inv(db, r)
    ensures var db' := SetStatus(db, id, status, r); db'.media == db.media && db'.fragments == db.fragments
  {
    hide Inv, UpdateRow;
    if id in db.segments { StatusLeaves(db, id, db.segments[id].(status := status), {StatusColumn}, r); }
  }

  /** Only a close of the file changes the end of its row, and nothing else its start. */
  lemma OtherRowTells(h: History, op: Op, id: int, r: Rounding)
    requires Inv(h.db, r) && Elsewhere(op, id) && h.accepted != [] && RowTells(h.db, id, h.accepted, h.closed)
    ensures RowTells(Apply(h.db, op, r), id, h.accepted, h.closed || Closes(op, id))
  {
    hide Inv, Apply, Publishable, Added, IntervalWritten;
    OperationDoes(h.db, op, r);
  }

  lemma OtherKeepsHistory(h: History, op: Op, id: int, src: bytes, r: Rounding)
    requires HistoryOk(h, id, src, r) && Elsewhere(op, id)
    ensures HistoryOk(h.(db := Apply(h.db, op, r), closed := h.closed || Closes(op, id)), id, src, r)
    ensures RowsKept(h.db, Apply(h.db, op, r)) && MediaKept(h.db, Apply(h.db, op, r))
  {
    hide Inv, Apply, ReadIndex, Laid, InSequence, RowTells, Closes;
    OtherLeaves(h.db, op, r, id);
    if h.accepted != [] { OtherRowTells(h, op, id, r); }
    var now := Apply(h.db, op, r);
    forall f | f in h.accepted
      ensures (id, f.sequence) in now.fragments && now.fragments[(id, f.sequence)] == f
    {
      assert (id, f.sequence) in h.db.fragments;
    }
    forall k | k in now.fragments && k.0 == id
      ensures exists f | f in h.accepted :: f.sequence == k.1
    {
      assert k in h.db.fragments;
    }
  }

  // ---------- whole histories ----------

  lemma {:induction false} SizesAscend(db: Db, id: int, src: bytes, events: seq<Event>, r: Rounding, bound: nat)
    requires AllFit(events, id, src) && forall e | e in events && e.Look? :: e.reading.size <= bound
    ensures After(db, id, src, events, r).size <= bound
    decreases |events|
  {
    hide Attempt, Apply;
    if events != [] {
      SizesAscend(db, id, src, events[..|events| - 1], r, bound);
      assert events[|events| - 1] in events;
    }
  }

  /** One event keeps what is known of the file, every fragment row and every committed byte. */
  lemma HappenKeeps(h: History, id: int, src: bytes, e: Event, r: Rounding)
    requires HistoryOk(h, id, src, r) && EventFits(e, id, src) && (e.Look? ==> h.size <= e.reading.size)
    ensures HistoryOk(Happen(h, id, src, e, r), id, src, r)
    ensures RowsKept(h.db, Happen(h, id, src, e, r).db) && MediaKept(h.db, Happen(h, id, src, e, r).db)
  {
    hide Inv, Attempt, ReadIndex, Listing, Laid, Apply, HistoryOk, Elsewhere;
    match e
    case Other(op) => OtherKeepsHistory(h, op, id, src, r);
    case Look(x) => if Attempt(h.db, id, src, x, r).Published? { AttemptExtends(h, id, src, x, r); }
  }

  lemma LastEvent(db: Db, id: int, src: bytes, events: seq<Event>, r: Rounding)
    requires events != [] && Growing(events) && AllFit(events, id, src)
    ensures Growing(events[..|events| - 1]) && AllFit(events[..|events| - 1], id, src) && EventFits(events[|events| - 1], id, src)
    ensures events[|events| - 1].Look? ==> After(db, id, src, events[..|events| - 1], r).size <= events[|events| - 1].reading.size
  {
    hide EventFits, After;
    var n := |events| - 1;
    if events[n].Look? {
      forall d | d in events[..n] && d.Look?
        ensures d.reading.size <= events[n].reading.size
      {
        var i :| 0 <= i < n && events[i] == d;
      }
      SizesAscend(db, id, src, events[..n], r, events[n].reading.size);
    }
  }

  /**
   Whatever looks are taken at a growing file, whichever of them are refused, and
   whatever else happens in between, the stored rows are the fragments of the last
   accepted index: disjoint, in sequence order, inside the committed bytes,
   agreeing on the clock.
   */
  lemma {:induction false} PublicationFollowsFile(db: Db, id: int, src: bytes, events: seq<Event>, r: Rounding)
    requires AllFit(events, id, src)
    requires Growing(events) && Inv(db, r) && RowsAre(db, id, [])
    ensures HistoryOk(After(db, id, src, events, r), id, src, r)
    decreases |events|
  {
    hide Inv, Happen, Listing, HistoryOk, EventFits, Growing, AllFit;
    if events == [] {
      FreshHistory(db, id, src, r);
    } else {
      var n := |events| - 1;
      LastEvent(db, id, src, events, r);
      PublicationFollowsFile(db, id, src, events[..n], r);
      HappenKeeps(After(db, id, src, events[..n], r), id, src, events[n], r);
    }
  }

  lemma FreshHistory(db: Db, id: int, src: bytes, r: Rounding)
    requires Inv(db, r) && RowsAre(db, id, [])
    ensures HistoryOk(After(db, id, src, [], r), id, src, r)
  {
    hide Inv;
  }

  /** And every event keeps all published rows as they are and never lowers a committed offset. */
  lemma PublishedRowsStay(db: Db, id: int, src: bytes, events: seq<Event>, r: Rounding)
    requires events != [] && AllFit(events, id, src)
    requires Growing(events) && Inv(db, r) && RowsAre(db, id, [])
    ensures var before, after := After(db, id, src, events[..|events| - 1], r), After(db, id, src, events, r);
            RowsKept(before.db, after.db) && MediaKept(before.db, after.db)
  {
    hide Inv, Happen, Listing, HistoryOk, RowsKept, MediaKept, EventFits, Growing, AllFit;
    var n := |events| - 1;
    LastEvent(db, id, src, events, r);
    PublicationFollowsFile(db, id, src, events[..n], r);
    HappenKeeps(After(db, id, src, events[..n], r), id, src, events[n], r);
  }
}
