/** PublishRecordingMedia of internal/store/playback_media.go, and what whole histories of one growing file publish. */
module Publication {
  import opened Bytes
  import opened Options
  import opened RecordingIndex
  import opened PlaybackDb

  datatype MediaIndex = MediaIndex(index: Index, codec: bytes, basis: string)

  datatype PublishError = InvalidIndex | NoSegment | MediaDeleted | Changed

  /** Unchanged: nothing to publish.  Refused: an error, and the transaction rolls back. */
  datatype PublishResult = Published(db: Db) | Unchanged | Refused(error: PublishError)

  predicate FragmentFits(x: Index, f: Fragment) {
    && f.sequence >= 0 && f.offset >= x.initLength && f.length > 0 && f.offset <= x.committedOffset - f.length
    && f.endMs > f.startMs && f.mediaEndMs > f.mediaStartMs
  }

  predicate InOrder(p: Fragment, f: Fragment) {
    f.sequence > p.sequence && f.offset >= p.offset + p.length && f.startMs >= p.startMs
  }

  predicate ValidFragments(x: Index) {
    && (forall f | f in x.fragments :: FragmentFits(x, f))
    && (forall i | 0 < i < |x.fragments| :: InOrder(x.fragments[i - 1], x.fragments[i]))
  }

  predicate ValidIndex(x: MediaIndex) {
    && x.index.initLength > 0 && x.index.committedOffset >= x.index.initLength && x.basis != ""
    && ValidFragments(x.index)
  }

  /** The media row a file already has must be the same media, not ahead of the new index. */
  predicate SameMedia(m: Media, x: MediaIndex) {
    m.initLength == x.index.initLength && m.committedOffset <= x.index.committedOffset && m.codec == x.codec && m.basis == x.basis
  }

  /** Inserts the fragment rows that are not there yet; None when a row that is there differs. */
  function InsertFragments(db: Db, id: int, fs: seq<Fragment>, r: Rounding): (result: Option<Db>)
    requires id in db.segments
    ensures result.Some? ==> id in result.value.segments
  {
    if fs == [] then Some(db)
    else
      var f := fs[|fs| - 1];
      var before :- InsertFragments(db, id, fs[..|fs| - 1], r);
      if (id, f.sequence) in before.fragments then
        if before.fragments[(id, f.sequence)] != f then None else Some(before)
      else Some(InsertFragment(before, id, f, r))
  }

  function SaveMedia(db: Db, id: int, x: MediaIndex, r: Rounding): (saved: Db)
    requires id in db.segments
    ensures id in saved.segments
  {
    if id in db.media then db.(media := db.media[id := db.media[id].(committedOffset := x.index.committedOffset)])
    else InsertMedia(db, id, Media(x.index.initLength, x.index.committedOffset, x.codec, x.basis), r)
  }

  function Milliseconds(ms: int): real { ms as real / 1000.0 }

  /** The last statement: the file's own interval. */
  function SaveInterval(db: Db, id: int, fs: seq<Fragment>, r: Rounding): Db
    requires id in db.segments && fs != []
  {
    UpdateRow(db, id, db.segments[id].(tsStart := Milliseconds(fs[0].startMs), tsEnd := Some(Milliseconds(fs[|fs| - 1].endMs))),
              {TsStart, TsEnd}, r, NewestFirst)
  }

  function Publish(db: Db, id: int, x: MediaIndex, r: Rounding): PublishResult {
    if x.index.fragments == [] then Unchanged
    else if !ValidIndex(x) then Refused(InvalidIndex)
    else if id !in db.segments then Refused(NoSegment)
    else if db.segments[id].status == Deleted then Refused(MediaDeleted)
    else if id in db.media && !SameMedia(db.media[id], x) then Refused(Changed)
    else
      var saved := SaveMedia(db, id, x, r);
      match InsertFragments(saved, id, x.index.fragments, r)
      case None => Refused(Changed)
      case Some(db') => Published(SaveInterval(db', id, x.index.fragments, r))
  }

  // ---------- publication keeps the lookup exact ----------

  lemma SaveMediaKeeps(db: Db, id: int, x: MediaIndex, r: Rounding)
    requires Inv(db, r) && id in db.segments
    ensures var db' := SaveMedia(db, id, x, r);
            && Inv(db', r) && id in db'.segments && id in db'.media
            && db'.media[id].committedOffset == x.index.committedOffset
            && db'.fragments == db.fragments && db'.segments.Keys == db.segments.Keys
            && (forall j | j != id :: (j in db'.media) == (j in db.media) && (j in db.media ==> db'.media[j] == db.media[j]))
            && (id in db.media ==> db'.media[id] == db.media[id].(committedOffset := x.index.committedOffset))
            && (id !in db.media ==> db'.media[id] == Media(x.index.initLength, x.index.committedOffset, x.codec, x.basis))
  {
    if id in db.media {
      var db' := SaveMedia(db, id, x, r);
      forall j | j in db'.segments
        ensures RowExact(db', j, db'.segments[j])
      {
        SameFragments(db, db', j, db.segments[j]);
      }
      forall j: int
        ensures RangeExact(db', j, r)
      {
        assert RangeExact(db, j, r);
      }
    } else {
      InsertMediaKeeps(db, id, Media(x.index.initLength, x.index.committedOffset, x.codec, x.basis), r);
    }
  }

  predicate Listing(fragments: map<(int, int), Fragment>, id: int, fs: seq<Fragment>) {
    && (forall f | f in fs :: (id, f.sequence) in fragments && fragments[(id, f.sequence)] == f)
    && (forall k | k in fragments && k.0 == id :: exists f | f in fs :: f.sequence == k.1)
  }

  /** Rows are added only, and only those of the inserted fragments. */
  predicate Added(was: map<(int, int), Fragment>, now: map<(int, int), Fragment>, id: int, fs: seq<Fragment>) {
    && (forall k | k in was :: k in now && now[k] == was[k])
    && (forall f | f in fs :: (id, f.sequence) in now && now[(id, f.sequence)] == f)
    && (forall k | k in now && k !in was :: k.0 == id && exists f | f in fs :: f.sequence == k.1)
  }

  lemma {:induction false} InsertFragmentsKeeps(db: Db, id: int, fs: seq<Fragment>, r: Rounding)
    requires Inv(db, r) && id in db.segments && id in db.media
    requires forall f | f in fs :: f.startMs < f.endMs
    requires InsertFragments(db, id, fs, r).Some?
    ensures var db' := InsertFragments(db, id, fs, r).value;
            && Inv(db', r) && db'.media == db.media && db'.segments.Keys == db.segments.Keys
            && db'.segments[id].status == db.segments[id].status
            && Added(db.fragments, db'.fragments, id, fs)
    decreases |fs|
  {
    hide Inv, InsertFragment, Widen;
    if fs != [] {
      var n := |fs| - 1;
      InsertFragmentsKeeps(db, id, fs[..n], r);
      var before := InsertFragments(db, id, fs[..n], r).value;
      if (id, fs[n].sequence) !in before.fragments {
        InsertFragmentKeeps(before, id, fs[n], r);
        WidenKeepsStatus(before.segments[id], fs[n]);
      }
      AddedOne(db.fragments, before.fragments, id, fs, InsertFragments(db, id, fs, r).value.fragments);
    }
  }

  lemma WidenKeepsStatus(s: Segment, f: Fragment)
    ensures Widen(s, f).status == s.status
  {
  }

  lemma AddedOne(was: map<(int, int), Fragment>, mid: map<(int, int), Fragment>, id: int, fs: seq<Fragment>, now: map<(int, int), Fragment>)
    requires fs != [] && Added(was, mid, id, fs[..|fs| - 1])
    requires var f := fs[|fs| - 1];
             if (id, f.sequence) in mid then now == mid && mid[(id, f.sequence)] == f else now == mid[(id, f.sequence) := f]
    ensures Added(was, now, id, fs)
  {
    var n := |fs| - 1;
    forall f | f in fs
      ensures (id, f.sequence) in now && now[(id, f.sequence)] == f
    {
      if f != fs[n] { assert f in fs[..n]; }
    }
    forall k | k in now && k !in was
      ensures k.0 == id && exists f | f in fs :: f.sequence == k.1
    {
      if k in mid {
        var f :| f in fs[..n] && f.sequence == k.1;
        assert f in fs;
      } else {
        assert fs[n] in fs;
      }
    }
  }

  lemma SaveIntervalKeeps(db: Db, id: int, fs: seq<Fragment>, r: Rounding)
    requires Inv(db, r) && id in db.segments && fs != []
    ensures var db' := SaveInterval(db, id, fs, r);
            Inv(db', r) && db'.media == db.media && db'.fragments == db.fragments && db'.segments.Keys == db.segments.Keys
  {
    var row := db.segments[id].(tsStart := Milliseconds(fs[0].startMs), tsEnd := Some(Milliseconds(fs[|fs| - 1].endMs)));
    UpdateKeeps(db, id, row, {TsStart, TsEnd}, r);
    assert RangeExact(db, id, r);
    UpdateLeaves(db, id, row, {TsStart, TsEnd}, r);
  }

  /** A publication keeps the lookup exact, adds exactly the new rows, and never changes or removes one. */
  lemma PublishKeeps(db: Db, id: int, x: MediaIndex, r: Rounding)
    requires Inv(db, r) && Publish(db, id, x, r).Published?
    ensures var db' := Publish(db, id, x, r).db;
            && Inv(db', r) && db'.segments.Keys == db.segments.Keys && id in db'.media
            && db'.media[id].committedOffset == x.index.committedOffset
            && (id in db.media ==> db.media[id].committedOffset <= db'.media[id].committedOffset)
            && Added(db.fragments, db'.fragments, id, x.index.fragments)
            && SameMedia(db'.media[id], x)
            && (forall j | j != id :: (j in db'.media) == (j in db.media) && (j in db.media ==> db'.media[j] == db.media[j]))
  {
    hide Inv, SaveMedia, InsertFragments, SaveInterval, Added;
    SaveMediaKeeps(db, id, x, r);
    var saved := SaveMedia(db, id, x, r);
    var fs := x.index.fragments;
    assert forall f | f in fs :: FragmentFits(x.index, f);
    InsertFragmentsKeeps(saved, id, fs, r);
    SaveIntervalKeeps(InsertFragments(saved, id, fs, r).value, id, fs, r);
  }

  // ---------- histories of one file ----------

  /** The stored rows of a file are exactly these fragments. */
  predicate RowsAre(db: Db, id: int, fs: seq<Fragment>) {
    Listing(db.fragments, id, fs)
  }

  lemma RowsGrow(was: Db, now: Db, id: int, a: seq<Fragment>, b: seq<Fragment>)
    requires RowsAre(was, id, a) && a <= b && Added(was.fragments, now.fragments, id, b)
    ensures RowsAre(now, id, b)
  {
    forall k | k in now.fragments && k.0 == id
      ensures exists f | f in b :: f.sequence == k.1
    {
      if k in was.fragments {
        var f :| f in a && f.sequence == k.1;
        assert f in b;
      }
    }
  }

  /** Rows that are a prefix of the new index are never in its way. */
  lemma {:induction false} NoConflict(db: Db, id: int, a: seq<Fragment>, fs: seq<Fragment>, r: Rounding)
    requires Inv(db, r) && id in db.segments && id in db.media && RowsAre(db, id, a)
    requires forall f | f in fs :: f.startMs < f.endMs
    requires forall i, j | 0 <= i < j < |fs| :: fs[i].sequence < fs[j].sequence
    requires forall f | f in fs :: f in a || forall g | g in a :: g.sequence != f.sequence
    ensures InsertFragments(db, id, fs, r).Some?
    decreases |fs|
  {
    hide Inv, InsertFragment, Added, Listing;
    if fs != [] {
      var n := |fs| - 1;
      assert fs[n] in fs;
      NoConflict(db, id, a, fs[..n], r);
      InsertFragmentsKeeps(db, id, fs[..n], r);
      NextFits(db.fragments, InsertFragments(db, id, fs[..n], r).value.fragments, id, a, fs);
    }
  }

  lemma NextFits(was: map<(int, int), Fragment>, now: map<(int, int), Fragment>, id: int, a: seq<Fragment>, fs: seq<Fragment>)
    requires fs != [] && Listing(was, id, a) && Added(was, now, id, fs[..|fs| - 1])
    requires forall i | 0 <= i < |fs| - 1 :: fs[i].sequence < fs[|fs| - 1].sequence
    requires fs[|fs| - 1] in a || forall g | g in a :: g.sequence != fs[|fs| - 1].sequence
    ensures var f := fs[|fs| - 1]; (id, f.sequence) in now ==> now[(id, f.sequence)] == f
  {
    var f := fs[|fs| - 1];
    var k := (id, f.sequence);
    if k in was {
      var g :| g in a && g.sequence == k.1;
    }
  }

  lemma OrderedBySequence(fs: seq<Fragment>, i: nat, j: nat)
    requires i < j < |fs| && forall k | 0 < k < |fs| :: InOrder(fs[k - 1], fs[k])
    ensures fs[i].sequence < fs[j].sequence && fs[i].startMs <= fs[j].startMs
    decreases j - i
  {
    if i + 1 < j { OrderedBySequence(fs, i, j - 1); }
    assert InOrder(fs[j - 1], fs[j]);
  }

  lemma PrefixNeverConflicts(a: seq<Fragment>, fs: seq<Fragment>)
    requires a <= fs && forall k | 0 < k < |fs| :: InOrder(fs[k - 1], fs[k])
    ensures forall i, j | 0 <= i < j < |fs| :: fs[i].sequence < fs[j].sequence
    ensures forall f | f in fs :: f in a || forall g | g in a :: g.sequence != f.sequence
  {
    forall i, j | 0 <= i < j < |fs|
      ensures fs[i].sequence < fs[j].sequence
    {
      OrderedBySequence(fs, i, j);
    }
    forall f, g | f in fs && f !in a && g in a
      ensures g.sequence != f.sequence
    {
      var i :| 0 <= i < |fs| && fs[i] == f;
      var j :| 0 <= j < |a| && a[j] == g;
      assert fs[j] == g && i != j;
    }
  }

  /** Once an index extends the published one, "published recording fragment changed" cannot happen. */
  lemma ExtensionAccepted(db: Db, id: int, a: seq<Fragment>, x: MediaIndex, r: Rounding)
    requires Inv(db, r) && id in db.segments && db.segments[id].status != Deleted && RowsAre(db, id, a)
    requires x.index.fragments != [] && ValidIndex(x) && a <= x.index.fragments
    requires id in db.media ==> SameMedia(db.media[id], x)
    ensures Publish(db, id, x, r).Published?
  {
    hide Inv, SaveMedia, InsertFragments, SaveInterval, InOrder;
    SaveMediaKeeps(db, id, x, r);
    var saved := SaveMedia(db, id, x, r);
    var fs := x.index.fragments;
    assert forall f | f in fs :: FragmentFits(x.index, f);
    PrefixNeverConflicts(a, fs);
    NoConflict(saved, id, a, fs, r);
  }
}
