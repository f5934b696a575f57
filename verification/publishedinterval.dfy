/** When a publication goes through and what it leaves in the row of the file, told without its statements (internal/store/playback_media.go). */
module PublishedInterval {
  import opened Bytes
  import opened Options
  import opened RecordingIndex
  import opened PlaybackDb
  import opened Publication

  // ---------- what is accepted ----------

  /** Fragment i lies inside the committed bytes and lasts, on both clocks. */
  predicate Whole(x: Index, i: nat)
    requires i < |x.fragments|
  {
    var f := x.fragments[i];
    && 0 <= f.sequence && x.initLength <= f.offset && 0 < f.length && f.offset + f.length <= x.committedOffset
    && f.startMs < f.endMs && f.mediaStartMs < f.mediaEndMs
  }

  /** Fragment i comes behind the one before it. */
  predicate Behind(x: Index, i: nat)
    requires 0 < i < |x.fragments|
  {
    var p, f := x.fragments[i - 1], x.fragments[i];
    p.sequence < f.sequence && p.offset + p.length <= f.offset && p.startMs <= f.startMs
  }

  predicate WellFormed(x: MediaIndex) {
    && 0 < x.index.initLength <= x.index.committedOffset && x.basis != ""
    && (forall i | 0 <= i < |x.index.fragments| :: Whole(x.index, i))
    && (forall i | 0 < i < |x.index.fragments| :: Behind(x.index, i))
  }

  /** No row the file already has is in the way. */
  predicate NothingDiffers(db: Db, id: int, fs: seq<Fragment>) {
    forall f | f in fs && (id, f.sequence) in db.fragments :: db.fragments[(id, f.sequence)] == f
  }

  /** The file is there, and what is published of it is the same media. */
  predicate Publishable(db: Db, id: int, x: MediaIndex) {
    && x.index.fragments != [] && WellFormed(x)
    && id in db.segments && db.segments[id].status != Deleted
    && (id in db.media ==>
          && db.media[id].initLength == x.index.initLength && db.media[id].committedOffset <= x.index.committedOffset
          && db.media[id].codec == x.codec && db.media[id].basis == x.basis)
    && NothingDiffers(db, id, x.index.fragments)
  }

  lemma WellFormedIsValid(x: MediaIndex)
    ensures ValidIndex(x) <==> WellFormed(x)
  {
    var fs := x.index.fragments;
    if forall i | 0 <= i < |fs| :: Whole(x.index, i) {
      forall f | f in fs
        ensures FragmentFits(x.index, f)
      {
        var i :| 0 <= i < |fs| && fs[i] == f;
        assert Whole(x.index, i);
      }
    }
    if forall f | f in fs :: FragmentFits(x.index, f) {
      forall i | 0 <= i < |fs|
        ensures Whole(x.index, i)
      {
        assert FragmentFits(x.index, fs[i]);
      }
    }
    forall i | 0 < i < |fs|
      ensures InOrder(fs[i - 1], fs[i]) <==> Behind(x.index, i)
    {
    }
    hide Whole, Behind, InOrder, FragmentFits;
  }

  /** The rows go in exactly when none of them differs from one that is there. */
  lemma {:induction false} InsertsExactly(db: Db, id: int, fs: seq<Fragment>, r: Rounding)
    requires Inv(db, r) && id in db.segments && id in db.media
    requires forall f | f in fs :: f.startMs < f.endMs
    requires forall i, j | 0 <= i < j < |fs| :: fs[i].sequence < fs[j].sequence
    ensures InsertFragments(db, id, fs, r).Some? <==> NothingDiffers(db, id, fs)
    decreases |fs|
  {
    hide Inv, InsertFragment, Added, NothingDiffers;
    if fs != [] {
      var n := |fs| - 1;
      assert fs[n] in fs;
      InsertsExactly(db, id, fs[..n], r);
      if InsertFragments(db, id, fs[..n], r).Some? {
        InsertFragmentsKeeps(db, id, fs[..n], r);
        LastDiffers(db, InsertFragments(db, id, fs[..n], r).value, id, fs);
      } else {
        FewerDiffer(db, id, fs);
      }
    } else {
      NoneDiffers(db, id);
    }
  }

  lemma NoneDiffers(db: Db, id: int)
    ensures NothingDiffers(db, id, [])
  {
  }

  lemma FewerDiffer(db: Db, id: int, fs: seq<Fragment>)
    requires fs != [] && !NothingDiffers(db, id, fs[..|fs| - 1])
    ensures !NothingDiffers(db, id, fs)
  {
    var f :| f in fs[..|fs| - 1] && (id, f.sequence) in db.fragments && db.fragments[(id, f.sequence)] != f;
    assert f in fs;
  }

  lemma LastDiffers(db: Db, now: Db, id: int, fs: seq<Fragment>)
    requires fs != [] && NothingDiffers(db, id, fs[..|fs| - 1]) && Added(db.fragments, now.fragments, id, fs[..|fs| - 1])
    requires forall i, j | 0 <= i < j < |fs| :: fs[i].sequence < fs[j].sequence
    ensures var k := (id, fs[|fs| - 1].sequence);
            NothingDiffers(db, id, fs) <==> (k in now.fragments ==> now.fragments[k] == fs[|fs| - 1])
  {
    var n := |fs| - 1;
    var f := fs[n];
    var k := (id, f.sequence);
    assert fs == fs[..n] + [f];
    forall g | g in fs[..n]
      ensures g.sequence < f.sequence
    {
      var i :| 0 <= i < n && fs[..n][i] == g;
    }
  }

  lemma AscendingSequences(fs: seq<Fragment>)
    requires forall k | 0 < k < |fs| :: InOrder(fs[k - 1], fs[k])
    ensures forall i, j | 0 <= i < j < |fs| :: fs[i].sequence < fs[j].sequence
  {
    forall i, j | 0 <= i < j < |fs|
      ensures fs[i].sequence < fs[j].sequence
    {
      OrderedBySequence(fs, i, j);
    }
  }

  /** A publication goes through exactly for a publishable index; it is a matter of no fragments, of a malformed index, of the file or of other media otherwise. */
  lemma PublishedExactly(db: Db, id: int, x: MediaIndex, r: Rounding)
    requires Inv(db, r)
    ensures Publish(db, id, x, r).Published? <==> Publishable(db, id, x)
    ensures Publish(db, id, x, r).Unchanged? <==> x.index.fragments == []
    ensures Publish(db, id, x, r) == Refused(InvalidIndex) <==> x.index.fragments != [] && !WellFormed(x)
    ensures Publish(db, id, x, r) == Refused(NoSegment) <==> x.index.fragments != [] && WellFormed(x) && id !in db.segments
    ensures Publish(db, id, x, r) == Refused(MediaDeleted)
            <==> x.index.fragments != [] && WellFormed(x) && id in db.segments && db.segments[id].status == Deleted
  {
    hide Inv, SaveMedia, InsertFragments, SaveInterval, InOrder, FragmentFits, Whole, Behind, NothingDiffers;
    WellFormedIsValid(x);
    if id in db.segments && ValidIndex(x) {
      SaveMediaKeeps(db, id, x, r);
      var saved, fs := SaveMedia(db, id, x, r), x.index.fragments;
      Lasts(x.index);
      AscendingSequences(fs);
      InsertsExactly(saved, id, fs, r);
      SameRows(db, saved, id, fs);
    }
  }

  lemma Lasts(x: Index)
    requires forall f | f in x.fragments :: FragmentFits(x, f)
    ensures forall f | f in x.fragments :: f.startMs < f.endMs
  {
    forall f | f in x.fragments
      ensures f.startMs < f.endMs
    {
      assert FragmentFits(x, f);
    }
  }

  lemma SameRows(a: Db, b: Db, id: int, fs: seq<Fragment>)
    requires a.fragments == b.fragments
    ensures NothingDiffers(a, id, fs) == NothingDiffers(b, id, fs)
  {
  }

  // ---------- what is written ----------

  /** The row has the interval from the start of the first fragment to the end of the last, in seconds; its camera and status are as before. */
  predicate IntervalWritten(was: Segment, now: Segment, fs: seq<Fragment>)
    requires fs != []
  {
    && now.tsStart == fs[0].startMs as real / 1000.0
    && now.tsEnd == Some(fs[|fs| - 1].endMs as real / 1000.0)
    && now.camera == was.camera && now.status == was.status && now.fragmented
  }

  /** No row but this one is touched. */
  predicate OnlyRow(was: Db, now: Db, id: int) {
    now.segments.Keys == was.segments.Keys && forall j | j in was.segments && j != id :: now.segments[j] == was.segments[j]
  }

  /** Up to its interval and its cached extrema a row stays. */
  predicate SameFile(was: Segment, now: Segment) {
    now.camera == was.camera && now.status == was.status && now.tsStart == was.tsStart && now.tsEnd == was.tsEnd
  }

  lemma SaveMediaRow(db: Db, id: int, x: MediaIndex, r: Rounding)
    requires Inv(db, r) && id in db.segments
    ensures var db' := SaveMedia(db, id, x, r); OnlyRow(db, db', id) && SameFile(db.segments[id], db'.segments[id]) && db'.segments[id].fragmented
  {
    if id in db.media {
      assert RowExact(db, id, db.segments[id]);
    } else {
      InsertMediaKeeps(db, id, Media(x.index.initLength, x.index.committedOffset, x.codec, x.basis), r);
    }
  }

  lemma {:induction false} InsertsRow(db: Db, id: int, fs: seq<Fragment>, r: Rounding)
    requires Inv(db, r) && id in db.segments && id in db.media
    requires forall f | f in fs :: f.startMs < f.endMs
    requires InsertFragments(db, id, fs, r).Some?
    ensures var db' := InsertFragments(db, id, fs, r).value;
            OnlyRow(db, db', id) && SameFile(db.segments[id], db'.segments[id]) && db'.segments[id].fragmented == db.segments[id].fragmented
    decreases |fs|
  {
    hide Inv, InsertFragment;
    if fs != [] {
      var n := |fs| - 1;
      InsertsRow(db, id, fs[..n], r);
      InsertFragmentsKeeps(db, id, fs[..n], r);
      var before := InsertFragments(db, id, fs[..n], r).value;
      if (id, fs[n].sequence) !in before.fragments {
        assert fs[n] in fs;
        InsertFragmentKeeps(before, id, fs[n], r);
      }
    }
  }

  lemma SaveIntervalRow(db: Db, id: int, fs: seq<Fragment>, r: Rounding)
    requires Inv(db, r) && id in db.segments && fs != [] && db.segments[id].fragmented
    ensures var db' := SaveInterval(db, id, fs, r); OnlyRow(db, db', id) && IntervalWritten(db.segments[id], db'.segments[id], fs)
  {
    hide UpdateRow, RowExact;
    var row := db.segments[id].(tsStart := Milliseconds(fs[0].startMs), tsEnd := Some(Milliseconds(fs[|fs| - 1].endMs)));
    assert RangeExact(db, id, r);
    UpdateLeaves(db, id, row, {TsStart, TsEnd}, r);
  }

  /** What a publication leaves in the rows of the files. */
  lemma PublishWrites(db: Db, id: int, x: MediaIndex, r: Rounding)
    requires Inv(db, r) && Publish(db, id, x, r).Published?
    ensures var now := Publish(db, id, x, r).db;
            && x.index.fragments != [] && id in db.segments && id in now.segments
            && OnlyRow(db, now, id) && IntervalWritten(db.segments[id], now.segments[id], x.index.fragments)
  {
    hide Inv, SaveMedia, InsertFragments, SaveInterval, Added, FragmentFits, InOrder;
    SaveMediaKeeps(db, id, x, r);
    SaveMediaRow(db, id, x, r);
    var saved, fs := SaveMedia(db, id, x, r), x.index.fragments;
    Lasts(x.index);
    InsertFragmentsKeeps(saved, id, fs, r);
    InsertsRow(saved, id, fs, r);
    SaveIntervalRow(InsertFragments(saved, id, fs, r).value, id, fs, r);
  }
}
