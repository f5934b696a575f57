/**
 Where an instant lands in the media of a growing file: the published index that
 RecordingMedia reads back, and how far the answer can be from the fragment's own clock.
 */
module Seeking {
  import opened Bytes
  import opened Options
  import opened RecordingIndex
  import opened PlaybackDb
  import opened Listings
  import opened Publication
  import opened LookupRuns
  import opened Histories
  import opened Playback
  import opened Resolution

  /** Sort keys of published fragments, last fragment first. */
  function KeysDown(fs: seq<Fragment>, id: int): (keys: seq<Key>)
    ensures |keys| == |fs| && forall i | 0 <= i < |keys| :: keys[i] == Key(fs[|fs| - 1 - i].sequence, id)
  {
    seq(|fs|, i requires 0 <= i < |fs| => Key(fs[|fs| - 1 - i].sequence, id))
  }

  lemma KeysDescend(fs: seq<Fragment>, id: int)
    requires InSequence(fs)
    ensures Descends(KeysDown(fs, id))
  {
    hide InOrder;
    var keys := KeysDown(fs, id);
    forall i, j | 0 <= i < j < |keys|
      ensures Before(keys[j], keys[i])
    {
      OrderedBySequence(fs, |fs| - 1 - j, |fs| - 1 - i);
    }
  }

  lemma FragmentKey(db: Db, id: int, k: Key)
    ensures k in FragmentKeys(db, id) <==> k.id == id && (id, k.rank) in db.fragments
  {
    assert k.id == id && (id, k.rank) in db.fragments ==> Key((id, k.rank).1, (id, k.rank).0) in FragmentKeys(db, id);
  }

  lemma KeysNameRows(db: Db, id: int, fs: seq<Fragment>, k: Key)
    requires RowsAre(db, id, fs)
    ensures k in KeysDown(fs, id) <==> k in FragmentKeys(db, id)
  {
    FragmentKey(db, id, k);
    hide FragmentKeys;
    var keys := KeysDown(fs, id);
    if k in keys {
      var i :| 0 <= i < |keys| && keys[i] == k;
      assert fs[|fs| - 1 - i] in fs;
    }
    if k.id == id && (id, k.rank) in db.fragments {
      assert (id, k.rank).0 == id;
      var f :| f in fs && f.sequence == (id, k.rank).1;
      var i :| 0 <= i < |fs| && fs[i] == f;
      assert keys[|fs| - 1 - i] == k;
    }
  }

  /** Reading the rows back by sequence yields the index that was published. */
  lemma ReadsBackIndex(db: Db, id: int, fs: seq<Fragment>)
    requires RowsAre(db, id, fs) && InSequence(fs)
    ensures PublishedFragments(db, id) == fs
  {
    KeysDescend(fs, id);
    forall k
      ensures k in KeysDown(fs, id) <==> k in FragmentKeys(db, id)
    {
      KeysNameRows(db, id, fs, k);
    }
    hide FragmentKeys, InSequence;
    ListingUnique(FragmentKeys(db, id), KeysDown(fs, id));
    forall i | 0 <= i < |fs|
      ensures PublishedFragments(db, id)[i] == fs[i]
    {
      assert Ascending(FragmentKeys(db, id))[i].rank == fs[i].sequence;
      assert fs[i] in fs;
    }
  }

  /** The cached start of a published file is the start of its first fragment. */
  lemma CachedStartIsFirst(db: Db, id: int, fs: seq<Fragment>, r: Rounding)
    requires Inv(db, r) && id in db.media && RowsAre(db, id, fs) && InSequence(fs) && fs != []
    ensures id in db.segments && db.segments[id].fragmented && db.segments[id].startMs == Some(fs[0].startMs)
  {
    hide InOrder;
    var s := db.segments[id];
    assert RowExact(db, id, s);
    assert fs[0] in fs;
    assert (id, fs[0].sequence) in db.fragments;
    var k :| k in db.fragments && k.0 == id && db.fragments[k].startMs == s.startMs.value;
    var f :| f in fs && f.sequence == k.1;
    var i :| 0 <= i < |fs| && fs[i] == f;
    assert db.fragments[k] == f;
    if i > 0 { OrderedBySequence(fs, 0, i); }
  }

  /** The media of a fragmented file starts with its first published row. */
  lemma PlaceStarts(db: Db, id: int, start: real)
    requires id in db.segments && StartsAt(db, id, start) && db.segments[id].fragmented && PublishedFragments(db, id) != []
    ensures start == PublishedFragments(db, id)[0].mediaStartMs as real / 1000.0
  {
    hide PublishedFragments;
    RowsAreThere(db, id);
    var i :| FirstRow(db, id, i) && start == db.fragments[(id, i)].mediaStartMs as real / 1000.0;
    var j :| FirstRow(db, id, j) && PublishedFragments(db, id)[0] == db.fragments[(id, j)];
    assert (id, i).0 == id && (id, j).0 == id;
  }

  /**
   For an instant inside fragment i of a file published while it grew and whatever
   else happened, the position handed out is within two milliseconds of that fragment's own media
   position for the instant.
   */
  lemma SeekWithinClock(db: Db, id: int, src: bytes, events: seq<Event>, r: Rounding, camera: int, at: int, now: int, a: Answer, i: nat)
    requires AllFit(events, id, src)
    requires Growing(events) && Inv(db, r) && RowsAre(db, id, [])
    requires var h := After(db, id, src, events, r);
             && AnswerRight(h.db, camera, at, now, a) && a.Place? && a.id == id
             && i < |h.accepted| && h.accepted[i].startMs <= at < h.accepted[i].endMs
    ensures var f := After(db, id, src, events, r).accepted[i];
            -2.0 <= a.requestedOffset * 1000.0 - (f.mediaStartMs + at - f.startMs) as real <= 2.0
  {
    hide Inv, After, Listing, InSequence, ReadIndex, PublishedFragments, Answers;
    PublicationFollowsFile(db, id, src, events, r);
    var h := After(db, id, src, events, r);
    ReadsBackIndex(h.db, id, h.accepted);
    CachedStartIsFirst(h.db, id, h.accepted, r);
    RowsAreThere(h.db, id);
    PlaceStarts(h.db, id, a.mediaStart);
    var f := h.accepted[i];
    assert f in h.accepted;
    assert a.requestedOffset * 1000.0 == (h.accepted[0].mediaStartMs + at - h.accepted[0].startMs) as real;
  }
}
