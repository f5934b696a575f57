/**
 The tables as they are kept: statements change them in place and run their
 triggers, and a publication is one transaction over them
 (internal/store/playback_lookup_schema.go, playback_media.go).
 */
module PlaybackStore {
  import opened Bytes
  import opened Options
  import opened RecordingIndex
  import opened PlaybackDb
  import opened Publication
  import opened PublishedInterval

  datatype PublishOutcome = Done | NothingToDo | Error(error: PublishError)

  class Store {
    var segments: map<int, Segment>
    var media: map<int, Media>
    var fragments: map<(int, int), Fragment>
    var ranges: map<int, RangeRow>
    const rounding: Rounding

    constructor (rounding: Rounding)
      ensures Snapshot() == Db(map[], map[], map[], map[]) && this.rounding == rounding
      ensures Inv(Snapshot(), rounding)
    {
      segments, media, fragments, ranges := map[], map[], map[], map[];
      this.rounding := rounding;
    }

    function Snapshot(): Db
      reads this
    {
      Db(segments, media, fragments, ranges)
    }

    /** The trigger body that rewrites the range row of one file. */
    method ReplaceRange(id: int, row: Segment)
      modifies this`ranges
      ensures Snapshot() == RangeUpdate(old(Snapshot()), id, row, rounding)
    {
      ranges := ranges - {id};
      if Available(row) { ranges := ranges[id := RangeOf(row, rounding)]; }
    }

    method WriteExtrema(id: int, row: Segment)
      requires id in segments
      modifies this
      ensures Snapshot() == SetExtrema(old(Snapshot()), id, row, rounding)
    {
      var was := segments[id];
      segments := segments[id := row];
      if RangeFires(was, row, {StartMs, EndMs}) { ReplaceRange(id, row); }
    }

    /** UPDATE recording_segments: the range trigger first, then the legacy trigger. */
    method UpdateSegment(id: int, row: Segment, cols: set<Column>)
      requires id in segments
      modifies this
      ensures Snapshot() == UpdateRow(old(Snapshot()), id, row, cols, rounding, NewestFirst)
      ensures KeepsCache(old(segments[id]), row) && ChangesOnly(old(segments[id]), row, cols) && Inv(old(Snapshot()), rounding)
              ==> Inv(Snapshot(), rounding)
    {
      ghost var before := Snapshot();
      UpdateInPlace(id, row, cols);
      hide Inv, UpdateRow;
      if KeepsCache(before.segments[id], row) && ChangesOnly(before.segments[id], row, cols) && Inv(before, rounding) {
        UpdateKeeps(before, id, row, cols, rounding);
      }
    }

    method UpdateInPlace(id: int, row: Segment, cols: set<Column>)
      requires id in segments
      modifies this
      ensures Snapshot() == UpdateRow(old(Snapshot()), id, row, cols, rounding, NewestFirst)
    {
      var was := segments[id];
      segments := segments[id := row];
      hide RangeUpdate, SetExtrema, WithLegacyOf, RangeFires, LegacyFires;
      if RangeFires(was, row, cols) { ReplaceRange(id, row); }
      if LegacyFires(was, row, cols) { WriteExtrema(id, WithLegacyOf(segments[id], row)); }
    }

    method InsertSegment(id: int, row: Segment)
      requires id !in segments
      modifies this
      ensures Snapshot() == InsertRow(old(Snapshot()), id, row, rounding)
      ensures Inv(old(Snapshot()), rounding) ==> Inv(Snapshot(), rounding)
    {
      ghost var before := Snapshot();
      var blank := row.(fragmented := false, startMs := None, endMs := None);
      segments := segments[id := blank];
      ReplaceRange(id, blank);
      WriteExtrema(id, WithLegacyOf(segments[id], blank));
      assert Snapshot() == InsertRow(before, id, row, rounding);
      hide Inv, InsertRow;
      if Inv(before, rounding) { InsertKeeps(before, id, row, rounding); }
    }

    method UpsertMedia(id: int, x: MediaIndex)
      requires id in segments
      modifies this
      ensures Snapshot() == SaveMedia(old(Snapshot()), id, x, rounding)
    {
      if id in media {
        media := media[id := media[id].(committedOffset := x.index.committedOffset)];
      } else {
        media := media[id := Media(x.index.initLength, x.index.committedOffset, x.codec, x.basis)];
        UpdateInPlace(id, segments[id].(fragmented := true, startMs := None, endMs := None), {FragmentedColumn, StartMs, EndMs});
      }
    }

    method AddFragment(id: int, f: Fragment)
      requires id in segments
      modifies this
      ensures Snapshot() == InsertFragment(old(Snapshot()), id, f, rounding)
    {
      fragments := fragments[(id, f.sequence) := f];
      var s := segments[id];
      if s.startMs.None? || s.endMs.None? || f.startMs < s.startMs.value || f.endMs > s.endMs.value {
        WriteExtrema(id, s.(startMs := Some(MinOpt(s.startMs, f.startMs)), endMs := Some(MaxOpt(s.endMs, f.endMs))));
      }
    }

    /** The rows of one index, in order; gives up at the first published row that differs. */
    method AddFragments(id: int, fs: seq<Fragment>) returns (ok: bool)
      requires id in segments
      modifies this
      ensures ok == InsertFragments(old(Snapshot()), id, fs, rounding).Some?
      ensures ok ==> InsertFragments(old(Snapshot()), id, fs, rounding) == Some(Snapshot())
    {
      ghost var before := Snapshot();
      hide InsertFragment;
      for i := 0 to |fs|
        invariant InsertFragments(before, id, fs[..i], rounding) == Some(Snapshot())
        invariant id in segments
      {
        var f := fs[i];
        assert fs[..i + 1][..i] == fs[..i];
        if (id, f.sequence) !in fragments {
          AddFragment(id, f);
          assert InsertFragments(before, id, fs[..i + 1], rounding) == Some(Snapshot());
        } else if fragments[(id, f.sequence)] != f {
          assert InsertFragments(before, id, fs[..i + 1], rounding).None?;
          ConflictStays(before, id, fs, i + 1, rounding);
          return false;
        }
      }
      assert fs[..|fs|] == fs;
      return true;
    }

    /** Either the whole publication is there afterwards, or nothing of it is. */
    method PublishRecordingMedia(id: int, x: MediaIndex) returns (outcome: PublishOutcome)
      modifies this
      ensures match Publish(old(Snapshot()), id, x, rounding)
              case Published(db) => outcome == Done && Snapshot() == db
              case Unchanged => outcome == NothingToDo && Snapshot() == old(Snapshot())
              case Refused(e) => outcome == Error(e) && Snapshot() == old(Snapshot())
      ensures Inv(old(Snapshot()), rounding) ==> Inv(Snapshot(), rounding) && (outcome == Done <==> Publishable(old(Snapshot()), id, x))
      ensures Inv(old(Snapshot()), rounding) && outcome == Done ==>
                && id in old(segments) && id in segments && OnlyRow(old(Snapshot()), Snapshot(), id)
                && IntervalWritten(old(segments)[id], segments[id], x.index.fragments)
    {
      ghost var before := Snapshot();
      hide Inv, Publishable, IntervalWritten, OnlyRow;
      if Inv(before, rounding) {
        PublishedExactly(before, id, x, rounding);
        if Publish(before, id, x, rounding).Published? {
          PublishKeeps(before, id, x, rounding);
          PublishWrites(before, id, x, rounding);
        }
      }
      hide SaveMedia, SaveInterval, InsertFragments, UpdateRow, InOrder, FragmentFits;
      var fs := x.index.fragments;
      if fs == [] { return NothingToDo; }
      var valid := CheckIndex(x);
      if !valid { return Error(InvalidIndex); }
      if id !in segments { return Error(NoSegment); }
      if segments[id].status == Deleted { return Error(MediaDeleted); }
      if id in media && !SameMedia(media[id], x) { return Error(Changed); }
      var s, m, f, g := segments, media, fragments, ranges;
      outcome := Write(id, x);
      if outcome.Error? { segments, media, fragments, ranges := s, m, f, g; }
    }

    /** The statements of the transaction. */
    method Write(id: int, x: MediaIndex) returns (outcome: PublishOutcome)
      requires id in segments && x.index.fragments != []
      modifies this
      ensures var saved := SaveMedia(old(Snapshot()), id, x, rounding);
              match InsertFragments(saved, id, x.index.fragments, rounding)
              case None => outcome == Error(Changed)
              case Some(db) => outcome == Done && Snapshot() == SaveInterval(db, id, x.index.fragments, rounding)
    {
      hide SaveMedia, InsertFragments, UpdateRow;
      var fs := x.index.fragments;
      UpsertMedia(id, x);
      var ok := AddFragments(id, fs);
      if !ok { return Error(Changed); }
      UpdateInPlace(id, segments[id].(tsStart := Milliseconds(fs[0].startMs), tsEnd := Some(Milliseconds(fs[|fs| - 1].endMs))), {TsStart, TsEnd});
      return Done;
    }
  }

  /** The checks in front of the transaction. */
  method CheckIndex(x: MediaIndex) returns (valid: bool)
    ensures valid == ValidIndex(x)
  {
    if x.index.initLength <= 0 || x.index.committedOffset < x.index.initLength || x.basis == "" { return false; }
    hide FragmentFits, InOrder;
    var fs := x.index.fragments;
    for i := 0 to |fs|
      invariant forall j | 0 <= j < i :: FragmentFits(x.index, fs[j])
      invariant forall j | 0 < j < i :: InOrder(fs[j - 1], fs[j])
    {
      if !FragmentFits(x.index, fs[i]) { return false; }
      if i > 0 {
        if !InOrder(fs[i - 1], fs[i]) { return false; }
      }
    }
    return true;
  }

  /** A conflict on the way is a conflict of the whole list. */
  lemma {:induction false} ConflictStays(db: Db, id: int, fs: seq<Fragment>, i: nat, r: Rounding)
    requires id in db.segments && i <= |fs| && InsertFragments(db, id, fs[..i], r).None?
    ensures InsertFragments(db, id, fs, r).None?
    decreases |fs|
  {
    hide InsertFragment;
    if i < |fs| {
      assert fs[..|fs| - 1][..i] == fs[..i];
      ConflictStays(db, id, fs[..|fs| - 1], i, r);
    } else {
      assert fs[..i] == fs;
    }
  }
}
