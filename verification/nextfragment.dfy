/** One more fragment behind a recording: when NormalizedMP4 still presents the file, by the boxes that were added. */
module NextFragment {
  import opened Bytes
  import opened Options
  import opened Boxes
  import opened Tracks
  import opened Samples
  import opened Fragments
  import opened FlatScan
  import opened Normalized
  import opened LateClocks
  import opened BoxOrder
  import opened Acceptance
  import opened Presentable

  // ---------- the scan of a longer file ----------

  lemma SameStep(src: bytes, all: bytes, s: Scan, b: Box)
    requires IsBox(src, b) && IsBox(all, b) && Body(all, b) == Body(src, b)
    ensures StepBox(all, s, b) == StepBox(src, s, b)
  {
    hide Body, StepRuns, ReadTracks, KnownClocks, MoofStart, ChildrenFrom;
  }

  /** The scan of a longer file goes on where that of the shorter one ended. */
  lemma {:induction false} ScanExtends(src: bytes, all: bytes, pos: nat, s: Scan)
    requires Grows(src, all) && pos <= |src| && ScanFrom(src, pos, s).Going?
    ensures ScanFrom(all, pos, s) == ScanFrom(all, |src|, ScanFrom(src, pos, s).s)
    decreases |src| - pos
  {
    hide ReadBox, StepBox;
    if pos < |src| {
      var b := ReadBox(src, pos, |src|).box;
      ReadBoxAt(src, pos, |src|);
      SamePrefix(src, all, |src|, 0, pos + b.size);
      ReadBoxLocal(src, all, pos, |src|, |all|);
      SameStep(src, all, s, b);
      ScanExtends(src, all, pos + b.size, StepBox(src, s, b).s);
    }
  }

  // ---------- what the scan knows ahead of a box ----------

  lemma SameBegun(src: bytes, all: bytes, bs: seq<Box>, cs: seq<Box>, i: nat, id: u32)
    requires Agree(src, all, bs, cs) && i <= |bs|
    ensures Begun(all, cs, i, id) <==> Begun(src, bs, i, id)
  {
    hide SamplesOfBox;
    forall k | 0 <= k < i
      ensures Brings(all, cs, k, id) <==> Brings(src, bs, k, id)
    {
      SameIn(src, all, bs, cs, k);
    }
  }

  lemma SameGoesOn(src: bytes, all: bytes, bs: seq<Box>, cs: seq<Box>, i: nat, runs: seq<Run>, j: nat)
    requires Agree(src, all, bs, cs) && i < |bs| && j < |runs|
    ensures GoesOn(all, cs, i, runs, j) <==> GoesOn(src, bs, i, runs, j)
  {
    hide Begun, RunsAhead, RunsFor, TracksAhead;
    SameTracksAhead(src, all, bs, cs, i);
    SameRunsAhead(src, all, bs, cs, i, runs[j].track);
    SameBegun(src, all, bs, cs, i, runs[j].track);
  }

  lemma SameFits(src: bytes, all: bytes, bs: seq<Box>, cs: seq<Box>, i: nat)
    requires Agree(src, all, bs, cs) && i < |bs|
    ensures Fits(all, cs, i) <==> Fits(src, bs, i)
  {
    hide RunsIn, SamplesOfBox, GoesOn, ReadTracks, OpenRuns, SequenceAhead, LastKind, TracksAhead, BodyOf, Started, OnRecordingClock, ChildrenFrom, KnownClocks;
    SameKinds(bs, cs, i);
    SameIn(src, all, bs, cs, i);
    SameAhead(src, all, bs, cs, i);
    SameTracksAhead(src, all, bs, cs, i);
    if RunsIn(src, bs, i).Some? {
      var runs := RunsIn(src, bs, i).value.runs;
      forall j | 0 <= j < |runs|
        ensures GoesOn(all, cs, i, runs, j) <==> GoesOn(src, bs, i, runs, j)
      {
        SameGoesOn(src, all, bs, cs, i, runs, j);
      }
    }
  }

  lemma SameFitting(src: bytes, all: bytes, bs: seq<Box>, cs: seq<Box>)
    requires Agree(src, all, bs, cs)
    ensures FitFrom(all, cs, 0, |bs|) <==> FitFrom(src, bs, 0, |bs|)
  {
    hide Fits;
    forall i | 0 <= i < |bs|
      ensures Fits(all, cs, i) <==> Fits(src, bs, i)
    {
      SameFits(src, all, bs, cs, i);
    }
  }

  // ---------- one more fragment ----------

  /** Behind the file come a producer reference, a moof box and an mdat box, and nothing else. */
  predicate Adds(src: bytes, all: bytes, p: Box, f: Box, d: Box) {
    && Grows(src, all) && BoxesFrom(all, |all|, |src|) == [p, f, d] && StopAt(all, |all|, |src|) == |all|
    && p.kind == PRFT && f.kind == MOOF && d.kind == MDAT
  }

  /** A run of the new fragment starts where the one before it of its track stopped, in this fragment or in the file, unless the track has no samples there. */
  predicate RunContinues(src: bytes, runs: seq<Run>, j: nat)
    requires j < |runs|
  {
    var bs, id := BoxesOf(src), runs[j].track;
    && id in TracksAhead(src, bs, |bs|)
    && (Begun(src, bs, |bs|, id) ==> runs[j].first == EndAfter(0, RunsAhead(src, bs, |bs|, id) + RunsFor(runs[..j], id)))
  }

  /** What the new fragment must be. */
  predicate Continues(src: bytes, all: bytes, f: Box, d: Box) {
    var bs := BoxesOf(src);
    var tracks, data := TracksAhead(src, bs, |bs|), BodyOf(all, f);
    && SmallEnough(f) && Children(data).Some? && KnownClocks(Children(data).value)
    && ReadSamples(data, tracks, f.offset).Some? && Fragments.ReadRuns(data, tracks, f.offset).Some?
    && var m := Fragments.ReadRuns(data, tracks, f.offset).value;
       && m.sequence > SequenceAhead(src, bs, |bs|) && m.runs != []
       && (forall j | 0 <= j < |m.runs| :: RunContinues(src, m.runs, j))
       && forall rr | rr in m.runs :: InsideBox(rr, d)
  }

  /** A recording that ends behind a whole fragment. */
  predicate Recorded(src: bytes) {
    var bs := BoxesOf(src);
    Accepted(src) && LastKind(bs, MOOF, |bs|) >= 0 && OpenRuns(src, bs, |bs|) == []
  }

  lemma AddedBoxes(src: bytes, all: bytes, p: Box, f: Box, d: Box)
    requires Recorded(src) && Adds(src, all, p, f, d)
    ensures var bs, cs := BoxesOf(src), BoxesOf(all);
            && cs == bs + [p, f, d] && Agree(src, all, bs, cs) && Whole(all) && |cs| == |bs| + 3
            && cs[|bs|] == p && cs[|bs| + 1] == f && cs[|bs| + 2] == d
            && (Accepted(all) <==> Fits(all, cs, |bs|) && Fits(all, cs, |bs| + 1) && Fits(all, cs, |bs| + 2))
  {
    hide BoxesFrom, Fits, StopAt, Agree, OpenRuns;
    GrownAgrees(src, all);
    var bs, cs := BoxesOf(src), BoxesOf(all);
    AgreeBoxes(src, all, bs, cs);
    SameFitting(src, all, bs, cs);
  }

  lemma AgreeBoxes(src: bytes, all: bytes, bs: seq<Box>, cs: seq<Box>)
    requires Agree(src, all, bs, cs)
    ensures |bs| <= |cs| && cs[..|bs|] == bs
  {
  }

  /** What is ahead of the new moof box is what was in the file. */
  lemma AheadOfMoof(src: bytes, all: bytes, p: Box, f: Box, d: Box)
    requires Recorded(src) && Adds(src, all, p, f, d) && |BoxesOf(all)| == |BoxesOf(src)| + 3
    ensures var bs, cs := BoxesOf(src), BoxesOf(all);
            && TracksAhead(all, cs, |bs| + 1) == TracksAhead(src, bs, |bs|) && OpenRuns(all, cs, |bs| + 1) == []
            && SequenceAhead(all, cs, |bs| + 1) == SequenceAhead(src, bs, |bs|) && LastKind(cs, MOOF, |bs| + 1) >= 0
            && (forall id: u32 :: RunsAhead(all, cs, |bs| + 1, id) == RunsAhead(src, bs, |bs|, id))
            && (forall id: u32 :: Begun(all, cs, |bs| + 1, id) <==> Begun(src, bs, |bs|, id))
  {
    hide *;
    AddedBoxes(src, all, p, f, d);
    KindsOf(src, all, p, f, d);
    var bs, cs := BoxesOf(src), BoxesOf(all);
    var n := |bs|;
    LastOfEach(bs, cs, p, f, d);
    RecordedFacts(src);
    SameAhead(src, all, bs, cs, n);
    SameTracksAhead(src, all, bs, cs, n);
    PrftBetween(all, bs, cs, p, f, d);
    forall id: u32
      ensures RunsAhead(all, cs, n + 1, id) == RunsAhead(src, bs, n, id) && (Begun(all, cs, n + 1, id) <==> Begun(src, bs, n, id))
    {
      NoMoreRuns(all, cs, n, id);
      SameRunsAhead(src, all, bs, cs, n, id);
      SameBegun(src, all, bs, cs, n, id);
    }
  }

  lemma RecordedFacts(src: bytes)
    requires Recorded(src)
    ensures LastKind(BoxesOf(src), MOOF, |BoxesOf(src)|) >= 0 && OpenRuns(src, BoxesOf(src), |BoxesOf(src)|) == []
  {
  }

  lemma MoofContinues(src: bytes, all: bytes, p: Box, f: Box, d: Box)
    requires Recorded(src) && Adds(src, all, p, f, d) && |BoxesOf(all)| == |BoxesOf(src)| + 3 && BoxesOf(all)[|BoxesOf(src)| + 1] == f
    ensures var bs, cs := BoxesOf(src), BoxesOf(all);
            && RunsIn(all, cs, |bs| + 1) == Fragments.ReadRuns(BodyOf(all, f), TracksAhead(src, bs, |bs|), f.offset)
            && (Fits(all, cs, |bs| + 1) && RunsIn(all, cs, |bs| + 1).value.runs != [] && (forall rr | rr in RunsIn(all, cs, |bs| + 1).value.runs :: InsideBox(rr, d))
                <==> Continues(src, all, f, d))
  {
    hide Fragments.ReadRuns, ReadSamples, ReadTracks, BoxesFrom, StopAt, Accepted, Begun, RunsAhead, LastKind, RunListIn, TracksAhead, OpenRuns, SequenceAhead,
         KnownClocks, ChildrenFrom, Recorded, Adds, InsideBox, RunsFor, BodyOf;
    AheadOfMoof(src, all, p, f, d);
    KindsOf(src, all, p, f, d);
    var bs, cs := BoxesOf(src), BoxesOf(all);
    var n := |bs| + 1;
    assert RunsIn(all, cs, n) == Fragments.ReadRuns(BodyOf(all, f), TracksAhead(src, bs, |bs|), f.offset);
    assert SamplesOfBox(all, cs, n) == ReadSamples(BodyOf(all, f), TracksAhead(src, bs, |bs|), f.offset);
    assert Fits(all, cs, n) <==> MoofFits(all, cs, n);
    if RunsIn(all, cs, n).Some? {
      var runs := RunsIn(all, cs, n).value.runs;
      forall j | 0 <= j < |runs|
        ensures GoesOn(all, cs, n, runs, j) <==> RunContinues(src, runs, j)
      {
      }
      hide GoesOn, RunContinues, RunsIn, SamplesOfBox;
      assert MoofFits(all, cs, n) && runs != [] && (forall rr | rr in runs :: InsideBox(rr, d)) ==> Continues(src, all, f, d);
      assert Continues(src, all, f, d) ==> MoofFits(all, cs, n);
    }
  }

  lemma MdatContinues(all: bytes, bs: seq<Box>, cs: seq<Box>, p: Box, f: Box, d: Box)
    requires cs == bs + [p, f, d] && p.kind == PRFT && f.kind == MOOF && d.kind == MDAT && LastKind(bs, MOOV, |bs|) >= 0
    requires RunsIn(all, cs, |bs| + 1).Some?
    ensures var runs := RunsIn(all, cs, |bs| + 1).value.runs;
            Fits(all, cs, |bs| + 2) <==> runs != [] && forall rr | rr in runs :: InsideBox(rr, d)
    ensures OpenRuns(all, cs, |bs| + 3) == [] && SequenceAhead(all, cs, |bs| + 3) == RunsIn(all, cs, |bs| + 1).value.sequence
  {
    hide RunsIn, InsideBox, LastKind;
    LastOfEach(bs, cs, p, f, d);
    assert cs[|bs| + 1] == f && cs[|bs| + 2] == d;
  }

  /** A recording with a fragment has a movie header. */
  lemma HeaderThere(src: bytes)
    requires Recorded(src)
    ensures LastKind(BoxesOf(src), MOOV, |BoxesOf(src)|) >= 0
  {
    hide ScanFrom, TracksAt, Accepted, OpenRuns, OfKind, TracksAhead, SequenceAhead, BoxesFrom;
    ScanAccepts(src);
  }

  /** Fragment after fragment: what the next one must go on from. */
  predicate Advanced(src: bytes, all: bytes, m: MoofRuns) {
    var bs, cs := BoxesOf(src), BoxesOf(all);
    && SequenceAhead(all, cs, |cs|) == m.sequence && TracksAhead(all, cs, |cs|) == TracksAhead(src, bs, |bs|)
    && forall id | id in TracksAhead(src, bs, |bs|) :: RunsAhead(all, cs, |cs|, id) == RunsAhead(src, bs, |bs|, id) + RunsFor(m.runs, id)
  }

  lemma AdvancedRuns(src: bytes, all: bytes, p: Box, f: Box, d: Box, m: MoofRuns)
    requires Recorded(src) && Adds(src, all, p, f, d) && BoxesOf(all) == BoxesOf(src) + [p, f, d]
    requires RunsIn(all, BoxesOf(all), |BoxesOf(src)| + 1) == Some(m)
    ensures Advanced(src, all, m)
  {
    hide RunsIn, SamplesOfBox, ReadTracks, BoxesFrom, StopAt, Accepted, Begun, LastKind, RunsFor, RunsAhead, Recorded, Adds, SequenceAhead, OpenRuns, TracksAhead, BoxesOf;
    AheadOfMoof(src, all, p, f, d);
    HeaderThere(src);
    KindsOf(src, all, p, f, d);
    var bs, cs := BoxesOf(src), BoxesOf(all);
    MdatContinues(all, bs, cs, p, f, d);
    TracksBehind(all, bs, cs, p, f, d);
    forall id | id in TracksAhead(src, bs, |bs|)
      ensures RunsAhead(all, cs, |cs|, id) == RunsAhead(src, bs, |bs|, id) + RunsFor(m.runs, id)
    {
      RunsBehind(all, bs, cs, p, f, d, m, id);
    }
  }

  /**
   With one more producer reference, fragment and media data box a recording is still
   accepted exactly when the fragment goes on from it, and refused otherwise.  The
   longer file then is a recording as well, and what the next fragment must go on from
   is what this one left.
   */
  lemma NextFragmentAccepted(src: bytes, all: bytes, p: Box, f: Box, d: Box)
    requires Recorded(src) && Adds(src, all, p, f, d)
    ensures Accepted(all) <==> Continues(src, all, f, d)
    ensures !Continues(src, all, f, d) ==> ScanFrom(all, 0, START).Refused?
    ensures Continues(src, all, f, d) ==>
              Recorded(all) && Advanced(src, all, Fragments.ReadRuns(BodyOf(all, f), TracksAhead(src, BoxesOf(src), |BoxesOf(src)|), f.offset).value)
  {
    hide Fragments.ReadRuns, ReadSamples, ReadTracks, BoxesFrom, StopAt, LastKind, RunListIn, TracksAhead, OpenRuns, SequenceAhead,
         KnownClocks, ChildrenFrom, Adds, InsideBox, RunsFor, BodyOf, Fits, RunContinues, ScanFrom, StateAt, Continues, Accepted, Advanced;
    AddedBoxes(src, all, p, f, d);
    HeaderThere(src);
    var bs, cs := BoxesOf(src), BoxesOf(all);
    MoofContinues(src, all, p, f, d);
    KindsOf(src, all, p, f, d);
    if RunsIn(all, cs, |bs| + 1).Some? { MdatContinues(all, bs, cs, p, f, d); }
    FitsNeedsRuns(all, cs, |bs| + 1);
    PlainFits(all, cs, |bs|);
    if Continues(src, all, f, d) {
      LastOfEach(bs, cs, p, f, d);
      AdvancedRuns(src, all, p, f, d, RunsIn(all, cs, |bs| + 1).value);
    } else {
      NotAlone(src, all, p, f, d);
      ScanAccepts(all);
    }
  }

  lemma KindsOf(src: bytes, all: bytes, p: Box, f: Box, d: Box)
    requires Adds(src, all, p, f, d)
    ensures p.kind == PRFT && f.kind == MOOF && d.kind == MDAT
  {
  }

  lemma FitsNeedsRuns(all: bytes, cs: seq<Box>, i: nat)
    requires i < |cs| && cs[i].kind == MOOF
    ensures Fits(all, cs, i) ==> RunsIn(all, cs, i).Some?
  {
    hide RunsIn, SamplesOfBox, GoesOn, Versioned, Started, OnRecordingClock;
  }

  lemma PlainFits(all: bytes, cs: seq<Box>, i: nat)
    requires i < |cs| && cs[i].kind == PRFT
    ensures Fits(all, cs, i)
  {
  }

  /** A file with a fragment that fits is not left alone for what comes later. */
  lemma NotAlone(src: bytes, all: bytes, p: Box, f: Box, d: Box)
    requires Recorded(src) && Adds(src, all, p, f, d)
    ensures !AloneFrom(all, BoxesOf(all), 0)
  {
    hide Fits, BoxesFrom, StopAt, RunsIn, SamplesOfBox, OpenRuns, LastKind, Agree;
    AddedBoxes(src, all, p, f, d);
    GrownAgrees(src, all);
    HeaderThere(src);
    var bs, cs := BoxesOf(src), BoxesOf(all);
    SameFitting(src, all, bs, cs);
    LastOfEach(bs, cs, p, f, d);
    SameKinds(bs, cs, |bs|);
    forall k | 0 <= k < |cs|
      ensures !LeftAlone(all, cs, k)
    {
      if k < |bs| {
        FitOrAlone(all, cs, k);
      } else {
        NoFirst(all, bs, cs, p, f, d, k);
      }
    }
  }

  lemma NoFirst(all: bytes, bs: seq<Box>, cs: seq<Box>, p: Box, f: Box, d: Box, k: nat)
    requires cs == bs + [p, f, d] && p.kind == PRFT && f.kind == MOOF && d.kind == MDAT && |bs| <= k < |cs|
    requires LastKind(cs, MOOF, |bs| + 1) >= 0
    ensures !LeftAlone(all, cs, k)
  {
    hide LastKind, Versioned, Started, OnRecordingClock, TracksAhead;
  }

  /** A file that is presented is presented with one more fragment as well, exactly when the fragment goes on from it and its references, spans and layout still can be told. */
  lemma NextFragmentPresented(src: bytes, all: bytes, p: Box, f: Box, d: Box)
    requires Normalize(src).Spliced? && Adds(src, all, p, f, d)
    ensures Recorded(src)
    ensures Normalize(all).Spliced? <==> Continues(src, all, f, d) && ScanFrom(all, 0, START).Going?
                                         && Tellable(all, OfKind(BoxesOf(src), PRFT) + [p], ScanFrom(all, 0, START).s)
    ensures !Continues(src, all, f, d) ==> Normalize(all).Failed?
  {
    hide ScanFrom, Accepted, OpenRuns, OfKind, Tellable, AloneFrom, BoxesFrom, U32, Continues, StopAt, Advanced, Splice;
    NormalizedExactly(src);
    NextFragmentAccepted(src, all, p, f, d);
    NormalizedExactly(all);
    ScanAccepts(all);
    AddedBoxes(src, all, p, f, d);
    AddedReferences(BoxesOf(src), p, f, d);
    SameType(src, all);
    NotAlone(src, all, p, f, d);
  }

  lemma SameType(src: bytes, all: bytes)
    requires |src| >= 8 && Grows(src, all)
    ensures |all| >= 8 && U32(all, 4) == U32(src, 4)
  {
    SamePrefix(src, all, |src|, 4, 8);
    SameField32(src, 4, all, 4);
  }

  lemma AddedReferences(bs: seq<Box>, p: Box, f: Box, d: Box)
    requires p.kind == PRFT && f.kind == MOOF && d.kind == MDAT
    ensures OfKind(bs + [p, f, d], PRFT) == OfKind(bs, PRFT) + [p]
  {
    hide OfKind;
    var cs, n, refs := bs + [p, f, d], |bs|, OfKind(bs, PRFT) + [p];
    OfKindNext(cs, PRFT, n);
    OfKindNext(cs, PRFT, n + 1);
    OfKindNext(cs, PRFT, n + 2);
    assert cs[..n] == bs && cs[..n + 3] == cs && refs + [] == refs;
  }
}
