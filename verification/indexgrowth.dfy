/** What ReadIndex makes of a file that grows by one fragment, and what every fragment of an index starts with. */
module IndexGrowth {
  import opened Bytes
  import opened Options
  import opened Boxes
  import opened Tracks
  import opened Samples
  import opened Fragments
  import opened LateClocks
  import opened RecordingIndex
  import opened FragmentClocks
  import opened Keyframes
  import opened BoxOrder
  import opened IndexAcceptance

  // ---------- keyframes ----------

  /** The fragment is that of mdat box i, whose video run starts with a sync sample. */
  ghost predicate FromKeyframe(src: bytes, bs: seq<Box>, i: nat, f: Fragment, origin: int) {
    && i < |bs| && bs[i].kind == MDAT && Open(bs, i) && f == FragmentOfBox(src, bs, i, origin)
    && VideoIndex(src, bs, i) >= 0
    && KeyframeRun(BodyOf(src, bs[LastKind(bs, MOOF, i)]), TracksAhead(src, bs, LastKind(bs, MOOF, i)), VideoIndex(src, bs, i))
  }

  lemma {:induction false} FragmentsFrom(src: bytes, bs: seq<Box>, i: nat, origin: int, f: Fragment)
    requires i <= |bs| && TakenFrom(src, bs, 0, |bs|) && f in FragmentsAhead(src, bs, i, origin)
    ensures exists k :: FromKeyframe(src, bs, k, f, origin)
    decreases i
  {
    hide FragmentOfBox, KeyframeRun, MediaFits, TicksMs, Lead, VideoIndex, TracksAhead, LastKind;
    if f in FragmentsAhead(src, bs, i - 1, origin) {
      FragmentsFrom(src, bs, i - 1, origin, f);
    } else {
      assert Taken(src, bs, i - 1);
      assert FromKeyframe(src, bs, i - 1, f, origin);
    }
  }

  /** Every fragment of an index is that of an mdat box, and the first sample of its video run is a sync sample. */
  lemma FragmentsStartOnKeyframes(src: bytes, n: nat)
    requires n <= |src| && ReadIndex(src, n).Indexed?
    ensures var bs := BoxesFrom(src, n, 0);
            forall f | f in ReadIndex(src, n).index.fragments :: exists i :: FromKeyframe(src, bs, i, f, OriginOf(src, bs, |bs|))
  {
    hide ReadIndex, TakenFrom, FragmentsAhead, FromKeyframe, BoxesFrom, OriginOf, EndsClean, TracksAhead;
    IndexedExactly(src, n);
    var bs := BoxesFrom(src, n, 0);
    forall f | f in ReadIndex(src, n).index.fragments
      ensures exists i :: FromKeyframe(src, bs, i, f, OriginOf(src, bs, |bs|))
    {
      FragmentsFrom(src, bs, |bs|, OriginOf(src, bs, |bs|), f);
    }
  }

  // ---------- what the index knows ahead of a box ----------

  lemma {:induction false} SameFirstMdat(bs: seq<Box>, cs: seq<Box>, i: nat)
    requires i <= |bs| <= |cs| && cs[..|bs|] == bs
    ensures FirstMdat(cs, i) == FirstMdat(bs, i)
    decreases i
  {
    if i > 0 {
      SameFirstMdat(bs, cs, i - 1);
      SameKinds(bs, cs, i - 1);
    }
  }

  lemma SameVideo(src: bytes, bs: seq<Box>, cs: seq<Box>, i: nat)
    requires Agree(src, src, bs, cs) && i <= |bs|
    ensures RefAhead(src, cs, i) == RefAhead(src, bs, i) && RunsOfFragment(src, cs, i) == RunsOfFragment(src, bs, i)
    ensures VideoIndex(src, cs, i) == VideoIndex(src, bs, i) && VideoScale(src, cs, i) == VideoScale(src, bs, i)
    ensures Lead(src, cs, i) == Lead(src, bs, i)
  {
    SameReference(src, bs, cs, i);
    SameFragmentRuns(src, bs, cs, i);
    SameTracksAhead(src, src, bs, cs, i);
    hide RunsOfFragment, RefAhead, TracksAhead, LastRun, TicksMs, ScaleOf, RunsIn;
  }

  lemma SameReference(src: bytes, bs: seq<Box>, cs: seq<Box>, i: nat)
    requires Agree(src, src, bs, cs) && i <= |bs|
    ensures RefAhead(src, cs, i) == RefAhead(src, bs, i)
  {
    hide ReadProducerReference, LastKind;
    SameKinds(bs, cs, i);
    var p := LastKind(bs, PRFT, i);
    if p >= 0 { SameKinds(bs, cs, p); }
  }

  lemma SameFragmentRuns(src: bytes, bs: seq<Box>, cs: seq<Box>, i: nat)
    requires Agree(src, src, bs, cs) && i <= |bs|
    ensures RunsOfFragment(src, cs, i) == RunsOfFragment(src, bs, i)
  {
    hide RunListIn, LastKind;
    SameKinds(bs, cs, i);
    var k := LastKind(bs, MOOF, i);
    if k >= 0 { SameIn(src, src, bs, cs, k); }
  }

  lemma SameMediaFits(src: bytes, bs: seq<Box>, cs: seq<Box>, i: nat)
    requires Agree(src, src, bs, cs) && i < |bs|
    ensures MediaFits(src, cs, i) <==> MediaFits(src, bs, i)
  {
    hide RunsAhead, RunsOfFragment, LastKind, InsideBox;
    SameFragmentRuns(src, bs, cs, i);
    SameKinds(bs, cs, i);
    var k := Max(LastKind(bs, MOOF, i), 0);
    forall id: u32
      ensures RunsAhead(src, cs, k, id) == RunsAhead(src, bs, k, id)
    {
      SameRunsAhead(src, src, bs, cs, k, id);
    }
  }

  lemma SameMdatTaken(src: bytes, bs: seq<Box>, cs: seq<Box>, i: nat)
    requires Agree(src, src, bs, cs) && i < |bs|
    ensures MdatTaken(src, cs, i) <==> MdatTaken(src, bs, i)
  {
    hide *;
    AgreeSizes(src, bs, cs);
    SameKinds(bs, cs, i);
    SameMediaFits(src, bs, cs, i);
    SameVideo(src, bs, cs, i);
    SameFirstMdat(bs, cs, i);
    if FirstMdat(bs, i) >= 0 { SameVideo(src, bs, cs, FirstMdat(bs, i)); }
    var k := LastKind(bs, MOOF, i);
    if k >= 0 {
      SameIn(src, src, bs, cs, k);
      SameTracksAhead(src, src, bs, cs, k);
    }
    MdatFromParts(src, bs, cs, i);
  }

  lemma MdatFromParts(src: bytes, bs: seq<Box>, cs: seq<Box>, i: nat)
    requires i < |bs| <= |cs| && forall kind: u32 :: LastKind(cs, kind, i) == LastKind(bs, kind, i)
    requires MediaFits(src, cs, i) <==> MediaFits(src, bs, i)
    requires RunsOfFragment(src, cs, i) == RunsOfFragment(src, bs, i) && VideoIndex(src, cs, i) == VideoIndex(src, bs, i)
    requires VideoScale(src, cs, i) == VideoScale(src, bs, i) && Lead(src, cs, i) == Lead(src, bs, i) && FirstMdat(cs, i) == FirstMdat(bs, i)
    requires FirstMdat(bs, i) >= 0 ==> Lead(src, cs, FirstMdat(bs, i)) == Lead(src, bs, FirstMdat(bs, i))
    requires var k := LastKind(bs, MOOF, i); k >= 0 ==> cs[k] == bs[k] && TracksAhead(src, cs, k) == TracksAhead(src, bs, k)
    ensures MdatTaken(src, cs, i) <==> MdatTaken(src, bs, i)
  {
    hide MediaFits, RunsOfFragment, VideoIndex, VideoScale, Lead, TracksAhead, LastKind, FirstMdat, KeyframeRun, TicksMs, BodyOf;
  }

  lemma SameTaken(src: bytes, bs: seq<Box>, cs: seq<Box>, i: nat)
    requires Agree(src, src, bs, cs) && i < |bs|
    ensures Taken(src, cs, i) <==> Taken(src, bs, i)
  {
    SameKinds(bs, cs, i);
    SameMdatTaken(src, bs, cs, i);
    SameReference(src, bs, cs, i);
    SameTracksAhead(src, src, bs, cs, i);
    SameAhead(src, src, bs, cs, i);
    SameIn(src, src, bs, cs, i);
    hide MdatTaken, RefAhead, TracksAhead, LastKind, RunsIn, ReadTracks, ReadProducerReference, SequenceAhead, OpenRuns, SamplesOfBox, RunListIn, Agree;
  }

  lemma {:induction false} SameFragments(src: bytes, bs: seq<Box>, cs: seq<Box>, i: nat, origin: int)
    requires Agree(src, src, bs, cs) && i <= |bs|
    ensures FragmentsAhead(src, cs, i, origin) == FragmentsAhead(src, bs, i, origin)
    decreases i
  {
    hide FragmentOfBox;
    if i > 0 {
      SameFragments(src, bs, cs, i - 1, origin);
      SameFragment(src, bs, cs, i - 1, origin);
      SameKinds(bs, cs, i - 1);
    }
  }

  lemma SameFragment(src: bytes, bs: seq<Box>, cs: seq<Box>, i: nat, origin: int)
    requires Agree(src, src, bs, cs) && i < |bs|
    ensures FragmentOfBox(src, cs, i, origin) == FragmentOfBox(src, bs, i, origin)
  {
    hide *;
    AgreeSizes(src, bs, cs);
    SameKinds(bs, cs, i);
    SameVideo(src, bs, cs, i);
    SameAhead(src, src, bs, cs, i);
    if LastKind(bs, PRFT, i) >= 0 { SameKinds(bs, cs, LastKind(bs, PRFT, i)); }
    FragmentFromParts(src, bs, cs, i, origin);
  }

  lemma FragmentFromParts(src: bytes, bs: seq<Box>, cs: seq<Box>, i: nat, origin: int)
    requires i < |bs| <= |cs| && cs[i] == bs[i] && LastKind(cs, PRFT, i) == LastKind(bs, PRFT, i)
    requires RefAhead(src, cs, i) == RefAhead(src, bs, i) && RunsOfFragment(src, cs, i) == RunsOfFragment(src, bs, i)
    requires VideoIndex(src, cs, i) == VideoIndex(src, bs, i) && VideoScale(src, cs, i) == VideoScale(src, bs, i)
    requires SequenceAhead(src, cs, i) == SequenceAhead(src, bs, i)
    requires var p := LastKind(bs, PRFT, i); p >= 0 ==> cs[p] == bs[p]
    ensures FragmentOfBox(src, cs, i, origin) == FragmentOfBox(src, bs, i, origin)
  {
    hide LastKind, VideoScale, FragmentOf, SequenceAhead, RunsOfFragment;
  }

  lemma SameTakenFrom(src: bytes, bs: seq<Box>, cs: seq<Box>)
    requires Agree(src, src, bs, cs)
    ensures TakenFrom(src, cs, 0, |bs|) <==> TakenFrom(src, bs, 0, |bs|)
  {
    hide Taken;
    forall i | 0 <= i < |bs|
      ensures Taken(src, cs, i) <==> Taken(src, bs, i)
    {
      SameTaken(src, bs, cs, i);
    }
  }

  // ---------- one more fragment ----------

  lemma {:induction false} BoxesLonger(src: bytes, n: nat, m: nat, pos: nat)
    requires pos <= n <= m <= |src| && StopAt(src, n, pos) == n
    ensures BoxesFrom(src, m, pos) == BoxesFrom(src, n, pos) + BoxesFrom(src, m, n) && StopAt(src, m, pos) == StopAt(src, m, n)
    decreases n - pos
  {
    hide ReadBox, BoxesFrom, StopAt;
    StepOfWalk(src, n, pos);
    StepOfWalk(src, m, pos);
    if pos < n {
      ReadBoxAt(src, pos, n);
      GrownBox(src, pos, n, m);
      var b := ReadBox(src, pos, n).box;
      BoxesLonger(src, n, m, pos + b.size);
      assert [b] + (BoxesFrom(src, n, pos + b.size) + BoxesFrom(src, m, n)) == [b] + BoxesFrom(src, n, pos + b.size) + BoxesFrom(src, m, n);
    } else {
      assert [] + BoxesFrom(src, m, n) == BoxesFrom(src, m, n);
    }
  }

  lemma StepOfWalk(src: bytes, size: nat, pos: nat)
    requires pos <= size <= |src|
    ensures pos < size && ReadBox(src, pos, size).Found? ==>
              var b := ReadBox(src, pos, size).box;
              && pos + b.size <= size && BoxesFrom(src, size, pos) == [b] + BoxesFrom(src, size, pos + b.size)
              && StopAt(src, size, pos) == StopAt(src, size, pos + b.size)
    ensures pos == size || !ReadBox(src, pos, size).Found? ==> BoxesFrom(src, size, pos) == [] && StopAt(src, size, pos) == pos
  {
    if pos < size && ReadBox(src, pos, size).Found? { ReadBoxAt(src, pos, size); }
    hide ReadBox;
  }

  /** Behind the first n bytes come a producer reference, a moof box and an mdat box, up to byte m. */
  predicate Follow(src: bytes, n: nat, m: nat, p: Box, f: Box, d: Box) {
    && n <= m <= |src| && StopAt(src, n, 0) == n && BoxesFrom(src, m, n) == [p, f, d] && StopAt(src, m, n) == m
    && p.kind == PRFT && f.kind == MOOF && d.kind == MDAT
  }

  /** The runs of the new fragment have their data in its mdat box and start where the indexed fragments left their tracks. */
  predicate RunsJoin(src: bytes, bs: seq<Box>, runs: seq<Run>, d: Box) {
    forall rr | rr in runs ::
      && InsideBox(rr, d)
      && (RunsAhead(src, bs, |bs|, rr.track) != [] ==> rr.first == EndAfter(0, RunsAhead(src, bs, |bs|, rr.track)))
  }

  /** The video run starts on a keyframe, lasts, and keeps the lead of the producer clock within 2 ms of that of the first fragment. */
  predicate VideoJoins(src: bytes, bs: seq<Box>, runs: seq<Run>, v: int, f: Box, ref: Ref, scale: u32) {
    && 0 <= v < |runs| && KeyframeRun(BodyOf(src, f), TracksAhead(src, bs, |bs|), v)
    && TicksMs(runs[v].end, scale) > TicksMs(runs[v].start, scale)
    && (FirstMdat(bs, |bs|) >= 0 ==> -2 <= ref.epochMs - TicksMs(runs[v].firstPTS, scale) - Lead(src, bs, FirstMdat(bs, |bs|)) <= 2)
  }

  /** What the new fragment must be. */
  predicate Joins(src: bytes, bs: seq<Box>, p: Box, f: Box, d: Box) {
    var tracks, read := TracksAhead(src, bs, |bs|), ReadProducerReference(BodyOf(src, p));
    && SmallEnough(p) && SmallEnough(f) && read.SomeRef? && read.ref.track in tracks && tracks[read.ref.track].video
    && Fragments.ReadRuns(BodyOf(src, f), tracks, f.offset).Some?
    && var m := Fragments.ReadRuns(BodyOf(src, f), tracks, f.offset).value;
       && m.sequence > SequenceAhead(src, bs, |bs|)
       && RunsJoin(src, bs, m.runs, d)
       && VideoJoins(src, bs, m.runs, LastRun(m.runs, read.ref.track), f, read.ref, tracks[read.ref.track].scale)
  }

  /** The fragment that is added. */
  function Joined(src: bytes, bs: seq<Box>, p: Box, f: Box, d: Box, origin: int): Fragment
    requires Joins(src, bs, p, f, d)
  {
    var tracks, ref := TracksAhead(src, bs, |bs|), ReadProducerReference(BodyOf(src, p)).ref;
    var m := Fragments.ReadRuns(BodyOf(src, f), tracks, f.offset).value;
    FragmentOf(m.sequence, p.offset, d.offset + d.size - p.offset, m.runs[LastRun(m.runs, ref.track)], tracks[ref.track].scale, ref.epochMs, origin)
  }

  predicate Appended(bs: seq<Box>, cs: seq<Box>, p: Box, f: Box, d: Box) {
    cs == bs + [p, f, d] && p.kind == PRFT && f.kind == MOOF && d.kind == MDAT
  }

  lemma AppendedKinds(src: bytes, bs: seq<Box>, cs: seq<Box>, p: Box, f: Box, d: Box)
    requires Appended(bs, cs, p, f, d)
    ensures var n := |bs|;
            && |cs| == n + 3 && cs[n] == p && cs[n + 1] == f && cs[n + 2] == d && Agree(src, src, bs, cs)
            && (forall kind: u32 :: LastKind(cs, kind, n) == LastKind(bs, kind, n))
            && LastKind(cs, PRFT, n + 1) == LastKind(cs, PRFT, n + 2) == n
            && LastKind(cs, MDAT, n + 1) == LastKind(cs, MDAT, n + 2) == LastKind(bs, MDAT, n)
            && LastKind(cs, MOOF, n + 1) == LastKind(bs, MOOF, n) && LastKind(cs, MOOF, n + 2) == n + 1
            && LastKind(cs, MOOV, n + 1) == LastKind(cs, MOOV, n + 2) == LastKind(bs, MOOV, n)
            && FirstMdat(cs, n + 2) == FirstMdat(bs, n)
  {
    assert cs[..|bs|] == bs;
    SameKinds(bs, cs, |bs|);
    SameFirstMdat(bs, cs, |bs|);
  }

  lemma AppendedTracks(src: bytes, bs: seq<Box>, cs: seq<Box>, p: Box, f: Box, d: Box)
    requires Appended(bs, cs, p, f, d)
    ensures var n, tracks := |bs|, TracksAhead(src, bs, |bs|);
            && |cs| == n + 3 && TracksAhead(src, cs, n + 1) == TracksAhead(src, cs, n + 2) == TracksAhead(src, cs, n + 3) == tracks
            && RunsIn(src, cs, n + 1) == Fragments.ReadRuns(BodyOf(src, f), tracks, f.offset)
            && SequenceAhead(src, cs, n + 1) == SequenceAhead(src, bs, n)
            && (forall id: u32 :: RunsAhead(src, cs, n + 1, id) == RunsAhead(src, bs, n, id))
  {
    hide *;
    AppendedKinds(src, bs, cs, p, f, d);
    KindsIn(bs, cs, p, f, d);
    SameTracksAhead(src, src, bs, cs, |bs|);
    SameAhead(src, src, bs, cs, |bs|);
    SameHeader(src, cs, |bs|);
    SameHeader(src, cs, |bs| + 1);
    SameHeader(src, cs, |bs| + 2);
    RunsInIs(src, cs, |bs| + 1);
    PrftBetween(src, bs, cs, p, f, d);
    forall id: u32
      ensures RunsAhead(src, cs, |bs| + 1, id) == RunsAhead(src, bs, |bs|, id)
    {
      SameRunsAhead(src, src, bs, cs, |bs|, id);
      NoRunsHere(src, cs, |bs|, id);
    }
  }

  lemma KindsIn(bs: seq<Box>, cs: seq<Box>, p: Box, f: Box, d: Box)
    requires Appended(bs, cs, p, f, d)
    ensures cs == bs + [p, f, d] && p.kind == PRFT && f.kind == MOOF && d.kind == MDAT
    ensures PRFT != MOOV && MOOF != MOOV && MDAT != MOOV && PRFT != MOOF
  {
  }

  lemma RunsInIs(src: bytes, cs: seq<Box>, i: nat)
    requires i < |cs|
    ensures RunsIn(src, cs, i) == Fragments.ReadRuns(BodyOf(src, cs[i]), TracksAhead(src, cs, i), cs[i].offset)
  {
  }

  /** The reference and the fragment are taken, if no fragment is open. */
  lemma HeadTaken(src: bytes, bs: seq<Box>, cs: seq<Box>, p: Box, f: Box, d: Box)
    requires Appended(bs, cs, p, f, d) && !Open(bs, |bs|)
    ensures var n, tracks, read := |bs|, TracksAhead(src, bs, |bs|), ReadProducerReference(BodyOf(src, p));
            && |cs| == n + 3 && cs[n] == p && cs[n + 1] == f && cs[n + 2] == d
            && RefAhead(src, cs, n + 1) == RefAhead(src, cs, n + 2) == (if read.SomeRef? then Some(read.ref) else None)
            && (Taken(src, cs, n) <==> SmallEnough(p) && read.SomeRef?)
            && (Taken(src, cs, n) ==>
                  (Taken(src, cs, n + 1) <==>
                    && read.ref.track in tracks && tracks[read.ref.track].video && SmallEnough(f)
                    && Fragments.ReadRuns(BodyOf(src, f), tracks, f.offset).Some?
                    && Fragments.ReadRuns(BodyOf(src, f), tracks, f.offset).value.sequence > SequenceAhead(src, bs, n)))
            && Open(cs, n + 2)
  {
    AppendedKinds(src, bs, cs, p, f, d);
    AppendedTracks(src, bs, cs, p, f, d);
    hide Fragments.ReadRuns, ReadProducerReference, TracksAhead, SequenceAhead, RunsAhead, LastKind, RunsIn, BodyOf, Agree, FirstMdat;
  }

  lemma NewMediaFits(src: bytes, bs: seq<Box>, cs: seq<Box>, d: Box, runs: seq<Run>)
    requires |cs| == |bs| + 3 && cs[|bs| + 2] == d && LastKind(cs, MOOF, |bs| + 2) == |bs| + 1 && RunsOfFragment(src, cs, |bs| + 2) == runs
    requires forall id: u32 :: RunsAhead(src, cs, |bs| + 1, id) == RunsAhead(src, bs, |bs|, id)
    ensures MediaFits(src, cs, |bs| + 2) <==> RunsJoin(src, bs, runs, d)
  {
    hide RunsOfFragment, RunsAhead, LastKind, InsideBox;
  }

  lemma NewVideoFits(src: bytes, bs: seq<Box>, cs: seq<Box>, runs: seq<Run>, v: int, f: Box, ref: Ref, scale: u32)
    requires |cs| == |bs| + 3 && cs[|bs| + 1] == f && Open(cs, |bs| + 2) && LastKind(cs, MOOF, |bs| + 2) == |bs| + 1
    requires RunsOfFragment(src, cs, |bs| + 2) == runs && VideoIndex(src, cs, |bs| + 2) == v && VideoScale(src, cs, |bs| + 2) == scale
    requires TracksAhead(src, cs, |bs| + 1) == TracksAhead(src, bs, |bs|)
    requires FirstMdat(cs, |bs| + 2) == FirstMdat(bs, |bs|) && (FirstMdat(bs, |bs|) >= 0 ==> Lead(src, cs, FirstMdat(bs, |bs|)) == Lead(src, bs, FirstMdat(bs, |bs|)))
    requires v >= 0 ==> Lead(src, cs, |bs| + 2) == ref.epochMs - TicksMs(runs[v].firstPTS, scale)
    ensures MdatTaken(src, cs, |bs| + 2) <==> MediaFits(src, cs, |bs| + 2) && VideoJoins(src, bs, runs, v, f, ref, scale)
  {
    hide RunsOfFragment, RunsAhead, LastKind, InsideBox, MediaFits, KeyframeRun, TicksMs, TracksAhead, Lead, VideoIndex, VideoScale, FirstMdat;
  }

  lemma TakenMdat(src: bytes, cs: seq<Box>, i: nat)
    requires i < |cs| && cs[i].kind == MDAT
    ensures Taken(src, cs, i) <==> MdatTaken(src, cs, i)
  {
    hide MdatTaken;
  }

  lemma ScaleIs(tracks: map<u32, Track>, id: u32)
    requires id in tracks
    ensures ScaleOf(tracks, id) == tracks[id].scale
  {
  }

  /** The media data box is taken, if the fragment was. */
  lemma MediaTaken(src: bytes, bs: seq<Box>, cs: seq<Box>, p: Box, f: Box, d: Box, ref: Ref, m: MoofRuns)
    requires Appended(bs, cs, p, f, d) && !Open(bs, |bs|) && ReadProducerReference(BodyOf(src, p)) == SomeRef(ref) && ref.track in TracksAhead(src, bs, |bs|)
    requires Fragments.ReadRuns(BodyOf(src, f), TracksAhead(src, bs, |bs|), f.offset) == Some(m)
    ensures |cs| == |bs| + 3 && RunsOfFragment(src, cs, |bs| + 2) == m.runs && VideoIndex(src, cs, |bs| + 2) == LastRun(m.runs, ref.track)
    ensures VideoScale(src, cs, |bs| + 2) == TracksAhead(src, bs, |bs|)[ref.track].scale && SequenceAhead(src, cs, |bs| + 2) == m.sequence
    ensures Taken(src, cs, |bs| + 2)
            <==> RunsJoin(src, bs, m.runs, d) && VideoJoins(src, bs, m.runs, LastRun(m.runs, ref.track), f, ref, TracksAhead(src, bs, |bs|)[ref.track].scale)
  {
    hide *;
    var n := |bs|;
    AppendedKinds(src, bs, cs, p, f, d);
    AppendedTracks(src, bs, cs, p, f, d);
    HeadTaken(src, bs, cs, p, f, d);
    KindsIn(bs, cs, p, f, d);
    if FirstMdat(bs, n) >= 0 { SameVideo(src, bs, cs, FirstMdat(bs, n)); }
    RunsOfNew(src, cs, n, m);
    VideoOfNew(src, cs, n, m, ref);
    ScaleIs(TracksAhead(src, bs, n), ref.track);
    NewMediaFits(src, bs, cs, d, m.runs);
    NewVideoFits(src, bs, cs, m.runs, LastRun(m.runs, ref.track), f, ref, TracksAhead(src, bs, n)[ref.track].scale);
    TakenMdat(src, cs, n + 2);
  }

  lemma RunsOfNew(src: bytes, cs: seq<Box>, n: nat, m: MoofRuns)
    requires |cs| == n + 3 && LastKind(cs, MOOF, n + 2) == n + 1 && cs[n + 1].kind == MOOF && RunsIn(src, cs, n + 1) == Some(m)
    ensures RunsOfFragment(src, cs, n + 2) == m.runs && SequenceAhead(src, cs, n + 2) == m.sequence
  {
    hide RunsIn, LastKind;
  }

  lemma VideoOfNew(src: bytes, cs: seq<Box>, n: nat, m: MoofRuns, ref: Ref)
    requires |cs| == n + 3 && RunsOfFragment(src, cs, n + 2) == m.runs && RefAhead(src, cs, n + 2) == Some(ref)
    ensures VideoIndex(src, cs, n + 2) == LastRun(m.runs, ref.track) && VideoScale(src, cs, n + 2) == ScaleOf(TracksAhead(src, cs, n + 2), ref.track)
    ensures LastRun(m.runs, ref.track) >= 0 ==>
              Lead(src, cs, n + 2) == ref.epochMs - TicksMs(m.runs[LastRun(m.runs, ref.track)].firstPTS, ScaleOf(TracksAhead(src, cs, n + 2), ref.track))
  {
    hide RefAhead, RunsOfFragment, LastRun, TicksMs, TracksAhead, ScaleOf;
  }

  /** All three boxes are taken exactly when the fragment joins. */
  lemma AllTaken(src: bytes, bs: seq<Box>, cs: seq<Box>, p: Box, f: Box, d: Box)
    requires Appended(bs, cs, p, f, d) && !Open(bs, |bs|)
    ensures |cs| == |bs| + 3
    ensures Taken(src, cs, |bs|) && Taken(src, cs, |bs| + 1) && Taken(src, cs, |bs| + 2) <==> Joins(src, bs, p, f, d)
    ensures Joins(src, bs, p, f, d) ==> forall origin :: FragmentOfBox(src, cs, |bs| + 2, origin) == Joined(src, bs, p, f, d, origin)
  {
    hide Taken, Fragments.ReadRuns, ReadProducerReference, TracksAhead, SequenceAhead, RunsJoin, VideoJoins, LastRun, BodyOf, FragmentOfBox, Open, Appended;
    HeadTaken(src, bs, cs, p, f, d);
    var tracks, read := TracksAhead(src, bs, |bs|), ReadProducerReference(BodyOf(src, p));
    if read.SomeRef? && read.ref.track in tracks && Fragments.ReadRuns(BodyOf(src, f), tracks, f.offset).Some? {
      var m := Fragments.ReadRuns(BodyOf(src, f), tracks, f.offset).value;
      MediaTaken(src, bs, cs, p, f, d, read.ref, m);
      AppendedKinds(src, bs, cs, p, f, d);
      if Joins(src, bs, p, f, d) {
        forall origin
          ensures FragmentOfBox(src, cs, |bs| + 2, origin) == Joined(src, bs, p, f, d, origin)
        {
          FragmentIsJoined(src, bs, cs, p, f, d, m, origin);
        }
      }
    }
  }

  lemma FragmentIsJoined(src: bytes, bs: seq<Box>, cs: seq<Box>, p: Box, f: Box, d: Box, m: MoofRuns, origin: int)
    requires Joins(src, bs, p, f, d) && |cs| == |bs| + 3 && cs[|bs|] == p && cs[|bs| + 2] == d && LastKind(cs, PRFT, |bs| + 2) == |bs|
    requires Fragments.ReadRuns(BodyOf(src, f), TracksAhead(src, bs, |bs|), f.offset) == Some(m)
    requires var ref := ReadProducerReference(BodyOf(src, p)).ref;
             && RefAhead(src, cs, |bs| + 2) == Some(ref) && RunsOfFragment(src, cs, |bs| + 2) == m.runs && VideoIndex(src, cs, |bs| + 2) == LastRun(m.runs, ref.track)
             && VideoScale(src, cs, |bs| + 2) == TracksAhead(src, bs, |bs|)[ref.track].scale && SequenceAhead(src, cs, |bs| + 2) == m.sequence
    ensures FragmentOfBox(src, cs, |bs| + 2, origin) == Joined(src, bs, p, f, d, origin)
  {
    hide Fragments.ReadRuns, ReadProducerReference, TracksAhead, SequenceAhead, RunsJoin, LastRun, BodyOf, FragmentOf, RunsOfFragment, VideoIndex, VideoScale, RefAhead, LastKind,
         KeyframeRun, TicksMs, Lead;
  }

  /** The earliest decode time of the runs, once the first fragment is there. */
  predicate OriginFrom(src: bytes, bs: seq<Box>, runs: seq<Run>, origin: int) {
    if FirstMdat(bs, |bs|) >= 0 then origin == OriginOf(src, bs, |bs|) else EarliestOf(origin, runs, TracksAhead(src, bs, |bs|))
  }

  lemma NewOrigin(src: bytes, bs: seq<Box>, cs: seq<Box>, p: Box, f: Box, d: Box)
    requires Appended(bs, cs, p, f, d) && !Open(bs, |bs|) && Joins(src, bs, p, f, d)
    ensures OriginFrom(src, bs, Fragments.ReadRuns(BodyOf(src, f), TracksAhead(src, bs, |bs|), f.offset).value.runs, OriginOf(src, cs, |cs|))
  {
    hide Fragments.ReadRuns, ReadProducerReference, SequenceAhead, RunsJoin, VideoJoins, LastRun, BodyOf, Taken, FragmentOfBox, EarliestOf, EarliestMs, RunsOfFragment, TracksAhead, Open;
    AllTaken(src, bs, cs, p, f, d);
    AppendedKinds(src, bs, cs, p, f, d);
    AppendedTracks(src, bs, cs, p, f, d);
    var n := |bs|;
    var tracks, ref := TracksAhead(src, bs, n), ReadProducerReference(BodyOf(src, p)).ref;
    var m := Fragments.ReadRuns(BodyOf(src, f), tracks, f.offset).value;
    MediaTaken(src, bs, cs, p, f, d, ref, m);
    LastFirst(cs, n);
    EarliestIs(m.runs, tracks);
    if FirstMdat(bs, n) >= 0 { SameOrigin(src, bs, cs, FirstMdat(bs, n)); }
  }

  lemma LastFirst(cs: seq<Box>, n: nat)
    requires |cs| == n + 3 && cs[n + 2].kind == MDAT
    ensures FirstMdat(cs, n + 3) == if FirstMdat(cs, n + 2) < 0 then n + 2 else FirstMdat(cs, n + 2)
  {
  }

  lemma SameOrigin(src: bytes, bs: seq<Box>, cs: seq<Box>, i: nat)
    requires Agree(src, src, bs, cs) && i <= |bs|
    ensures RunsOfFragment(src, cs, i) == RunsOfFragment(src, bs, i) && TracksAhead(src, cs, i) == TracksAhead(src, bs, i)
  {
    hide *;
    SameFragmentRuns(src, bs, cs, i);
    SameTracksAhead(src, src, bs, cs, i);
    AgreeSizes(src, bs, cs);
  }

  lemma AgreeSizes(src: bytes, bs: seq<Box>, cs: seq<Box>)
    requires Agree(src, src, bs, cs)
    ensures |bs| <= |cs| && cs[..|bs|] == bs
  {
  }

  /** What the fragment leaves for the next one: its sequence number, the runs of each track, and no fragment open. */
  predicate Left(src: bytes, bs: seq<Box>, cs: seq<Box>, m: MoofRuns) {
    && !Open(cs, |cs|) && SequenceAhead(src, cs, |cs|) == m.sequence && TracksAhead(src, cs, |cs|) == TracksAhead(src, bs, |bs|)
    && forall rr | rr in m.runs :: RunsAhead(src, cs, |cs|, rr.track) == RunsAhead(src, bs, |bs|, rr.track) + RunsFor(m.runs, rr.track)
  }

  lemma LeftBehind(src: bytes, bs: seq<Box>, cs: seq<Box>, p: Box, f: Box, d: Box, m: MoofRuns)
    requires Appended(bs, cs, p, f, d) && Fragments.ReadRuns(BodyOf(src, f), TracksAhead(src, bs, |bs|), f.offset) == Some(m)
    ensures Left(src, bs, cs, m)
  {
    hide Fragments.ReadRuns, TracksAhead, SequenceAhead, BodyOf, RunsAhead, RunsIn, LastKind, RunsFor;
    AppendedTracks(src, bs, cs, p, f, d);
    AppendedKinds(src, bs, cs, p, f, d);
    ClosedLists(src, cs, |bs| + 2);
    RunsOfNew(src, cs, |bs|, m);
    forall id: u32
      ensures RunsAhead(src, cs, |bs| + 3, id) == RunsAhead(src, bs, |bs|, id) + RunsFor(m.runs, id)
    {
      RunsBehind(src, bs, cs, p, f, d, m, id);
    }
  }

  /**
   Behind an index without an open fragment, a producer reference, a moof box and an
   mdat box add exactly one fragment when it joins, and break the index otherwise.
   */
  lemma NextFragmentIndexed(src: bytes, n: nat, m: nat, p: Box, f: Box, d: Box)
    requires Follow(src, n, m, p, f, d) && ReadIndex(src, n).Indexed? && !Open(BoxesFrom(src, n, 0), |BoxesFrom(src, n, 0)|)
    ensures var bs := BoxesFrom(src, n, 0);
            && (ReadIndex(src, m).Indexed? <==> Joins(src, bs, p, f, d))
            && (Joins(src, bs, p, f, d) ==>
                  exists origin ::
                    && OriginFrom(src, bs, Fragments.ReadRuns(BodyOf(src, f), TracksAhead(src, bs, |bs|), f.offset).value.runs, origin)
                    && ReadIndex(src, m).index == Index(ReadIndex(src, n).index.initLength, d.offset + d.size, ReadIndex(src, n).index.fragments + [Joined(src, bs, p, f, d, origin)]))
            && (Joins(src, bs, p, f, d) ==> Left(src, bs, BoxesFrom(src, m, 0), Fragments.ReadRuns(BodyOf(src, f), TracksAhead(src, bs, |bs|), f.offset).value))
  {
    hide ReadIndex, Fragments.ReadRuns, Joins, Joined, TakenFrom, Taken, FragmentsAhead, FragmentOfBox, OriginOf, TracksAhead, BoxesFrom, EndsClean, OriginFrom, Open, LastKind;
    IndexedExactly(src, n);
    IndexedExactly(src, m);
    BoxesLonger(src, n, m, 0);
    var bs, cs := BoxesFrom(src, n, 0), BoxesFrom(src, m, 0);
    AllTaken(src, bs, cs, p, f, d);
    TakenMore(src, bs, cs, p, f, d);
    AppendedTracks(src, bs, cs, p, f, d);
    AppendedKinds(src, bs, cs, p, f, d);
    EndsThere(src, m);
    if Joins(src, bs, p, f, d) {
      NewOrigin(src, bs, cs, p, f, d);
      IndexMore(src, bs, cs, p, f, d);
      JoinsReads(src, bs, p, f, d);
      LeftBehind(src, bs, cs, p, f, d, Fragments.ReadRuns(BodyOf(src, f), TracksAhead(src, bs, |bs|), f.offset).value);
    }
  }

  lemma JoinsReads(src: bytes, bs: seq<Box>, p: Box, f: Box, d: Box)
    requires Joins(src, bs, p, f, d)
    ensures Fragments.ReadRuns(BodyOf(src, f), TracksAhead(src, bs, |bs|), f.offset).Some?
  {
    hide Fragments.ReadRuns, RunsJoin, VideoJoins;
  }

  lemma EndsThere(src: bytes, m: nat)
    requires m <= |src| && StopAt(src, m, 0) == m
    ensures EndsClean(src, m, 0)
  {
  }

  lemma TakenMore(src: bytes, bs: seq<Box>, cs: seq<Box>, p: Box, f: Box, d: Box)
    requires Appended(bs, cs, p, f, d) && TakenFrom(src, bs, 0, |bs|)
    ensures |cs| == |bs| + 3 && (TakenFrom(src, cs, 0, |cs|) <==> Taken(src, cs, |bs|) && Taken(src, cs, |bs| + 1) && Taken(src, cs, |bs| + 2))
  {
    hide Taken;
    AppendedKinds(src, bs, cs, p, f, d);
    SameTakenFrom(src, bs, cs);
  }

  lemma IndexMore(src: bytes, bs: seq<Box>, cs: seq<Box>, p: Box, f: Box, d: Box)
    requires Appended(bs, cs, p, f, d) && !Open(bs, |bs|) && Joins(src, bs, p, f, d)
    ensures IndexOf(src, cs) == Index(IndexOf(src, bs).initLength, d.offset + d.size, IndexOf(src, bs).fragments + [Joined(src, bs, p, f, d, OriginOf(src, cs, |cs|))])
  {
    hide *;
    var n := |bs|;
    AllTaken(src, bs, cs, p, f, d);
    AppendedKinds(src, bs, cs, p, f, d);
    KindsIn(bs, cs, p, f, d);
    NotMedia(p, f);
    var was, origin := OriginOf(src, bs, n), OriginOf(src, cs, |cs|);
    OriginStays(src, bs, cs, was, origin);
    NoMdatYet(src, bs, n, was);
    NoMdatYet(src, bs, n, origin);
    SameFragments(src, bs, cs, n, origin);
    SameMedia(src, cs, n, origin);
    SameMedia(src, cs, n + 1, origin);
    FragmentsNext(src, cs, n + 2, origin);
    LastEnds(bs, cs, p, f, d);
    IndexIs(src, bs);
    IndexIs(src, cs);
  }

  lemma NotMedia(p: Box, f: Box)
    ensures p.kind == PRFT ==> p.kind != MDAT
    ensures f.kind == MOOF ==> f.kind != MDAT
  {
  }

  lemma IndexIs(src: bytes, bs: seq<Box>)
    ensures IndexOf(src, bs) == Index(EndOfLast(bs, MOOV, |bs|), EndOfLast(bs, MDAT, |bs|), FragmentsAhead(src, bs, |bs|, OriginOf(src, bs, |bs|)))
  {
  }

  lemma OriginStays(src: bytes, bs: seq<Box>, cs: seq<Box>, was: int, origin: int)
    requires Agree(src, src, bs, cs) && |cs| == |bs| + 3 && FirstMdat(cs, |bs| + 2) == FirstMdat(bs, |bs|) && cs[|bs| + 2].kind == MDAT
    requires was == OriginOf(src, bs, |bs|) && origin == OriginOf(src, cs, |cs|)
    ensures FirstMdat(bs, |bs|) >= 0 ==> origin == was
  {
    hide FirstMdat, RunsOfFragment, TracksAhead, EarliestMs;
    LastFirst(cs, |bs|);
    if FirstMdat(bs, |bs|) >= 0 { SameOrigin(src, bs, cs, FirstMdat(bs, |bs|)); }
  }

  lemma FragmentsNext(src: bytes, cs: seq<Box>, i: nat, origin: int)
    requires i < |cs| && cs[i].kind == MDAT
    ensures FragmentsAhead(src, cs, i + 1, origin) == FragmentsAhead(src, cs, i, origin) + [FragmentOfBox(src, cs, i, origin)]
  {
    hide FragmentOfBox;
  }

  lemma LastEnds(bs: seq<Box>, cs: seq<Box>, p: Box, f: Box, d: Box)
    requires Appended(bs, cs, p, f, d)
    ensures EndOfLast(cs, MOOV, |cs|) == EndOfLast(bs, MOOV, |bs|) && EndOfLast(cs, MDAT, |cs|) == d.offset + d.size
  {
    assert cs[..|bs|] == bs && cs[|bs| + 2] == d;
    SameKinds(bs, cs, |bs|);
    LastOfEach(bs, cs, p, f, d);
    if LastKind(bs, MOOV, |bs|) >= 0 { assert cs[LastKind(bs, MOOV, |bs|)] == bs[LastKind(bs, MOOV, |bs|)]; }
  }
}
