/** The recording of two fragments as an index: one fragment when the first is there, and both at its end. */
module SpecimenIndex {
  import opened Bytes
  import opened Options
  import opened Boxes
  import opened Tracks
  import opened Samples
  import opened Fragments
  import opened LateClocks
  import opened RecordingIndex
  import opened FragmentClocks
  import opened Keyframes
  import opened BoxOrder
  import opened IndexAcceptance
  import opened IndexGrowth
  import opened SpecimenParts
  import opened SpecimenScan
  import opened SpecimenTwo

  // ---------- boxes ----------

  /** The file starts with a recording of one fragment. */
  predicate Starts(r: Recipe, src: bytes) { Plain(r) && |Base(r)| <= |src| && src[..|Base(r)|] == Base(r) }

  lemma BoxIn(a: bytes, src: bytes, b: Box, size: nat)
    requires |a| <= |src| && src[..|a|] == a && ReadBox(a, b.offset, |a|) == Found(b) && b.offset + b.size <= size <= |src|
    ensures b.offset + b.size <= |a| && ReadBox(src, b.offset, size) == Found(b) && BodyOf(src, b) == BodyOf(a, b)
  {
    hide ReadBox, Body;
    ReadBoxAt(a, b.offset, |a|);
    SamePrefix(a, src, |a|, 0, b.offset + b.size);
    ReadBoxLocal(a, src, b.offset, |a|, size);
  }

  function TypeBox(): Box { Box(0, 8, 8, FTYP) }

  lemma HeadBoxes(r: Recipe, src: bytes)
    requires Starts(r, src)
    ensures PrftAt(r) <= |src| && BoxesFrom(src, PrftAt(r), 0) == [TypeBox(), MoovBox(r)] && StopAt(src, PrftAt(r), 0) == PrftAt(r)
    ensures BodyOf(src, MoovBox(r)) == Emit(MoovKids(r)) && 144 <= MoovSize(r) <= 212
  {
    hide Emit, Source, ReadBox, Payload, MoovKids, MoofKids, Body;
    KnownBoxes(r);
    SpecimenScan.Places(r);
    var n, none := PrftAt(r), [];
    BoxIn(Base(r), src, TypeBox(), n);
    BoxIn(Base(r), src, MoovBox(r), n);
    BodyIs(Base(r), MoovBox(r));
    assert BoxesFrom(src, n, n) == none && StopAt(src, n, n) == n;
    assert BoxesFrom(src, n, 8) == [MoovBox(r)] + none && [MoovBox(r)] + none == [MoovBox(r)] && StopAt(src, n, 8) == n;
    assert BoxesFrom(src, n, 0) == [TypeBox()] + [MoovBox(r)];
  }

  lemma FirstFollows(r: Recipe, src: bytes)
    requires Starts(r, src)
    ensures Follow(src, PrftAt(r), |Base(r)|, PrftBox(r), MoofBox(r), MdatBox(r))
    ensures BodyOf(src, PrftBox(r)) == PRFT_BODY && BodyOf(src, MoofBox(r)) == Emit(MoofKids(OneRun))
  {
    hide Emit, Source, ReadBox, Payload, MoovKids, MoofKids, Body, MoovSize;
    HeadBoxes(r, src);
    KnownBoxes(r);
    SpecimenScan.Places(r);
    var n, m := PrftAt(r), |Base(r)|;
    var none: seq<Box> := [];
    BoxIn(Base(r), src, PrftBox(r), m);
    BoxIn(Base(r), src, MoofBox(r), m);
    BoxIn(Base(r), src, MdatBox(r), m);
    BodyIs(Base(r), PrftBox(r));
    BodyIs(Base(r), MoofBox(r));
    assert BoxesFrom(src, m, m) == none && StopAt(src, m, m) == m;
    assert BoxesFrom(src, m, MdatAt(r)) == [MdatBox(r)] + none && [MdatBox(r)] + none == [MdatBox(r)];
    assert BoxesFrom(src, m, MoofAt(r)) == [MoofBox(r)] + [MdatBox(r)];
    assert BoxesFrom(src, m, n) == [PrftBox(r)] + ([MoofBox(r)] + [MdatBox(r)]);
    assert StopAt(src, m, MdatAt(r)) == m && StopAt(src, m, MoofAt(r)) == m;
  }

  // ---------- the header ----------

  function HeadList(r: Recipe): seq<Box> { [TypeBox(), MoovBox(r)] }

  lemma HeadKinds(r: Recipe)
    ensures var bs := HeadList(r);
            && LastKind(bs, MOOV, 2) == 1 && LastKind(bs, MOOF, 2) == -1 && LastKind(bs, MDAT, 2) == -1 && LastKind(bs, MOOV, 0) == LastKind(bs, MOOV, 1) == -1
            && FirstMdat(bs, 2) == -1
  {
    hide MoovSize;
  }

  lemma HeadAhead(r: Recipe, src: bytes)
    requires Starts(r, src)
    ensures TracksAhead(src, HeadList(r), 2) == HeaderMap(true) && !Open(HeadList(r), 2) && SequenceAhead(src, HeadList(r), 2) == 0
    ensures forall id: u32 :: RunsAhead(src, HeadList(r), 2, id) == []
  {
    hide Emit, Source, ReadBox, ReadTracks, MoovKids, BodyOf, BoxesFrom, StopAt, LastKind, FirstMdat, Header;
    HeadBoxes(r, src);
    HeadKinds(r);
    ReadMovieHeader(r);
    var bs := HeadList(r);
    forall id: u32
      ensures RunsAhead(src, bs, 2, id) == []
    {
      NoKindNoRuns(src, bs, 2, id);
    }
  }

  lemma HeadTaken(r: Recipe, src: bytes)
    requires Starts(r, src)
    ensures TakenFrom(src, HeadList(r), 0, 2)
  {
    hide Emit, Source, ReadBox, ReadTracks, MoovKids, BodyOf, BoxesFrom, StopAt, Header, MdatTaken, MoofTaken, PrftTaken;
    HeadBoxes(r, src);
    ReadMovieHeader(r);
  }

  /** The header alone is an index without fragments. */
  lemma HeaderIndexed(r: Recipe, src: bytes)
    requires Starts(r, src)
    ensures PrftAt(r) <= |src| && ReadIndex(src, PrftAt(r)) == Indexed(Index(PrftAt(r), 0, []))
  {
    hide Emit, Source, ReadBox, BodyOf, ReadIndex, BoxesFrom, StopAt, LastKind, FirstMdat, Header, FragmentsAhead, TakenFrom, TracksAhead, OriginOf, MoovSize;
    HeadBoxes(r, src);
    HeadKinds(r);
    HeadAhead(r, src);
    HeadTaken(r, src);
    IndexedExactly(src, PrftAt(r));
    var bs := HeadList(r);
    assert BoxesFrom(src, PrftAt(r), 0) == bs;
    NoMdatYet(src, bs, 2, OriginOf(src, bs, 2));
    assert 1 in HeaderMap(true);
  }

  // ---------- the first fragment ----------

  lemma Reference1(p: bytes, seconds: u32)
    requires |p| == 24 && p[0] == 1 && U32(p, 4) == 1 && U32(p, 8) == seconds && U32(p, 12) == 0 && 3208988800 <= seconds <= 3208988801
    ensures ReadProducerReference(p) == SomeRef(Ref(1, (seconds - 2208988800) * 1000))
  {
    hide U32;
    assert RoundDiv(0, 0x1_0000_0000) == 0;
  }

  lemma References()
    ensures ReadProducerReference(PRFT_BODY) == SomeRef(Ref(1, 1_000_000_000_000)) && ReadProducerReference(NEXT_PRFT) == SomeRef(Ref(1, 1_000_000_001_000))
  {
    FragmentFields(1, 0);
    NextFields();
    assert U32(PRFT_BODY, 12) == 0 && U32(NEXT_PRFT, 12) == 0;
    Reference1(PRFT_BODY, 3208988800);
    Reference1(NEXT_PRFT, 3208988801);
  }

  lemma Milliseconds(n: nat)
    ensures TicksMs(n, 1000) == n
  {
    assert (2 * (n * 1000) + 1000) / 2000 == n;
  }

  /** The run of one second from a time on, as the index sees it. */
  lemma RunJoins(src: bytes, bs: seq<Box>, p: Box, f: Box, d: Box, at: nat, time: nat, sequence: u32)
    requires ReadProducerReference(BodyOf(src, p)).SomeRef? && ReadProducerReference(BodyOf(src, p)).ref.track == 1
    requires SmallEnough(p) && SmallEnough(f) && f.offset == at && TracksAhead(src, bs, |bs|) == HeaderMap(true)
    requires Fragments.ReadRuns(BodyOf(src, f), HeaderMap(true), at) == Some(MoofRuns([RunAt(1, at, time, 96)], sequence))
    requires sequence > SequenceAhead(src, bs, |bs|) && d.offset + d.header <= at + 96 && at + 100 <= d.offset + d.size
    requires RunsAhead(src, bs, |bs|, 1) != [] ==> time == EndAfter(0, RunsAhead(src, bs, |bs|, 1))
    requires FirstMdat(bs, |bs|) >= 0 ==> ReadProducerReference(BodyOf(src, p)).ref.epochMs - time == Lead(src, bs, FirstMdat(bs, |bs|))
    ensures Joins(src, bs, p, f, d)
  {
    hide ReadProducerReference, BodyOf, TracksAhead, Fragments.ReadRuns, RunsAhead, SequenceAhead, FirstMdat, Lead, TicksMs, Header, KeyframeRun, EndAfter;
    var runs := [RunAt(1, at, time, 96)];
    KeysAreSync(BodyOf(src, f), HeaderMap(true), at, 0);
    Milliseconds(time);
    Milliseconds(time + 1000);
    assert LastRun(runs, 1) == 0;
    assert RunsJoin(src, bs, runs, d);
    HeaderHas();
  }

  lemma HeaderHas()
    ensures 1 in HeaderMap(true) && HeaderMap(true)[1].video && HeaderMap(true)[1].scale == 1000
  {
  }

  lemma FirstJoins(r: Recipe, src: bytes)
    requires Starts(r, src)
    ensures Joins(src, HeadList(r), PrftBox(r), MoofBox(r), MdatBox(r))
    ensures Fragments.ReadRuns(BodyOf(src, MoofBox(r)), HeaderMap(true), MoofAt(r)) == Some(MoofRuns([RunAt(1, MoofAt(r), START_TIME, 96)], 1))
  {
    hide Emit, Source, BodyOf, ReadProducerReference, TracksAhead, Fragments.ReadRuns, RunsAhead, SequenceAhead, Header, MoovSize, Joins, Open, LastKind, MoofKids, Follow;
    FirstFollows(r, src);
    HeadAhead(r, src);
    HeadKinds(r);
    References();
    SpecimenScan.Places(r);
    MoofRead(r, MoofAt(r));
    RunJoins(src, HeadList(r), PrftBox(r), MoofBox(r), MdatBox(r), MoofAt(r), START_TIME, 1);
  }

  function FirstList(r: Recipe): seq<Box> { [TypeBox(), MoovBox(r), PrftBox(r), MoofBox(r), MdatBox(r)] }

  /** Whatever follows, the first fragment is indexed when it is whole. */
  lemma FirstIndexed(r: Recipe, src: bytes)
    requires Starts(r, src)
    ensures ReadIndex(src, |Base(r)|).Indexed? && |ReadIndex(src, |Base(r)|).index.fragments| == 1
    ensures BoxesFrom(src, |Base(r)|, 0) == FirstList(r) && StopAt(src, |Base(r)|, 0) == |Base(r)|
    ensures Left(src, HeadList(r), FirstList(r), MoofRuns([RunAt(1, MoofAt(r), START_TIME, 96)], 1))
  {
    hide *;
    var p, f, d := PrftBox(r), MoofBox(r), MdatBox(r);
    FirstFollows(r, src);
    HeadBoxes(r, src);
    HeaderIndexed(r, src);
    HeadAhead(r, src);
    FirstJoins(r, src);
    HeadListIs(r);
    NextFragmentIndexed(src, PrftAt(r), |Base(r)|, p, f, d);
    FollowsOn(src, PrftAt(r), |Base(r)|, p, f, d);
    BoxesLonger(src, PrftAt(r), |Base(r)|, 0);
    FirstListIs(r);
    MoofPlace(r);
  }

  lemma MoofPlace(r: Recipe)
    ensures MoofBox(r).offset == MoofAt(r)
  {
    hide MoofAt;
  }

  lemma HeadListIs(r: Recipe)
    ensures HeadList(r) == [TypeBox(), MoovBox(r)] && |HeadList(r)| == 2
  {
  }

  lemma FirstListIs(r: Recipe)
    ensures [TypeBox(), MoovBox(r)] + [PrftBox(r), MoofBox(r), MdatBox(r)] == FirstList(r)
  {
    hide MoovBox, PrftBox, MoofBox, MdatBox, TypeBox;
  }

  lemma FollowsOn(src: bytes, n: nat, m: nat, p: Box, f: Box, d: Box)
    requires Follow(src, n, m, p, f, d)
    ensures n <= m <= |src| && BoxesFrom(src, m, n) == [p, f, d] && StopAt(src, m, n) == m
  {
    hide BoxesFrom, StopAt;
  }

  // ---------- the second fragment ----------

  lemma BothStarts(r: Recipe)
    requires Plain(r)
    ensures Starts(r, Both(r)) && |Both(r)| == |Base(r)| + 132
  {
    hide Base, Emit, NextParts;
  }

  lemma NextFollows(r: Recipe)
    requires Plain(r)
    ensures var src, n := Both(r), |Base(r)|;
            && StopAt(src, n, 0) == n <= |src| && Follow(src, n, |src|, NextPrft(n), NextMoof(n), NextMdat(n))
            && BodyOf(src, NextPrft(n)) == NEXT_PRFT && BodyOf(src, NextMoof(n)) == Emit(NextKids())
  {
    hide Emit, Base, Both, BoxesFrom, NextRead, StopAt, NextKids, NextParts, BodyOf;
    BothStarts(r);
    FirstIndexed(r, Both(r));
    BothRead(r);
    NextAdds(Base(r), Both(r));
  }

  /** How far the producer clock of the first fragment is ahead. */
  lemma FirstLead(r: Recipe, src: bytes)
    requires Starts(r, src)
    ensures FirstMdat(FirstList(r), 5) == 4 && Lead(src, FirstList(r), 4) == 1_000_000_000_000 - START_TIME
  {
    hide Emit, Source, BodyOf, ReadProducerReference, TracksAhead, Fragments.ReadRuns, RunsAhead, SequenceAhead, Header, MoovBox, PrftBox, MoofBox, MdatBox, Open, MoofKids, TicksMs, Joins,
         Follow, RunsOfFragment, VideoIndex, VideoScale, RefAhead, BoxesFrom, StopAt;
    FirstFollows(r, src);
    FirstJoins(r, src);
    HeadAhead(r, src);
    References();
    FirstListIs(r);
    MoofPlace(r);
    HeaderHas();
    Milliseconds(START_TIME);
    var bs, cs, m := HeadList(r), FirstList(r), MoofRuns([RunAt(1, MoofAt(r), START_TIME, 96)], 1);
    FirstKinds(r);
    IndexGrowth.HeadTaken(src, bs, cs, PrftBox(r), MoofBox(r), MdatBox(r));
    MediaTaken(src, bs, cs, PrftBox(r), MoofBox(r), MdatBox(r), Ref(1, 1_000_000_000_000), m);
    assert LastRun(m.runs, 1) == 0;
    VideoOfNew(src, cs, 2, m, Ref(1, 1_000_000_000_000));
    ScaleOfVideo(src, cs);
  }

  lemma ScaleOfVideo(src: bytes, cs: seq<Box>)
    requires |cs| == 5 && RefAhead(src, cs, 4) == Some(Ref(1, 1_000_000_000_000)) && VideoScale(src, cs, 4) == 1000
    ensures ScaleOf(TracksAhead(src, cs, 4), 1) == 1000
  {
    hide TracksAhead, RefAhead;
  }

  lemma FirstKinds(r: Recipe)
    ensures var bs, cs := HeadList(r), FirstList(r);
            && Appended(bs, cs, PrftBox(r), MoofBox(r), MdatBox(r)) && |bs| == 2 && FirstMdat(cs, 5) == 4
  {
    hide MoovSize, MoofSize, Data;
    FirstListIs(r);
  }

  /** The second fragment joins the first. */
  lemma NextJoins(r: Recipe)
    requires Plain(r)
    ensures var src, n := Both(r), |Base(r)|;
            Joins(src, FirstList(r), NextPrft(n), NextMoof(n), NextMdat(n)) && !Open(FirstList(r), 5)
  {
    hide Emit, Base, Both, BodyOf, ReadProducerReference, TracksAhead, Fragments.ReadRuns, RunsAhead, SequenceAhead, Header, Joins, Open, Follow, FirstMdat, Lead, BoxesFrom, StopAt, ReadIndex,
         NextKids, MoofAt;
    BothStarts(r);
    var src, n := Both(r), |Base(r)|;
    FirstIndexed(r, src);
    FirstLead(r, src);
    NextFollows(r);
    BaseSize(r);
    NextReads(n);
    References();
    HeadAhead(r, src);
    HeadListIs(r);
    var rr := RunAt(1, MoofAt(r), START_TIME, 96);
    assert [rr][..0] == [] && RunsFor([], 1) == [] && RunsFor([rr], 1) == [] + [rr] && [] + [rr] == [rr];
    assert rr in [rr] && RunsAhead(src, FirstList(r), 5, 1) == [rr];
    LastEnd(rr);
    RunJoins(src, FirstList(r), NextPrft(n), NextMoof(n), NextMdat(n), n + 32, START_TIME + 1000, 2);
  }

  lemma LastEnd(rr: Run)
    ensures EndAfter(0, [rr]) == rr.decodeEnd
  {
  }

  /** A recording of two fragments is indexed with two, and with the first one alone when only that is whole. */
  lemma TwoFragmentsIndexed(r: Recipe)
    requires Plain(r)
    ensures ReadIndex(Base(r), |Base(r)|).Indexed? && |ReadIndex(Base(r), |Base(r)|).index.fragments| == 1
    ensures ReadIndex(Both(r), |Both(r)|).Indexed? && |ReadIndex(Both(r), |Both(r)|).index.fragments| == 2
  {
    hide *;
    BaseStarts(r);
    FirstIndexed(r, Base(r));
    BothStarts(r);
    NextFollows(r);
    var src, n := Both(r), |Base(r)|;
    FirstIndexed(r, src);
    NextJoins(r);
    FirstCount(r);
    NextFragmentIndexed(src, n, |src|, NextPrft(n), NextMoof(n), NextMdat(n));
  }

  lemma FirstCount(r: Recipe)
    ensures |FirstList(r)| == 5
  {
  }

  lemma BaseStarts(r: Recipe)
    requires Plain(r)
    ensures Starts(r, Base(r))
  {
    hide Base;
    assert Base(r)[..|Base(r)|] == Base(r);
  }
}
