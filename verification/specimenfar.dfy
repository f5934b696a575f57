/** A recording of two tracks, the second of which starts 2^64 microseconds after the first: accepted, and presented too early. */
module SpecimenFar {
  import opened Bytes
  import opened Options
  import opened Boxes
  import opened Tracks
  import opened Samples
  import opened Fragments
  import opened Agreement
  import opened SampleTables
  import opened FlatScan
  import opened ScanLemmas
  import opened SourceTruth
  import opened LateClocks
  import opened FlatMovie
  import opened Timing
  import opened MovieBoxes
  import opened Normalized
  import opened Demux
  import opened FlatFile
  import opened EndToEnd
  import opened Presentation
  import opened SpecimenParts
  import opened SpecimenHeader
  import opened SpecimenScan
  import opened Specimen

  const FAR_BODY: bytes := [1, 0, 0, 0, 0, 0x41, 0x8a, 0x20, 0x20, 0x6b, 0xb9, 0xb0]
  const FAR_SECONDS: real := 18446744073710.0

  function FarMvex(): seq<Child> { [Child(TREX, TrexBody(1)), Child(TREX, TrexBody(2))] }
  function FarMoov(): seq<Child> {
    [Child(MVHD, MVHD_BODY), Child(TRAK, Emit(TrakKids(true, 1))), Child(TRAK, Emit(TrakKids(true, 2))), Child(MVEX, Emit(FarMvex()))]
  }
  function FarMoof(): seq<Child> {
    [Child(MFHD, MFHD_BODY), Child(TRAF, Emit(TrafKids(1, TFDT_BODY, 160))), Child(TRAF, Emit(TrafKids(2, FAR_BODY, 164)))]
  }
  function FarParts(): seq<Child> {
    [Child(FTYP, []), Child(MOOV, Emit(FarMoov())), Child(PRFT, PRFT_BODY), Child(MOOF, Emit(FarMoof())), Child(MDAT, [1, 2, 3, 4, 5, 6, 7, 8])]
  }
  function FarSource(): bytes { Emit(FarParts()) }

  function FarHeader(): map<u32, Track> { map[1 := HeaderOf(true, 1), 2 := HeaderOf(true, 2)] }

  // ---------- sizes and walks ----------

  lemma Sized4(a: Child, b: Child, c: Child, d: Child)
    ensures TotalSize([a, b, c, d]) == 32 + |a.body| + |b.body| + |c.body| + |d.body|
  {
    assert [a, b, c, d][1..] == [b, c, d];
    Sized3(b, c, d);
  }

  lemma FarSizes()
    ensures TotalSize(FarMvex()) == 64 && TotalSize(FarMoov()) == 372 && TotalSize(FarMoof()) == 144
  {
    hide TrakKids, TrafKids, TrexBody;
    TrakSizes(true, 1);
    TrakSizes(true, 2);
    FragmentSizes(1, TFDT_BODY, 160);
    FragmentSizes(2, FAR_BODY, 164);
    var x, m, f := FarMvex(), FarMoov(), FarMoof();
    Sized2(x[0], x[1]);
    Sized4(m[0], m[1], m[2], m[3]);
    Sized3(f[0], f[1], f[2]);
  }

  lemma FarWalks()
    ensures Children(Emit(FarMvex())) == Some(FarMvex()) && Children(Emit(FarMoov())) == Some(FarMoov()) && Children(Emit(FarMoof())) == Some(FarMoof())
  {
    hide Emit, TotalSize, Children, FarMvex, FarMoov, FarMoof;
    FarSizes();
    EmitThenWalk(FarMvex());
    EmitThenWalk(FarMoov());
    EmitThenWalk(FarMoof());
  }

  // ---------- the movie header ----------

  lemma FarDefaults()
    ensures MvexFields(FarMvex(), map[]) == Some(map[1 := Defaults(1000, 4, 0), 2 := Defaults(1000, 4, 0)])
  {
    hide U32, TrexBody;
    Fields(1);
    Fields(2);
    var x := FarMvex();
    assert x[1..][0] == x[1] && x[1..][1..] == [];
    var d: map<u32, Defaults> := map[1 := Defaults(1000, 4, 0)];
    assert MvexFields(x, map[]) == MvexFields(x[1..], d);
  }

  lemma FarTracksRead()
    ensures ReadTracks(Emit(FarMoov())) == Read(FarHeader())
  {
    hide Emit, Children, ReadTrak, MvexFields, FarMvex, TrakKids;
    FarWalks();
    ReadHeader(true, 1);
    ReadHeader(true, 2);
    FarDefaults();
    var t, u := Track(1, 1000, 0, 0, 0, true, AVC1), Track(2, 1000, 0, 0, 0, true, AVC1);
    var d: map<u32, Defaults> := map[1 := Defaults(1000, 4, 0), 2 := Defaults(1000, 4, 0)];
    var tracks: map<u32, Track> := map[1 := t, 2 := u];
    assert Inherit(t, d) == HeaderOf(true, 1) && Inherit(u, d) == HeaderOf(true, 2);
    assert (map id | id in tracks :: Inherit(tracks[id], d)) == FarHeader();
    var k := FarMoov();
    assert MoovFields([], tracks, d) == Read(FarHeader());
    assert k[1..][1..] == k[2..] && k[2..][1..] == k[3..] && k[3..][1..] == [];
    assert k[1..][0] == k[1] && k[2..][0] == k[2] && k[3..][0] == k[3];
    assert MoovFields(k[3..], tracks, map[]) == Read(FarHeader());
    var one: map<u32, Track> := map[1 := t];
    assert one[2 := u] == tracks;
    assert MoovFields(k[2..], one, map[]) == Read(FarHeader());
    assert MoovFields(k[1..], map[], map[]) == Read(FarHeader());
  }

  // ---------- the fragment ----------

  lemma FarClock()
    ensures BaseDecode(FAR_BODY) == Some(START_TIME + FAR_TIME) && ReadClock(FAR_BODY, 4) == Some(START_TIME + FAR_TIME)
  {
    assert U64(FAR_BODY, 4) == START_TIME + FAR_TIME;
  }

  lemma FarKnown()
    ensures Knows(FarHeader(), HeaderOf(true, 1)) && Knows(FarHeader(), HeaderOf(true, 2))
    ensures HeaderOf(true, 1).scale == 1000 && HeaderOf(true, 2).scale == 1000
  {
    HeaderSeen(true, 1);
    HeaderSeen(true, 2);
  }

  function FarRuns(): seq<Run> { [RunAt(1, 420, START_TIME, 160), RunAt(2, 420, START_TIME + FAR_TIME, 164)] }

  function FarPieces(): seq<seq<Piece>> { [[Piece(1, 580, [ONE])], [Piece(2, 584, [ONE])]] }

  lemma FarMoofRead()
    ensures Fragments.ReadRuns(Emit(FarMoof()), FarHeader(), 420) == Some(MoofRuns(FarRuns(), 1))
    ensures ReadSamples(Emit(FarMoof()), FarHeader(), 420) == Some(FarPieces())
  {
    hide Emit, Children, RunsMoof, PiecesMoof, TrafRun, TrafPieces, BaseDecode, TrafKids;
    FarWalks();
    FarKnown();
    ClockRead();
    FarClock();
    OneTraf(FarHeader(), HeaderOf(true, 1), TFDT_BODY, START_TIME, 160, 420);
    OneTraf(FarHeader(), HeaderOf(true, 2), FAR_BODY, START_TIME + FAR_TIME, 164, 420);
    MoofOfTwo(Emit(TrafKids(1, TFDT_BODY, 160)), Emit(TrafKids(2, FAR_BODY, 164)), FarHeader(), 420,
              RunAt(1, 420, START_TIME, 160), [Piece(1, 580, [ONE])], RunAt(2, 420, START_TIME + FAR_TIME, 164), [Piece(2, 584, [ONE])]);
  }

  lemma FarStarts()
    ensures KnownClocks(FarMoof()) && MoofClocksFirst(FarMoof()) && MoofStart(FarMoof(), FarHeader()) == Some(At(FIRST_SECOND))
  {
    hide Emit, Children, TrafStart, TrafKids, MoofStart, KnownVersions, ClocksFirst, ReadClock, HeaderOf;
    FarKnown();
    ClockRead();
    FarClock();
    TrafStarts(FarHeader(), HeaderOf(true, 1), TFDT_BODY, START_TIME, 160);
    TrafStarts(FarHeader(), HeaderOf(true, 2), FAR_BODY, START_TIME + FAR_TIME, 164);
    HeaderNumbers();
    var m := FarMoof();
    OneTrafStarts(m[0], m[1], FarHeader(), FIRST_SECOND);
    assert m[..2] == [m[0], m[1]];
    StartOfTraf(m, FarHeader(), At(FIRST_SECOND), (START_TIME + FAR_TIME) as real / 1000.0);
  }

  lemma HeaderNumbers()
    ensures HeaderOf(true, 1).id == 1 && HeaderOf(true, 2).id == 2
  {
  }

  // ---------- the scan ----------

  const FAR_MOOV: Box := Box(8, 380, 8, MOOV)
  const FAR_PRFT: Box := Box(388, 32, 8, PRFT)
  const FAR_MOOF: Box := Box(420, 152, 8, MOOF)
  const FAR_MDAT: Box := Box(572, 16, 8, MDAT)

  predicate FarBoxes(src: bytes) {
    && |src| == 588
    && ReadBox(src, 0, 588) == Found(Box(0, 8, 8, FTYP))
    && ReadBox(src, 8, 588) == Found(FAR_MOOV) && Payload(src, FAR_MOOV) == Some(Emit(FarMoov()))
    && ReadBox(src, 388, 588) == Found(FAR_PRFT) && Payload(src, FAR_PRFT) == Some(PRFT_BODY)
    && ReadBox(src, 420, 588) == Found(FAR_MOOF) && Payload(src, FAR_MOOF) == Some(Emit(FarMoof()))
    && ReadBox(src, 572, 588) == Found(FAR_MDAT)
  }

  lemma FarTails()
    ensures var p := FarParts();
            && p[1..][1..] == p[2..] && p[2..][1..] == p[3..] && p[3..][1..] == p[4..] && |p| == 5
            && p[1..][0] == p[1] && p[2..][0] == p[2] && p[3..][0] == p[3] && p[4..][0] == p[4]
            && TotalSize(p[4..]) == 16 && TotalSize(p[3..]) == 168 && TotalSize(p[2..]) == 200 && TotalSize(p[1..]) == 580 && TotalSize(p) == 588
  {
    hide Emit, TotalSize, FarMoov, FarMoof;
    FarSizes();
    var p := FarParts();
    assert p[4..] == [p[4]];
    Sized1(p[4]);
    SizedHead(p[3..]);
    SizedHead(p[2..]);
    SizedHead(p[1..]);
    SizedHead(p);
  }

  lemma FarBoxesRead()
    ensures FarBoxes(FarSource())
  {
    hide Emit, TotalSize, ReadBox, Payload, FarMoov, FarMoof;
    var p, src := FarParts(), FarSource();
    FarSizes();
    FarTails();
    assert src[0..] == src;
    BoxAt(src, 0, p);
    BoxAt(src, 8, p[1..]);
    BoxAt(src, 388, p[2..]);
    BoxAt(src, 420, p[3..]);
    BoxAt(src, 572, p[4..]);
  }

  function Near(): FlatTrack {
    FlatTrack(HeaderOf(true, 1), [Piece(1, 580, [ONE])], START_TIME, START_TIME + 1000, START_TIME, START_TIME + 1000)
  }

  function Far(): FlatTrack {
    var first := START_TIME + FAR_TIME;
    FlatTrack(HeaderOf(true, 2), [Piece(2, 584, [ONE])], first, first + 1000, first, first + 1000)
  }

  function Both(): map<u32, FlatTrack> { map[1 := Near(), 2 := Far()] }

  function FarFresh(): map<u32, FlatTrack> { map[1 := NewTrack(HeaderOf(true, 1)), 2 := NewTrack(HeaderOf(true, 2))] }

  function FarMoved(): map<u32, FlatTrack> { map[1 := Near().(pieces := []), 2 := Far().(pieces := [])] }

  function HeaderSeenState(): Scan {
    START.(moov := Some(FAR_MOOV), metadata := Emit(FarMoov()), defaults := FarHeader(), tracks := FarFresh())
  }

  function ReferenceSeen(): Scan { HeaderSeenState().(references := [FAR_PRFT]) }

  function FragmentSeen(): Scan { ReferenceSeen().(tracks := Both(), pending := FarRuns(), sequence := 1, haveFragment := true) }

  function FarScanned(): Scan { FragmentSeen().(pending := []) }

  lemma FarMoovStep(src: bytes)
    requires FarBoxes(src)
    ensures StepBox(src, START, FAR_MOOV) == Going(HeaderSeenState())
  {
    hide Emit, ReadTracks, Payload, StepMoof, StepMdat, ReadBox, FarMoov, FarMoof;
    FarTracksRead();
    var tracks := FarHeader();
    assert (map id | id in tracks :: NewTrack(tracks[id])) == FarFresh();
  }

  lemma FarRunsApplied()
    ensures ApplyRuns(FarFresh(), FarRuns()) == Some(FarMoved())
  {
    hide HeaderOf;
    var runs := FarRuns();
    assert runs[..2] == runs && runs[..2][..1] == runs[..1] && runs[..1][..0] == [] && ApplyRuns(FarFresh(), []) == Some(FarFresh());
    var first: map<u32, FlatTrack> := map[1 := Near().(pieces := []), 2 := NewTrack(HeaderOf(true, 2))];
    assert ApplyRuns(FarFresh(), runs[..1]) == ApplyRun(FarFresh(), runs[0]);
    assert ApplyRun(FarFresh(), runs[0]).value == first;
    assert ApplyRun(first, runs[1]).value == FarMoved();
  }

  lemma FarFlat()
    ensures Flatten(FarPieces()) == [Piece(1, 580, [ONE]), Piece(2, 584, [ONE])]
  {
    hide Flatten;
    var a, b := Piece(1, 580, [ONE]), Piece(2, 584, [ONE]);
    FlattenMore([], [a]);
    FlattenMore([[a]], [b]);
    assert [] + [[a]] == [[a]] && [[a]] + [[b]] == FarPieces();
    assert [] + [a] == [a] && [a] + [b] == [a, b];
  }

  lemma FarPiecesApplied()
    ensures ApplyPieces(FarMoved(), Flatten(FarPieces())) == Both()
  {
    hide HeaderOf, Flatten, FarPieces, PiecesFor;
    var a, b := Piece(1, 580, [ONE]), Piece(2, 584, [ONE]);
    FarFlat();
    OneEach(a, b, 1);
    OneEach(a, b, 2);
    assert [] + [a] == [a] && [] + [b] == [b];
    var r := ApplyPieces(FarMoved(), [a, b]);
    assert r[1] == Near() && r[2] == Far() && r.Keys == {1, 2};
  }

  lemma OneEach(a: Piece, b: Piece, id: u32)
    requires a.track == 1 && b.track == 2
    ensures PiecesFor([a, b], id) == if id == 1 then [a] else if id == 2 then [b] else []
  {
    assert [a, b][..1] == [a] && [a][..0] == [];
    assert PiecesFor([a], id) == (if id == 1 then [] + [a] else []) && [] + [a] == [a] && [] + [b] == [b];
  }

  lemma FarMoofStep(src: bytes)
    requires FarBoxes(src)
    ensures StepBox(src, ReferenceSeen(), FAR_MOOF) == Going(FragmentSeen())
  {
    hide Emit, Children, Payload, Fragments.ReadRuns, ReadSamples, KnownClocks, MoofStart, ApplyRuns, ApplyPieces, Flatten, StepMoov, StepMdat,
         ReadBox, FarMoov, FarMoof, FarRuns, FarPieces, Both, FarFresh, FarHeader;
    FarWalks();
    FarStarts();
    FarMoofRead();
    FarRunsApplied();
    FarPiecesApplied();
    SomeFar();
  }

  lemma SomeFar()
    ensures FarRuns() != [] && FIRST_SECOND >= EPOCH_2000 as real
  {
  }

  lemma FarOtherSteps(src: bytes)
    requires FarBoxes(src)
    ensures StepBox(src, START, Box(0, 8, 8, FTYP)) == Going(START)
    ensures StepBox(src, HeaderSeenState(), FAR_PRFT) == Going(ReferenceSeen())
    ensures StepBox(src, FragmentSeen(), FAR_MDAT) == Going(FarScanned())
  {
    hide Emit, StepMoov, StepMoof, Payload, ReadBox, FarMoov, FarMoof, Both, FarFresh, FarHeader;
    SomeFar();
  }

  lemma FarOrderly()
    ensures OrderlyMoof(Emit(FarMoof()), ReferenceSeen(), 420)
  {
    hide Emit, Children, MoofClocksFirst, Fragments.ReadRuns, FarMoov, FarMoof, FarHeader, FarFresh;
    FarWalks();
    FarStarts();
    FarMoofRead();
  }

  lemma FarScan(src: bytes)
    requires FarBoxes(src)
    ensures ScanFrom(src, 0, START) == Going(FarScanned()) && OrderlyFrom(src, 0, START)
  {
    hide Emit, ReadBox, Payload, StepBox, HeaderSeenState, ReferenceSeen, FragmentSeen, FarScanned, ScanFrom, OrderlyFrom, OrderlyMoof, FarMoov, FarMoof;
    FarMoovStep(src);
    FarMoofStep(src);
    FarOtherSteps(src);
    FarOrderly();
    ScanEnds(src, FarScanned());
    ScanOne(src, 572, FragmentSeen(), FAR_MDAT, FarScanned(), FarScanned());
    ScanOne(src, 420, ReferenceSeen(), FAR_MOOF, FragmentSeen(), FarScanned());
    ScanOne(src, 388, HeaderSeenState(), FAR_PRFT, ReferenceSeen(), FarScanned());
    ScanOne(src, 8, START, FAR_MOOV, HeaderSeenState(), FarScanned());
    ScanOne(src, 0, START, Box(0, 8, 8, FTYP), START, FarScanned());
    OrderOne(src, 572, FragmentSeen(), FAR_MDAT, FarScanned());
    OrderOne(src, 420, ReferenceSeen(), FAR_MOOF, FragmentSeen());
    OrderOne(src, 388, HeaderSeenState(), FAR_PRFT, ReferenceSeen());
    OrderOne(src, 8, START, FAR_MOOV, HeaderSeenState());
    OrderOne(src, 0, START, Box(0, 8, 8, FTYP), START);
  }

  // ---------- the movie ----------

  const NEAR_PLAN := Plan(0, 0, 1000000)
  const FAR_PLAN := Plan(0, 448384, 1000000)

  function FarPlans(): map<u32, Plan> { map[1 := NEAR_PLAN, 2 := FAR_PLAN] }

  function FarReference(): Child { Child(PRFT, PRFT_BODY[..16] + Enc64(1000) + PRFT_BODY[24..]) }

  function FarMovie(): Movie { Movie(FAR_MOOV, Emit(FarMoov()), Both(), FarPlans(), [FarReference()], 1448384) }

  lemma FarStartTimes()
    ensures Near().info.scale == 1000 && Far().info.scale == 1000
    ensures StartOf(Near()) == FIRST_SECOND && StartOf(Far()) == FIRST_SECOND + FAR_SECONDS
  {
    assert (START_TIME + FAR_TIME) as real == START_TIME as real + FAR_SECONDS * 1000.0;
  }

  /** The delay of the far track in movie ticks is cut to 64 bits. */
  lemma FarTicks()
    ensures CeilMovieTime(FAR_SECONDS) == 448384 && Ceil(FAR_SECONDS * MOVIE_SCALE as real) > MAX_U64
    ensures CeilMovieTime(0.0) == 0 && CeilMovieTime(Seconds(1000, 1000)) == 1000000
  {
    assert FAR_SECONDS * MOVIE_SCALE as real == 18446744073710000000.0;
    assert Ceil(18446744073710000000.0) == 18446744073710000000 && Wrap64(18446744073710000000) == 448384;
    SmallCeils();
  }

  lemma FarPlanned()
    ensures Near().info.scale == 1000 && Far().info.scale == 1000
    ensures PlanOf(Near(), FIRST_SECOND) == NEAR_PLAN && PlanOf(Far(), FIRST_SECOND) == FAR_PLAN
    ensures !DelayFits(Far(), FIRST_SECOND)
  {
    hide CeilMovieTime, Ceil, HeaderOf;
    FarStartTimes();
    FarTicks();
  }

  lemma FarOrigin()
    ensures Scaled(Both()) && (exists id | id in Both() :: Both()[id].pieces != []) && Origin(Both()) == FIRST_SECOND
    ensures PlansFrom(Both(), Origin(Both())) == FarPlans() && PlansFit(FarPlans()) && Longest(FarPlans()) == 1448384
  {
    hide PlanOf, HeaderOf, StartOf;
    FarStartTimes();
    FarPlanned();
    var tracks, plans := Both(), FarPlans();
    assert tracks[1].pieces != [] && tracks[2].pieces != [];
    assert IsOrigin(tracks, FIRST_SECOND);
    OriginUnique(tracks, FIRST_SECOND, Origin(tracks));
    assert PlansFrom(tracks, FIRST_SECOND) == plans;
    assert plans[2].delay + plans[2].duration == 1448384;
    assert IsLongest(plans, 1448384);
    LongestUnique(plans, 1448384, Longest(plans));
  }

  lemma FarReferences(src: bytes)
    requires FarBoxes(src)
    ensures ReadReferences(src, [FAR_PRFT], FarHeader()) == Some([Reference(1, START_TIME + 1000, PRFT_BODY)])
    ensures RewriteReferences([Reference(1, START_TIME + 1000, PRFT_BODY)], Both(), FarPlans()) == Some([FarReference()])
  {
    hide Emit, Payload, ReadBox, U32, U64, Enc64, FarMoov, FarMoof, HeaderOf;
    FragmentFields(1, 0);
    var b, e, c := FAR_PRFT, Reference(1, START_TIME + 1000, PRFT_BODY), FarReference();
    assert [b][..0] == [] && [e][..0] == [];
    assert ReadReferences(src, [], FarHeader()) == Some([]) && RewriteReferences([], Both(), FarPlans()) == Some([]);
    assert ReadReference(PRFT_BODY, FarHeader()) == Some(e) && RewriteReference(e, Both(), FarPlans()) == Some(c);
    assert ReadReferences(src, [b], FarHeader()) == Some([] + [e]) && [] + [e] == [e];
    Sized1(c);
    assert [] + [c] == [c];
    assert RewriteReferences([e], Both(), FarPlans()) == Some([] + [c]);
  }

  lemma FarFinished(src: bytes)
    requires FarBoxes(src)
    ensures FinishMovie(src, FarScanned()) == Flat(FarMovie())
  {
    hide Emit, ReadReferences, RewriteReferences, Origin, Longest, PlansFrom, PlansFit, Both, FarPlans, FarReference, FarMoov, FarMoof, ReadBox, Payload,
         FarHeader, FarFresh, FarRuns;
    FarOrigin();
    FarReferences(src);
  }

  // ---------- the new header ----------

  lemma OneSampleTrack(t: FlatTrack, id: u32, at: int)
    requires t.pieces == [Piece(id, at, [ONE])] && 200 <= at <= 1000
    ensures t.Samples() == [ONE] && SmallTrack(t.Samples(), t.Chunks())
  {
    assert t.pieces[..0] == [] && AllSamples(t.pieces) == [] + [ONE] && [] + [ONE] == [ONE];
  }

  lemma FarWritable()
    ensures Near().Samples() == [ONE] && Far().Samples() == [ONE]
    ensures Writable(Near(), NEAR_PLAN) && Writable(Far(), FAR_PLAN)
  {
    hide SmallTrack, AllSamples;
    OneSampleTrack(Near(), 1, 580);
    OneSampleTrack(Far(), 2, 584);
  }

  lemma FarRewritten(d: int)
    requires -160 <= d <= MAX_I64 - 1400
    ensures NewMovie(FarMovie(), d).Some? && 232 <= TotalSize(NewMovie(FarMovie(), d).value) <= 1300
  {
    hide Emit, Children, Near, Far, FarReference, DurationBody, TrakKids, FarMvex, Writable, TrackChildren, TrakNumber;
    FarWalks();
    FarWritable();
    HeadersWiden(1, 1448384);
    var m, k := FarMovie(), FarMoov();
    TrakBoxRewritten(m, true, 1, d);
    TrakBoxRewritten(m, true, 2, d);
    var a, b, c := MovieChild(m, k[0], d).value, MovieChild(m, k[1], d).value, MovieChild(m, k[2], d).value;
    var none: seq<Child> := [];
    assert k[1..][1..] == k[2..] && k[2..][1..] == k[3..] && k[3..][1..] == none;
    assert k[1..][0] == k[1] && k[2..][0] == k[2] && k[3..][0] == k[3];
    assert MovieChildren(m, none, d) == Some(none) && MovieChild(m, k[3], d) == Some(none) && none + none == none;
    assert MovieChildren(m, k[3..], d) == Some(none);
    assert MovieChildren(m, k[2..], d) == Some(c + none) && c + none == c;
    assert MovieChildren(m, k[1..], d) == Some(b + c);
    assert MovieChildren(m, k, d) == Some(a + (b + c));
    assert a == [a[0]] && b == [b[0]] && c == [c[0]] && a + (b + c) == [a[0], b[0], c[0]];
    Sized3(a[0], b[0], c[0]);
  }

  lemma FarSpliced()
    ensures Splice(FarSource(), FarMovie()).Spliced?
  {
    hide Emit, NewMovie, ReadBox, Payload, FarSource, Both, FarPlans, FarMoov, FarMoof;
    FarBoxesRead();
    FarRewritten(0);
    Sized1(FarMovie().references[0]);
    var delta := FinalDelta(FarMovie()).value;
    assert -160 <= delta <= 1400;
    FarRewritten(delta);
  }

  /** The recording is accepted, with its boxes in order. */
  ghost predicate Accepted(src: bytes, m: Movie, v: View, defaults: map<u32, Track>) {
    Presents(src, m, v, defaults) && OrderlyFrom(src, 0, START)
  }

  lemma FarPresented() returns (v: View)
    ensures Accepted(FarSource(), FarMovie(), v, FarHeader())
  {
    hide Emit, ReadBox, Payload, FarSource, FinishMovie, Splice, U32, ReadTracks, ScanFrom, OrderlyFrom, Both, FarPlans, FarReference, FarMoov, FarMoof, FarHeader,
         FarScanned;
    FarBoxesRead();
    FarType();
    FarScan(FarSource());
    FarFinished(FarSource());
    FarSpliced();
    SpliceNames(FarSource(), FarMovie());
    FarTracksRead();
    v := Splice(FarSource(), FarMovie()).view;
  }

  lemma FarType()
    ensures |FarSource()| >= 8 && U32(FarSource(), 4) == FTYP
  {
    hide Emit, Payload, FarSource, FarMoov, FarMoof;
    FarBoxesRead();
  }

  lemma FarTraks()
    ensures var m, k := FarMovie(), FarMoov();
            Played(m, k[1]) && Tabled(k[1]) && Played(m, k[2]) && Tabled(k[2]) && !SameTrakNumber(k[1].body, k[2].body)
    ensures ReadTrak(FarMoov()[2].body).value.id == 2
  {
    hide Emit, ChildrenFrom, ReadTrak, HasTable, Near, Far, FarReference, TrakKids, FarMvex;
    TrakWalks(true, 1);
    TrakWalks(true, 2);
    ReadHeader(true, 1);
    ReadHeader(true, 2);
    TableInTrak(1);
    TableInTrak(2);
    FarSome();
  }

  lemma PlayedMiddle(m: Movie, a: Child, b: Child, c: Child, d: Child)
    requires !Played(m, a) && Played(m, b) && Played(m, c) && !Played(m, d)
    ensures PlayedTraks(m, [a, b, c, d]) == [b, c]
  {
    hide Played, PlayedTraks;
    var none: seq<Child> := [];
    assert [a, b, c, d][1..] == [b, c, d] && [b, c, d][1..] == [c, d] && [c, d][1..] == [d] && [d][1..] == none;
    PlayedHead(m, none);
    PlayedHead(m, [d]);
    PlayedHead(m, [c, d]);
    PlayedHead(m, [b, c, d]);
    PlayedHead(m, [a, b, c, d]);
    assert [c] + none == [c] && [b] + [c] == [b, c];
  }

  lemma PlayedHead(m: Movie, cs: seq<Child>)
    ensures PlayedTraks(m, cs) == if cs == [] then [] else if Played(m, cs[0]) then [cs[0]] + PlayedTraks(m, cs[1..]) else PlayedTraks(m, cs[1..])
  {
    hide Played;
  }

  lemma FarKids()
    ensures var m, k := FarMovie(), FarMoov();
            && Children(m.metadata) == Some(k) && DistinctTraks(k) && AllTabled(m, k) && First(k, MVHD).Some?
            && |PlayedTraks(m, k)| == 2 && PlayedTraks(m, k)[1] == k[2]
  {
    hide Emit, ChildrenFrom, ReadTrak, HasTable, Both, FarReference, TrakKids, FarMvex, Played, Tabled, SameTrakNumber, PlayedTraks, MvexKids;
    FarWalks();
    FarTraks();
    var m, k := FarMovie(), FarMoov();
    NotPlayed(m, k[0]);
    NotPlayed(m, k[3]);
    PlayedMiddle(m, k[0], k[1], k[2], k[3]);
  }

  lemma NotPlayed(m: Movie, c: Child)
    requires c.kind != TRAK
    ensures !Played(m, c)
  {
  }

  lemma FarSome()
    ensures Near().pieces != [] && Far().pieces != []
  {
  }

  lemma TableInTrak(id: byte)
    ensures HasTable(TrakKids(true, id))
  {
    hide Emit, Children;
    TrakWalks(true, id);
    var k, m := TrakKids(true, id), MdiaKids(true);
    assert k[1..][0] == k[1] && First(k[1..], MDIA) == Some(k[1].body) && First(k, MDIA) == Some(k[1].body);
    assert m[1..][1..] == m[2..] && m[1..][0] == m[1] && m[2..][0] == m[2];
    assert First(m[2..], MINF) == Some(m[2].body) && First(m[1..], MINF) == Some(m[2].body) && First(m, MINF) == Some(m[2].body);
    assert Inside(m, MINF) == Some(MinfKids()) && Inside(MinfKids(), STBL) == Some(StblKids());
  }

  // ---------- the time it is presented at ----------

  /** Sample 0 of track k, meant `meant` seconds after the origin, is presented at `shown`. */
  ghost predicate PresentedEarly(src: bytes, m: Movie, v: View, defaults: map<u32, Track>, k: nat, meant: real, shown: real)
    requires Readable(src, m, v, defaults)
  {
    && ReadFile(Contents(src, v)).value.clock.Some? && k < |ReadFile(Contents(src, v)).value.tracks|
    && Scaled(m.tracks) && (exists j | j in m.tracks :: m.tracks[j].pieces != [])
    && var view := ReadFile(Contents(src, v)).value.tracks[k];
       && view.header.scale > 0 && HasSample(view, 0) && SampleTimes(src, defaults, view.header.id) != []
       && Seconds(SampleTimes(src, defaults, view.header.id)[0], view.header.scale) - Origin(m.tracks) == meant
       && PresentedAt(view, ReadFile(Contents(src, v)).value.clock.value.scale, 0) == shown
  }

  lemma FarShown(header: Track, stsd: bytes, delta: int)
    requires header.scale == 1000
    ensures var view := ViewOfTrack(header, stsd, Far(), FAR_PLAN, delta);
            HasSample(view, 0) && PresentedAt(view, MOVIE_SCALE, 0) == 0.448384
    ensures |TrackTimes(Far())| > 0 && Seconds(TrackTimes(Far())[0], 1000) - FIRST_SECOND == FAR_SECONDS
  {
    hide AllSamples, Presented, EditsOf, HeaderOf, ViewOfTrack;
    FarWritable();
    var t, p := Far(), FAR_PLAN;
    TablePlaces(header, stsd, t, p, delta, 0);
    ViewParts(header, stsd, t, p, delta);
    FarStartTimes();
    assert [ONE][..0] == [];
    assert MediaTime(t, p) == 0 && CompositionTime(t.Samples(), 0, 0) == 0;
    PresentedUnderPlan(t, p, 0, 1000);
    assert Seconds(448384, MOVIE_SCALE) == 0.448384 && Seconds(0, 1000) == 0.0;
  }

  lemma ViewParts(header: Track, stsd: bytes, t: FlatTrack, p: Plan, delta: int)
    ensures ViewOfTrack(header, stsd, t, p, delta).header == header && ViewOfTrack(header, stsd, t, p, delta).edits == EditsOf(t, p)
  {
  }

  /** Its view can be read, and the second of two tracks is number 2. */
  ghost predicate TwoTracks(src: bytes, m: Movie, v: View, defaults: map<u32, Track>) {
    && Readable(src, m, v, defaults) && Regular(src, m)
    && var file := ReadFile(Contents(src, v)).value;
       file.clock.Some? && file.clock.value.scale == MOVIE_SCALE && |file.tracks| == 2 && file.tracks[1].header.id == 2
  }

  lemma FarRead() returns (v: View)
    ensures TwoTracks(FarSource(), FarMovie(), v, FarHeader())
  {
    hide Presents, Contents, ReadFile, Children, AllTabled, First, PlayedTraks, FarSource, FarMovie, Faithful, DistinctTraks, Emit, OrderlyFrom,
         FarMoov, FarHeader, StsdOf;
    v := FarPresented();
    FarKids();
    FarTraks();
    SamplesPreserved(FarSource(), FarMovie(), v, FarHeader());
  }

  lemma FarMovieParts()
    ensures FarMovie().tracks == Both() && FarMovie().plans == FarPlans() && Both()[2] == Far() && FarPlans()[2] == FAR_PLAN
    ensures Far().info.scale == 1000
  {
  }

  /**
   A regular recording of two tracks, the second starting 18446744073710 seconds
   after the first, is accepted, and the first sample of the second track is
   presented 0.448384 seconds after the origin.
   */
  lemma FarDelayExists()
    ensures exists src: bytes, m: Movie, v: View, defaults: map<u32, Track> ::
              Readable(src, m, v, defaults) && Regular(src, m) && PresentedEarly(src, m, v, defaults, 1, 18446744073710.0, 0.448384)
  {
    hide Presents, Contents, ReadFile, FarSource, FarMovie, Regular, PresentedEarly, FarHeader;
    var v := FarRead();
    FarShows(FarSource(), FarMovie(), v, FarHeader());
  }

  lemma FarShows(src: bytes, m: Movie, v: View, defaults: map<u32, Track>)
    requires TwoTracks(src, m, v, defaults) && m == FarMovie()
    ensures PresentedEarly(src, m, v, defaults, 1, 18446744073710.0, 0.448384)
  {
    hide Presents, Contents, ReadFile, FarMovie, FarHeader, Far, Both, FarPlans, ViewOfTrack, SampleTimes, TrackTimes, Origin, Seconds,
         PresentedAt, HasSample, Children, DistinctTraks, OrderlyFrom, SourcePieces, AllSamples, PlanOf, StartOf, TrackInRange, PieceInside, FewSamples;
    FarMovieParts();
    FarOrigin();
    TrackOfView(src, m, v, defaults, 1);
    var view := ReadFile(Contents(src, v)).value.tracks[1];
    OrderlyTrack(src, m, v, defaults, 2);
    FarShown(view.header, view.table.stsd, |v.metadata| - v.removed);
  }
}
