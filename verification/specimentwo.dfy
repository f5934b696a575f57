/** A recording of two fragments: it is presented with the samples of both, and indexed fragment by fragment. */
module SpecimenTwo {
  import opened Bytes
  import opened Options
  import opened Boxes
  import opened Tracks
  import opened Samples
  import opened Fragments
  import opened FlatScan
  import opened FlatMovie
  import opened MovieBoxes
  import opened SampleTables
  import opened Normalized
  import opened LateClocks
  import opened BoxOrder
  import opened Acceptance
  import opened Layout
  import opened Presentable
  import opened NextFragment
  import opened SpecimenParts
  import opened SpecimenHeader
  import opened SpecimenScan
  import opened Specimen

  /** A recording with movie clock and sample tables, its producer reference behind the header, and one run. */
  predicate Plain(r: Recipe) { r.clock && r.table && !r.early && r.shape == OneRun }

  /** One second after the first one, on both clocks. */
  const NEXT_PRFT: bytes := [1, 0, 0, 0, 0, 0, 0, 1, 0xbf, 0x45, 0x48, 0x81, 0, 0, 0, 0, 0, 0, 0, 0xe8, 0xd4, 0xa5, 0x17, 0xd0]
  const NEXT_MFHD: bytes := [0, 0, 0, 0, 0, 0, 0, 2]

  function NextKids(): seq<Child> { [Child(MFHD, NEXT_MFHD), Child(TRAF, Emit(TrafKids(1, NEXT_BODY, 96)))] }

  function NextParts(): seq<Child> { [Child(PRFT, NEXT_PRFT), Child(MOOF, Emit(NextKids())), Child(MDAT, [5, 6, 7, 8])] }

  function Base(r: Recipe): bytes { Source(r) }

  function Both(r: Recipe): (all: bytes)
    ensures |all| == |Base(r)| + 132
  {
    NextSizes();
    Base(r) + Emit(NextParts())
  }

  function NextPrft(at: nat): Box { Box(at, 32, 8, PRFT) }

  function NextMoof(at: nat): Box { Box(at + 32, 88, 8, MOOF) }

  function NextMdat(at: nat): Box { Box(at + 120, 12, 8, MDAT) }

  // ---------- boxes ----------

  lemma NextSizes()
    ensures TotalSize(NextKids()) == 80 && TotalSize(NextParts()) == 132
    ensures TotalSize(NextParts()[1..]) == 100 && TotalSize(NextParts()[2..]) == 12
    ensures Children(Emit(NextKids())) == Some(NextKids())
  {
    hide Emit, TrafKids, Children;
    FragmentSizes(1, NEXT_BODY, 96);
    var k, p := NextKids(), NextParts();
    Sized2(k[0], k[1]);
    Sized3(p[0], p[1], p[2]);
    assert p[1..] == [p[1], p[2]] && p[2..] == [p[2]];
    Sized2(p[1], p[2]);
    Sized1(p[2]);
    EmitThenWalk(k);
  }

  lemma BaseSize(r: Recipe)
    requires Plain(r)
    ensures |Base(r)| <= 420 && MoofAt(r) + 100 == |Base(r)| && MoofAt(r) >= 184
  {
    hide Emit, Source, MoovKids, MoofKids, ReadBox, Payload, MoovSize;
    KnownBoxes(r);
    Places(r);
  }

  /** The three boxes are there, and nothing behind them. */
  predicate NextRead(all: bytes, at: nat) {
    && |all| == at + 132
    && ReadBox(all, at, |all|) == Found(NextPrft(at)) && Payload(all, NextPrft(at)) == Some(NEXT_PRFT)
    && ReadBox(all, at + 32, |all|) == Found(NextMoof(at)) && Payload(all, NextMoof(at)) == Some(Emit(NextKids()))
    && ReadBox(all, at + 120, |all|) == Found(NextMdat(at))
  }

  lemma NextBoxes(all: bytes, at: nat)
    requires at <= |all| && all[at..] == Emit(NextParts())
    ensures NextRead(all, at)
  {
    hide Emit, ReadBox, Payload, TotalSize, NextKids;
    NextSizes();
    var p := NextParts();
    assert p[1..][1..] == p[2..] && p[2..][1..] == [] && p[1..][0] == p[1] && p[2..][0] == p[2];
    BoxAt(all, at, p);
    BoxAt(all, at + 32, p[1..]);
    BoxAt(all, at + 120, p[2..]);
  }

  lemma NextAdds(src: bytes, all: bytes)
    requires Grows(src, all) && NextRead(all, |src|)
    ensures Adds(src, all, NextPrft(|src|), NextMoof(|src|), NextMdat(|src|))
    ensures BodyOf(all, NextPrft(|src|)) == NEXT_PRFT && BodyOf(all, NextMoof(|src|)) == Emit(NextKids())
  {
    hide Emit, ReadBox, NextKids;
    var at := |src|;
    var none: seq<Box> := [];
    assert BoxesFrom(all, |all|, |all|) == none && StopAt(all, |all|, |all|) == |all|;
    assert BoxesFrom(all, |all|, at + 120) == [NextMdat(at)] + none && [NextMdat(at)] + none == [NextMdat(at)];
    assert BoxesFrom(all, |all|, at + 32) == [NextMoof(at)] + [NextMdat(at)];
    assert BoxesFrom(all, |all|, at) == [NextPrft(at)] + ([NextMoof(at)] + [NextMdat(at)]);
    assert StopAt(all, |all|, at + 120) == |all| && StopAt(all, |all|, at + 32) == |all|;
  }

  /** What is known of the bytes of the two fragments. */
  lemma BothRead(r: Recipe)
    ensures Grows(Base(r), Both(r)) && NextRead(Both(r), |Base(r)|)
  {
    hide Emit, Base, NextParts, NextRead;
    assert Both(r)[|Base(r)|..] == Emit(NextParts()) && Both(r)[..|Base(r)|] == Base(r);
    NextBoxes(Both(r), |Base(r)|);
  }

  // ---------- the second fragment ----------

  function NextRun(at: nat): Run { RunAt(1, at + 32, START_TIME + 1000, 96) }

  function NextPiece(at: nat): Piece { Piece(1, at + 128, [ONE]) }

  lemma NextNumber()
    ensures U32(NEXT_MFHD, 4) == 2
  {
  }

  lemma MoofOfNext(a: bytes, tracks: map<u32, Track>, at: int, rr: Run, ps: seq<Piece>)
    requires TrafRun(a, tracks, at) == Some(rr) && TrafPieces(a, tracks, at) == Some(ps)
    ensures var k := [Child(MFHD, NEXT_MFHD), Child(TRAF, a)];
            RunsMoof(k, tracks, at) == Some(MoofRuns([rr], 2)) && PiecesMoof(k, tracks, at) == Some([ps])
  {
    hide U32, TrafRun, TrafPieces;
    NextNumber();
    var k := [Child(MFHD, NEXT_MFHD), Child(TRAF, a)];
    assert k[..1] == [k[0]] && k[..1][..0] == [];
    assert RunsMoof(k[..1], tracks, at) == Some(MoofRuns([], 2)) && PiecesMoof(k[..1], tracks, at) == Some([]);
    assert [] + [rr] == [rr] && [] + [ps] == [ps];
  }

  lemma NextReads(at: nat)
    requires at <= 900
    ensures Fragments.ReadRuns(Emit(NextKids()), HeaderMap(true), at + 32) == Some(MoofRuns([NextRun(at)], 2))
    ensures ReadSamples(Emit(NextKids()), HeaderMap(true), at + 32) == Some([[NextPiece(at)]])
    ensures KnownClocks(NextKids())
  {
    hide Emit, Children, RunsMoof, PiecesMoof, TrafRun, TrafPieces, BaseDecode, TrafKids, FlatScan.ReadClock, KnownVersions, TrafStart;
    NextSizes();
    HeaderSeen(true, 1);
    ClockRead();
    var h, tracks := Header(true), HeaderMap(true);
    OneTraf(tracks, h, NEXT_BODY, START_TIME + 1000, 96, at + 32);
    MoofOfNext(Emit(TrafKids(1, NEXT_BODY, 96)), tracks, at + 32, NextRun(at), [NextPiece(at)]);
    TrafStarts(tracks, h, NEXT_BODY, START_TIME + 1000, 96);
  }

  /** The file ends behind a fragment whose track has come to one second past the start. */
  ghost predicate EndsAtOne(src: bytes) {
    var bs := BoxesOf(src);
    && Recorded(src) && TracksAhead(src, bs, |bs|) == HeaderMap(true) && SequenceAhead(src, bs, |bs|) == 1
    && EndAfter(0, RunsAhead(src, bs, |bs|, 1)) == START_TIME + 1000
  }

  lemma BaseScanned(r: Recipe)
    requires Plain(r)
    ensures ScanFrom(Base(r), 0, START) == Going(Scanned(r)) && EndsAtOne(Base(r))
  {
    hide Source, ScanFrom, Accepted, BoxesFrom, ReadBox, Payload, Emit, RunsOfShape, PiecesIn, TracksAhead, OpenRuns, SequenceAhead, OfKind, MoovSize, RunsAhead, EndAfter, Begun, Header;
    KnownBoxes(r);
    SpecimenScanned(r, Base(r));
    ScanAccepts(Base(r));
    assert 1 in Scanned(r).tracks && Scanned(r).tracks[1] == Seen(r);
  }

  /** The second fragment goes on from the first. */
  lemma NextContinues(src: bytes, all: bytes)
    requires Grows(src, all) && NextRead(all, |src|) && EndsAtOne(src) && |src| <= 900
    ensures Continues(src, all, NextMoof(|src|), NextMdat(|src|))
  {
    hide BoxesOf, ReadBox, Emit, TracksAhead, SequenceAhead, RunsAhead, Begun, Header, ChildrenFrom, KnownClocks, Fragments.ReadRuns, ReadSamples, NextKids, BodyOf, EndAfter;
    NextAdds(src, all);
    NextReads(|src|);
    NextSizes();
    var runs, bs := [NextRun(|src|)], BoxesOf(src);
    assert runs[..0] == [] && RunsFor([], 1) == [] && RunsAhead(src, bs, |bs|, 1) + [] == RunsAhead(src, bs, |bs|, 1);
    assert RunContinues(src, runs, 0);
    assert InsideBox(NextRun(|src|), NextMdat(|src|));
  }

  // ---------- the scan ----------

  /** The track behind the first fragment, whose data is at `first`, and behind the second as well. */
  function SeenOne(first: int): FlatTrack {
    FlatTrack(Header(true), [Piece(1, first, [ONE])], START_TIME, START_TIME + 1000, START_TIME, START_TIME + 1000)
  }

  function SeenTwo(first: int, at: nat): FlatTrack {
    FlatTrack(Header(true), [Piece(1, first, [ONE]), NextPiece(at)], START_TIME, START_TIME + 2000, START_TIME, START_TIME + 2000)
  }

  predicate SecondNext(s: Scan, first: int) {
    s.defaults == HeaderMap(true) && s.tracks == map[1 := SeenOne(first)] && s.sequence == 1 && s.pending == [] && s.haveFragment
  }

  lemma RunsTwo(s: Scan, first: int, at: nat)
    requires SecondNext(s, first) && at <= 900
    ensures StepRuns(s, Emit(NextKids()), at + 32) == Going(s.(tracks := map[1 := SeenTwo(first, at)], pending := [NextRun(at)], sequence := 2))
  {
    hide Emit, Fragments.ReadRuns, ReadSamples, NextKids, Header, ApplyRuns, ApplyPieces, Flatten, NextRun, NextPiece, SeenOne, SeenTwo, HeaderMap;
    NextReads(at);
    RunTwo(first, at);
    PieceTwo(first, at);
  }

  /** The track with the clock of both fragments, before the samples of the second are added. */
  function Halfway(first: int, at: nat): FlatTrack { SeenTwo(first, at).(pieces := SeenOne(first).pieces) }

  lemma RunTwo(first: int, at: nat)
    ensures var tracks: map<u32, FlatTrack> := map[1 := SeenOne(first)];
            ApplyRuns(tracks, [NextRun(at)]) == Some(map[1 := Halfway(first, at)])
  {
    hide Header;
    var tracks: map<u32, FlatTrack> := map[1 := SeenOne(first)];
    assert [NextRun(at)][..0] == [] && ApplyRuns(tracks, []) == Some(tracks);
    assert ApplyRuns(tracks, [NextRun(at)]) == ApplyRun(tracks, NextRun(at));
    assert tracks[1].pieces != [];
    assert ApplyRun(tracks, NextRun(at)).value == map[1 := Halfway(first, at)];
  }

  lemma PieceTwo(first: int, at: nat)
    ensures var moved: map<u32, FlatTrack> := map[1 := Halfway(first, at)];
            ApplyPieces(moved, Flatten([[NextPiece(at)]])) == map[1 := SeenTwo(first, at)]
  {
    hide Header;
    var pss, p := [[NextPiece(at)]], [NextPiece(at)];
    assert pss[..0] == [] && Flatten(pss) == [] + p && [] + p == p;
    assert p[..0] == [] && PiecesFor(p, 1) == [] + p;
    var moved: map<u32, FlatTrack> := map[1 := Halfway(first, at)];
    assert moved[1].pieces + p == SeenTwo(first, at).pieces;
    assert ApplyPieces(moved, p)[1] == SeenTwo(first, at);
  }

  lemma MoofStep(all: bytes, s: Scan, first: int, at: nat)
    requires SecondNext(s, first) && NextRead(all, at) && at <= 900
    ensures StepBox(all, s, NextMoof(at)) == Going(s.(tracks := map[1 := SeenTwo(first, at)], pending := [NextRun(at)], sequence := 2))
  {
    hide Emit, SeenOne, SeenTwo, StepMoov, StepMdat, StepRuns, KnownClocks, Children, Payload, ReadBox, NextKids, MoofStart, HeaderMap;
    NextReads(at);
    NextSizes();
    RunsTwo(s, first, at);
  }

  lemma PlainSteps(all: bytes, s: Scan, at: nat)
    requires |all| == at + 132
    ensures StepBox(all, s, NextPrft(at)) == Going(s.(references := s.references + [NextPrft(at)]))
    ensures s.moov.Some? && s.pending == [NextRun(at)] ==> StepBox(all, s, NextMdat(at)) == Going(s.(pending := []))
  {
    hide StepMoov, StepMoof;
  }

  function BehindBoth(s: Scan, first: int, at: nat): Scan {
    s.(tracks := map[1 := SeenTwo(first, at)], sequence := 2, references := s.references + [NextPrft(at)])
  }

  /** The three boxes bring the samples of the second fragment. */
  lemma NextScanned(all: bytes, s: Scan, first: int, at: nat)
    requires SecondNext(s, first) && s.moov.Some? && NextRead(all, at) && at <= 900
    ensures ScanFrom(all, at, s) == Going(BehindBoth(s, first, at))
  {
    hide Emit, ScanFrom, StepBox, ReadBox, Payload, SeenOne, SeenTwo, HeaderMap, NextRun, NextKids;
    var r := s.(references := s.references + [NextPrft(at)]);
    var t := BehindBoth(s, first, at);
    PlainSteps(all, s, at);
    MoofStep(all, r, first, at);
    PlainSteps(all, t.(pending := [NextRun(at)]), at);
    ScanEnds(all, t);
    ScanOne(all, at + 120, t.(pending := [NextRun(at)]), NextMdat(at), t, t);
    ScanOne(all, at + 32, r, NextMoof(at), t.(pending := [NextRun(at)]), t);
    ScanOne(all, at, s, NextPrft(at), r, t);
  }

  lemma BaseNext(r: Recipe)
    requires Plain(r)
    ensures SecondNext(Scanned(r), MoofAt(r) + 96) && Scanned(r).moov.Some?
  {
    hide Header, Emit, MoovSize;
  }

  /** The state behind the first fragment, whose data is at `first`. */
  predicate BehindFirst(r: Recipe, src: bytes, all: bytes, s: Scan, first: int) {
    Plain(r) && src == Base(r) && all == Both(r) && s == Scanned(r) && first == MoofAt(r) + 96
  }

  predicate ScansTo(src: bytes, s: Scan) { ScanFrom(src, 0, START) == Going(s) }

  lemma BothScanned(r: Recipe, src: bytes, all: bytes, s: Scan, first: int)
    requires BehindFirst(r, src, all, s, first)
    ensures ScansTo(all, BehindBoth(s, first, |src|))
  {
    hide Base, Both, ScanFrom, NextRead, MoovSize, Header, Emit;
    BaseScanned(r);
    BaseNext(r);
    BothRead(r);
    BaseSize(r);
    ScanExtends(Base(r), Both(r), 0, START);
    NextScanned(Both(r), s, first, |Base(r)|);
  }

  lemma NamedFirst(r: Recipe)
    requires Plain(r)
    ensures BehindFirst(r, Base(r), Both(r), Scanned(r), MoofAt(r) + 96)
  {
    hide Base, Both, Scanned, MoofAt;
  }

  // ---------- the movie ----------

  /** What the scan knows behind both fragments, as far as the emitter needs it. */
  predicate ReadyTwo(r: Recipe, s: Scan, first: int, at: nat) {
    && s.moov.Some? && 144 <= s.moov.value.size <= 212 && s.metadata == Emit(MoovKids(r)) && s.defaults == HeaderMap(true)
    && s.tracks == map[1 := SeenTwo(first, at)] && 200 <= first <= 800 && 200 <= at <= 800
  }

  lemma SamplesTwo(first: int, at: nat)
    requires 200 <= first <= 800 && 200 <= at <= 800
    ensures SeenTwo(first, at).Samples() == [ONE, ONE] && SmallTrack(SeenTwo(first, at).Samples(), SeenTwo(first, at).Chunks())
  {
    hide Header;
    var t := SeenTwo(first, at);
    var ps := t.pieces;
    assert ps[..1] == [Piece(1, first, [ONE])] && ps[..1][..0] == [] && AllSamples(ps[..1]) == [] + [ONE] && [] + [ONE] == [ONE];
    assert ps[..2] == ps && [ONE] + [ONE] == [ONE, ONE];
    var cs := t.Chunks();
    forall c | c in cs
      ensures 200 <= c.offset <= 1000
    {
      var i :| 0 <= i < |cs| && cs[i] == c;
    }
  }

  lemma SpannedTwo(first: int, at: nat)
    ensures var tracks: map<u32, FlatTrack> := map[1 := SeenTwo(first, at)];
            Spanned(tracks) && PlanOf(tracks[1], Origin(tracks)).shift == 0
  {
    hide Origin, PlanOf;
    var t := SeenTwo(first, at);
    var tracks: map<u32, FlatTrack> := map[1 := t];
    assert tracks[1].pieces != [];
    assert IsOrigin(tracks, StartOf(t));
    OriginUnique(tracks, StartOf(t), Origin(tracks));
    PlanTwo(t);
  }

  lemma PlanTwo(t: FlatTrack)
    requires t.info.scale == 1000 && t.minPTS == t.firstDTS && t.maxPTS - t.minPTS == 2000
    ensures PlanOf(t, StartOf(t)) == Plan(0, 0, 2000000)
  {
    assert StartOf(t) - StartOf(t) == 0.0 && 0.0 * MOVIE_SCALE as real == 0.0 && Ceil(0.0) == 0;
    assert Seconds(2000, 1000) == 2.0 && 2.0 * MOVIE_SCALE as real == 2000000.0 && Ceil(2000000.0) == 2000000;
  }

  lemma LaidOutSmall(r: Recipe, m: Movie, size: int)
    requires SmallMovie(m, r) && 144 <= m.moov.size <= 212 && size <= 1000
    ensures LaidOut(m, 64, size)
  {
    hide Emit, NewMovie, HeaderFits, MovieChildren, SmallMovie;
    MovieRewritten(m, r, 0);
    HeaderWritable(m, 0);
    NewMovieIs(m, 0);
    var shift := 8 + NewSize(m) + 64 + 16 - m.moov.size;
    MovieRewritten(m, r, shift);
    HeaderWritable(m, shift);
  }

  lemma NewMovieIs(m: Movie, d: int)
    requires NewMovie(m, d).Some?
    ensures Children(m.metadata).Some? && MovieChildren(m, Children(m.metadata).value, d) == NewMovie(m, d)
  {
    hide MovieChildren, ChildrenFrom;
  }

  lemma DraftSmall(r: Recipe, s: Scan, first: int, at: nat)
    requires ReadyTwo(r, s, first, at)
    ensures Spanned(s.tracks) && SmallMovie(Draft(s), r) && Draft(s).moov == s.moov.value
  {
    hide Emit, MoovKids, Origin, PlanOf, SmallTrack, Longest, FlatTrack.Samples, FlatTrack.Chunks, Spanned;
    SpannedTwo(first, at);
    SamplesTwo(first, at);
    var m := Draft(s);
    assert m.tracks == s.tracks && m.tracks[1].pieces != [] && m.plans[1] == PlanOf(m.tracks[1], Origin(m.tracks));
  }

  lemma NextReference()
    ensures ReadReference(PRFT_BODY, HeaderMap(true)) == Some(Reference(1, START_TIME + 1000, PRFT_BODY))
    ensures ReadReference(NEXT_PRFT, HeaderMap(true)) == Some(Reference(1, START_TIME + 2000, NEXT_PRFT))
  {
    hide Header;
    FragmentFields(1, 0);
    NextFields();
    hide U32, U64;
  }

  lemma NextFields()
    ensures U32(NEXT_PRFT, 4) == 1 && U32(NEXT_PRFT, 8) == 3208988801 && U64(NEXT_PRFT, 16) == START_TIME + 2000
  {
  }

  lemma ReferencedTwo(r: Recipe, all: bytes, s: Scan, first: int, at: nat, a: Box)
    requires ReadyTwo(r, s, first, at) && IsBox(all, a) && IsBox(all, NextPrft(at)) && a.size == 32 && a.header == 8
    requires BodyOf(all, a) == PRFT_BODY && BodyOf(all, NextPrft(at)) == NEXT_PRFT
    ensures WellReferenced(all, [a, NextPrft(at)], s) && ReferenceBytes([a, NextPrft(at)]) == 64
  {
    hide Emit, ReadReference, HeaderMap, BodyOf, MoovKids;
    NextReference();
    var refs := [a, NextPrft(at)];
    assert refs[..1] == [a] && refs[..1][..0] == [] && ReferenceBytes([]) == 0 && ReferenceBytes(refs[..1]) == 32;
    forall b | b in refs
      ensures ReferenceReads(all, b, s.defaults) && Moves(ReadReference(BodyOf(all, b), s.defaults).value, s.tracks)
    {
      if b == a { assert Moves(Reference(1, START_TIME + 1000, PRFT_BODY), s.tracks); } else { assert Moves(Reference(1, START_TIME + 2000, NEXT_PRFT), s.tracks); }
    }
  }

  lemma TwoTellable(r: Recipe, all: bytes, s: Scan, first: int, at: nat, a: Box)
    requires ReadyTwo(r, s, first, at) && IsBox(all, a) && IsBox(all, NextPrft(at)) && a.size == 32 && a.header == 8 && |all| <= 1000
    requires BodyOf(all, a) == PRFT_BODY && BodyOf(all, NextPrft(at)) == NEXT_PRFT
    ensures Tellable(all, [a, NextPrft(at)], s)
  {
    hide WellReferenced, ReferenceBytes, LaidOut, Spanned, Draft, Emit, MoovKids, HeaderMap, SeenTwo, BodyOf, SmallMovie;
    ReferencedTwo(r, all, s, first, at, a);
    DraftSmall(r, s, first, at);
    LaidOutSmall(r, Draft(s), |all|);
  }

  lemma BaseReference(r: Recipe)
    requires Plain(r)
    ensures OfKind(BoxesOf(Base(r)), PRFT) == [PrftBox(r)] && IsBox(Base(r), PrftBox(r)) && BodyOf(Base(r), PrftBox(r)) == PRFT_BODY
    ensures PrftBox(r).size == 32 && PrftBox(r).header == 8
  {
    hide Source, ScanFrom, Accepted, BoxesFrom, ReadBox, Emit, RunsOfShape, Seen, TracksAt, TracksAhead, OpenRuns, SequenceAhead, OfKind, MoovSize;
    KnownBoxes(r);
    Places(r);
    SpecimenScanned(r, Base(r));
    ScanAccepts(Base(r));
    assert BoxesOf(Base(r))[..|BoxesOf(Base(r))|] == BoxesOf(Base(r));
    BodyIs(Base(r), PrftBox(r));
  }

  lemma BaseReady(r: Recipe)
    requires Plain(r)
    ensures var s := Scanned(r); s.moov.Some? && 144 <= s.moov.value.size <= 212 && s.metadata == Emit(MoovKids(r)) && s.defaults == HeaderMap(true)
  {
    hide Emit, MoovKids, HeaderMap, Seen, RunsOfShape;
    Places(r);
  }

  lemma BaseSpliced(r: Recipe)
    ensures Normalize(Base(r)).Spliced?
  {
    hide Emit, Source, Splice, ScanFrom, FinishMovie, TheMovie;
    SpecimenPresented(r);
  }

  lemma SamePlace(src: bytes, all: bytes, b: Box)
    requires Grows(src, all) && IsBox(src, b)
    ensures IsBox(all, b) && BodyOf(all, b) == BodyOf(src, b)
  {
    SamePrefix(src, all, |src|, b.offset + b.header, b.offset + b.size);
  }

  /** A recording of two fragments is presented, with the samples of both. */
  lemma TwoFragmentsPresented(r: Recipe)
    requires Plain(r)
    ensures Normalize(Both(r)).Spliced? && 1 in Normalize(Both(r)).movie.tracks && Normalize(Both(r)).movie.tracks[1].Samples() == [ONE, ONE]
  {
    hide *;
    BaseSpliced(r);
    BaseScanned(r);
    BaseSize(r);
    BothRead(r);
    BaseReference(r);
    BaseReady(r);
    var src, all, at := Base(r), Both(r), |Base(r)|;
    NamedFirst(r);
    BothScanned(r, src, all, Scanned(r), MoofAt(r) + 96);
    var first, s := MoofAt(r) + 96, BehindBoth(Scanned(r), MoofAt(r) + 96, |Base(r)|);
    NextAdds(src, all);
    NextContinues(src, all);
    NextFragmentPresented(src, all, NextPrft(at), NextMoof(at), NextMdat(at));
    ReadyBehind(r, Scanned(r), first, at);
    SamePlace(src, all, PrftBox(r));
    NextPlaced(all, at);
    TwoTellable(r, all, s, first, at, PrftBox(r));
    MovieIs(all, s);
    SamplesTwo(first, at);
    TracksBehindBoth(Scanned(r), first, at);
    assert [PrftBox(r)] + [NextPrft(at)] == [PrftBox(r), NextPrft(at)];
  }

  lemma TracksBehindBoth(s: Scan, first: int, at: nat)
    ensures BehindBoth(s, first, at).tracks == map[1 := SeenTwo(first, at)]
  {
    hide SeenTwo;
  }

  lemma NextPlaced(all: bytes, at: nat)
    requires |all| == at + 132
    ensures IsBox(all, NextPrft(at))
  {
  }

  lemma ReadyBehind(r: Recipe, s: Scan, first: int, at: nat)
    requires s.moov.Some? && 144 <= s.moov.value.size <= 212 && s.metadata == Emit(MoovKids(r)) && s.defaults == HeaderMap(true)
    requires 200 <= first <= 800 && 200 <= at <= 800
    ensures ReadyTwo(r, BehindBoth(s, first, at), first, at)
  {
    hide Emit, MoovKids, HeaderMap, SeenTwo;
  }

  /** The movie has the tracks of the scan. */
  lemma MovieIs(src: bytes, s: Scan)
    requires ScansTo(src, s)
    ensures ScanFrom(src, 0, START) == Going(s)
    ensures Normalize(src).Spliced? ==> Normalize(src).movie.tracks == s.tracks
  {
    hide ScanFrom, Splice, FinishMovie;
    if Normalize(src).Spliced? {
      SplicedFacts(src);
      FinishFacts(src, s);
    }
  }
}
