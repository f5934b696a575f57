/** The small recordings as files: what the scan makes of them, and the movie it ends with. */
module SpecimenScan {
  import opened Bytes
  import opened Options
  import opened Boxes
  import opened Tracks
  import opened Samples
  import opened Fragments
  import opened Agreement
  import opened FlatScan
  import opened ScanLemmas
  import opened FlatMovie
  import opened FirstFragments
  import opened SpecimenParts

  function Data(r: Recipe): bytes { if r.shape == OneRun then [1, 2, 3, 4] else [1, 2, 3, 4, 5, 6, 7, 8] }

  function Parts(r: Recipe): seq<Child> {
    if r.early then [Child(FTYP, []), Child(PRFT, PRFT_BODY), Child(MOOV, Emit(MoovKids(r))), Child(MOOF, Emit(MoofKids(r.shape))), Child(MDAT, Data(r))]
    else [Child(FTYP, []), Child(MOOV, Emit(MoovKids(r))), Child(PRFT, PRFT_BODY), Child(MOOF, Emit(MoofKids(r.shape))), Child(MDAT, Data(r))]
  }

  function Source(r: Recipe): bytes { Emit(Parts(r)) }

  function MoovSize(r: Recipe): nat { 8 + |Emit(MoovKids(r))| }
  function MoofSize(r: Recipe): nat { 8 + |Emit(MoofKids(r.shape))| }
  function MoovAt(r: Recipe): nat { if r.early then 40 else 8 }
  function PrftAt(r: Recipe): nat { if r.early then 8 else 8 + MoovSize(r) }
  function MoofAt(r: Recipe): nat { 40 + MoovSize(r) }
  function MdatAt(r: Recipe): nat { MoofAt(r) + MoofSize(r) }
  function FileSize(r: Recipe): nat { MdatAt(r) + 8 + |Data(r)| }

  function MoovBox(r: Recipe): Box { Box(MoovAt(r), MoovSize(r), 8, MOOV) }
  function PrftBox(r: Recipe): Box { Box(PrftAt(r), 32, 8, PRFT) }
  function MoofBox(r: Recipe): Box { Box(MoofAt(r), MoofSize(r), 8, MOOF) }
  function MdatBox(r: Recipe): Box { Box(MdatAt(r), 8 + |Data(r)|, 8, MDAT) }

  lemma Places(r: Recipe)
    ensures 144 <= MoovSize(r) <= 212 && 184 <= MoofAt(r) <= 252 && FileSize(r) <= 420
    ensures MoofSize(r) == if r.shape == OneRun then 88 else if r.shape == TwoTrafs then 152 else 128
  {
    hide Emit, TotalSize, MoovKids, MoofKids;
    HeaderSizes(r);
    MoofSizes(r.shape);
  }

  lemma BoxAt(data: bytes, pos: nat, rest: seq<Child>)
    requires rest != [] && pos <= |data| && data[pos..] == Emit(rest) && TotalSize(rest) <= 1000
    ensures var n := 8 + |rest[0].body|;
            && pos + n <= |data|
            && ReadBox(data, pos, |data|) == Found(Box(pos, n, 8, rest[0].kind))
            && Payload(data, Box(pos, n, 8, rest[0].kind)) == Some(rest[0].body)
            && data[pos + n..] == Emit(rest[1..])
  {
    hide EmitBox, Emit;
    EmitHead(data, pos, rest);
    ChildFits(rest, 0);
    ReadEmitted(data, pos, |data|, rest[0].kind, rest[0].body);
  }

  /** Where the third box starts. */
  function ThirdAt(r: Recipe): nat { if r.early then MoovAt(r) else PrftAt(r) }

  predicate BoxesRead(r: Recipe, src: bytes) {
    && |src| == FileSize(r)
    && ReadBox(src, 0, |src|) == Found(Box(0, 8, 8, FTYP))
    && ReadBox(src, MoovAt(r), |src|) == Found(MoovBox(r)) && Payload(src, MoovBox(r)) == Some(Emit(MoovKids(r)))
    && ReadBox(src, PrftAt(r), |src|) == Found(PrftBox(r)) && Payload(src, PrftBox(r)) == Some(PRFT_BODY)
    && ReadBox(src, MoofAt(r), |src|) == Found(MoofBox(r)) && Payload(src, MoofBox(r)) == Some(Emit(MoofKids(r.shape)))
    && ReadBox(src, MdatAt(r), |src|) == Found(MdatBox(r))
  }

  lemma KnownBoxes(r: Recipe)
    ensures BoxesRead(r, Source(r))
  {
    hide Emit, TotalSize, ReadBox, Payload, MoovKids, MoofKids;
    var p, src := Parts(r), Source(r);
    assert p[1..][1..] == p[2..] && p[2..][1..] == p[3..] && p[3..][1..] == p[4..] && p[4..][1..] == [];
    TailSizes(r);
    Places(r);
    assert src[0..] == src;
    BoxAt(src, 0, p);
    BoxAt(src, 8, p[1..]);
    BoxAt(src, ThirdAt(r), p[2..]);
    BoxAt(src, MoofAt(r), p[3..]);
    BoxAt(src, MdatAt(r), p[4..]);
  }

  lemma TailSizes(r: Recipe)
    ensures TotalSize(Parts(r)) == FileSize(r) && TotalSize(Parts(r)[1..]) == FileSize(r) - 8
    ensures TotalSize(Parts(r)[2..]) == FileSize(r) - ThirdAt(r) && TotalSize(Parts(r)[3..]) == FileSize(r) - MoofAt(r)
    ensures TotalSize(Parts(r)[4..]) == FileSize(r) - MdatAt(r)
  {
    hide Emit, MoovKids, MoofKids, TotalSize;
    var p := Parts(r);
    assert p[1..][1..] == p[2..] && p[2..][1..] == p[3..] && p[3..][1..] == p[4..] && p[4..] == [p[4]];
    Sized1(p[4]);
    SizedHead(p[3..]);
    SizedHead(p[2..]);
    SizedHead(p[1..]);
    SizedHead(p);
  }

  lemma SizedHead(cs: seq<Child>)
    requires cs != []
    ensures TotalSize(cs) == 8 + |cs[0].body| + TotalSize(cs[1..])
  {
  }

  // ---------- the scan ----------

  function PiecesIn(r: Recipe): seq<Piece> {
    var at := MoofAt(r);
    match r.shape
    case OneRun => [Piece(1, at + 96, [ONE])]
    case TwoTrafs => [Piece(1, at + 160, [ONE]), Piece(1, at + 164, [ONE])]
    case LateClock => LatePieces(at)
  }

  /** Its clock is that of the last run of the first fragment. */
  function Seen(r: Recipe): FlatTrack {
    var first := if r.shape == TwoTrafs then START_TIME + 1000 else START_TIME;
    FlatTrack(Header(r.table), PiecesIn(r), first, first + 1000, first, first + 1000)
  }

  function BeforeMoov(r: Recipe): Scan { if r.early then START.(references := [PrftBox(r)]) else START }

  function AfterMoov(r: Recipe): Scan {
    BeforeMoov(r).(moov := Some(MoovBox(r)), metadata := Emit(MoovKids(r)), defaults := HeaderMap(r.table), tracks := map[1 := NewTrack(Header(r.table))])
  }

  function AfterPrft(r: Recipe): Scan { AfterMoov(r).(references := [PrftBox(r)]) }

  /** What the scan knows before the producer reference. */
  function BeforePrft(r: Recipe): Scan { if r.early then START else AfterMoov(r) }

  function BehindPrft(r: Recipe): Scan { if r.early then BeforeMoov(r) else AfterPrft(r) }

  function AfterMoof(r: Recipe): Scan {
    AfterPrft(r).(tracks := map[1 := Seen(r)], pending := RunsOfShape(r.shape, MoofAt(r)), sequence := 1, haveFragment := true)
  }

  function Scanned(r: Recipe): Scan { AfterMoof(r).(pending := []) }

  lemma MoovStep(r: Recipe, src: bytes)
    requires BoxesRead(r, src)
    ensures StepBox(src, BeforeMoov(r), MoovBox(r)) == Going(AfterMoov(r))
  {
    hide Emit, ReadTracks, Payload, StepMoof, StepMdat, ReadBox, MoovKids, MoofKids;
    ReadMovieHeader(r);
    var tracks := HeaderMap(r.table);
    assert (map id | id in tracks :: NewTrack(tracks[id])) == map[1 := NewTrack(Header(r.table))];
  }

  lemma RunsApplied(r: Recipe)
    ensures var tracks: map<u32, FlatTrack> := map[1 := NewTrack(Header(r.table))];
            ApplyRuns(tracks, RunsOfShape(r.shape, MoofAt(r))) == Some(map[1 := Seen(r).(pieces := [])])
  {
    hide MoofAt, Header;
    var tracks: map<u32, FlatTrack> := map[1 := NewTrack(Header(r.table))];
    var runs := RunsOfShape(r.shape, MoofAt(r));
    assert runs[..1][..0] == [] && ApplyRuns(tracks, []) == Some(tracks);
    assert ApplyRuns(tracks, runs[..1]) == ApplyRun(tracks, runs[0]);
    if r.shape == TwoTrafs {
      assert runs[..2] == runs && runs[..2][..1] == runs[..1];
      var first := ApplyRun(tracks, runs[0]).value;
      assert first[1].pieces == [];
      assert ApplyRun(first, runs[1]).value == map[1 := Seen(r).(pieces := [])];
    } else {
      assert runs[..1] == runs;
      assert ApplyRun(tracks, runs[0]).value == map[1 := Seen(r).(pieces := [])];
    }
  }

  lemma PiecesFlat(r: Recipe)
    ensures Flatten(PiecesOfShape(r.shape, MoofAt(r))) == PiecesIn(r)
  {
    hide MoofAt;
    var pss := PiecesOfShape(r.shape, MoofAt(r));
    assert pss[..1][..0] == [] && Flatten(pss[..1]) == [] + pss[0] && [] + pss[0] == pss[0];
    if r.shape == TwoTrafs { assert pss[..2] == pss && pss[..2][..1] == pss[..1]; } else { assert pss[..1] == pss; }
  }

  lemma OnlyTrack(t: FlatTrack, ps: seq<Piece>, id: u32)
    requires forall p | p in ps :: p.track == id
    ensures var moved: map<u32, FlatTrack> := map[id := t.(pieces := [])];
            ApplyPieces(moved, ps) == map[id := t.(pieces := ps)]
  {
    hide PiecesFor;
    var moved: map<u32, FlatTrack> := map[id := t.(pieces := [])];
    PiecesOfOneTrack(ps, id, id);
    assert [] + ps == ps;
    assert ApplyPieces(moved, ps)[id] == t.(pieces := ps);
  }

  lemma PiecesCome(r: Recipe)
    ensures var moved: map<u32, FlatTrack> := map[1 := Seen(r).(pieces := [])];
            ApplyPieces(moved, Flatten(PiecesOfShape(r.shape, MoofAt(r)))) == map[1 := Seen(r)]
  {
    hide MoofAt, Header, Flatten, PiecesOfShape, ApplyPieces;
    PiecesFlat(r);
    OnlyTrack(Seen(r), PiecesIn(r), 1);
  }

  lemma MoofStep(r: Recipe, src: bytes)
    requires BoxesRead(r, src)
    ensures StepBox(src, AfterPrft(r), MoofBox(r)) == Going(AfterMoof(r))
  {
    hide Emit, Children, Payload, Fragments.ReadRuns, ReadSamples, KnownClocks, MoofStart, ApplyRuns, ApplyPieces, Flatten, StepMoov, StepMdat,
         ReadBox, MoovKids, MoofKids, Seen, RunsOfShape, PiecesOfShape;
    Places(r);
    FragmentWalks(r.shape);
    ClocksKnown(r);
    Clocked(r);
    MoofRead(r, MoofAt(r));
    RunsApplied(r);
    PiecesCome(r);
    SomeRuns(r);
  }

  lemma SomeRuns(r: Recipe)
    ensures RunsOfShape(r.shape, MoofAt(r)) != [] && FIRST_SECOND >= EPOCH_2000 as real
  {
  }

  lemma MdatStep(r: Recipe, src: bytes)
    requires BoxesRead(r, src)
    ensures StepBox(src, AfterMoof(r), MdatBox(r)) == Going(Scanned(r))
  {
    hide Emit, Payload, ReadBox, MoovKids, MoofKids, StepMoov, StepMoof, Seen, MoovSize;
    Places(r);
    SomeRuns(r);
  }

  lemma PlainSteps(r: Recipe, src: bytes)
    requires BoxesRead(r, src)
    ensures StepBox(src, START, Box(0, 8, 8, FTYP)) == Going(START)
    ensures StepBox(src, BeforePrft(r), PrftBox(r)) == Going(BehindPrft(r))
  {
    hide Emit, StepMoov, StepMoof, StepMdat, Payload, ReadBox, MoovKids, MoofKids;
  }

  /** One step of the scan. */
  lemma ScanOne(src: bytes, pos: nat, s: Scan, b: Box, s': Scan, end: Scan)
    requires pos < |src| && ReadBox(src, pos, |src|) == Found(b) && StepBox(src, s, b) == Going(s')
    requires ScanFrom(src, pos + b.size, s') == Going(end)
    ensures ScanFrom(src, pos, s) == Going(end)
  {
    hide ReadBox, StepBox;
  }

  lemma ScanEnds(src: bytes, s: Scan)
    ensures ScanFrom(src, |src|, s) == Going(s) && OrderlyFrom(src, |src|, s) && ClocksFirstFrom(src, |src|)
  {
  }

  lemma AllSteps(r: Recipe, src: bytes)
    requires BoxesRead(r, src)
    ensures MdatAt(r) < |src| == MdatAt(r) + MdatBox(r).size
    ensures StepBox(src, START, Box(0, 8, 8, FTYP)) == Going(START)
    ensures StepBox(src, BeforeMoov(r), MoovBox(r)) == Going(AfterMoov(r))
    ensures StepBox(src, BeforePrft(r), PrftBox(r)) == Going(BehindPrft(r))
    ensures StepBox(src, AfterPrft(r), MoofBox(r)) == Going(AfterMoof(r))
    ensures r.early ==> AfterMoov(r) == AfterPrft(r)
    ensures StepBox(src, AfterMoof(r), MdatBox(r)) == Going(Scanned(r))
  {
    hide Emit, ReadBox, Payload, StepBox, AfterMoov, AfterPrft, AfterMoof, BeforeMoov, BeforePrft, BehindPrft, Scanned, MoovKids, MoofKids;
    SameState(r);
    MoovStep(r, src);
    MoofStep(r, src);
    MdatStep(r, src);
    PlainSteps(r, src);
  }

  lemma SameState(r: Recipe)
    ensures r.early ==> AfterMoov(r) == AfterPrft(r)
  {
  }

  lemma SpecimenScanned(r: Recipe, src: bytes)
    requires BoxesRead(r, src)
    ensures ScanFrom(src, 0, START) == Going(Scanned(r))
  {
    hide Emit, ReadBox, Payload, StepBox, AfterMoov, AfterPrft, AfterMoof, Scanned, ScanFrom, OrderlyFrom, ClocksFirstFrom, MoovKids, MoofKids;
    AllSteps(r, src);
    ScanEnds(src, Scanned(r));
    Places(r);
    ScanOne(src, MdatAt(r), AfterMoof(r), MdatBox(r), Scanned(r), Scanned(r));
    ScanOne(src, MoofAt(r), AfterPrft(r), MoofBox(r), AfterMoof(r), Scanned(r));
    if r.early {
      ScanOne(src, MoovAt(r), BeforeMoov(r), MoovBox(r), AfterMoov(r), Scanned(r));
      ScanOne(src, 8, START, PrftBox(r), BeforeMoov(r), Scanned(r));
    } else {
      ScanOne(src, PrftAt(r), AfterMoov(r), PrftBox(r), AfterPrft(r), Scanned(r));
      ScanOne(src, 8, START, MoovBox(r), AfterMoov(r), Scanned(r));
    }
    ScanOne(src, 0, START, Box(0, 8, 8, FTYP), START, Scanned(r));
  }

  // ---------- order ----------

  lemma OrderOne(src: bytes, pos: nat, s: Scan, b: Box, s': Scan)
    requires pos < |src| && ReadBox(src, pos, |src|) == Found(b) && StepBox(src, s, b) == Going(s')
    requires OrderlyFrom(src, pos + b.size, s')
    requires b.kind == MOOF && Payload(src, b).Some? ==> OrderlyMoof(Payload(src, b).value, s, pos)
    ensures OrderlyFrom(src, pos, s)
  {
    hide ReadBox, StepBox, OrderlyMoof, Payload;
  }

  lemma PlainMoofOrderly(r: Recipe)
    requires r.shape == OneRun
    ensures OrderlyMoof(Emit(MoofKids(r.shape)), AfterPrft(r), MoofAt(r))
  {
    hide Emit, Children, MoofClocksFirst, Fragments.ReadRuns, MoovKids, MoofKids;
    Places(r);
    FragmentWalks(r.shape);
    ClocksKnown(r);
    MoofRead(r, MoofAt(r));
  }

  lemma SpecimenOrderly(r: Recipe, src: bytes)
    requires BoxesRead(r, src) && r.shape == OneRun
    ensures OrderlyFrom(src, 0, START)
  {
    hide Emit, ReadBox, Payload, StepBox, AfterMoov, AfterPrft, AfterMoof, Scanned, ScanFrom, OrderlyFrom, ClocksFirstFrom, OrderlyMoof,
         MoovKids, MoofKids;
    AllSteps(r, src);
    PlainMoofOrderly(r);
    ScanEnds(src, Scanned(r));
    Places(r);
    OrderOne(src, MdatAt(r), AfterMoof(r), MdatBox(r), Scanned(r));
    OrderOne(src, MoofAt(r), AfterPrft(r), MoofBox(r), AfterMoof(r));
    if r.early {
      OrderOne(src, MoovAt(r), BeforeMoov(r), MoovBox(r), AfterMoov(r));
      OrderOne(src, 8, START, PrftBox(r), BeforeMoov(r));
    } else {
      OrderOne(src, PrftAt(r), AfterMoov(r), PrftBox(r), AfterPrft(r));
      OrderOne(src, 8, START, MoovBox(r), AfterMoov(r));
    }
    OrderOne(src, 0, START, Box(0, 8, 8, FTYP), START);
  }

  lemma ClocksOne(src: bytes, pos: nat, b: Box)
    requires pos < |src| && ReadBox(src, pos, |src|) == Found(b) && ClocksFirstFrom(src, pos + b.size)
    requires b.kind == MOOF && Children(Body(src, b)).Some? ==> MoofClocksFirst(Children(Body(src, b)).value)
    ensures ClocksFirstFrom(src, pos)
  {
    hide ReadBox, MoofClocksFirst, ChildrenFrom;
  }

  lemma MoofBodyOf(r: Recipe, src: bytes)
    requires BoxesRead(r, src) && r.shape != LateClock
    ensures MoofAt(r) + MoofSize(r) <= |src| && Children(Body(src, MoofBox(r))).Some?
    ensures MoofClocksFirst(Children(Body(src, MoofBox(r))).value)
  {
    hide Emit, ReadBox, MoofClocksFirst, ChildrenFrom, MoovKids, MoofKids, KnownClocks, TrafKids, LateKids;
    FragmentWalks(r.shape);
    ClocksKnown(r);
  }

  lemma SpecimenClocksFirst(r: Recipe, src: bytes)
    requires BoxesRead(r, src) && r.shape != LateClock
    ensures ClocksFirstFrom(src, 0)
  {
    hide Emit, ReadBox, ScanFrom, OrderlyFrom, ClocksFirstFrom, MoofClocksFirst, ChildrenFrom, MoovKids, MoofKids, Payload;
    ScanEnds(src, START);
    Places(r);
    MoofBodyOf(r, src);
    ClocksOne(src, MdatAt(r), MdatBox(r));
    ClocksOne(src, MoofAt(r), MoofBox(r));
    if r.early {
      ClocksOne(src, MoovAt(r), MoovBox(r));
      ClocksOne(src, 8, PrftBox(r));
    } else {
      ClocksOne(src, PrftAt(r), PrftBox(r));
      ClocksOne(src, 8, MoovBox(r));
    }
    ClocksOne(src, 0, Box(0, 8, 8, FTYP));
  }

  // ---------- the movie ----------

  function ThePlan(r: Recipe): Plan { PlanOf(Seen(r), StartOf(Seen(r))) }

  function TheReference(r: Recipe): Child {
    Child(PRFT, PRFT_BODY[..16] + Enc64(START_TIME + 1000 - Seen(r).firstDTS) + PRFT_BODY[24..])
  }

  function TheMovie(r: Recipe): Movie {
    Movie(MoovBox(r), Emit(MoovKids(r)), map[1 := Seen(r)], map[1 := ThePlan(r)], [TheReference(r)], ThePlan(r).duration)
  }

  lemma SeenFacts(r: Recipe)
    ensures var t := Seen(r); t.info == Header(r.table) && t.pieces != [] && t.info.scale == 1000 && t.minPTS == t.firstDTS
    ensures ThePlan(r).shift == 0 && ThePlan(r).delay == 0
  {
    assert Ceil(0.0) == 0;
    assert StartOf(Seen(r)) - StartOf(Seen(r)) == 0.0;
    assert 0.0 * MOVIE_SCALE as real == 0.0;
  }

  lemma Planned(r: Recipe)
    ensures var tracks: map<u32, FlatTrack> := map[1 := Seen(r)];
            && Scaled(tracks) && (exists id | id in tracks :: tracks[id].pieces != [])
            && Origin(tracks) == StartOf(Seen(r)) && PlansFrom(tracks, Origin(tracks)) == map[1 := ThePlan(r)]
            && PlansFit(map[1 := ThePlan(r)]) && Longest(map[1 := ThePlan(r)]) == ThePlan(r).duration
  {
    SeenFacts(r);
    hide Seen, ThePlan, StartOf, PlanOf, Header;
    var tracks: map<u32, FlatTrack> := map[1 := Seen(r)];
    assert tracks[1].pieces != [];
    var plans: map<u32, Plan> := map[1 := ThePlan(r)];
    var o := StartOf(Seen(r));
    assert IsOrigin(tracks, o);
    OriginUnique(tracks, o, Origin(tracks));
    PlanNamed(r);
    assert plans[1].delay + plans[1].duration == ThePlan(r).duration;
    assert IsLongest(plans, ThePlan(r).duration);
    LongestUnique(plans, ThePlan(r).duration, Longest(plans));
  }

  lemma PlanNamed(r: Recipe)
    ensures Seen(r).info.scale == 1000 && PlanOf(Seen(r), StartOf(Seen(r))) == ThePlan(r)
  {
  }

  lemma OneReference(r: Recipe, src: bytes)
    requires BoxesRead(r, src)
    ensures ReadReferences(src, [PrftBox(r)], HeaderMap(r.table)) == Some([Reference(1, START_TIME + 1000, PRFT_BODY)])
  {
    hide Emit, Payload, ReadBox, U32, U64, MoovKids, MoofKids;
    FragmentFields(1, 0);
    var b, e := PrftBox(r), Reference(1, START_TIME + 1000, PRFT_BODY);
    assert [b][..0] == [];
    assert ReadReferences(src, [], HeaderMap(r.table)) == Some([]);
    assert ReadReference(PRFT_BODY, HeaderMap(r.table)) == Some(e);
    assert ReadReferences(src, [b], HeaderMap(r.table)) == Some([] + [e]) && [] + [e] == [e];
  }

  lemma Referenced(r: Recipe)
    ensures RewriteReferences([Reference(1, START_TIME + 1000, PRFT_BODY)], map[1 := Seen(r)], map[1 := ThePlan(r)]) == Some([TheReference(r)])
  {
    hide Emit, U32, U64, Enc64, ThePlan;
    SeenFacts(r);
    var e := Reference(1, START_TIME + 1000, PRFT_BODY);
    var tracks: map<u32, FlatTrack> := map[1 := Seen(r)];
    var plans: map<u32, Plan> := map[1 := ThePlan(r)];
    var c := TheReference(r);
    assert [e][..0] == [] && RewriteReferences([], tracks, plans) == Some([]);
    assert RewriteReference(e, tracks, plans) == Some(c);
    Sized1(c);
    assert [] + [c] == [c];
    assert RewriteReferences([e], tracks, plans) == Some([] + [c]);
  }

  lemma Finished(r: Recipe, src: bytes)
    requires BoxesRead(r, src)
    ensures FinishMovie(src, Scanned(r)) == Flat(TheMovie(r))
  {
    hide Emit, ReadReferences, RewriteReferences, Origin, Longest, PlansFrom, PlansFit, Seen, ThePlan, TheReference, MoovKids, MoofKids, ReadBox, Payload;
    Planned(r);
    OneReference(r, src);
    Referenced(r);
  }
}
