/**
 Small recordings: one video track and one fragment, in the variants the theorems
 about the virtual file tell apart, and what the parsers read of them.
 */
module SpecimenParts {
  import opened Bytes
  import opened Options
  import opened Boxes
  import opened Tracks
  import opened Samples
  import opened Fragments
  import opened Agreement
  import opened FlatScan

  /** How the fragment comes: one run; two traf boxes of the same track, one after the other in time; or a traf box with a tfdt behind its first run. */
  datatype Shape = OneRun | TwoTrafs | LateClock

  /** With or without an mvhd box, with or without a minf box in the track, and with the producer reference behind or ahead of the movie header. */
  datatype Recipe = Recipe(clock: bool, table: bool, early: bool, shape: Shape)

  const MVHD_BODY: bytes := [0, 0, 0, 0, 0, 0, 0, 0, 0, 0, 0, 0, 0, 0, 3, 0xe8, 0, 0, 0, 0]
  const STSD_BODY: bytes := [0, 0, 0, 0, 0, 0, 0, 1, 0, 0, 0, 0, 0x61, 0x76, 0x63, 0x31]
  const HDLR_BODY: bytes := [0, 0, 0, 0, 0, 0, 0, 0, 0x76, 0x69, 0x64, 0x65]
  const MDHD_BODY: bytes := [0, 0, 0, 0, 0, 0, 0, 0, 0, 0, 0, 0, 0, 0, 3, 0xe8, 0, 0, 0, 0]
  const PRFT_BODY: bytes := [1, 0, 0, 0, 0, 0, 0, 1, 0xbf, 0x45, 0x48, 0x80, 0, 0, 0, 0, 0, 0, 0, 0xe8, 0xd4, 0xa5, 0x13, 0xe8]
  const MFHD_BODY: bytes := [0, 0, 0, 0, 0, 0, 0, 1]
  const TFDT_BODY: bytes := [1, 0, 0, 0, 0, 0, 0, 0xe8, 0xd4, 0xa5, 0x10, 0]
  const NEXT_BODY: bytes := [1, 0, 0, 0, 0, 0, 0, 0xe8, 0xd4, 0xa5, 0x13, 0xe8]
  const AVC1: bytes := [0x61, 0x76, 0x63, 0x31]

  const START_TIME: int := 1_000_000_000_000

  function TkhdBody(id: byte): (r: bytes)
    ensures |r| == 24 && r[0] == 0
  {
    [0, 0, 0, 0, 0, 0, 0, 0, 0, 0, 0, 0, 0, 0, 0, id, 0, 0, 0, 0, 0, 0, 0, 0]
  }

  function TrexBody(id: byte): (r: bytes)
    ensures |r| == 24 && r[0] == 0
  {
    [0, 0, 0, 0, 0, 0, 0, id, 0, 0, 0, 1, 0, 0, 3, 0xe8, 0, 0, 0, 4, 0, 0, 0, 0]
  }

  function TfhdBody(id: byte): (r: bytes)
    ensures |r| == 8 && r[0] == 0
  {
    [0, 2, 0, 0, 0, 0, 0, id]
  }

  function TrunBody(offset: byte): (r: bytes)
    ensures |r| == 12 && r[0] == 0
  {
    [0, 0, 0, 1, 0, 0, 0, 1, 0, 0, 0, offset]
  }

  function StblKids(): seq<Child> { [Child(STSD, STSD_BODY)] }
  function MinfKids(): seq<Child> { [Child(STBL, Emit(StblKids()))] }
  function MdiaKids(table: bool): seq<Child> {
    if table then [Child(MDHD, MDHD_BODY), Child(HDLR, HDLR_BODY), Child(MINF, Emit(MinfKids()))]
    else [Child(MDHD, MDHD_BODY), Child(HDLR, HDLR_BODY)]
  }
  function TrakKids(table: bool, id: byte): seq<Child> { [Child(TKHD, TkhdBody(id)), Child(MDIA, Emit(MdiaKids(table)))] }
  function MvexKids(): seq<Child> { [Child(TREX, TrexBody(1))] }
  function MoovKids(r: Recipe): seq<Child> {
    if r.clock then [Child(MVHD, MVHD_BODY), Child(TRAK, Emit(TrakKids(r.table, 1))), Child(MVEX, Emit(MvexKids()))]
    else [Child(TRAK, Emit(TrakKids(r.table, 1))), Child(MVEX, Emit(MvexKids()))]
  }
  function TrafKids(id: byte, clock: bytes, offset: byte): seq<Child> {
    [Child(TFHD, TfhdBody(id)), Child(TFDT, clock), Child(TRUN, TrunBody(offset))]
  }
  function LateKids(): seq<Child> {
    [Child(TFHD, TfhdBody(1)), Child(TFDT, TFDT_BODY), Child(TRUN, TrunBody(136)), Child(TFDT, TFDT_BODY), Child(TRUN, TrunBody(140))]
  }
  function MoofKids(shape: Shape): seq<Child> {
    match shape
    case OneRun => [Child(MFHD, MFHD_BODY), Child(TRAF, Emit(TrafKids(1, TFDT_BODY, 96)))]
    case TwoTrafs => [Child(MFHD, MFHD_BODY), Child(TRAF, Emit(TrafKids(1, TFDT_BODY, 160))), Child(TRAF, Emit(TrafKids(1, NEXT_BODY, 164)))]
    case LateClock => [Child(MFHD, MFHD_BODY), Child(TRAF, Emit(LateKids()))]
  }

  function HeaderOf(table: bool, id: byte): Track { Track(id, 1000, 1000, 4, 0, true, if table then AVC1 else []) }

  function Header(table: bool): Track { HeaderOf(table, 1) }

  function HeaderMap(table: bool): map<u32, Track> { map[1 := Header(table)] }

  // ---------- sizes and walks ----------

  lemma Sized1(a: Child)
    ensures TotalSize([a]) == 8 + |a.body|
  {
  }

  lemma Sized2(a: Child, b: Child)
    ensures TotalSize([a, b]) == 16 + |a.body| + |b.body|
  {
    assert [a, b][1..] == [b];
    Sized1(b);
  }

  lemma Sized3(a: Child, b: Child, c: Child)
    ensures TotalSize([a, b, c]) == 24 + |a.body| + |b.body| + |c.body|
  {
    assert [a, b, c][1..] == [b, c];
    Sized2(b, c);
  }

  lemma Sized5(a: Child, b: Child, c: Child, d: Child, e: Child)
    ensures TotalSize([a, b, c, d, e]) == 40 + |a.body| + |b.body| + |c.body| + |d.body| + |e.body|
  {
    EmitConcat([a, b], [c, d, e]);
    assert [a, b] + [c, d, e] == [a, b, c, d, e];
    Sized2(a, b);
    Sized3(c, d, e);
  }

  lemma TrakSizes(table: bool, id: byte)
    ensures TotalSize(StblKids()) == 24 && TotalSize(MinfKids()) == 32
    ensures TotalSize(MdiaKids(table)) == (if table then 88 else 48) && TotalSize(TrakKids(table, id)) == if table then 128 else 88
  {
    Sized1(StblKids()[0]);
    Sized1(MinfKids()[0]);
    var d, t := MdiaKids(table), TrakKids(table, id);
    if table { Sized3(d[0], d[1], d[2]); } else { Sized2(d[0], d[1]); }
    Sized2(t[0], t[1]);
  }

  lemma HeaderSizes(r: Recipe)
    ensures TotalSize(MvexKids()) == 32
    ensures TotalSize(MoovKids(r)) == (if r.table then 176 else 136) + (if r.clock then 28 else 0)
  {
    TrakSizes(r.table, 1);
    Sized1(MvexKids()[0]);
    var m := MoovKids(r);
    if r.clock { Sized3(m[0], m[1], m[2]); } else { Sized2(m[0], m[1]); }
  }

  lemma FragmentSizes(id: byte, clock: bytes, offset: byte)
    requires |clock| == 12
    ensures TotalSize(TrafKids(id, clock, offset)) == 56 && TotalSize(LateKids()) == 96
  {
    var t, l := TrafKids(id, clock, offset), LateKids();
    Sized3(t[0], t[1], t[2]);
    Sized5(l[0], l[1], l[2], l[3], l[4]);
  }

  lemma MoofSizes(shape: Shape)
    ensures TotalSize(MoofKids(shape)) == if shape == OneRun then 80 else if shape == TwoTrafs then 144 else 120
  {
    FragmentSizes(1, TFDT_BODY, 96);
    FragmentSizes(1, TFDT_BODY, 160);
    FragmentSizes(1, NEXT_BODY, 164);
    var m := MoofKids(shape);
    if shape == TwoTrafs { Sized3(m[0], m[1], m[2]); } else { Sized2(m[0], m[1]); }
  }

  lemma TrakWalks(table: bool, id: byte)
    ensures Children(Emit(StblKids())) == Some(StblKids()) && Children(Emit(MinfKids())) == Some(MinfKids())
    ensures Children(Emit(MdiaKids(table))) == Some(MdiaKids(table)) && Children(Emit(TrakKids(table, id))) == Some(TrakKids(table, id))
  {
    hide Emit, TotalSize, Children, StblKids, MinfKids, MdiaKids, TrakKids;
    TrakSizes(table, id);
    EmitThenWalk(StblKids());
    EmitThenWalk(MinfKids());
    EmitThenWalk(MdiaKids(table));
    EmitThenWalk(TrakKids(table, id));
  }

  lemma HeaderWalks(r: Recipe)
    ensures Children(Emit(MvexKids())) == Some(MvexKids()) && Children(Emit(MoovKids(r))) == Some(MoovKids(r))
  {
    hide Emit, TotalSize, Children, MvexKids, MoovKids;
    HeaderSizes(r);
    EmitThenWalk(MvexKids());
    EmitThenWalk(MoovKids(r));
  }

  lemma TrafWalks(id: byte, clock: bytes, offset: byte)
    requires |clock| == 12
    ensures Children(Emit(TrafKids(id, clock, offset))) == Some(TrafKids(id, clock, offset))
  {
    hide Emit, TotalSize, Children, TrafKids;
    FragmentSizes(id, clock, offset);
    EmitThenWalk(TrafKids(id, clock, offset));
  }

  lemma FragmentWalks(shape: Shape)
    ensures Children(Emit(LateKids())) == Some(LateKids()) && Children(Emit(MoofKids(shape))) == Some(MoofKids(shape))
  {
    hide Emit, TotalSize, Children, TrafKids, LateKids, MoofKids;
    FragmentSizes(1, TFDT_BODY, 0);
    MoofSizes(shape);
    EmitThenWalk(LateKids());
    EmitThenWalk(MoofKids(shape));
  }

  // ---------- the movie header ----------

  lemma Fields(id: byte)
    ensures U32(STSD_BODY, 4) == 1 && U32(HDLR_BODY, 8) == VIDE && U32(MDHD_BODY, 12) == 1000 && U32(TkhdBody(id), 12) == id
    ensures U32(TrexBody(id), 4) == id && U32(TrexBody(id), 12) == 1000 && U32(TrexBody(id), 16) == 4 && U32(TrexBody(id), 20) == 0
    ensures STSD_BODY[12..16] == AVC1
  {
    var codec := STSD_BODY[12..16];
    assert codec[0] == 0x61 && codec[1] == 0x76 && codec[2] == 0x63 && codec[3] == 0x31;
  }

  lemma ReadHeader(table: bool, id: byte)
    requires id > 0
    ensures ReadTrak(Emit(TrakKids(table, id))) == Some(Track(id, 1000, 0, 0, 0, true, if table then AVC1 else []))
  {
    hide Emit, Children, U32;
    TrakWalks(table, id);
    Fields(id);
    var t := BLANK.(id := id);
    var c := t.(scale := 1000, video := true);
    var e := if table then c.(codec := AVC1) else c;
    assert StblKids()[1..] == [] && StblFields(StblKids(), c) == Some(c.(codec := AVC1));
    assert MinfKids()[1..] == [] && MinfFields(MinfKids(), c) == Some(c.(codec := AVC1));
    var m := MdiaKids(table);
    assert m[1..][1..] == m[2..] && m[1..][0] == m[1];
    if table { assert m[2..][1..] == [] && m[2..][0] == m[2]; } else { assert m[2..] == []; }
    assert MdiaFields(m[2..], c) == Some(e);
    assert MdiaFields(m[1..], t.(scale := 1000)) == Some(e);
    assert MdiaFields(m, t) == Some(e);
    var k := TrakKids(table, id);
    assert k[1..][1..] == [] && k[1..][0] == k[1];
    assert TrakFields(k[1..], t) == Some(e);
    assert TrakFields(k, BLANK) == Some(e);
  }

  lemma ReadMovieHeader(r: Recipe)
    ensures ReadTracks(Emit(MoovKids(r))) == Read(HeaderMap(r.table))
  {
    hide Emit, Children, U32, ReadTrak;
    HeaderWalks(r);
    Fields(1);
    ReadHeader(r.table, 1);
    var t := Track(1, 1000, 0, 0, 0, true, if r.table then AVC1 else []);
    var d: map<u32, Defaults> := map[1 := Defaults(1000, 4, 0)];
    assert MvexKids()[1..] == [] && MvexFields(MvexKids(), map[]) == Some(d);
    var tracks: map<u32, Track> := map[1 := t];
    assert Inherit(t, d) == Header(r.table);
    assert (map id | id in tracks :: Inherit(tracks[id], d)) == HeaderMap(r.table);
    assert MoovFields([], tracks, d) == Read(HeaderMap(r.table));
    var k := MoovKids(r.(clock := false));
    assert k[1..][1..] == [] && k[1..][0] == k[1];
    assert MoovFields(k[1..], tracks, map[]) == Read(HeaderMap(r.table));
    assert MoovFields(k, map[], map[]) == Read(HeaderMap(r.table));
    if r.clock { assert MoovKids(r)[1..] == k; }
  }

  // ---------- the fragment ----------

  lemma FragmentFields(id: byte, offset: byte)
    ensures U32(MFHD_BODY, 4) == 1 && U32(TfhdBody(id), 4) == id && U32(TfhdBody(id), 0) == 0x2_0000
    ensures U64(TFDT_BODY, 4) == START_TIME && U64(NEXT_BODY, 4) == START_TIME + 1000
    ensures U32(TrunBody(offset), 0) == 1 && U32(TrunBody(offset), 4) == 1 && U32(TrunBody(offset), 8) == offset
    ensures U32(PRFT_BODY, 4) == 1 && U32(PRFT_BODY, 8) == 3208988800 && U64(PRFT_BODY, 16) == START_TIME + 1000
  {
  }

  const ONE: Sample := Sample(1000, 4, 0, 0)

  /** A track of the specimens, as its runs inherit it. */
  predicate Ordinary(h: Track) { h.video && 0 < h.id < 256 && h.duration == 1000 && h.size == 4 && h.flags == 0 }

  lemma OneSample(h: Track, id: byte, offset: byte)
    requires Ordinary(h)
    ensures TrunSamples(TrunBody(offset), h) == Some([ONE]) && TrunOffset(TrunBody(offset)) == offset
    ensures TfhdDefaults(TfhdBody(id), h) == Some(h)
  {
    hide U32;
    FragmentFields(id, offset);
    var v := TrunBody(offset);
    assert FlagBits(v) == 1 && FlagBits(TfhdBody(id)) == 0x2_0000;
    assert Stride(1) == 0 && RecordAt(1, 0) == 12 && RecordAt(1, 1) == 12;
    assert SampleOf(v, 1, h, 0) == ONE;
    assert FirstSamples(v, 1, h, 0) == [];
    assert FirstSamples(v, 1, h, 1) == [ONE];
  }

  lemma OneAdded(c: Clock, h: Track)
    requires h.video && 0 <= c.decode <= START_TIME + FAR_TIME && 0 <= c.dataEnd <= 10_000
    ensures AddSamples(c, [ONE], h) == AddSample(c, ONE, h)
    ensures var rr := if c.haveSample then c.rr else c.rr.(firstPTS := c.decode, start := c.decode, end := c.decode + 1000, key := true);
            AddSample(c, ONE, h)
            == Some(Clock(rr.(start := Min(c.decode, rr.start), end := Max(c.decode + 1000, rr.end)), c.decode + 1000, c.dataEnd + 4, true))
  {
    assert [ONE][..0] == [] && AddSamples(c, [], h) == Some(c);
    assert IsSync(0);
  }

  function RunAt(id: u32, at: int, time: int, offset: int): Run {
    Run(id, time, time, time, time + 1000, time + 1000, true, [Range(at + offset, at + offset + 4)])
  }

  lemma HeaderSeen(table: bool, id: byte)
    requires id > 0
    ensures var h := HeaderOf(table, id); Ordinary(h) && h.id == id && h.scale == 1000
    ensures Header(table) == HeaderOf(table, 1)
  {
  }

  function Opened(h: Track, time: int): TrafState {
    TrafState(h, NO_RUN.(track := h.id, first := time), time, true, true, false)
  }

  /** Some track of the header. */
  predicate Knows(tracks: map<u32, Track>, h: Track) { Ordinary(h) && h.id in tracks && tracks[h.id] == h }

  /** A traf box once its tfhd and its first tfdt are read. */
  lemma TrafOpens(tracks: map<u32, Track>, h: Track, cs: seq<Child>, clock: bytes, time: int, at: int)
    requires Knows(tracks, h)
    requires |cs| >= 2 && cs[0] == Child(TFHD, TfhdBody(h.id)) && cs[1] == Child(TFDT, clock) && |clock| == 12 && BaseDecode(clock) == Some(time)
    ensures RunsTraf(cs[..2], tracks, at) == Some(Opened(h, time))
    ensures PiecesTraf(cs[..2], tracks, at) == Some(PieceState(Some(h), []))
  {
    hide U32, U64, TrunSamples, TfhdDefaults, BaseDecode;
    FragmentFields(h.id, 0);
    OneSample(h, h.id, 0);
    assert cs[..2][..1] == cs[..1] && cs[..1][..0] == [];
    var s1 := TRAF_START.(t := h, rr := NO_RUN.(track := h.id), haveHeader := true);
    assert RunsTraf(cs[..1], tracks, at) == Some(s1);
    assert PiecesTraf(cs[..1], tracks, at) == Some(PieceState(Some(h), []));
  }

  const FAR_TIME: int := 18446744073710 * 1000

  /** One more sample of a traf box, starting at the decode time reached. */
  lemma TrunRun(h: Track, st: TrafState, offset: byte, at: nat)
    requires Ordinary(h) && at <= 1000
    requires st.t == h && st.haveHeader && st.haveDecode && 0 <= st.decode <= START_TIME + FAR_TIME
    ensures var rr := if st.haveSample then st.rr else st.rr.(firstPTS := st.decode, start := st.decode, end := st.decode + 1000, key := true);
            RunsTrun(TrunBody(offset), st, at)
            == Some(st.(rr := rr.(start := Min(st.decode, rr.start), end := Max(st.decode + 1000, rr.end), decodeEnd := st.decode + 1000,
                          ranges := rr.ranges + [Range(at + offset, at + offset + 4)]),
                        decode := st.decode + 1000, haveSample := true))
  {
    hide U32, TrunSamples, AddSamples, AddSample, TrunOffset;
    OneSample(h, h.id, offset);
    OneAdded(Clock(st.rr, st.decode, at + offset, st.haveSample), h);
  }

  lemma OneTraf(tracks: map<u32, Track>, h: Track, clock: bytes, time: int, offset: byte, at: nat)
    requires Knows(tracks, h)
    requires |clock| == 12 && BaseDecode(clock) == Some(time) && time <= START_TIME + FAR_TIME && at <= 1000
    ensures TrafRun(Emit(TrafKids(h.id, clock, offset)), tracks, at) == Some(RunAt(h.id, at, time, offset))
    ensures TrafPieces(Emit(TrafKids(h.id, clock, offset)), tracks, at) == Some([Piece(h.id, at + offset, [ONE])])
  {
    hide Emit, Children, U32, U64, TrunSamples, TfhdDefaults, BaseDecode, RunsTrun, PiecesTrun, TrunBody;
    TrafWalks(h.id, clock, offset);
    FragmentFields(h.id, offset);
    OneSample(h, h.id, offset);
    var k, s2 := TrafKids(h.id, clock, offset), Opened(h, time);
    TrafOpens(tracks, h, k, clock, time, at);
    assert k[..3] == k && k[..3][..2] == k[..2];
    TrunRun(h, s2, offset, at);
    assert RunsTraf(k, tracks, at) == RunsTrun(k[2].body, s2, at);
    assert [] + [Range(at + offset, at + offset + 4)] == [Range(at + offset, at + offset + 4)];
    assert RunsTrun(k[2].body, s2, at).Some? && RunsTrun(k[2].body, s2, at).value.rr == RunAt(h.id, at, time, offset);
    TrunPiece(h, offset, at, []);
    assert PiecesTraf(k, tracks, at) == PiecesTrun(k[2].body, PieceState(Some(h), []), at);
    assert [] + [Piece(h.id, at + offset, [ONE])] == [Piece(h.id, at + offset, [ONE])];
  }

  lemma TrunPiece(h: Track, offset: byte, at: int, before: seq<Piece>)
    requires Ordinary(h)
    ensures PiecesTrun(TrunBody(offset), PieceState(Some(h), before), at) == Some(PieceState(Some(h), before + [Piece(h.id, at + offset, [ONE])]))
  {
    hide U32, TrunSamples, TrunOffset;
    FragmentFields(h.id, offset);
    OneSample(h, h.id, offset);
  }

  function LateRun(at: int): Run {
    Run(1, START_TIME, START_TIME, START_TIME, START_TIME + 1000, START_TIME + 1000, true, [Range(at + 136, at + 140), Range(at + 140, at + 144)])
  }

  function LatePieces(at: int): seq<Piece> { [Piece(1, at + 136, [ONE]), Piece(1, at + 140, [ONE])] }

  function LateState(h: Track, at: int): TrafState {
    TrafState(h, RunAt(1, at, START_TIME, 136), START_TIME, true, true, true)
  }

  /** Behind its second tfdt the clock of the traf box is back where it started. */
  lemma LateOpens(h: Track, at: nat)
    requires Ordinary(h) && h.id == 1 && at <= 1000
    ensures RunsTraf(LateKids()[..2], map[1 := h], at) == Some(Opened(h, START_TIME))
    ensures RunsTraf(LateKids()[..3], map[1 := h], at).Some?
    ensures RunsTraf(LateKids()[..4], map[1 := h], at) == Some(LateState(h, at))
    ensures PiecesTraf(LateKids()[..4], map[1 := h], at) == Some(PieceState(Some(h), [Piece(1, at + 136, [ONE])]))
  {
    hide Emit, Children, U32, U64, TrunSamples, TfhdDefaults, BaseDecode, RunsTrun, PiecesTrun, TrunBody;
    ClockRead();
    OneSample(h, 1, 136);
    var k, tracks, s2 := LateKids(), map[1 := h], Opened(h, START_TIME);
    TrafOpens(tracks, h, k, TFDT_BODY, START_TIME, at);
    assert k[..4][..3] == k[..3] && k[..3][..2] == k[..2];
    TrunRun(h, s2, 136, at);
    assert [] + [Range(at + 136, at + 140)] == [Range(at + 136, at + 140)];
    assert RunsTraf(k[..3], tracks, at) == Some(LateState(h, at).(decode := START_TIME + 1000));
    TrunPiece(h, 136, at, []);
    assert [] + [Piece(1, at + 136, [ONE])] == [Piece(1, at + 136, [ONE])];
    assert PiecesTraf(k[..3], tracks, at) == Some(PieceState(Some(h), [Piece(1, at + 136, [ONE])]));
  }

  lemma LateTraf(h: Track, at: nat)
    requires Ordinary(h) && h.id == 1 && at <= 1000
    ensures TrafRun(Emit(LateKids()), map[1 := h], at) == Some(LateRun(at))
    ensures TrafPieces(Emit(LateKids()), map[1 := h], at) == Some(LatePieces(at))
  {
    hide Emit, Children, U32, U64, TrunSamples, TfhdDefaults, BaseDecode, RunsTrun, PiecesTrun, TrunBody;
    FragmentWalks(OneRun);
    OneSample(h, 1, 140);
    LateOpens(h, at);
    var k, tracks, s4 := LateKids(), map[1 := h], LateState(h, at);
    assert k[..5] == k && k[..5][..4] == k[..4];
    TrunRun(h, s4, 140, at);
    assert RunsTraf(k, tracks, at) == RunsTrun(k[4].body, s4, at);
    assert [Range(at + 136, at + 140)] + [Range(at + 140, at + 144)] == LateRun(at).ranges;
    TrunPiece(h, 140, at, [Piece(1, at + 136, [ONE])]);
    assert PiecesTraf(k, tracks, at) == PiecesTrun(k[4].body, PieceState(Some(h), [Piece(1, at + 136, [ONE])]), at);
    assert [Piece(1, at + 136, [ONE])] + [Piece(1, at + 140, [ONE])] == LatePieces(at);
  }

  lemma ClockRead()
    ensures BaseDecode(TFDT_BODY) == Some(START_TIME) && BaseDecode(NEXT_BODY) == Some(START_TIME + 1000)
    ensures ReadClock(TFDT_BODY, 4) == Some(START_TIME) && ReadClock(NEXT_BODY, 4) == Some(START_TIME + 1000)
  {
    hide U32, U64;
    FragmentFields(1, 0);
  }

  function RunsOfShape(shape: Shape, at: int): seq<Run> {
    match shape
    case OneRun => [RunAt(1, at, START_TIME, 96)]
    case TwoTrafs => [RunAt(1, at, START_TIME, 160), RunAt(1, at, START_TIME + 1000, 164)]
    case LateClock => [LateRun(at)]
  }

  function PiecesOfShape(shape: Shape, at: int): seq<seq<Piece>> {
    match shape
    case OneRun => [[Piece(1, at + 96, [ONE])]]
    case TwoTrafs => [[Piece(1, at + 160, [ONE])], [Piece(1, at + 164, [ONE])]]
    case LateClock => [LatePieces(at)]
  }

  /** A fragment of one traf box. */
  lemma MoofOfOne(a: bytes, tracks: map<u32, Track>, at: int, rr: Run, ps: seq<Piece>)
    requires TrafRun(a, tracks, at) == Some(rr) && TrafPieces(a, tracks, at) == Some(ps)
    ensures var k := [Child(MFHD, MFHD_BODY), Child(TRAF, a)];
            RunsMoof(k, tracks, at) == Some(MoofRuns([rr], 1)) && PiecesMoof(k, tracks, at) == Some([ps])
  {
    hide U32, TrafRun, TrafPieces;
    FragmentFields(1, 0);
    var k := [Child(MFHD, MFHD_BODY), Child(TRAF, a)];
    assert k[..1] == [k[0]] && k[..1][..0] == [];
    assert RunsMoof(k[..1], tracks, at) == Some(MoofRuns([], 1)) && PiecesMoof(k[..1], tracks, at) == Some([]);
    assert [] + [rr] == [rr] && [] + [ps] == [ps];
  }

  /** And of two. */
  lemma MoofOfTwo(a: bytes, b: bytes, tracks: map<u32, Track>, at: int, rr: Run, ps: seq<Piece>, ss: Run, qs: seq<Piece>)
    requires TrafRun(a, tracks, at) == Some(rr) && TrafPieces(a, tracks, at) == Some(ps)
    requires TrafRun(b, tracks, at) == Some(ss) && TrafPieces(b, tracks, at) == Some(qs)
    ensures var k := [Child(MFHD, MFHD_BODY), Child(TRAF, a), Child(TRAF, b)];
            RunsMoof(k, tracks, at) == Some(MoofRuns([rr, ss], 1)) && PiecesMoof(k, tracks, at) == Some([ps, qs])
  {
    hide U32, TrafRun, TrafPieces;
    var k := [Child(MFHD, MFHD_BODY), Child(TRAF, a), Child(TRAF, b)];
    MoofOfOne(a, tracks, at, rr, ps);
    assert k[..2] == [Child(MFHD, MFHD_BODY), Child(TRAF, a)];
    assert [rr] + [ss] == [rr, ss] && [ps] + [qs] == [ps, qs];
  }

  lemma MoofRead(r: Recipe, at: nat)
    requires at <= 1000
    ensures Fragments.ReadRuns(Emit(MoofKids(r.shape)), HeaderMap(r.table), at) == Some(MoofRuns(RunsOfShape(r.shape, at), 1))
    ensures ReadSamples(Emit(MoofKids(r.shape)), HeaderMap(r.table), at) == Some(PiecesOfShape(r.shape, at))
  {
    hide Emit, Children, RunsMoof, PiecesMoof, TrafRun, TrafPieces, BaseDecode, TrafKids, LateKids;
    FragmentWalks(r.shape);
    HeaderSeen(r.table, 1);
    ClockRead();
    var h, tracks := Header(r.table), HeaderMap(r.table);
    match r.shape
    case OneRun =>
      OneTraf(tracks, h, TFDT_BODY, START_TIME, 96, at);
      MoofOfOne(Emit(TrafKids(1, TFDT_BODY, 96)), tracks, at, RunAt(1, at, START_TIME, 96), [Piece(1, at + 96, [ONE])]);
    case TwoTrafs =>
      OneTraf(tracks, h, TFDT_BODY, START_TIME, 160, at);
      OneTraf(tracks, h, NEXT_BODY, START_TIME + 1000, 164, at);
      MoofOfTwo(Emit(TrafKids(1, TFDT_BODY, 160)), Emit(TrafKids(1, NEXT_BODY, 164)), tracks, at,
                RunAt(1, at, START_TIME, 160), [Piece(1, at + 160, [ONE])], RunAt(1, at, START_TIME + 1000, 164), [Piece(1, at + 164, [ONE])]);
    case LateClock =>
      LateTraf(h, at);
      MoofOfOne(Emit(LateKids()), tracks, at, LateRun(at), LatePieces(at));
  }

  lemma TrafStartIs(body: bytes, cs: seq<Child>, tracks: map<u32, Track>, id: u32, time: u64)
    requires Children(body) == Some(cs) && TrafTrack(cs) == id && id in tracks && tracks[id].scale == 1000
    requires ReadClock(TrafClock(cs), 4) == Some(time)
    ensures TrafStart(body, tracks) == Some(time as real / 1000.0)
  {
    hide Children, TrafTrack, TrafClock, ReadClock;
    PerThousand(time as real, tracks[id].scale as real);
  }

  lemma PerThousand(x: real, d: real)
    requires d == 1000.0
    ensures x / d == x / 1000.0
  {
    var y := x / d;
    assert y * d == x;
  }

  lemma TrafTells(id: byte, clock: bytes, offset: byte)
    ensures TrafTrack(TrafKids(id, clock, offset)) == id && TrafClock(TrafKids(id, clock, offset)) == clock
  {
    hide U32, TrafTrack, TrafClock, TfhdBody, TrunBody;
    FragmentFields(id, offset);
    var k := TrafKids(id, clock, offset);
    assert k[..3] == k && k[..3][..2] == k[..2] && k[..2][..1] == k[..1];
    LastTells(k[..1]);
    LastTells(k[..2]);
    LastTells(k);
  }

  lemma TrafStarts(tracks: map<u32, Track>, h: Track, clock: bytes, time: u64, offset: byte)
    requires Knows(tracks, h) && h.scale == 1000 && |clock| == 12 && clock[0] <= 1 && ReadClock(clock, 4) == Some(time)
    ensures Children(Emit(TrafKids(h.id, clock, offset))) == Some(TrafKids(h.id, clock, offset)) && KnownVersions(TrafKids(h.id, clock, offset))
    ensures TrafStart(Emit(TrafKids(h.id, clock, offset)), tracks) == Some(time as real / 1000.0)
    ensures ClocksFirst(TrafKids(h.id, clock, offset))
  {
    hide Emit, Children, ReadClock, TfhdBody, TrunBody, TrafTrack, TrafClock, TrafStart;
    TrafWalks(h.id, clock, offset);
    TrafTells(h.id, clock, offset);
    TrafStartIs(Emit(TrafKids(h.id, clock, offset)), TrafKids(h.id, clock, offset), tracks, h.id, time);
  }

  lemma LastTells(cs: seq<Child>)
    requires cs != []
    ensures var n, c := |cs| - 1, cs[|cs| - 1];
            && TrafTrack(cs) == (if c.kind == TFHD && |c.body| >= 8 then U32(c.body, 4) else TrafTrack(cs[..n]))
            && TrafClock(cs) == if c.kind == TFDT then c.body else TrafClock(cs[..n])
  {
  }

  lemma LateVersions()
    ensures KnownVersions(LateKids())
  {
    hide TfhdBody, TrunBody;
  }

  lemma LateTells()
    ensures TrafTrack(LateKids()) == 1 && TrafClock(LateKids()) == TFDT_BODY
  {
    hide U32, TrafTrack, TrafClock, TfhdBody, TrunBody;
    FragmentFields(1, 0);
    var k := LateKids();
    assert k[..5] == k && k[..5][..4] == k[..4] && k[..4][..3] == k[..3] && k[..3][..2] == k[..2] && k[..2][..1] == k[..1];
    LastTells(k[..1]);
    LastTells(k[..2]);
    LastTells(k[..3]);
    LastTells(k[..4]);
    LastTells(k);
  }

  lemma LateStarts(r: Recipe)
    ensures Children(Emit(LateKids())) == Some(LateKids()) && KnownVersions(LateKids())
    ensures TrafStart(Emit(LateKids()), HeaderMap(r.table)) == Some(START_TIME as real / 1000.0)
  {
    hide Emit, Children, ReadClock, TrafTrack, TrafClock, LateKids, KnownVersions;
    FragmentWalks(OneRun);
    ClockRead();
    LateVersions();
    LateTells();
  }

  lemma ClocksKnown(r: Recipe)
    ensures KnownClocks(MoofKids(r.shape)) && (r.shape != LateClock ==> MoofClocksFirst(MoofKids(r.shape)))
  {
    hide Emit, Children, TrafStart, KnownVersions, ClocksFirst, TrafKids, LateKids, ReadClock;
    HeaderSeen(r.table, 1);
    ClockRead();
    TrafStarts(HeaderMap(r.table), Header(r.table), TFDT_BODY, START_TIME, 96);
    TrafStarts(HeaderMap(r.table), Header(r.table), TFDT_BODY, START_TIME, 160);
    TrafStarts(HeaderMap(r.table), Header(r.table), NEXT_BODY, START_TIME + 1000, 164);
    LateStarts(r);
  }

  lemma StartOfTraf(cs: seq<Child>, d: map<u32, Track>, before: Start, at: real)
    requires cs != [] && cs[|cs| - 1].kind == TRAF && MoofStart(cs[..|cs| - 1], d) == Some(before)
    requires TrafStart(cs[|cs| - 1].body, d) == Some(at) && (before == NoStart || before.seconds <= at)
    ensures MoofStart(cs, d) == Some(if before == NoStart then At(at) else before)
  {
    hide TrafStart;
  }

  lemma OneTrafStarts(a: Child, b: Child, d: map<u32, Track>, at: real)
    requires a.kind == MFHD && b.kind == TRAF && TrafStart(b.body, d) == Some(at)
    ensures MoofStart([a, b], d) == Some(At(at))
  {
    hide TrafStart;
    assert [a, b][..1] == [a] && [a][..0] == [];
    assert MoofStart([a], d) == Some(NoStart);
    StartOfTraf([a, b], d, NoStart, at);
  }

  const FIRST_SECOND: real := START_TIME as real / 1000.0

  lemma Clocked(r: Recipe)
    ensures MoofStart(MoofKids(r.shape), HeaderMap(r.table)) == Some(At(FIRST_SECOND))
  {
    hide Emit, Children, TrafStart, TrafKids, LateKids, MoofStart, KnownVersions, ClocksFirst, Header, ReadClock;
    HeaderSeen(r.table, 1);
    ClockRead();
    var m, d := MoofKids(r.shape), HeaderMap(r.table);
    match r.shape
    case OneRun =>
      TrafStarts(HeaderMap(r.table), Header(r.table), TFDT_BODY, START_TIME, 96);
      OneTrafStarts(m[0], m[1], d, FIRST_SECOND);
    case TwoTrafs =>
      TrafStarts(HeaderMap(r.table), Header(r.table), TFDT_BODY, START_TIME, 160);
      TrafStarts(HeaderMap(r.table), Header(r.table), NEXT_BODY, START_TIME + 1000, 164);
      OneTrafStarts(m[0], m[1], d, FIRST_SECOND);
      assert m[..2] == [m[0], m[1]];
      StartOfTraf(m, d, At(FIRST_SECOND), (START_TIME + 1000) as real / 1000.0);
    case LateClock =>
      LateStarts(r);
      OneTrafStarts(m[0], m[1], d, FIRST_SECOND);
  }
}
