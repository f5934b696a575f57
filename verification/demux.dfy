/**
 A reader of ordinary (not fragmented) movies, written from ISO/IEC 14496-12,
 applied to the virtual file: the tracks it finds there.
 */
module Demux {
  import opened Bytes
  import opened Options
  import opened Boxes
  import opened Tracks
  import opened Samples
  import opened Fragments
  import opened SampleTables
  import opened FlatScan
  import opened ScanLemmas
  import opened FlatMovie
  import opened Timing
  import opened MovieBoxes
  import opened Normalized
  import opened Reread
  import opened TopLevel

  /** Timescale and duration of a movie or media header. */
  datatype HeaderClock = HeaderClock(scale: u32, duration: u64)

  /** A track: its header fields, its duration in movie ticks, that of its media in media ticks, its edits and its samples. */
  datatype TrackView = TrackView(header: Track, duration: u64, mediaDuration: u64, edits: seq<Edit>, table: Table)

  /** A movie header without mvhd box has no movie clock, and nothing to count edits in. */
  datatype MovieView = MovieView(clock: Option<HeaderClock>, tracks: seq<TrackView>)

  /** An mvhd or mdhd box (sections 8.2.2 and 8.4.2), version 0 or 1. */
  function ReadHeaderClock(p: bytes): Option<HeaderClock> {
    if |p| < 1 || p[0] > 1 then None
    else if p[0] == 1 then (if |p| < 32 then None else Some(HeaderClock(U32(p, 20), U64(p, 24))))
    else if |p| < 20 then None
    else Some(HeaderClock(U32(p, 12), U32(p, 16)))
  }

  /** The duration in a tkhd box (section 8.3.2). */
  function ReadTrackDuration(p: bytes): Option<u64> {
    if |p| < 1 || p[0] > 1 then None
    else if p[0] == 1 then (if |p| < 36 then None else Some(U64(p, 28)))
    else if |p| < 24 then None
    else Some(U32(p, 20))
  }

  datatype Lengths = Lengths(track: Option<u64>, media: Option<u64>)

  /** As for all header fields, the last mdhd and the last tkhd count. */
  function MdiaLength(cs: seq<Child>, d: Option<u64>): Option<u64> {
    if cs == [] then d
    else if cs[0].kind == MDHD then
      MdiaLength(cs[1..], match ReadHeaderClock(cs[0].body) case None => None case Some(c) => Some(c.duration))
    else MdiaLength(cs[1..], d)
  }

  function ReadLength(c: Child, l: Lengths): Lengths {
    if c.kind == TKHD then l.(track := ReadTrackDuration(c.body))
    else if c.kind == MDIA then
      match Children(c.body) case None => l case Some(inner) => l.(media := MdiaLength(inner, l.media))
    else l
  }

  function ReadLengths(cs: seq<Child>, l: Lengths): Lengths {
    if cs == [] then l else ReadLengths(cs[1..], ReadLength(cs[0], l))
  }

  function Signed64(n: u64): int {
    if n < 0x8000_0000_0000_0000 then n else n - 0x1_0000_0000_0000_0000
  }

  function EditsAt(p: bytes, at: nat, n: nat): seq<Edit>
    requires at + 20 * n <= |p|
  {
    if n == 0 then []
    else EditsAt(p, at, n - 1) + [Edit(U64(p, at + 20 * (n - 1)), Signed64(U64(p, at + 20 * (n - 1) + 8)))]
  }

  const NORMAL_RATE: u32 := 0x1_0000

  /** Every edit plays its media at normal speed; with another rate it shows a still, or the times mean something else. */
  predicate NormalRates(p: bytes, at: nat, n: nat)
    requires at + 20 * n <= |p|
  {
    forall i | 0 <= i < n :: RateAt(p, at, i) == NORMAL_RATE
  }

  function RateAt(p: bytes, at: nat, i: nat): u32
    requires at + 20 * (i + 1) <= |p|
  {
    U32(p, at + 20 * i + 16)
  }

  /** An edit list box of version 1 whose edits play at normal speed. */
  function ReadElst(p: bytes): Option<seq<Edit>> {
    if |p| < 8 || p[0] != 1 || |p| < 8 + 20 * U32(p, 4) || !NormalRates(p, 8, U32(p, 4)) then None else Some(EditsAt(p, 8, U32(p, 4)))
  }

  function Inside(cs: seq<Child>, kind: u32): Option<seq<Child>> {
    var p :- First(cs, kind);
    Children(p)
  }

  /** The sample table box of a trak box, at mdia/minf/stbl. */
  function StblOf(cs: seq<Child>): Option<seq<Child>> {
    var mdia :- Inside(cs, MDIA);
    StblIn(mdia)
  }

  function StblIn(mdia: seq<Child>): Option<seq<Child>> {
    var minf :- Inside(mdia, MINF);
    Inside(minf, STBL)
  }

  /** The sample descriptions a trak box declares. */
  function StsdOf(cs: seq<Child>): Option<bytes> {
    var stbl :- StblOf(cs);
    First(stbl, STSD)
  }

  function EditsIn(cs: seq<Child>): Option<seq<Edit>> {
    var edts :- Inside(cs, EDTS);
    var elst :- First(edts, ELST);
    ReadElst(elst)
  }

  function ReadTrackView(body: bytes): Option<TrackView> {
    var cs :- Children(body);
    var header :- ReadTrak(body);
    var lengths := ReadLengths(cs, Lengths(None, None));
    var duration :- lengths.track;
    var mediaDuration :- lengths.media;
    var edits :- EditsIn(cs);
    var stbl :- StblOf(cs);
    var table :- ReadTable(stbl);
    Some(TrackView(header, duration, mediaDuration, edits, table))
  }

  function ReadMovie(cs: seq<Child>): Option<seq<TrackView>> {
    if cs == [] then Some([])
    else if cs[0].kind == TRAK then
      var v :- ReadTrackView(cs[0].body);
      var rest :- ReadMovie(cs[1..]);
      Some([v] + rest)
    else ReadMovie(cs[1..])
  }

  /** The movie clock; a movie header box that cannot be read makes the file unreadable. */
  function ReadMovieClock(cs: seq<Child>): Option<Option<HeaderClock>> {
    match First(cs, MVHD)
    case None => Some(None)
    case Some(p) =>
      var c :- ReadHeaderClock(p);
      if c.scale == 0 then None else Some(Some(c))
  }

  /** The movie in a file. */
  function ReadFile(data: bytes): (r: Option<MovieView>)
    ensures r.Some? && r.value.clock.Some? ==> r.value.clock.value.scale > 0
  {
    var cs :- Children(data);
    var moov :- Inside(cs, MOOV);
    var clock :- ReadMovieClock(moov);
    var tracks :- ReadMovie(moov);
    Some(MovieView(clock, tracks))
  }

  // ---------- edit lists ----------

  lemma EditEntry(p: bytes, at: nat, d: u64, m: u64)
    requires at + 20 <= |p| && p[at..at + 20] == Enc64(d) + Enc64(m) + Enc32(0x1_0000)
    ensures U64(p, at) == d && U64(p, at + 8) == m && U32(p, at + 16) == NORMAL_RATE
  {
    hide U64, U32, Enc64, Enc32;
    LastField(p, at, Enc64(d) + Enc64(m), Enc32(0x1_0000));
    LastField(p, at, Enc64(d), Enc64(m));
    Field64(p, at, Enc64(d));
    Field64(p, at + 8, Enc64(m));
    Field32(p, at + 16, Enc32(NORMAL_RATE));
  }

  lemma OneEdit(p: bytes, at: nat)
    requires at + 20 <= |p|
    ensures EditsAt(p, at, 1) == [Edit(U64(p, at), Signed64(U64(p, at + 8)))]
  {
    assert EditsAt(p, at, 0) == [];
  }

  lemma TwoEdits(p: bytes, at: nat)
    requires at + 40 <= |p|
    ensures EditsAt(p, at, 2) == [Edit(U64(p, at), Signed64(U64(p, at + 8))), Edit(U64(p, at + 20), Signed64(U64(p, at + 28)))]
  {
    OneEdit(p, at);
    assert EditsAt(p, at, 2) == EditsAt(p, at, 1) + [Edit(U64(p, at + 20), Signed64(U64(p, at + 28)))];
  }

  lemma EditBytesRead(t: FlatTrack, p: Plan)
    requires 0 <= MediaTime(t, p) <= MAX_I64
    ensures ReadElst(EditBytes(t, p)) == Some(EditsOf(t, p))
  {
    hide U64, U32, Enc64, Enc32, EditsAt;
    var b := EditBytes(t, p);
    var media := Enc64(p.duration) + Enc64(Wrap64(MediaTime(t, p))) + Enc32(0x1_0000);
    var empty := Enc64(p.delay) + Enc64(MAX_U64) + Enc32(0x1_0000);
    var n: u32 := if p.delay > 0 then 2 else 1;
    assert b[4..8] == Enc32(n);
    Field32(b, 4, Enc32(n));
    if p.delay > 0 {
      assert b[8..28] == empty && b[28..48] == media;
      EditEntry(b, 8, p.delay, MAX_U64);
      EditEntry(b, 28, p.duration, Wrap64(MediaTime(t, p)));
      TwoEdits(b, 8);
      assert Signed64(MAX_U64) == -1 && Signed64(Wrap64(MediaTime(t, p))) == MediaTime(t, p);
      assert RateAt(b, 8, 0) == NORMAL_RATE && RateAt(b, 8, 1) == NORMAL_RATE;
      assert [Edit(p.delay, -1)] + [Edit(p.duration, MediaTime(t, p))] == [Edit(p.delay, -1), Edit(p.duration, MediaTime(t, p))];
    } else {
      assert b[8..28] == media;
      EditEntry(b, 8, p.duration, Wrap64(MediaTime(t, p)));
      OneEdit(b, 8);
      assert Signed64(Wrap64(MediaTime(t, p))) == MediaTime(t, p);
      assert RateAt(b, 8, 0) == NORMAL_RATE;
      assert [] + [Edit(p.duration, MediaTime(t, p))] == [Edit(p.duration, MediaTime(t, p))];
    }
  }

  // ---------- finding boxes after the transformation ----------

  lemma {:induction false} FirstMedia(t: FlatTrack, p: Plan, cs: seq<Child>, delta: int, kind: u32)
    requires MediaChildren(t, p, cs, delta).Some?
    ensures match First(cs, kind)
            case None => First(MediaChildren(t, p, cs, delta).value, kind) == None
            case Some(v) =>
              && MediaChild(t, p, Child(kind, v), delta).Some?
              && First(MediaChildren(t, p, cs, delta).value, kind) == Some(MediaChild(t, p, Child(kind, v), delta).value.body)
    decreases |cs|
  {
    hide MediaChild;
    if cs != [] {
      var r := MediaChildren(t, p, cs, delta).value;
      assert r[0] == MediaChild(t, p, cs[0], delta).value && r[1..] == MediaChildren(t, p, cs[1..], delta).value;
      FirstMedia(t, p, cs[1..], delta, kind);
      assert cs[0] == Child(cs[0].kind, cs[0].body);
    }
  }

  lemma TrackChildKinds(t: FlatTrack, p: Plan, c: Child, delta: int, kind: u32)
    requires TrackChild(t, p, c, delta).Some? && kind != TKHD
    ensures var r := TrackChild(t, p, c, delta).value;
            First(r, kind) ==
            if c.kind == TKHD && kind == EDTS then Some(EditBox(t, p).body)
            else if c.kind == kind && r != [] then Some(r[0].body)
            else None
    ensures c.kind == kind ==> TrackChild(t, p, c, delta).value != []
  {
    hide DurationBody, MediaChildren, Emit, EditBox;
    var r := TrackChild(t, p, c, delta).value;
    assert EditBox(t, p).kind == EDTS by { EdtsKind(t, p); }
    FirstOfThree(r[0], r[0], r[0], kind);
    FirstOfThree(EditBox(t, p), EditBox(t, p), EditBox(t, p), kind);
    if c.kind == TKHD {
      FirstConcat([r[0]], [EditBox(t, p)], kind);
      assert r == [r[0]] + [EditBox(t, p)];
    } else {
      assert r == [r[0]];
    }
  }

  lemma EdtsKind(t: FlatTrack, p: Plan)
    ensures EditBox(t, p).kind == EDTS
  {
  }

  lemma {:induction false} FirstTrack(t: FlatTrack, p: Plan, cs: seq<Child>, delta: int)
    requires TrackChildren(t, p, cs, delta).Some?
    ensures var r := TrackChildren(t, p, cs, delta).value;
            && (First(cs, TKHD).Some? ==> First(r, EDTS) == Some(EditBox(t, p).body))
            && match First(cs, MDIA)
               case None => First(r, MDIA) == None
               case Some(v) =>
                 && TrackChild(t, p, Child(MDIA, v), delta).Some? && TrackChild(t, p, Child(MDIA, v), delta).value != []
                 && First(r, MDIA) == Some(TrackChild(t, p, Child(MDIA, v), delta).value[0].body)
    decreases |cs|
  {
    hide TrackChild, EditBox;
    if cs != [] {
      var a, b := TrackChild(t, p, cs[0], delta).value, TrackChildren(t, p, cs[1..], delta).value;
      FirstTrack(t, p, cs[1..], delta);
      FirstConcat(a, b, EDTS);
      FirstConcat(a, b, MDIA);
      NoEdts(t, p, cs[0], delta);
      TrackChildKinds(t, p, cs[0], delta, EDTS);
      TrackChildKinds(t, p, cs[0], delta, MDIA);
      assert cs[0] == Child(cs[0].kind, cs[0].body);
    }
  }

  lemma NoEdts(t: FlatTrack, p: Plan, c: Child, delta: int)
    requires TrackChild(t, p, c, delta).Some?
    ensures c.kind != EDTS
  {
  }

  // ---------- one track ----------

  /** What a reader is meant to find for a track of the source. */
  function ViewOfTrack(header: Track, stsd: bytes, t: FlatTrack, p: Plan, delta: int): TrackView {
    TrackView(header, Wrap64(p.delay + p.duration), Wrap64(t.nextDTS - t.firstDTS), EditsOf(t, p),
              Meaning(stsd, t.info.video, t.Samples(), t.Chunks(), p.shift, delta))
  }

  lemma TablesBoundSamples(initial: seq<Child>, video: bool, ss: seq<Sample>, cs: seq<Chunk>, shift: int, delta: int)
    requires StblChildren(initial, video, ss, cs, shift, delta).Some?
    ensures 4 * |ss| <= TotalSize(StblChildren(initial, video, ss, cs, shift, delta).value)
    ensures 8 * |cs| <= TotalSize(StblChildren(initial, video, ss, cs, shift, delta).value)
  {
    hide SttsBody, CttsBody, StssBody, StscBody, U32, First, Tables;
    FindTables(Descriptions(initial).value, video, ss, cs, shift, delta);
    var r := StblChildren(initial, video, ss, cs, shift, delta).value;
    assert 8 + |First(r, STSZ).value| <= TotalSize(r) && 8 + |First(r, CO64).value| <= TotalSize(r);
  }

  /** The size limit of the header bounds the tables, and so the samples. */
  predicate FewSamples(t: FlatTrack) { 4 * |t.Samples()| <= MAX_METADATA }

  /** A new sample table box, wherever it is found, reads as the samples of its track. */
  lemma NewStblTable(t: FlatTrack, p: Plan, v: bytes, delta: int)
    requires StblBody(t, p, v, delta).Some? && |StblBody(t, p, v, delta).value| <= MAX_METADATA
    ensures var b := StblBody(t, p, v, delta).value;
            && Children(v).Some? && First(Children(v).value, STSD).Some? && Children(b).Some? && FewSamples(t)
            && ReadTable(Children(b).value) == Some(Meaning(First(Children(v).value, STSD).value, t.info.video, t.Samples(), t.Chunks(), p.shift, delta))
  {
    hide StblChildren, ReadTable, Meaning, ChildrenFrom, Emit;
    var initial := Children(v).value;
    var cs := StblChildren(initial, t.info.video, t.Samples(), t.Chunks(), p.shift, delta).value;
    TablesBoundSamples(initial, t.info.video, t.Samples(), t.Chunks(), p.shift, delta);
    EmitThenWalk(cs);
    TablesRoundTrip(initial, t.info.video, t.Samples(), t.Chunks(), p.shift, delta);
  }

  lemma NewMinf(t: FlatTrack, p: Plan, v: bytes, delta: int)
    requires MediaChild(t, p, Child(MINF, v), delta).Some?
    requires |MediaChild(t, p, Child(MINF, v), delta).value.body| <= MAX_METADATA
    ensures var b := MediaChild(t, p, Child(MINF, v), delta).value.body;
            && Children(v).Some? && Children(b).Some?
            && (Inside(Children(v).value, STBL).Some? <==> Inside(Children(b).value, STBL).Some?)
            && (Inside(Children(b).value, STBL).Some? ==>
                  FewSamples(t) && First(Inside(Children(v).value, STBL).value, STSD).Some?
                  && ReadTable(Inside(Children(b).value, STBL).value)
                     == Some(Meaning(First(Inside(Children(v).value, STBL).value, STSD).value, t.info.video, t.Samples(), t.Chunks(), p.shift, delta)))
  {
    hide StblBody, ReadTable, Meaning, ChildrenFrom, Emit, First, DurationBody;
    var inner := Children(v).value;
    var cs := MediaChildren(t, p, inner, delta).value;
    EmitThenWalk(cs);
    FirstMedia(t, p, inner, delta, STBL);
    if First(inner, STBL).Some? {
      var w := First(inner, STBL).value;
      assert 8 + |First(cs, STBL).value| <= TotalSize(cs);
      NewStblTable(t, p, w, delta);
      OldStbl(t, p, w, delta);
    }
  }

  lemma OldStbl(t: FlatTrack, p: Plan, v: bytes, delta: int)
    requires StblBody(t, p, v, delta).Some?
    ensures Children(v).Some?
  {
  }

  lemma NewMdia(t: FlatTrack, p: Plan, v: bytes, delta: int)
    requires TrackChild(t, p, Child(MDIA, v), delta).Some? && TrackChild(t, p, Child(MDIA, v), delta).value != []
    requires |TrackChild(t, p, Child(MDIA, v), delta).value[0].body| <= MAX_METADATA
    ensures var b := TrackChild(t, p, Child(MDIA, v), delta).value[0].body;
            && Children(v).Some? && Children(b).Some?
            && (StblIn(Children(v).value).Some? <==> StblIn(Children(b).value).Some?)
            && (StblIn(Children(b).value).Some? ==>
                  FewSamples(t) && First(StblIn(Children(v).value).value, STSD).Some?
                  && ReadTable(StblIn(Children(b).value).value)
                     == Some(Meaning(First(StblIn(Children(v).value).value, STSD).value, t.info.video, t.Samples(), t.Chunks(), p.shift, delta)))
  {
    hide MediaChild, MediaChildren, ReadTable, Meaning, ChildrenFrom, Emit, First;
    var inner := Children(v).value;
    var cs := MediaChildren(t, p, inner, delta).value;
    EmitThenWalk(cs);
    FirstMedia(t, p, inner, delta, MINF);
    if First(inner, MINF).Some? {
      assert 8 + |First(cs, MINF).value| <= TotalSize(cs);
      NewMinf(t, p, First(inner, MINF).value, delta);
    }
  }

  /** The boxes a player needs: one path from the trak box to a sample table box. */
  predicate HasTable(cs: seq<Child>) { StblOf(cs).Some? }

  lemma {:induction false} NumberNeedsHeader(cs: seq<Child>, x: Track)
    requires TrakFields(cs, x).Some? && First(cs, TKHD) == None
    ensures TrakFields(cs, x).value.id == x.id
    decreases |cs|
  {
    hide MdiaField;
    if cs != [] {
      if cs[0].kind == MDIA { MdiaKeeps(Children(cs[0].body).value, x); }
      NumberNeedsHeader(cs[1..], TrakField(cs[0], x).value);
    }
  }

  /** Some mdia box holds an mdhd box. */
  predicate HasMediaHeader(cs: seq<Child>) {
    exists c | c in cs && c.kind == MDIA :: Children(c.body).Some? && First(Children(c.body).value, MDHD).Some?
  }

  lemma {:induction false} ScaleNeedsHeader(cs: seq<Child>, x: Track)
    requires TrakFields(cs, x).Some? && !HasMediaHeader(cs)
    ensures TrakFields(cs, x).value.scale == x.scale
    decreases |cs|
  {
    hide MdiaField, First;
    if cs != [] {
      assert cs[0] in cs;
      if cs[0].kind == MDIA { MdiaKeeps(Children(cs[0].body).value, x); }
      ScaleNeedsHeader(cs[1..], TrakField(cs[0], x).value);
    }
  }

  lemma {:induction false} StblKeeps(cs: seq<Child>, x: Track)
    requires StblFields(cs, x).Some?
    ensures StblFields(cs, x).value.id == x.id && StblFields(cs, x).value.scale == x.scale
    decreases |cs|
  {
    if cs != [] {
      StblKeeps(cs[1..], if cs[0].kind == STSD then x.(codec := cs[0].body[12..16]) else x);
    }
  }

  lemma {:induction false} MinfKeeps(cs: seq<Child>, x: Track)
    requires MinfFields(cs, x).Some?
    ensures MinfFields(cs, x).value.id == x.id && MinfFields(cs, x).value.scale == x.scale
    decreases |cs|
  {
    hide StblFields;
    if cs != [] {
      if cs[0].kind == STBL {
        StblKeeps(Children(cs[0].body).value, x);
        MinfKeeps(cs[1..], StblFields(Children(cs[0].body).value, x).value);
      } else {
        MinfKeeps(cs[1..], x);
      }
    }
  }

  lemma MdiaFieldKeeps(c: Child, x: Track)
    requires MdiaField(c, x).Some?
    ensures MdiaField(c, x).value.id == x.id
    ensures c.kind != MDHD ==> MdiaField(c, x).value.scale == x.scale
  {
    hide MinfFields;
    if c.kind == MINF { MinfKeeps(Children(c.body).value, x); }
  }

  lemma {:induction false} MdiaKeeps(cs: seq<Child>, x: Track)
    requires MdiaFields(cs, x).Some?
    ensures MdiaFields(cs, x).value.id == x.id
    ensures First(cs, MDHD) == None ==> MdiaFields(cs, x).value.scale == x.scale
    decreases |cs|
  {
    hide MdiaField;
    if cs != [] {
      MdiaFieldKeeps(cs[0], x);
      MdiaKeeps(cs[1..], MdiaField(cs[0], x).value);
    }
  }

  // ---------- durations ----------

  lemma {:induction false} NewMdiaLength(t: FlatTrack, p: Plan, cs: seq<Child>, delta: int, d: Option<u64>)
    requires MediaChildren(t, p, cs, delta).Some?
    ensures MdiaLength(MediaChildren(t, p, cs, delta).value, d)
            == if First(cs, MDHD).Some? then Some(Wrap64(t.nextDTS - t.firstDTS)) else d
    decreases |cs|
  {
    hide StblBody, DurationBody, U32, U64;
    if cs != [] {
      var r, c := MediaChildren(t, p, cs, delta).value, MediaChild(t, p, cs[0], delta).value;
      assert r[0] == c && r[1..] == MediaChildren(t, p, cs[1..], delta).value;
      if cs[0].kind == MDHD {
        DurationReads(MDHD, cs[0].body, Wrap64(t.nextDTS - t.firstDTS), 0);
        NewMdiaLength(t, p, cs[1..], delta, Some(Wrap64(t.nextDTS - t.firstDTS)));
      } else {
        NewMdiaLength(t, p, cs[1..], delta, d);
      }
    }
  }

  lemma NewLength(t: FlatTrack, p: Plan, c: Child, delta: int, l: Lengths)
    requires TrackChild(t, p, c, delta).Some? && TotalSize(TrackChild(t, p, c, delta).value) <= MAX_METADATA
    ensures ReadLengths(TrackChild(t, p, c, delta).value, l)
            == Lengths(if c.kind == TKHD then Some(Wrap64(p.delay + p.duration)) else l.track,
                       if HasMediaHeader([c]) then Some(Wrap64(t.nextDTS - t.firstDTS)) else l.media)
  {
    hide DurationBody, MediaChildren, EditBytes, Emit, ChildrenFrom, First, MdiaLength, ReadTrackDuration;
    var r := TrackChild(t, p, c, delta).value;
    assert c in [c];
    if c.kind == TKHD {
      var w := Wrap64(p.delay + p.duration);
      TrackDurationReads(c.body, w);
      EdtsKind(t, p);
      var l' := l.(track := Some(w));
      assert r[0] == Child(TKHD, r[0].body) && ReadLength(r[0], l) == l';
      assert r[1..] == [EditBox(t, p)] && r[1..][1..] == [];
      assert ReadLengths([EditBox(t, p)], l') == ReadLengths([], ReadLength(EditBox(t, p), l')) == l';
      assert ReadLengths(r, l) == l';
    } else {
      assert r[1..] == [] && ReadLengths(r, l) == ReadLength(r[0], l);
      if c.kind == MDIA {
        var inner := Children(c.body).value;
        var cs := MediaChildren(t, p, inner, delta).value;
        EmitThenWalk(cs);
        NewMdiaLength(t, p, inner, delta, l.media);
      }
    }
  }

  lemma TrackDurationReads(p: bytes, duration: u64)
    requires DurationBody(TKHD, p, duration, 0).Some?
    ensures ReadTrackDuration(DurationBody(TKHD, p, duration, 0).value) == Some(duration)
  {
    hide U32, U64, DurationBody;
    DurationReads(TKHD, p, duration, 0);
  }

  lemma {:induction false} LengthsConcat(a: seq<Child>, b: seq<Child>, l: Lengths)
    ensures ReadLengths(a + b, l) == ReadLengths(b, ReadLengths(a, l))
    decreases |a|
  {
    hide ReadLength;
    if a == [] {
      assert a + b == b;
    } else {
      assert (a + b)[1..] == a[1..] + b;
      LengthsConcat(a[1..], b, ReadLength(a[0], l));
    }
  }

  /** The rewritten tkhd and mdhd boxes carry the planned durations. */
  lemma {:induction false} NewLengths(t: FlatTrack, p: Plan, cs: seq<Child>, delta: int, l: Lengths)
    requires TrackChildren(t, p, cs, delta).Some? && TotalSize(TrackChildren(t, p, cs, delta).value) <= MAX_METADATA
    ensures ReadLengths(TrackChildren(t, p, cs, delta).value, l)
            == Lengths(if First(cs, TKHD).Some? then Some(Wrap64(p.delay + p.duration)) else l.track,
                       if HasMediaHeader(cs) then Some(Wrap64(t.nextDTS - t.firstDTS)) else l.media)
    decreases |cs|
  {
    hide TrackChild, HasMediaHeader, ReadLengths;
    if cs == [] {
      NoLengths(l);
    } else {
      var a, b := TrackChild(t, p, cs[0], delta).value, TrackChildren(t, p, cs[1..], delta).value;
      EmitConcat(a, b);
      NewLength(t, p, cs[0], delta, l);
      LengthsConcat(a, b, l);
      NewLengths(t, p, cs[1..], delta, ReadLengths(a, l));
      MediaHeaderSplit(cs);
    }
  }

  lemma NoLengths(l: Lengths)
    ensures ReadLengths([], l) == l && !HasMediaHeader([])
  {
  }

  lemma MediaHeaderSplit(cs: seq<Child>)
    requires cs != []
    ensures HasMediaHeader(cs) <==> HasMediaHeader([cs[0]]) || HasMediaHeader(cs[1..])
  {
    hide Children, First;
    assert forall c :: c in cs <==> c == cs[0] || c in cs[1..];
    assert cs[0] in [cs[0]];
  }

  /** The emitter and the parser agree on the number of a trak box. */
  lemma {:induction false} SameNumber(cs: seq<Child>, x: Track, id: u32)
    requires TrakFields(cs, x).Some? && x.id == id
    ensures TrakNumber(cs, id) == Some(TrakFields(cs, x).value.id)
    decreases |cs|
  {
    hide MdiaFields;
    if cs != [] {
      if cs[0].kind == MDIA { MdiaKeeps(Children(cs[0].body).value, x); }
      var y := TrakField(cs[0], x).value;
      SameNumber(cs[1..], y, y.id);
    }
  }

  /** The sample descriptions of a trak box, where it has any. */
  function StsdIn(c: Child): bytes {
    match Children(c.body)
    case None => []
    case Some(cs) => match StsdOf(cs) case None => [] case Some(p) => p
  }

  predicate HasStsd(c: Child) { Children(c.body).Some? && StsdOf(Children(c.body).value).Some? }

  predicate TrackReady(m: Movie, id: u32) {
    && id in m.tracks && id in m.plans && m.tracks[id].pieces != []
    && 0 <= MediaTime(m.tracks[id], m.plans[id]) <= MAX_I64
  }

  /** A new trak box reads as a track with the durations, the edit list and the samples it was made from, exactly when there was a table box to rewrite. */
  lemma NewTrakView(m: Movie, c: Child, delta: int)
    requires c.kind == TRAK && ReadTrak(c.body).Some? && TrackReady(m, ReadTrak(c.body).value.id)
    requires MovieChild(m, c, delta).Some? && TotalSize(MovieChild(m, c, delta).value) <= MAX_METADATA
    ensures var header := ReadTrak(c.body).value;
            && |MovieChild(m, c, delta).value| == 1 && MovieChild(m, c, delta).value[0].kind == TRAK
            && Children(c.body).Some?
            && (HasTable(Children(c.body).value) ==> FewSamples(m.tracks[header.id]) && HasStsd(c))
            && ReadTrackView(MovieChild(m, c, delta).value[0].body)
               == if HasTable(Children(c.body).value) then Some(ViewOfTrack(header, StsdIn(c), m.tracks[header.id], m.plans[header.id], delta)) else None
  {
    hide TrackChildren, TrackChild, TrakFields, Emit, First, ReadTable, Meaning, EditBytes, ReadElst, ChildrenFrom, EditsOf, TrakNumber, ReadLengths, StblIn, HasMediaHeader;
    var inner := Children(c.body).value;
    var id := ReadTrak(c.body).value.id;
    SameNumber(inner, BLANK, 0);
    if First(inner, TKHD).None? { NumberNeedsHeader(inner, BLANK); }
    if !HasMediaHeader(inner) { ScaleNeedsHeader(inner, BLANK); }
    var t, p := m.tracks[id], m.plans[id];
    var cs := TrackChildren(t, p, inner, delta).value;
    OneBox(Child(TRAK, Emit(cs)));
    NewTrakReads(m, c, delta);
    EmitThenWalk(cs);
    FirstTrack(t, p, inner, delta);
    EditBoxReads(t, p, cs);
    NewLengths(t, p, inner, delta, Lengths(None, None));
    if First(inner, MDIA).Some? {
      assert 8 + |First(cs, MDIA).value| <= TotalSize(cs);
      NewMdia(t, p, First(inner, MDIA).value, delta);
    }
  }

  lemma EditBoxReads(t: FlatTrack, p: Plan, cs: seq<Child>)
    requires 0 <= MediaTime(t, p) <= MAX_I64
    requires First(cs, EDTS) == Some(EditBox(t, p).body)
    ensures EditsIn(cs) == Some(EditsOf(t, p))
  {
    hide U32, U64, Enc32, Enc64, ReadElst, EditsOf, ChildrenFrom;
    var e := Child(ELST, EditBytes(t, p));
    OneBox(e);
    EmitThenWalk([e]);
    FirstOfThree(e, e, e, ELST);
    EditBytesRead(t, p);
  }
}
