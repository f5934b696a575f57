/**
 Movie headers and producer references from a writer (ISO/IEC 14496-12 sections
 8.2 to 8.5, 8.8.3 and 8.16.5), and what the program reads in them.
 */
module WrittenHeader {
  import opened Bytes
  import opened Options
  import opened Boxes
  import opened Tracks
  import opened FragmentWriter
  import FlatMovie
  import RecordingIndex
  import Samples

  // ---------- fields ----------

  /** A word between other bytes. */
  datatype Field = Field(head: bytes, value: u32, tail: bytes) {
    function Written(): bytes { head + Enc32(value) + tail }

    /** It stands where a version 1 header has it, or where any other version has. */
    predicate ByVersion() { |head| > 0 && |head| == if head[0] == 1 then 20 else 12 }
  }

  lemma FieldReads(f: Field)
    ensures |f.Written()| >= |f.head| + 4 && U32(f.Written(), |f.head|) == f.value && (f.head != [] ==> f.Written()[0] == f.head[0])
  {
    hide U32, Enc32;
    assert f.Written()[|f.head|..] == Enc32(f.value) + f.tail;
    WordReads(f.Written(), |f.head|, f.value, f.tail);
  }

  // ---------- trak ----------

  /** A track: its number, its clock, its handler and its first sample description. */
  datatype TrakBox = TrakBox(tkhd: Field, mdhd: Field, hdlr: Field, stsd: Field) {
    predicate Placed() { tkhd.ByVersion() && mdhd.ByVersion() && |hdlr.head| == 8 && |stsd.head| == 12 && Fits() }

    predicate Fits() { TotalSize(Kids()) <= MAX_U32 }

    function Stbl(): seq<Child> { [Child(STSD, stsd.Written())] }

    function Minf(): seq<Child> { [Child(STBL, Emit(Stbl()))] }

    function Mdia(): seq<Child> { [Child(MDHD, mdhd.Written()), Child(HDLR, hdlr.Written()), Child(MINF, Emit(Minf()))] }

    function Kids(): seq<Child> { [Child(TKHD, tkhd.Written()), Child(MDIA, Emit(Mdia()))] }

    predicate Valid() { tkhd.value > 0 && mdhd.value > 0 }

    /** Number, timescale, kind and codec are those of the boxes. */
    predicate Tells(t: Track) {
      && t.id == tkhd.value && t.scale == mdhd.value && t.video == (hdlr.value == VIDE) && t.codec == Enc32(stsd.value)
    }
  }

  lemma InnerFit(b: TrakBox)
    requires b.Fits()
    ensures Children(Emit(b.Stbl())) == Some(b.Stbl()) && Children(Emit(b.Minf())) == Some(b.Minf())
    ensures Children(Emit(b.Mdia())) == Some(b.Mdia()) && Children(Emit(b.Kids())) == Some(b.Kids())
  {
    hide Emit, Children, Field.Written, TrakBox.Stbl, TrakBox.Minf, TrakBox.Mdia, TrakBox.Kids, TotalSize;
    NestedSizes(b);
    EmitThenWalk(b.Stbl());
    EmitThenWalk(b.Minf());
    EmitThenWalk(b.Mdia());
    EmitThenWalk(b.Kids());
  }

  lemma NestedSizes(b: TrakBox)
    ensures TotalSize(b.Stbl()) <= TotalSize(b.Minf()) <= TotalSize(b.Mdia()) <= TotalSize(b.Kids())
  {
    hide Emit, Field.Written;
    ChildFits(b.Minf(), 0);
    ChildFits(b.Mdia(), 2);
    ChildFits(b.Kids(), 1);
  }

  lemma StblReads(b: TrakBox, t: Track)
    requires |b.stsd.head| == 12
    ensures StblFields(b.Stbl(), t) == Some(t.(codec := Enc32(b.stsd.value)))
  {
    hide Enc32, U32;
    var v := b.stsd.Written();
    assert v[12..16] == Enc32(b.stsd.value);
    assert b.Stbl()[1..] == [];
  }

  lemma MinfReads(b: TrakBox, t: Track)
    requires b.Placed()
    ensures MinfFields(b.Minf(), t) == Some(t.(codec := Enc32(b.stsd.value)))
  {
    hide Emit, Children, StblFields, Enc32, Field.Written, Field.ByVersion, TrakBox.Stbl, TrakBox.Fits;
    InnerFit(b);
    StblReads(b, t);
    assert b.Minf()[1..] == [];
  }

  lemma MdiaReads(b: TrakBox, t: Track)
    requires b.Placed()
    ensures MdiaFields(b.Mdia(), t) == Some(t.(scale := b.mdhd.value, video := b.hdlr.value == VIDE, codec := Enc32(b.stsd.value)))
  {
    hide Emit, Children, MinfFields, Enc32, Field.Written, U32, TrakBox.Minf, TrakBox.Fits;
    InnerFit(b);
    FieldReads(b.mdhd);
    FieldReads(b.hdlr);
    var k := b.Mdia();
    var t1 := t.(scale := b.mdhd.value);
    var t2 := t1.(video := b.hdlr.value == VIDE);
    MinfReads(b, t2);
    assert k[1..][0] == k[1] && k[1..][1..] == k[2..] && k[2..][0] == k[2] && k[2..][1..] == [];
    assert MdiaFields(k[2..], t2) == MdiaField(k[2], t2);
    assert MdiaFields(k[1..], t1) == MdiaFields(k[2..], t2);
  }

  /** A trak box is read as its track, unless the number or the timescale is zero. */
  lemma TrakReads(b: TrakBox)
    requires b.Placed()
    ensures var r := ReadTrak(Emit(b.Kids()));
            && (r.Some? <==> b.Valid())
            && (r.Some? ==> b.Tells(r.value))
  {
    hide Emit, Children, MdiaFields, Enc32, Field.Written, U32, TrakBox.Mdia, TrakBox.Fits;
    InnerFit(b);
    FieldReads(b.tkhd);
    var k := b.Kids();
    var t1 := BLANK.(id := b.tkhd.value);
    MdiaReads(b, t1);
    assert k[1..][0] == k[1] && k[1..][1..] == [];
    assert TrakFields(k[1..], t1) == TrakField(k[1], t1);
  }

  // ---------- mvex ----------

  /** The defaults of a track. */
  datatype TrexBox = TrexBox(version: byte, bits: flags, track: u32, description: u32, duration: u32, size: u32, flagWord: u32, tail: bytes) {
    function Written(): bytes {
      FullHead(version, bits) + (Enc32(track) + (Enc32(description) + (Enc32(duration) + (Enc32(size) + (Enc32(flagWord) + tail)))))
    }
  }

  lemma TrexReads(x: TrexBox)
    ensures var v := x.Written();
            |v| >= 24 && U32(v, 4) == x.track && U32(v, 12) == x.duration && U32(v, 16) == x.size && U32(v, 20) == x.flagWord
  {
    hide U32, Enc32, FullHead;
    var v := x.Written();
    var e := Enc32(x.flagWord) + x.tail;
    var d := Enc32(x.size) + e;
    var c := Enc32(x.duration) + d;
    var b := Enc32(x.description) + c;
    HeadReads(v, x.version, x.bits, Enc32(x.track) + b);
    WordReads(v, 4, x.track, b);
    WordReads(v, 8, x.description, c);
    WordReads(v, 12, x.duration, d);
    WordReads(v, 16, x.size, e);
    WordReads(v, 20, x.flagWord, x.tail);
  }

  function TrexBoxes(xs: seq<TrexBox>): (r: seq<Child>)
    ensures |r| == |xs| && forall i | 0 <= i < |xs| :: r[i] == Child(TREX, xs[i].Written())
  {
    seq(|xs|, i requires 0 <= i < |xs| => Child(TREX, xs[i].Written()))
  }

  function TrakBoxes(bs: seq<TrakBox>): (r: seq<Child>)
    ensures |r| == |bs| && forall i | 0 <= i < |bs| :: r[i] == Child(TRAK, Emit(bs[i].Kids()))
  {
    seq(|bs|, i requires 0 <= i < |bs| => Child(TRAK, Emit(bs[i].Kids())))
  }

  /** The defaults are those of the last trex box of each track. */
  ghost predicate TrexTells(xs: seq<TrexBox>, d: map<u32, Defaults>) {
    && (forall id :: id in d <==> exists j :: 0 <= j < |xs| && xs[j].track == id)
    && (forall j | 0 <= j < |xs| && (forall l | j < l < |xs| :: xs[l].track != xs[j].track) ::
          xs[j].track in d && d[xs[j].track] == Defaults(xs[j].duration, xs[j].size, xs[j].flagWord))
  }

  lemma TrexMore(xs: seq<TrexBox>, d: map<u32, Defaults>, x: TrexBox)
    requires TrexTells(xs, d)
    ensures TrexTells(xs + [x], d[x.track := Defaults(x.duration, x.size, x.flagWord)])
  {
    hide TrexBox.Written;
    var ys, e := xs + [x], d[x.track := Defaults(x.duration, x.size, x.flagWord)];
    assert ys[|xs|] == x;
    forall id
      ensures id in e <==> exists j :: 0 <= j < |ys| && ys[j].track == id
    {
      if id in d {
        var j :| 0 <= j < |xs| && xs[j].track == id;
        assert ys[j].track == id;
      }
    }
    forall j | 0 <= j < |ys| && (forall l | j < l < |ys| :: ys[l].track != ys[j].track)
      ensures ys[j].track in e && e[ys[j].track] == Defaults(ys[j].duration, ys[j].size, ys[j].flagWord)
    {
      if j < |xs| {
        assert ys[|xs|].track != ys[j].track;
        forall l | j < l < |xs|
          ensures xs[l].track != xs[j].track
        {
          assert ys[l] == xs[l];
        }
      }
    }
  }

  lemma {:induction false} MvexReads(xs: seq<TrexBox>, n: nat, d: map<u32, Defaults>)
    requires n <= |xs| && TrexTells(xs[..n], d)
    ensures var r := MvexFields(TrexBoxes(xs)[n..], d);
            r.Some? && TrexTells(xs, r.value)
    decreases |xs| - n
  {
    hide TrexTells, U32, TrexBox.Written;
    var k := TrexBoxes(xs);
    if n < |xs| {
      TrexReads(xs[n]);
      TrexMore(xs[..n], d, xs[n]);
      assert xs[..n] + [xs[n]] == xs[..n + 1] && k[n..][1..] == k[n + 1..] && k[n..][0] == k[n];
      MvexReads(xs, n + 1, d[xs[n].track := Defaults(xs[n].duration, xs[n].size, xs[n].flagWord)]);
    } else {
      assert xs[..n] == xs && k[n..] == [];
    }
  }

  // ---------- moov ----------

  /** A movie header: boxes of other kinds, the tracks, and their defaults. */
  datatype Header = Header(others: seq<Child>, traks: seq<TrakBox>, trexs: seq<TrexBox>) {
    predicate Written() {
      && (forall c | c in others :: c.kind != TRAK && c.kind != MVEX)
      && (forall b | b in traks :: b.Placed())
      && TotalSize(Kids()) <= MAX_U32
    }

    function Mvex(): Child { Child(MVEX, Emit(TrexBoxes(trexs))) }

    function Kids(): seq<Child> { others + (TrakBoxes(traks) + [Mvex()]) }

    predicate Valid() { forall b | b in traks :: b.Valid() }

    /** The track of box k, with the defaults of its last trex box, or none. */
    predicate TellsTrack(t: Track, k: nat)
      requires k < |traks|
    {
      && traks[k].Tells(t)
      && (forall j | 0 <= j < |trexs| && trexs[j].track == t.id && (forall l | j < l < |trexs| :: trexs[l].track != t.id) ::
            t.duration == trexs[j].duration && t.size == trexs[j].size && t.flags == trexs[j].flagWord)
      && ((forall j | 0 <= j < |trexs| :: trexs[j].track != t.id) ==> t.duration == 0 && t.size == 0 && t.flags == 0)
    }

    /** One track for each number, that of the last trak box with it. */
    ghost predicate Tells(tracks: map<u32, Track>) {
      && (forall id :: id in tracks <==> exists k :: 0 <= k < |traks| && traks[k].tkhd.value == id)
      && (forall k | 0 <= k < |traks| && LastTrak(traks, k) ::
            traks[k].tkhd.value in tracks && TellsTrack(tracks[traks[k].tkhd.value], k))
    }
  }

  /** No later box has its number. */
  predicate LastTrak(bs: seq<TrakBox>, k: nat)
    requires k < |bs|
  {
    forall l | k < l < |bs| :: bs[l].tkhd.value != bs[k].tkhd.value
  }

  ghost predicate TraksTell(bs: seq<TrakBox>, tracks: map<u32, Track>) {
    && (forall id :: id in tracks <==> exists k :: 0 <= k < |bs| && bs[k].tkhd.value == id)
    && (forall k | 0 <= k < |bs| && LastTrak(bs, k) ::
          bs[k].tkhd.value in tracks && bs[k].Tells(tracks[bs[k].tkhd.value]))
  }

  lemma TraksMore(bs: seq<TrakBox>, tracks: map<u32, Track>, b: TrakBox, t: Track)
    requires TraksTell(bs, tracks) && b.Tells(t)
    ensures TraksTell(bs + [b], tracks[t.id := t])
  {
    hide TrakBox.Stbl, TrakBox.Kids, Enc32;
    var cs, r := bs + [b], tracks[t.id := t];
    assert cs[|bs|] == b;
    forall id
      ensures id in r <==> exists k :: 0 <= k < |cs| && cs[k].tkhd.value == id
    {
      if id in tracks {
        var k :| 0 <= k < |bs| && bs[k].tkhd.value == id;
        assert cs[k].tkhd.value == id;
      }
    }
    forall k | 0 <= k < |cs| && LastTrak(cs, k)
      ensures cs[k].tkhd.value in r && cs[k].Tells(r[cs[k].tkhd.value])
    {
      if k < |bs| {
        assert cs[|bs|].tkhd.value != cs[k].tkhd.value;
        forall l | k < l < |bs|
          ensures bs[l].tkhd.value != bs[k].tkhd.value
        {
          assert cs[l] == bs[l];
        }
      }
    }
  }

  lemma {:induction false} OthersPass(cs: seq<Child>, n: nat, tracks: map<u32, Track>, d: map<u32, Defaults>)
    requires n <= |cs| && forall i | 0 <= i < n :: cs[i].kind != TRAK && cs[i].kind != MVEX
    ensures MoovFields(cs, tracks, d) == MoovFields(cs[n..], tracks, d)
    decreases n
  {
    if n > 0 {
      OthersPass(cs, n - 1, tracks, d);
      assert cs[n - 1..][1..] == cs[n..] && cs[n - 1..][0] == cs[n - 1];
    } else {
      assert cs[0..] == cs;
    }
  }

  /** The walk over the trak boxes from number n on. */
  lemma {:induction false} TraksRead(h: Header, n: nat, tracks: map<u32, Track>)
    requires h.Written() && n <= |h.traks| && TraksTell(h.traks[..n], tracks) && Numbered(tracks)
    requires forall i | 0 <= i < n :: h.traks[i].Valid()
    ensures var r := MoovFields((TrakBoxes(h.traks) + [h.Mvex()])[n..], tracks, map[]);
            if !h.Valid() then r == Invalid
            else exists all: map<u32, Track> :: TraksTell(h.traks, all) && r == MoovFields([h.Mvex()], all, map[])
    decreases |h.traks| - n
  {
    hide TraksTell, TrakBox.Placed, TrakBox.Kids, TrakBox.Valid, Emit, TrexBoxes, ReadTrak, TrakBox.Tells, Header.Kids;
    var k := TrakBoxes(h.traks) + [h.Mvex()];
    if n < |h.traks| {
      var b := h.traks[n];
      assert b in h.traks;
      TrakReads(b);
      assert k[n..][1..] == k[n + 1..] && k[n..][0] == k[n] == Child(TRAK, Emit(b.Kids()));
      if b.Valid() {
        var t := ReadTrak(Emit(b.Kids())).value;
        TraksMore(h.traks[..n], tracks, b, t);
        assert h.traks[..n] + [b] == h.traks[..n + 1];
        TraksRead(h, n + 1, tracks[t.id := t]);
      }
    } else {
      assert h.traks[..n] == h.traks && k[n..] == [h.Mvex()];
      AllValid(h);
    }
  }

  lemma AllValid(h: Header)
    requires forall i | 0 <= i < |h.traks| :: h.traks[i].Valid()
    ensures h.Valid()
  {
    forall b | b in h.traks
      ensures b.Valid()
    {
      var i :| 0 <= i < |h.traks| && h.traks[i] == b;
    }
  }

  lemma MvexLast(h: Header, all: map<u32, Track>)
    requires h.Written() && TraksTell(h.traks, all)
    ensures var r := MoovFields([h.Mvex()], all, map[]);
            if h.trexs == [] then r == NotFragmented else r.Read? && h.Tells(r.tracks)
  {
    hide Emit, Children, TrexBoxes, TraksTell, TrexTells, MvexFields, Header.Tells, TrakBox.Placed, TrakBox.Kids;
    TrexsFit(h);
    EmitThenWalk(TrexBoxes(h.trexs));
    NoTrex();
    var none: map<u32, Defaults> := map[];
    assert TrexBoxes(h.trexs)[0..] == TrexBoxes(h.trexs) && h.trexs[..0] == [];
    MvexReads(h.trexs, 0, none);
    var d := MvexFields(TrexBoxes(h.trexs), none).value;
    assert [h.Mvex()][1..] == [];
    assert MoovFields([h.Mvex()], all, none) == MoovFields([], all, d);
    TrexAny(h.trexs, d);
    if h.trexs != [] { InheritTells(h, all, d); }
  }

  lemma NoTrex()
    ensures TrexTells([], map[])
  {
  }

  lemma TrexAny(xs: seq<TrexBox>, d: map<u32, Defaults>)
    requires TrexTells(xs, d)
    ensures d == map[] <==> xs == []
  {
    if xs != [] {
      assert xs[0].track in d;
    } else {
      forall id ensures id !in d {
      }
    }
  }

  lemma TrexsFit(h: Header)
    requires h.Written()
    ensures TotalSize(TrexBoxes(h.trexs)) <= MAX_U32
  {
    hide Emit, TrexBoxes, TrakBoxes, TotalSize;
    var k := h.Kids();
    assert k[|k| - 1] == h.Mvex();
    ChildFits(k, |k| - 1);
  }

  lemma InheritTells(h: Header, all: map<u32, Track>, d: map<u32, Defaults>)
    requires TraksTell(h.traks, all) && TrexTells(h.trexs, d)
    ensures h.Tells(map id | id in all :: Inherit(all[id], d))
  {
    hide TrakBox.Kids, Enc32, TrexBox.Written, TrexTells, Inherit, Header.TellsTrack, TrakBox.Tells, LastTrak;
    var r := map id | id in all :: Inherit(all[id], d);
    forall k | 0 <= k < |h.traks| && LastTrak(h.traks, k)
      ensures h.traks[k].tkhd.value in r && h.TellsTrack(r[h.traks[k].tkhd.value], k)
    {
      InheritOne(h, all[h.traks[k].tkhd.value], d, k);
    }
  }

  lemma InheritOne(h: Header, t: Track, d: map<u32, Defaults>, k: nat)
    requires k < |h.traks| && h.traks[k].Tells(t) && TrexTells(h.trexs, d)
    ensures h.TellsTrack(Inherit(t, d), k)
  {
    hide TrakBox.Kids, Enc32, TrexBox.Written;
  }

  /**
   A written movie header is read as its tracks: number, timescale, kind and codec
   from the trak box, defaults from the trex box, zeros without one.  It is refused
   for a track without number or timescale, and is not fragmented without trex boxes.
   */
  lemma HeaderReads(h: Header)
    requires h.Written()
    ensures var r := ReadTracks(Emit(h.Kids()));
            if !h.Valid() then r == Invalid
            else if h.trexs == [] then r == NotFragmented
            else r.Read? && h.Tells(r.tracks)
  {
    hide Emit, Children, TrexBoxes, MoovFields, Header.Tells, TraksTell, TrakBox.Placed, TrakBox.Kids, Header.Mvex, TrakBox.Valid;
    EmitThenWalk(h.Kids());
    var k, n := h.Kids(), |h.others|;
    forall i | 0 <= i < n
      ensures k[i].kind != TRAK && k[i].kind != MVEX
    {
      assert k[i] in h.others;
    }
    OthersPass(k, n, map[], map[]);
    var rest := TrakBoxes(h.traks) + [h.Mvex()];
    assert k[n..] == rest && rest[0..] == rest && h.traks[..0] == [];
    NoTraks();
    TraksRead(h, 0, map[]);
    if h.Valid() {
      var all: map<u32, Track> :| TraksTell(h.traks, all) && ReadTracks(Emit(k)) == MoovFields([h.Mvex()], all, map[]);
      MvexLast(h, all);
    }
  }

  lemma NoTraks()
    ensures TraksTell([], map[]) && Numbered(map[])
  {
  }

  // ---------- prft ----------

  /** A producer reference of version 1: at this NTP time the track has this media time. */
  datatype PrftBox = PrftBox(bits: flags, track: u32, seconds: u32, fraction: u32, time: u64, tail: bytes) {
    function Written(): bytes {
      FullHead(1, bits) + (Enc32(track) + (Enc32(seconds) + (Enc32(fraction) + (Enc64(time) + tail))))
    }

    /** Between the years 2000 and 2100. */
    predicate Plausible() { 946684800 <= seconds - 2208988800 <= 4102444800 }
  }

  lemma PrftFields(b: PrftBox)
    ensures var p := b.Written();
            |p| >= 24 && p[0] == 1 && U32(p, 4) == b.track && U32(p, 8) == b.seconds && U32(p, 12) == b.fraction && U64(p, 16) == b.time
  {
    hide U32, Enc32, FullHead, U64, Enc64;
    var p := b.Written();
    var d := Enc64(b.time) + b.tail;
    var c := Enc32(b.fraction) + d;
    var a := Enc32(b.seconds) + c;
    HeadReads(p, 1, b.bits, Enc32(b.track) + a);
    WordReads(p, 4, b.track, a);
    WordReads(p, 8, b.seconds, c);
    WordReads(p, 12, b.fraction, d);
    WideReads(p, 16, b.time, b.tail);
  }

  /** The box a reference was written from. */
  function PrftIn(p: bytes): PrftBox
    requires |p| >= 24
  {
    PrftBox(Samples.FlagBits(p), U32(p, 4), U32(p, 8), U32(p, 12), U64(p, 16), p[24..])
  }

  lemma PrftWritten(p: bytes)
    requires |p| >= 24 && p[0] == 1
    ensures p == PrftIn(p).Written()
  {
    hide U32, Enc32, FullHead, U64, Enc64, Samples.FlagBits;
    HeadWritten(p);
    Cut(p, 0, 4, |p|);
    WordAhead(p, 4);
    WordAhead(p, 8);
    WordAhead(p, 12);
    WideWritten(p, 16);
    Cut(p, 16, 24, |p|);
  }

  lemma WordAhead(v: bytes, at: nat)
    requires at + 4 <= |v|
    ensures v[at..] == Enc32(U32(v, at)) + v[at + 4..]
  {
    hide U32, Enc32;
    WordWritten(v, at);
    Cut(v, at, at + 4, |v|);
  }

  predicate WrotePrft(p: bytes, b: PrftBox) { p == b.Written() }

  /** The wall clock in milliseconds, as near as whole ones come. */
  predicate NearestMs(ms: int, seconds: int, fraction: u32) {
    -0x1_0000_0000 <= 2 * (ms - seconds * 1000) * 0x1_0000_0000 - 2 * fraction * 1000 <= 0x1_0000_0000
  }

  lemma RoundsToNearest(n: int)
    requires 0 <= n
    ensures -0x1_0000_0000 <= 2 * RecordingIndex.RoundDiv(n, 0x1_0000_0000) * 0x1_0000_0000 - 2 * n <= 0x1_0000_0000
  {
  }

  /**
   A prft box is read as a reference exactly when it is one of version 1, of a known
   track, and of this century.
   */
  lemma ReferenceMeans(p: bytes, defaults: map<u32, Track>, e: FlatMovie.Reference)
    ensures FlatMovie.ReadReference(p, defaults) == Some(e)
            <==> e.payload == p && e.track in defaults && exists b: PrftBox :: WrotePrft(p, b) && b.Plausible() && b.track == e.track && b.time == e.value
  {
    hide U32, U64, PrftBox.Written;
    if FlatMovie.ReadReference(p, defaults) == Some(e) {
      PrftWritten(p);
      assert WrotePrft(p, PrftIn(p));
    }
    forall b: PrftBox | WrotePrft(p, b)
      ensures |p| >= 24 && p[0] == 1 && U32(p, 4) == b.track && U32(p, 8) == b.seconds && U64(p, 16) == b.time
    {
      PrftFields(b);
    }
  }

  /** The index takes the same boxes, whatever their track, and their wall clock to the nearest millisecond. */
  lemma ProducerReferenceMeans(p: bytes)
    ensures RecordingIndex.ReadProducerReference(p).SomeRef? <==> exists b: PrftBox :: WrotePrft(p, b) && b.Plausible()
    ensures forall b: PrftBox | WrotePrft(p, b) && b.Plausible() ::
              var ref := RecordingIndex.ReadProducerReference(p).ref;
              ref.track == b.track && NearestMs(ref.epochMs, b.seconds - 2208988800, b.fraction)
  {
    hide U32, U64, PrftBox.Written, RecordingIndex.RoundDiv;
    if RecordingIndex.ReadProducerReference(p).SomeRef? {
      PrftWritten(p);
      assert WrotePrft(p, PrftIn(p));
    }
    forall b: PrftBox | WrotePrft(p, b)
      ensures |p| >= 24 && p[0] == 1 && U32(p, 4) == b.track && U32(p, 8) == b.seconds && U32(p, 12) == b.fraction
    {
      PrftFields(b);
    }
    if |p| >= 24 { RoundsToNearest(U32(p, 12) * 1000); }
  }
}
