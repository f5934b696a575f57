/** The emitted movie header read back by the program's own header parser. */
module Reread {
  import opened Bytes
  import opened Options
  import opened Boxes
  import opened Tracks
  import opened Samples
  import opened SampleTables
  import opened FlatScan
  import opened FlatMovie
  import opened MovieBoxes

  /** A widened header still carries its track number or timescale, where version 1 keeps it. */
  lemma WidenedField(kind: u32, p: bytes, duration: u64)
    requires DurationBody(kind, p, duration, 0).Some?
    ensures var r := DurationBody(kind, p, duration, 0).value;
            && |p| >= HeaderField(p) + 4
            && |r| >= 24 && r[0] == 1
            && U32(r, 20) == U32(p, HeaderField(p))
  {
    hide U32, U64, Enc32, Enc64;
    var r := DurationBody(kind, p, duration, 0).value;
    var width := if p[0] == 1 then 8 else 4;
    var at := 4 + 2 * width + if kind == TKHD then 8 else 4;
    var times := if width == 8 then Enc64(U64(p, 4)) + Enc64(U64(p, 12)) else Enc64(U32(p, 4)) + Enc64(U32(p, 8));
    var head := [1] + p[1..4] + times;
    var middle := p[4 + 2 * width..at];
    assert |head| == 20;
    assert r == head + middle + (Enc64(duration) + p[at + width..]);
    assert r[20..24] == middle[0..4];
    SliceSlice(p, 4 + 2 * width, at, 0, 4);
    SameField32(r, 20, p, HeaderField(p));
  }

  /** Creation and modification times are those of the old header, and so is what follows them up to the duration, but for a new timescale. */
  predicate HeadKept(kind: u32, p: bytes, r: bytes, scale: u32) {
    var w, more := if |p| > 0 && p[0] == 1 then 8 else 4, if kind == TKHD then 8 else 4;
    && |p| >= 4 + 2 * w + more && |r| >= 20 + more
    && U64(r, 4) == (if w == 8 then U64(p, 4) else U32(p, 4)) && U64(r, 12) == (if w == 8 then U64(p, 12) else U32(p, 8))
    && (scale == 0 ==> r[20..20 + more] == p[4 + 2 * w..4 + 2 * w + more])
    && (scale != 0 ==> r[24..20 + more] == p[8 + 2 * w..4 + 2 * w + more])
  }

  /** A rewritten header keeps its times, widened to 64 bits, and its track number, language or rate fields. */
  lemma HeadIsKept(kind: u32, p: bytes, duration: u64, scale: u32)
    requires DurationBody(kind, p, duration, scale).Some?
    ensures HeadKept(kind, p, DurationBody(kind, p, duration, scale).value, scale)
  {
    hide U32, U64, Enc32, Enc64;
    var r := DurationBody(kind, p, duration, scale).value;
    var width, more := if p[0] == 1 then 8 else 4, if kind == TKHD then 8 else 4;
    var a := Enc64(if width == 8 then U64(p, 4) else U32(p, 4));
    var b := Enc64(if width == 8 then U64(p, 12) else U32(p, 8));
    var middle := p[4 + 2 * width..4 + 2 * width + more];
    var fields := if scale != 0 then Enc32(scale) + middle[4..] else middle;
    assert |fields| == more;
    FieldsOf(r, [1] + p[1..4], a, b, fields, Enc64(duration) + p[4 + 2 * width + more + width..]);
    Field64(r, 4, a);
    Field64(r, 12, b);
    if scale != 0 { MiddleKept(r, fields, middle, scale, more); }
  }

  lemma FieldsOf(r: bytes, head: bytes, a: bytes, b: bytes, fields: bytes, rest: bytes)
    requires |head| == 4 && |a| == 8 && |b| == 8 && r == head + (a + b) + fields + rest
    ensures r[4..12] == a && r[12..20] == b && r[20..20 + |fields|] == fields
  {
  }

  lemma MiddleKept(r: bytes, fields: bytes, middle: bytes, scale: u32, more: nat)
    requires 4 <= more && 20 + more <= |r| && |middle| == more && fields == Enc32(scale) + middle[4..] && r[20..20 + more] == fields
    ensures r[24..20 + more] == middle[4..]
  {
    hide Enc32;
    SliceSlice(r, 20, 20 + more, 4, more);
  }

  /** The rewritten header carries the new duration, in 64 bits, and the new timescale where one was given; its flags and everything behind the duration stay. */
  lemma DurationReads(kind: u32, p: bytes, duration: u64, scale: u32)
    requires DurationBody(kind, p, duration, scale).Some?
    ensures var r := DurationBody(kind, p, duration, scale).value;
            var at := if kind == TKHD then 28 else 24;
            && |r| >= at + 8 && r[0] == 1 && U64(r, at) == duration
            && (scale != 0 ==> U32(r, 20) == scale)
            && var behind := if p[0] == 1 then at + 8 else at - 4;
               r[1..4] == p[1..4] && behind <= |p| && r[at + 8..] == p[behind..]
  {
    hide U32, U64, Enc32, Enc64;
    var r := DurationBody(kind, p, duration, scale).value;
    var width := if p[0] == 1 then 8 else 4;
    var at := 4 + 2 * width + if kind == TKHD then 8 else 4;
    var times := if width == 8 then Enc64(U64(p, 4)) + Enc64(U64(p, 12)) else Enc64(U32(p, 4)) + Enc64(U32(p, 8));
    var middle := p[4 + 2 * width..at];
    var fields := if scale != 0 then Enc32(scale) + middle[4..] else middle;
    var head := [1] + p[1..4] + times;
    assert |head| == 20 && |fields| == (if kind == TKHD then 8 else 4);
    assert r == head + fields + Enc64(duration) + p[at + width..];
    assert r[20 + |fields|..28 + |fields|] == Enc64(duration);
    Field64(r, 20 + |fields|, Enc64(duration));
    if scale != 0 {
      assert r[20..24] == Enc32(scale);
      Field32(r, 20, Enc32(scale));
    }
  }

  lemma {:induction false} StblReads(initial: seq<Child>, tables: seq<Child>, x: Track)
    requires Descriptions(initial).Some? && StblFields(initial, x).Some?
    requires forall c | c in tables :: c.kind != STSD
    ensures StblFields(Descriptions(initial).value + tables, x) == StblFields(initial, x)
    decreases |initial|
  {
    if initial == [] {
      OtherTables(tables, x);
      assert [] + tables == tables;
    } else if initial[0].kind == STSD {
      var x' := x.(codec := initial[0].body[12..16]);
      StblReads(initial[1..], tables, x');
      var rest := Descriptions(initial[1..]).value;
      assert ([initial[0]] + rest + tables)[1..] == rest + tables;
    } else {
      StblReads(initial[1..], tables, x);
    }
  }

  lemma {:induction false} OtherTables(tables: seq<Child>, x: Track)
    requires forall c | c in tables :: c.kind != STSD
    ensures StblFields(tables, x) == Some(x)
    decreases |tables|
  {
    if tables != [] { OtherTables(tables[1..], x); }
  }

  lemma NewStblReads(t: FlatTrack, p: Plan, v: bytes, delta: int, x: Track)
    requires StblBody(t, p, v, delta).Some? && |StblBody(t, p, v, delta).value| <= MAX_U32
    requires StblFields(Children(v).value, x).Some?
    ensures var b := StblBody(t, p, v, delta).value;
            Children(b).Some? && StblFields(Children(b).value, x) == StblFields(Children(v).value, x)
  {
    hide SttsBody, CttsBody, StssBody, StszBody, StscBody, Co64Body, ChildrenFrom, StblFields, Emit;
    var initial := Children(v).value;
    var tables := Tables(t.info.video, t.Samples(), t.Chunks(), p.shift, delta);
    EmitThenWalk(StblChildren(initial, t.info.video, t.Samples(), t.Chunks(), p.shift, delta).value);
    StblReads(initial, tables, x);
  }

  lemma {:induction false} MinfReads(t: FlatTrack, p: Plan, cs: seq<Child>, delta: int, x: Track)
    requires MediaChildren(t, p, cs, delta).Some? && TotalSize(MediaChildren(t, p, cs, delta).value) <= MAX_U32
    requires MinfFields(cs, x).Some?
    ensures MinfFields(MediaChildren(t, p, cs, delta).value, x) == MinfFields(cs, x)
    decreases |cs|
  {
    hide StblBody, DurationBody, StblFields;
    if cs != [] {
      var c' := MediaChild(t, p, cs[0], delta).value;
      var r, rest := MediaChildren(t, p, cs, delta).value, MediaChildren(t, p, cs[1..], delta).value;
      assert r[0] == c' && r[1..] == rest;
      if cs[0].kind == STBL {
        var x' := StblFields(Children(cs[0].body).value, x).value;
        NewStblReads(t, p, cs[0].body, delta, x);
        MinfReads(t, p, cs[1..], delta, x');
      } else {
        MinfReads(t, p, cs[1..], delta, x);
      }
    }
  }

  lemma MdiaFieldReads(t: FlatTrack, p: Plan, c: Child, delta: int, x: Track)
    requires MediaChild(t, p, c, delta).Some? && 8 + |MediaChild(t, p, c, delta).value.body| <= MAX_U32
    requires MdiaField(c, x).Some?
    ensures MdiaField(MediaChild(t, p, c, delta).value, x) == MdiaField(c, x)
  {
    hide StblBody, DurationBody, MinfFields, MediaChildren, Emit, U32;
    if c.kind == MDHD {
      WidenedField(MDHD, c.body, Wrap64(t.nextDTS - t.firstDTS));
    } else if c.kind == MINF {
      var inner := Children(c.body).value;
      EmitThenWalk(MediaChildren(t, p, inner, delta).value);
      MinfReads(t, p, inner, delta, x);
    }
  }

  lemma {:induction false} MdiaReads(t: FlatTrack, p: Plan, cs: seq<Child>, delta: int, x: Track)
    requires MediaChildren(t, p, cs, delta).Some? && TotalSize(MediaChildren(t, p, cs, delta).value) <= MAX_U32
    requires MdiaFields(cs, x).Some?
    ensures MdiaFields(MediaChildren(t, p, cs, delta).value, x) == MdiaFields(cs, x)
    decreases |cs|
  {
    hide MdiaField, MediaChild;
    if cs != [] {
      var r := MediaChildren(t, p, cs, delta).value;
      assert r[0] == MediaChild(t, p, cs[0], delta).value && r[1..] == MediaChildren(t, p, cs[1..], delta).value;
      MdiaFieldReads(t, p, cs[0], delta, x);
      MdiaReads(t, p, cs[1..], delta, MdiaField(cs[0], x).value);
    }
  }

  lemma TrakFieldsConcat(a: seq<Child>, b: seq<Child>, x: Track)
    requires TrakFields(a, x).Some?
    ensures TrakFields(a + b, x) == TrakFields(b, TrakFields(a, x).value)
    decreases |a|
  {
    if a == [] {
      assert a + b == b;
    } else {
      assert (a + b)[1..] == a[1..] + b;
      TrakFieldsConcat(a[1..], b, TrakField(a[0], x).value);
    }
  }

  lemma TrakFieldReads(t: FlatTrack, p: Plan, c: Child, delta: int, x: Track)
    requires TrackChild(t, p, c, delta).Some? && TotalSize(TrackChild(t, p, c, delta).value) <= MAX_U32
    requires TrakField(c, x).Some?
    ensures TrakFields(TrackChild(t, p, c, delta).value, x) == TrakField(c, x)
  {
    hide DurationBody, MdiaFields, MediaChildren, Emit, U32, EditBytes;
    var r := TrackChild(t, p, c, delta).value;
    OneTrakField(r[0], x);
    if c.kind == TKHD {
      WidenedField(TKHD, c.body, Wrap64(p.delay + p.duration));
      TrakFieldsConcat([r[0]], [EditBox(t, p)], x);
      OneTrakField(EditBox(t, p), TrakField(c, x).value);
    } else if c.kind == MDIA {
      var inner := Children(c.body).value;
      EmitThenWalk(MediaChildren(t, p, inner, delta).value);
      MdiaReads(t, p, inner, delta, x);
    }
  }

  lemma OneTrakField(c: Child, x: Track)
    ensures TrakFields([c], x) == TrakField(c, x)
  {
    assert [c][1..] == [];
  }

  /** A rewritten trak box still says everything the parser reads from it. */
  lemma {:induction false} TrakReads(t: FlatTrack, p: Plan, cs: seq<Child>, delta: int, x: Track)
    requires TrackChildren(t, p, cs, delta).Some? && TotalSize(TrackChildren(t, p, cs, delta).value) <= MAX_U32
    requires TrakFields(cs, x).Some?
    ensures TrakFields(TrackChildren(t, p, cs, delta).value, x) == TrakFields(cs, x)
    decreases |cs|
  {
    hide TrakField, TrackChild;
    if cs != [] {
      var a, b := TrackChild(t, p, cs[0], delta).value, TrackChildren(t, p, cs[1..], delta).value;
      EmitConcat(a, b);
      TrakFieldReads(t, p, cs[0], delta, x);
      TrakFieldsConcat(a, b, x);
      TrakReads(t, p, cs[1..], delta, TrakField(cs[0], x).value);
    }
  }

  lemma NewTrakReads(m: Movie, c: Child, delta: int)
    requires c.kind == TRAK && ReadTrak(c.body).Some?
    requires MovieChild(m, c, delta).Some? && MovieChild(m, c, delta).value != []
    requires TotalSize(MovieChild(m, c, delta).value) <= MAX_U32
    ensures |MovieChild(m, c, delta).value| == 1 && MovieChild(m, c, delta).value[0].kind == TRAK
    ensures ReadTrak(MovieChild(m, c, delta).value[0].body) == ReadTrak(c.body)
  {
    hide TrackChildren, TrakFields, TrakNumber, Emit;
    var inner := Children(c.body).value;
    var id := TrakNumber(inner, 0).value;
    var cs := TrackChildren(m.tracks[id], m.plans[id], inner, delta).value;
    EmitThenWalk(cs);
    TrakReads(m.tracks[id], m.plans[id], inner, delta, BLANK);
  }

  /** No track defaults are left, so the parser calls the new header not fragmented. */
  lemma {:induction false} NewMovieReads(m: Movie, cs: seq<Child>, delta: int, tracks: map<u32, Track>, d: map<u32, Defaults>, seen: map<u32, Track>)
    requires MovieChildren(m, cs, delta).Some? && TotalSize(MovieChildren(m, cs, delta).value) <= MAX_U32
    requires !MoovFields(cs, tracks, d).Invalid?
    ensures MoovFields(MovieChildren(m, cs, delta).value, seen, map[]) == NotFragmented
    decreases |cs|
  {
    hide MovieChild, ReadTrak, MvexFields;
    if cs != [] {
      var a, b := MovieChild(m, cs[0], delta).value, MovieChildren(m, cs[1..], delta).value;
      EmitConcat(a, b);
      MovieChildShape(m, cs[0], delta);
      if a != [] { assert (a + b)[0] == a[0] && (a + b)[1..] == b; } else { assert a + b == b; }
      if cs[0].kind == TRAK {
        var t := ReadTrak(cs[0].body).value;
        if a != [] {
          NewTrakReads(m, cs[0], delta);
          NewMovieReads(m, cs[1..], delta, tracks[t.id := t], d, seen[t.id := t]);
        } else {
          NewMovieReads(m, cs[1..], delta, tracks[t.id := t], d, seen);
        }
      } else if cs[0].kind == MVEX {
        NewMovieReads(m, cs[1..], delta, tracks, MvexFields(Children(cs[0].body).value, d).value, seen);
      } else {
        NewMovieReads(m, cs[1..], delta, tracks, d, seen);
      }
    }
  }

  lemma MovieChildShape(m: Movie, c: Child, delta: int)
    requires MovieChild(m, c, delta).Some?
    ensures var r := MovieChild(m, c, delta).value;
            && |r| <= 1
            && (r != [] ==> r[0].kind == c.kind && c.kind != MVEX)
            && (r == [] ==> c.kind == MVEX || c.kind == TRAK)
  {
    hide TrackChildren, DurationBody, TrakNumber, Emit;
  }
}
