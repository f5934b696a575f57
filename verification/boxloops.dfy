/**
 movieBox, trackBox, mediaBox and flatDurationBox of
 internal/recordingmedia/flat_boxes.go: walks over a container that append each
 rewritten child to the output.
 */
module BoxLoops {
  import opened Bytes
  import opened Options
  import opened Boxes
  import opened Tracks
  import opened Samples
  import opened SampleTables
  import opened FlatScan
  import opened FlatMovie
  import opened MovieBoxes
  import opened TableLoops

  method RewriteDuration(kind: u32, p: bytes, duration: u64, scale: u32) returns (r: Option<bytes>)
    ensures r == match DurationBody(kind, p, duration, scale) case None => None case Some(b) => Some(EmitBox(kind, b))
  {
    hide U32, U64, Enc32, Enc64, EmitBox;
    if |p| < 4 || p[0] > 1 { return None; }
    var width := if p[0] == 1 then 8 else 4;
    var middle := if kind == TKHD then 8 else 4;
    var durationAt := 4 + 2 * width + middle;
    if |p| < durationAt + width { return None; }
    var out: bytes := p[..4];
    out := [1] + out[1..];
    var at := 4;
    while at < 4 + 2 * width
      invariant at == 4 || at == 4 + width || at == 4 + 2 * width
      invariant out == [1] + p[1..4] + (if at == 4 then [] else if at == 4 + width then Widened(p, 4, width) else Widened(p, 4, width) + Widened(p, 4 + width, width))
    {
      out := out + Widened(p, at, width);
      at := at + width;
    }
    ghost var head := out;
    out := out + p[4 + 2 * width..durationAt];
    assert |head| == 20;
    if scale != 0 { out := out[..20] + Enc32(scale) + out[24..]; }
    out := out + Enc64(duration) + p[durationAt + width..];
    ghost var kept := p[4 + 2 * width..durationAt];
    assert (head + kept)[..20] == head && (head + kept)[24..] == kept[4..];
    assert head == [1] + p[1..4] + (Widened(p, 4, width) + Widened(p, 4 + width, width));
    assert out == head + (if scale != 0 then Enc32(scale) + kept[4..] else kept) + Enc64(duration) + p[durationAt + width..];
    return Some(EmitBox(kind, out));
  }

  /** One of the two times, eight bytes wide. */
  function Widened(p: bytes, at: nat, width: nat): (r: bytes)
    requires at + width <= |p| && (width == 4 || width == 8)
    ensures |r| == 8
  {
    if width == 8 then Enc64(U64(p, at)) else Enc64(U32(p, at))
  }

  method EditListBox(t: FlatTrack, p: Plan) returns (b: bytes)
    ensures b == EmitBox(EDTS, EmitBox(ELST, EditBytes(t, p)))
  {
    hide Enc32, Enc64, EmitBox;
    var count := 1;
    if p.delay > 0 { count := count + 1; }
    var e: bytes := [1, 0, 0, 0] + Enc32(count);
    if p.delay > 0 { e := e + Enc64(p.delay) + Enc64(MAX_U64) + Enc32(0x1_0000); }
    e := e + Enc64(p.duration) + Enc64(Wrap64(t.minPTS - t.firstDTS + p.shift)) + Enc32(0x1_0000);
    assert e == EditBytes(t, p);
    return EmitBox(EDTS, EmitBox(ELST, e));
  }

  function Contents(cs: Option<seq<Child>>): Option<bytes> {
    if cs.None? then None else Some(Emit(cs.value))
  }

  function MediaContents(t: FlatTrack, p: Plan, data: bytes, delta: int): Option<bytes> {
    match Children(data)
    case None => None
    case Some(cs) => Contents(MediaChildren(t, p, cs, delta))
  }

  method MediaBox(t: FlatTrack, p: Plan, data: bytes, delta: int) returns (r: Option<bytes>)
    ensures r == MediaContents(t, p, data, delta)
    decreases |data|, 1
  {
    hide EmitBox, DurationBody, StblChildren, MediaChild;
    var walked := WalkChildren(data);
    if walked.None? { return None; }
    var cs := walked.value;
    InnerSmaller(data);
    ghost var kept: seq<Child> := [];
    var out := [];
    PrependMore([], Child(0, []), MediaChildren(t, p, cs, delta));
    assert cs[0..] == cs;
    for i := 0 to |cs|
      invariant MediaChildren(t, p, cs, delta) == Prepend(kept, MediaChildren(t, p, cs[i..], delta))
      invariant out == Emit(kept)
    {
      assert cs[i..][1..] == cs[i + 1..] && cs[i..][0] == cs[i];
      ChildFits(cs, i);
      var b := MediaPart(t, p, cs[i], delta);
      if b.None? { return None; }
      ghost var c := MediaChild(t, p, cs[i], delta).value;
      EmitMore(kept, c);
      PrependAll(kept, [c], MediaChildren(t, p, cs[i + 1..], delta));
      kept := kept + [c];
      out := out + b.value;
    }
    PrependMore(kept, Child(0, []), None);
    return Some(out);
  }

  /** The switch in mediaBox. */
  method MediaPart(t: FlatTrack, p: Plan, c: Child, delta: int) returns (b: Option<bytes>)
    ensures b == match MediaChild(t, p, c, delta) case None => None case Some(r) => Some(EmitBox(r.kind, r.body))
    decreases |c.body|, 2
  {
    hide EmitBox, DurationBody, StblBody, MediaChildren, Emit;
    if c.kind == MDHD {
      b := RewriteDuration(MDHD, c.body, Wrap64(t.nextDTS - t.firstDTS), 0);
    } else if c.kind == MINF {
      var inner := MediaBox(t, p, c.body, delta);
      b := if inner.None? then None else Some(EmitBox(MINF, inner.value));
    } else if c.kind == STBL {
      var stbl := StblBox(t, p, c.body, delta);
      b := if stbl.None? then None else Some(EmitBox(STBL, stbl.value));
    } else {
      b := Some(EmitBox(c.kind, c.body));
    }
  }

  method StblBox(t: FlatTrack, p: Plan, v: bytes, delta: int) returns (r: Option<bytes>)
    ensures r == StblBody(t, p, v, delta)
  {
    hide StblChildren, Emit;
    var inner := WalkChildren(v);
    if inner.None? { return None; }
    r := EncodeStbl(inner.value, t.info.video, t.Samples(), t.Chunks(), p.shift, delta);
  }

  function TrackContents(t: FlatTrack, p: Plan, data: bytes, delta: int): Option<bytes> {
    match Children(data)
    case None => None
    case Some(cs) => Contents(TrackChildren(t, p, cs, delta))
  }

  method TrackBox(t: FlatTrack, p: Plan, data: bytes, delta: int) returns (r: Option<bytes>)
    ensures r == TrackContents(t, p, data, delta)
  {
    hide EmitBox, DurationBody, MediaChildren, EditBytes;
    var walked := WalkChildren(data);
    if walked.None? { return None; }
    var cs := walked.value;
    ghost var kept: seq<Child> := [];
    var out := [];
    PrependMore([], Child(0, []), TrackChildren(t, p, cs, delta));
    assert cs[0..] == cs;
    for i := 0 to |cs|
      invariant TrackChildren(t, p, cs, delta) == Prepend(kept, TrackChildren(t, p, cs[i..], delta))
      invariant out == Emit(kept)
    {
      assert cs[i..][1..] == cs[i + 1..] && cs[i..][0] == cs[i];
      var b := TrackPart(t, p, cs[i], delta);
      if b.None? { return None; }
      ghost var c := TrackChild(t, p, cs[i], delta).value;
      EmitConcat(kept, c);
      PrependAll(kept, c, TrackChildren(t, p, cs[i + 1..], delta));
      kept := kept + c;
      out := out + b.value;
    }
    PrependMore(kept, Child(0, []), None);
    return Some(out);
  }

  lemma PrependAll(out: seq<Child>, c: seq<Child>, rest: Option<seq<Child>>)
    ensures rest.Some? ==> Prepend(out, Some(c + rest.value)) == Prepend(out + c, rest)
    ensures rest.None? ==> Prepend(out + c, rest) == None
  {
    if rest.Some? { assert out + (c + rest.value) == out + c + rest.value; }
  }

  lemma EmitOne(c: Child)
    ensures Emit([c]) == EmitBox(c.kind, c.body)
  {
    hide EmitBox;
    assert [c][1..] == [] && EmitBox(c.kind, c.body) + [] == EmitBox(c.kind, c.body);
  }

  /** The switch in trackBox. */
  method TrackPart(t: FlatTrack, p: Plan, c: Child, delta: int) returns (b: Option<bytes>)
    ensures b == Contents(TrackChild(t, p, c, delta))
  {
    hide EmitBox, DurationBody, MediaChildren, EditBytes, Emit;
    if c.kind == TKHD {
      var header := RewriteDuration(TKHD, c.body, Wrap64(p.delay + p.duration), 0);
      if header.None? { return None; }
      var edit := EditListBox(t, p);
      ghost var parts := TrackChild(t, p, c, delta).value;
      EmitConcat([parts[0]], [parts[1]]);
      EmitOne(parts[0]);
      EmitOne(parts[1]);
      assert [parts[0]] + [parts[1]] == parts;
      return Some(header.value + edit);
    }
    if c.kind == EDTS { return None; }
    if c.kind == MDIA {
      var media := MediaBox(t, p, c.body, delta);
      if media.None? { return None; }
      EmitOne(Child(MDIA, media.value));
      return Some(EmitBox(MDIA, media.value));
    }
    EmitOne(c);
    return Some(EmitBox(c.kind, c.body));
  }

  /** The walk that finds a trak's track number; a later tkhd overrides an earlier one. */
  method FindNumber(data: bytes) returns (id: Option<u32>)
    ensures id == match Children(data) case None => None case Some(cs) => TrakNumber(cs, 0)
  {
    hide U32;
    var walked := WalkChildren(data);
    if walked.None? { return None; }
    var cs := walked.value;
    var n: u32 := 0;
    assert cs[0..] == cs;
    for i := 0 to |cs|
      invariant TrakNumber(cs, 0) == TrakNumber(cs[i..], n)
    {
      assert cs[i..][1..] == cs[i + 1..] && cs[i..][0] == cs[i];
      if cs[i].kind == TKHD {
        if |cs[i].body| < HeaderField(cs[i].body) + 4 { return None; }
        n := U32(cs[i].body, HeaderField(cs[i].body));
      }
    }
    return Some(n);
  }

  method MoviePart(m: Movie, c: Child, delta: int) returns (b: Option<bytes>)
    ensures b == Contents(MovieChild(m, c, delta))
  {
    hide EmitBox, DurationBody, TrackChildren, TrakNumber, Emit;
    NothingEmitted();
    if c.kind == MVHD {
      b := RewriteDuration(MVHD, c.body, m.duration, MOVIE_SCALE);
      if b.Some? { EmitOne(MovieChild(m, c, delta).value[0]); }
      return;
    }
    if c.kind == MVEX { return Some([]); }
    if c.kind == TRAK {
      var id := FindNumber(c.body);
      if id.None? || id.value !in m.tracks { return None; }
      var t := m.tracks[id.value];
      if t.pieces == [] || id.value !in m.plans { return Some([]); }
      var trak := TrackBox(t, m.plans[id.value], c.body, delta);
      if trak.None? { return None; }
      EmitOne(Child(TRAK, trak.value));
      return Some(EmitBox(TRAK, trak.value));
    }
    EmitOne(c);
    return Some(EmitBox(c.kind, c.body));
  }

  lemma NothingEmitted()
    ensures Emit([]) == []
  {
  }

  /** movieBox. */
  method MovieBox(m: Movie, delta: int) returns (r: Option<bytes>)
    ensures r == match NewMovie(m, delta) case None => None case Some(cs) => Some(EmitBox(MOOV, Emit(cs)))
  {
    hide EmitBox, MovieChild;
    var walked := WalkChildren(m.metadata);
    if walked.None? { return None; }
    var cs := walked.value;
    ghost var kept: seq<Child> := [];
    var out := [];
    PrependMore([], Child(0, []), MovieChildren(m, cs, delta));
    assert cs[0..] == cs;
    for i := 0 to |cs|
      invariant MovieChildren(m, cs, delta) == Prepend(kept, MovieChildren(m, cs[i..], delta))
      invariant out == Emit(kept)
    {
      assert cs[i..][1..] == cs[i + 1..] && cs[i..][0] == cs[i];
      var b := MoviePart(m, cs[i], delta);
      if b.None? { return None; }
      ghost var c := MovieChild(m, cs[i], delta).value;
      EmitConcat(kept, c);
      PrependAll(kept, c, MovieChildren(m, cs[i + 1..], delta));
      kept := kept + c;
      out := out + b.value;
    }
    PrependMore(kept, Child(0, []), None);
    if |out| > MAX_METADATA { return None; }
    return Some(EmitBox(MOOV, out));
  }
}
