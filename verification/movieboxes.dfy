/** The new movie header of internal/recordingmedia/flat_boxes.go, as a transformation of box trees. */
module MovieBoxes {
  import opened Bytes
  import opened Options
  import opened Boxes
  import opened Tracks
  import opened Samples
  import opened Fragments
  import opened SampleTables
  import opened FlatScan
  import opened FlatMovie

  /** The duration header of version 1: times and duration widened, everything else kept. */
  function DurationBody(kind: u32, p: bytes, duration: u64, scale: u32): Option<bytes> {
    if |p| < 4 || p[0] > 1 then None
    else
      var width := if p[0] == 1 then 8 else 4;
      var at := 4 + 2 * width + if kind == TKHD then 8 else 4;
      if |p| < at + width then None
      else
        var times := if width == 8 then Enc64(U64(p, 4)) + Enc64(U64(p, 12)) else Enc64(U32(p, 4)) + Enc64(U32(p, 8));
        var middle := p[4 + 2 * width..at];
        Some([1] + p[1..4] + times + (if scale != 0 then Enc32(scale) + middle[4..] else middle) + Enc64(duration) + p[at + width..])
  }

  function EditBytes(t: FlatTrack, p: Plan): bytes {
    [1, 0, 0, 0] + Enc32(if p.delay > 0 then 2 else 1)
    + (if p.delay > 0 then Enc64(p.delay) + Enc64(MAX_U64) + Enc32(0x1_0000) else [])
    + Enc64(p.duration) + Enc64(Wrap64(t.minPTS - t.firstDTS + p.shift)) + Enc32(0x1_0000)
  }

  function EditBox(t: FlatTrack, p: Plan): Child {
    Child(EDTS, EmitBox(ELST, EditBytes(t, p)))
  }

  function StblBody(t: FlatTrack, p: Plan, v: bytes, delta: int): Option<bytes> {
    var inner :- Children(v);
    var cs :- StblChildren(inner, t.info.video, t.Samples(), t.Chunks(), p.shift, delta);
    Some(Emit(cs))
  }

  lemma InnerSmaller(v: bytes)
    ensures Children(v).Some? ==> TotalSize(Children(v).value) <= |v|
  {
    ChildrenFit(v, 0);
  }

  /** One child of an mdia or minf box. */
  function MediaChild(t: FlatTrack, p: Plan, c: Child, delta: int): (r: Option<Child>)
    ensures r.Some? ==> r.value.kind == c.kind
    decreases |c.body| + 8, 0
  {
    if c.kind == MDHD then
      var b :- DurationBody(MDHD, c.body, Wrap64(t.nextDTS - t.firstDTS), 0);
      Some(Child(MDHD, b))
    else if c.kind == MINF then
      InnerSmaller(c.body);
      var inner :- Children(c.body);
      var cs :- MediaChildren(t, p, inner, delta);
      Some(Child(MINF, Emit(cs)))
    else if c.kind == STBL then
      var b :- StblBody(t, p, c.body, delta);
      Some(Child(STBL, b))
    else Some(c)
  }

  function MediaChildren(t: FlatTrack, p: Plan, cs: seq<Child>, delta: int): (r: Option<seq<Child>>)
    ensures r.Some? ==> |r.value| == |cs|
    decreases TotalSize(cs), 1
  {
    if cs == [] then Some([])
    else
      var c :- MediaChild(t, p, cs[0], delta);
      var rest :- MediaChildren(t, p, cs[1..], delta);
      Some([c] + rest)
  }

  function TrackChild(t: FlatTrack, p: Plan, c: Child, delta: int): Option<seq<Child>> {
    if c.kind == TKHD then
      var b :- DurationBody(TKHD, c.body, Wrap64(p.delay + p.duration), 0);
      Some([Child(TKHD, b), EditBox(t, p)])
    else if c.kind == EDTS then None
    else if c.kind == MDIA then
      var inner :- Children(c.body);
      var cs :- MediaChildren(t, p, inner, delta);
      Some([Child(MDIA, Emit(cs))])
    else Some([c])
  }

  function TrackChildren(t: FlatTrack, p: Plan, cs: seq<Child>, delta: int): Option<seq<Child>> {
    if cs == [] then Some([])
    else
      var c :- TrackChild(t, p, cs[0], delta);
      var rest :- TrackChildren(t, p, cs[1..], delta);
      Some(c + rest)
  }

  /** The track number in a trak box: that of its last tkhd, zero without one. */
  function TrakNumber(cs: seq<Child>, id: u32): Option<u32> {
    if cs == [] then Some(id)
    else if cs[0].kind == TKHD then
      if |cs[0].body| < HeaderField(cs[0].body) + 4 then None
      else TrakNumber(cs[1..], U32(cs[0].body, HeaderField(cs[0].body)))
    else TrakNumber(cs[1..], id)
  }

  function MovieChild(m: Movie, c: Child, delta: int): Option<seq<Child>> {
    if c.kind == MVHD then
      var b :- DurationBody(MVHD, c.body, m.duration, MOVIE_SCALE);
      Some([Child(MVHD, b)])
    else if c.kind == MVEX then Some([])
    else if c.kind == TRAK then
      var inner :- Children(c.body);
      var id :- TrakNumber(inner, 0);
      if id !in m.tracks then None
      else if m.tracks[id].pieces == [] || id !in m.plans then Some([])
      else
        var cs :- TrackChildren(m.tracks[id], m.plans[id], inner, delta);
        Some([Child(TRAK, Emit(cs))])
    else Some([c])
  }

  function MovieChildren(m: Movie, cs: seq<Child>, delta: int): Option<seq<Child>> {
    if cs == [] then Some([])
    else
      var c :- MovieChild(m, cs[0], delta);
      var rest :- MovieChildren(m, cs[1..], delta);
      Some(c + rest)
  }

  /** The children of the new moov box; None where movieBox reports an error. */
  function NewMovie(m: Movie, delta: int): (r: Option<seq<Child>>)
    ensures r.Some? ==> TotalSize(r.value) <= MAX_METADATA
  {
    var inner :- Children(m.metadata);
    var cs :- MovieChildren(m, inner, delta);
    if TotalSize(cs) > MAX_METADATA then None else Some(cs)
  }

  // ---------- two passes ----------

  lemma {:induction false} MediaSizeIgnoresDelta(t: FlatTrack, p: Plan, cs: seq<Child>, d: int, e: int)
    requires MediaChildren(t, p, cs, d).Some? && MediaChildren(t, p, cs, e).Some?
    ensures TotalSize(MediaChildren(t, p, cs, d).value) == TotalSize(MediaChildren(t, p, cs, e).value)
    decreases TotalSize(cs), 1
  {
    if cs != [] {
      MediaChildSizeIgnoresDelta(t, p, cs[0], d, e);
      MediaSizeIgnoresDelta(t, p, cs[1..], d, e);
    }
  }

  lemma {:induction false} MediaChildSizeIgnoresDelta(t: FlatTrack, p: Plan, c: Child, d: int, e: int)
    requires MediaChild(t, p, c, d).Some? && MediaChild(t, p, c, e).Some?
    ensures |MediaChild(t, p, c, d).value.body| == |MediaChild(t, p, c, e).value.body|
    decreases |c.body| + 8, 0
  {
    hide DurationBody, StblChildren;
    if c.kind == MINF {
      InnerSmaller(c.body);
      MediaSizeIgnoresDelta(t, p, Children(c.body).value, d, e);
    } else if c.kind == STBL {
      SizeIgnoresDelta(Children(c.body).value, t.info.video, t.Samples(), t.Chunks(), p.shift, d, e);
    }
  }

  lemma {:induction false} TrackSizeIgnoresDelta(t: FlatTrack, p: Plan, cs: seq<Child>, d: int, e: int)
    requires TrackChildren(t, p, cs, d).Some? && TrackChildren(t, p, cs, e).Some?
    ensures TotalSize(TrackChildren(t, p, cs, d).value) == TotalSize(TrackChildren(t, p, cs, e).value)
    decreases |cs|
  {
    hide DurationBody, MediaChildren, EditBox;
    if cs != [] {
      TrackSizeIgnoresDelta(t, p, cs[1..], d, e);
      EmitConcat(TrackChild(t, p, cs[0], d).value, TrackChildren(t, p, cs[1..], d).value);
      EmitConcat(TrackChild(t, p, cs[0], e).value, TrackChildren(t, p, cs[1..], e).value);
      if cs[0].kind == MDIA { MediaSizeIgnoresDelta(t, p, Children(cs[0].body).value, d, e); }
    }
  }

  lemma MovieChildSizeIgnoresDelta(m: Movie, c: Child, d: int, e: int)
    requires MovieChild(m, c, d).Some? && MovieChild(m, c, e).Some?
    ensures TotalSize(MovieChild(m, c, d).value) == TotalSize(MovieChild(m, c, e).value)
  {
    hide DurationBody, TrackChildren, TrakNumber;
    if c.kind == TRAK && MovieChild(m, c, d).value != [] {
      var inner := Children(c.body).value;
      var id := TrakNumber(inner, 0).value;
      TrackSizeIgnoresDelta(m.tracks[id], m.plans[id], inner, d, e);
    }
  }

  lemma {:induction false} MovieSizeIgnoresDelta(m: Movie, cs: seq<Child>, d: int, e: int)
    requires MovieChildren(m, cs, d).Some? && MovieChildren(m, cs, e).Some?
    ensures TotalSize(MovieChildren(m, cs, d).value) == TotalSize(MovieChildren(m, cs, e).value)
    decreases |cs|
  {
    hide MovieChild;
    if cs != [] {
      MovieChildSizeIgnoresDelta(m, cs[0], d, e);
      MovieSizeIgnoresDelta(m, cs[1..], d, e);
      EmitConcat(MovieChild(m, cs[0], d).value, MovieChildren(m, cs[1..], d).value);
      EmitConcat(MovieChild(m, cs[0], e).value, MovieChildren(m, cs[1..], e).value);
    }
  }

  /** The size of the new movie header does not depend on the offsets it holds: the first pass measures the second. */
  lemma LayoutFixpoint(m: Movie, d: int, e: int)
    requires NewMovie(m, d).Some? && NewMovie(m, e).Some?
    ensures |Emit(NewMovie(m, d).value)| == |Emit(NewMovie(m, e).value)|
  {
    MovieSizeIgnoresDelta(m, Children(m.metadata).value, d, e);
  }
}
