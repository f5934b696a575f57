/** When the emitter of internal/recordingmedia/flat_boxes.go can write a movie header: a condition on each box of the old one. */
module Layout {
  import opened Bytes
  import opened Options
  import opened Boxes
  import opened Tracks
  import opened Samples
  import opened SampleTables
  import opened FlatScan
  import opened FlatMovie
  import opened MovieBoxes

  // ---------- sample tables ----------

  /** A table box that is there but holds no entry. */
  predicate EmptyTable(c: Child) {
    if c.kind == STTS || c.kind == CTTS || c.kind == STSC || c.kind == STCO || c.kind == CO64 || c.kind == STSS then
      |c.body| >= 8 && U32(c.body, 4) == 0
    else if c.kind == STSZ then |c.body| >= 12 && U32(c.body, 8) == 0
    else c.kind == FREE
  }

  predicate OneDescription(c: Child) { c.kind == STSD && |c.body| >= 8 && U32(c.body, 4) == 1 }

  /** A stbl of a fragmented movie: one sample description, and no samples. */
  predicate Blank(cs: seq<Child>) {
    (exists c | c in cs :: c.kind == STSD) && forall c | c in cs :: OneDescription(c) || EmptyTable(c)
  }

  /** All composition offsets fit one version of ctts. */
  predicate OffsetsFit(ss: seq<Sample>, shift: int) {
    || (forall s | s in ss :: 0 <= s.cts + shift < 0x1_0000_0000)
    || ((exists s | s in ss :: s.cts + shift < 0) && forall s | s in ss :: -0x8000_0000 <= s.cts + shift < 0x8000_0000)
  }

  /** Every chunk stays at a non-negative int64 offset. */
  predicate ChunksFit(cs: seq<Chunk>, delta: int) {
    forall c | c in cs :: 0 <= c.offset + delta && (delta > 0 ==> c.offset + delta <= MAX_I64)
  }

  lemma {:induction false} DescriptionsAre(cs: seq<Child>)
    ensures Descriptions(cs).Some? <==> forall c | c in cs :: OneDescription(c) || EmptyTable(c)
    ensures Descriptions(cs).Some? ==> (Descriptions(cs).value == [] <==> forall c | c in cs :: c.kind != STSD)
    decreases |cs|
  {
    if cs != [] {
      DescriptionsAre(cs[1..]);
      DescriptionsHead(cs);
      assert cs == [cs[0]] + cs[1..];
      hide Descriptions, OneDescription, EmptyTable;
    }
  }

  lemma DescriptionsHead(cs: seq<Child>)
    requires cs != []
    ensures Descriptions(cs).Some? <==> (OneDescription(cs[0]) || EmptyTable(cs[0])) && Descriptions(cs[1..]).Some?
    ensures Descriptions(cs).Some? ==> (Descriptions(cs).value == [] <==> cs[0].kind != STSD && Descriptions(cs[1..]).value == [])
  {
    hide U32;
  }

  lemma CompositionsAre(ss: seq<Sample>, shift: int)
    ensures CompositionsFit(CompositionsOf(ss, shift)) <==> OffsetsFit(ss, shift)
  {
    var cs := CompositionsOf(ss, shift);
    ValuesBetween(ss, shift, 0, MAX_U32);
    ValuesBetween(ss, shift, -0x8000_0000, 0x7fff_ffff);
    Negatives(ss, shift);
    hide CompositionsOf;
  }

  lemma ValuesBetween(ss: seq<Sample>, shift: int, least: int, most: int)
    ensures (forall c | c in CompositionsOf(ss, shift) :: least <= c <= most) <==> (forall s | s in ss :: least <= s.cts + shift <= most)
  {
    var cs := CompositionsOf(ss, shift);
    if forall c | c in cs :: least <= c <= most {
      forall s | s in ss
        ensures least <= s.cts + shift <= most
      {
        var i :| 0 <= i < |ss| && ss[i] == s;
        assert cs[i] in cs;
      }
    }
    if forall s | s in ss :: least <= s.cts + shift <= most {
      forall c | c in cs
        ensures least <= c <= most
      {
        var i :| 0 <= i < |cs| && cs[i] == c;
        assert ss[i] in ss;
      }
    }
  }

  lemma Negatives(ss: seq<Sample>, shift: int)
    ensures AnyNegative(CompositionsOf(ss, shift)) <==> exists s | s in ss :: s.cts + shift < 0
  {
    var cs := CompositionsOf(ss, shift);
    if AnyNegative(cs) {
      var c :| c in cs && c < 0;
      var i :| 0 <= i < |cs| && cs[i] == c;
      assert ss[i] in ss && ss[i].cts + shift < 0;
    }
    if exists s | s in ss :: s.cts + shift < 0 {
      var s :| s in ss && s.cts + shift < 0;
      var i :| 0 <= i < |ss| && ss[i] == s;
      assert cs[i] in cs && cs[i] < 0;
    }
  }

  /** The sample tables can be written exactly when the old ones are blank and all new values fit their fields. */
  lemma TablesWritable(cs: seq<Child>, video: bool, ss: seq<Sample>, chunks: seq<Chunk>, shift: int, delta: int)
    ensures StblChildren(cs, video, ss, chunks, shift, delta).Some? <==> Blank(cs) && OffsetsFit(ss, shift) && ChunksFit(chunks, delta)
  {
    hide Descriptions, CompositionsFit, OffsetsFit, Tables, OneDescription, EmptyTable;
    DescriptionsAre(cs);
    CompositionsAre(ss, shift);
  }

  // ---------- the boxes around them ----------

  /** A duration header of version 0 or 1 that is long enough for its duration. */
  predicate LongEnough(kind: u32, p: bytes) {
    && |p| >= 4 && p[0] <= 1
    && |p| >= (if p[0] == 1 then 32 else 20) + if kind == TKHD then 4 else 0
  }

  lemma DurationWritable(kind: u32, p: bytes, duration: u64, scale: u32)
    ensures DurationBody(kind, p, duration, scale).Some? <==> LongEnough(kind, p)
  {
    hide Enc32, Enc64, U32, U64;
  }

  ghost predicate MediaChildFits(t: FlatTrack, p: Plan, c: Child, delta: int)
    decreases |c.body| + 8, 0
  {
    if c.kind == MDHD then LongEnough(MDHD, c.body)
    else if c.kind == MINF then
      InnerSmaller(c.body);
      Children(c.body).Some? && MediaFits(t, p, Children(c.body).value, delta)
    else if c.kind == STBL then
      && Children(c.body).Some? && Blank(Children(c.body).value)
      && OffsetsFit(t.Samples(), p.shift) && ChunksFit(t.Chunks(), delta)
    else true
  }

  /** Every box of an mdia or minf box can be written. */
  ghost predicate MediaFits(t: FlatTrack, p: Plan, cs: seq<Child>, delta: int)
    decreases TotalSize(cs), 1
  {
    forall i | 0 <= i < |cs| :: (ChildFits(cs, i); MediaChildFits(t, p, cs[i], delta))
  }

  lemma MediaFitsHead(t: FlatTrack, p: Plan, cs: seq<Child>, delta: int)
    ensures MediaFits(t, p, cs, delta) <==> cs == [] || (MediaChildFits(t, p, cs[0], delta) && MediaFits(t, p, cs[1..], delta))
  {
    hide MediaChildFits;
    if cs != [] && MediaChildFits(t, p, cs[0], delta) && MediaFits(t, p, cs[1..], delta) {
      forall i | 0 <= i < |cs|
        ensures MediaChildFits(t, p, cs[i], delta)
      {
        if i > 0 { assert cs[i] == cs[1..][i - 1]; }
      }
    }
    if cs != [] && MediaFits(t, p, cs, delta) {
      forall i | 0 <= i < |cs[1..]|
        ensures MediaChildFits(t, p, cs[1..][i], delta)
      {
        assert cs[1..][i] == cs[i + 1];
      }
    }
  }

  lemma {:induction false} MediaWritable(t: FlatTrack, p: Plan, cs: seq<Child>, delta: int)
    ensures MediaChildren(t, p, cs, delta).Some? <==> MediaFits(t, p, cs, delta)
    decreases TotalSize(cs), 1
  {
    hide MediaChild, MediaChildFits, MediaFits;
    MediaFitsHead(t, p, cs, delta);
    if cs != [] {
      MediaChildWritable(t, p, cs[0], delta);
      MediaWritable(t, p, cs[1..], delta);
    }
  }

  lemma {:induction false} MediaChildWritable(t: FlatTrack, p: Plan, c: Child, delta: int)
    ensures MediaChild(t, p, c, delta).Some? <==> MediaChildFits(t, p, c, delta)
    decreases |c.body| + 8, 0
  {
    hide DurationBody, LongEnough, StblChildren, Blank, OffsetsFit, ChunksFit, MediaFits;
    if c.kind == MDHD {
      DurationWritable(MDHD, c.body, Wrap64(t.nextDTS - t.firstDTS), 0);
    } else if c.kind == MINF {
      InnerSmaller(c.body);
      if Children(c.body).Some? { MediaWritable(t, p, Children(c.body).value, delta); }
    } else if c.kind == STBL && Children(c.body).Some? {
      TablesWritable(Children(c.body).value, t.info.video, t.Samples(), t.Chunks(), p.shift, delta);
    }
  }

  /** A child of a trak box; an edit list of its own is refused. */
  ghost predicate TrackChildFits(t: FlatTrack, p: Plan, c: Child, delta: int) {
    if c.kind == TKHD then LongEnough(TKHD, c.body)
    else if c.kind == MDIA then Children(c.body).Some? && MediaFits(t, p, Children(c.body).value, delta)
    else c.kind != EDTS
  }

  lemma TrackChildWritable(t: FlatTrack, p: Plan, c: Child, delta: int)
    ensures TrackChild(t, p, c, delta).Some? <==> TrackChildFits(t, p, c, delta)
  {
    hide DurationBody, LongEnough, MediaChildren, MediaFits, EditBox;
    if c.kind == TKHD { DurationWritable(TKHD, c.body, Wrap64(p.delay + p.duration), 0); }
    if c.kind == MDIA && Children(c.body).Some? { MediaWritable(t, p, Children(c.body).value, delta); }
  }

  lemma {:induction false} TrackWritable(t: FlatTrack, p: Plan, cs: seq<Child>, delta: int)
    ensures TrackChildren(t, p, cs, delta).Some? <==> forall c | c in cs :: TrackChildFits(t, p, c, delta)
    decreases |cs|
  {
    hide TrackChild, TrackChildFits;
    if cs != [] {
      TrackChildWritable(t, p, cs[0], delta);
      TrackWritable(t, p, cs[1..], delta);
      assert cs == [cs[0]] + cs[1..];
    }
  }

  /** A child of the movie header.  The box of a track with samples is rewritten; that of a track without is dropped. */
  ghost predicate MovieChildFits(m: Movie, c: Child, delta: int) {
    if c.kind == MVHD then LongEnough(MVHD, c.body)
    else if c.kind == TRAK then
      && Children(c.body).Some? && TrakNumber(Children(c.body).value, 0).Some?
      && var id := TrakNumber(Children(c.body).value, 0).value;
         && id in m.tracks
         && (m.tracks[id].pieces != [] && id in m.plans ==>
               forall k | k in Children(c.body).value :: TrackChildFits(m.tracks[id], m.plans[id], k, delta))
    else true
  }

  lemma MovieChildWritable(m: Movie, c: Child, delta: int)
    ensures MovieChild(m, c, delta).Some? <==> MovieChildFits(m, c, delta)
  {
    hide DurationBody, LongEnough, TrackChildren, TrackChildFits, TrakNumber;
    if c.kind == MVHD { DurationWritable(MVHD, c.body, m.duration, MOVIE_SCALE); }
    if c.kind == TRAK && Children(c.body).Some? && TrakNumber(Children(c.body).value, 0).Some? {
      var id := TrakNumber(Children(c.body).value, 0).value;
      if id in m.tracks && id in m.plans { TrackWritable(m.tracks[id], m.plans[id], Children(c.body).value, delta); }
    }
  }

  lemma {:induction false} MovieKidsWritable(m: Movie, cs: seq<Child>, delta: int)
    ensures MovieChildren(m, cs, delta).Some? <==> forall c | c in cs :: MovieChildFits(m, c, delta)
    decreases |cs|
  {
    hide MovieChild, MovieChildFits;
    if cs != [] {
      MovieChildWritable(m, cs[0], delta);
      MovieKidsWritable(m, cs[1..], delta);
      assert cs == [cs[0]] + cs[1..];
    }
  }

  /** Every box of the old header can be carried over. */
  ghost predicate HeaderFits(m: Movie, delta: int) {
    Children(m.metadata).Some? && forall c | c in Children(m.metadata).value :: MovieChildFits(m, c, delta)
  }

  /** The new header can be written exactly when every box of the old one can be carried over and the result is at most 16 MiB. */
  lemma HeaderWritable(m: Movie, delta: int)
    ensures HeaderFits(m, delta) ==> MovieChildren(m, Children(m.metadata).value, delta).Some?
    ensures NewMovie(m, delta).Some? <==> HeaderFits(m, delta) && TotalSize(MovieChildren(m, Children(m.metadata).value, delta).value) <= 16777216
  {
    hide MovieChildren, MovieChildFits;
    if Children(m.metadata).Some? { MovieKidsWritable(m, Children(m.metadata).value, delta); }
  }
}
