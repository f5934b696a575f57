/** The virtual file as a sequence of boxes, and as an input to NormalizedMP4 itself. */
module TopLevel {
  import opened Bytes
  import opened Options
  import opened Boxes
  import opened Tracks
  import opened FlatScan
  import opened ScanLemmas
  import opened FlatMovie
  import opened MovieBoxes
  import opened Normalized
  import opened Reread

  lemma EmitHeadAt(data: bytes, pos: nat, cs: seq<Child>, end: nat)
    requires cs != [] && pos + |Emit(cs)| == end <= |data| && data[pos..end] == Emit(cs)
    ensures var mid := pos + 8 + |cs[0].body|;
            && mid + |Emit(cs[1..])| == end
            && data[pos..mid] == EmitBox(cs[0].kind, cs[0].body)
            && data[mid..end] == Emit(cs[1..])
  {
    var e := EmitBox(cs[0].kind, cs[0].body);
    assert Emit(cs)[0..|e|] == e && Emit(cs)[|e|..end - pos] == Emit(cs[1..]);
    SliceSlice(data, pos, end, 0, |e|);
    SliceSlice(data, pos, end, |e|, end - pos);
  }

  /** An emitted box is the next child of the walk. */
  lemma WalkOne(data: bytes, pos: nat, c: Child)
    requires pos + 8 + |c.body| <= |data| && 8 + |c.body| <= MAX_U32 && data[pos..pos + 8 + |c.body|] == EmitBox(c.kind, c.body)
    ensures ChildrenFrom(data, pos) == Prepend([c], ChildrenFrom(data, pos + 8 + |c.body|))
  {
    hide U32, EmitBox;
    ReadEmitted(data, pos, |data|, c.kind, c.body);
  }

  lemma {:induction false} EmittedPrefix(data: bytes, pos: nat, cs: seq<Child>, end: nat)
    requires pos + |Emit(cs)| == end <= |data| && data[pos..end] == Emit(cs) && TotalSize(cs) <= MAX_U32
    ensures ChildrenFrom(data, pos) == Prepend(cs, ChildrenFrom(data, end))
    decreases |cs|
  {
    hide U32, ReadBox, EmitBox, ChildrenFrom, Prepend;
    if cs == [] {
      PrependMore([], Child(0, []), ChildrenFrom(data, end));
    } else {
      EmitHeadAt(data, pos, cs, end);
      var mid := pos + 8 + |cs[0].body|;
      EmittedPrefix(data, mid, cs[1..], end);
      WalkOne(data, pos, cs[0]);
      PrependBoth([cs[0]], cs[1..], ChildrenFrom(data, end));
      assert [cs[0]] + cs[1..] == cs;
    }
  }

  lemma PrependBoth(a: seq<Child>, b: seq<Child>, rest: Option<seq<Child>>)
    ensures Prepend(a, Prepend(b, rest)) == Prepend(a + b, rest)
  {
    if rest.Some? { assert a + (b + rest.value) == a + b + rest.value; }
  }

  lemma {:induction false} WalkUntil(data: bytes, pos: nat, stop: nat)
    requires pos <= stop <= |data| && BoxesUntil(data, pos, stop).Some?
    ensures ChildrenFrom(data, pos) == Prepend(BoxesUntil(data, pos, stop).value, ChildrenFrom(data, stop))
    decreases |data| - pos
  {
    hide ReadBox;
    if pos == stop {
      PrependMore([], Child(0, []), ChildrenFrom(data, stop));
    } else {
      var b := ReadBox(data, pos, |data|).box;
      WalkUntil(data, pos + b.size, stop);
      PrependBoth([Child(b.kind, Body(data, b))], BoxesUntil(data, pos + b.size, stop).value, ChildrenFrom(data, stop));
    }
  }

  lemma LastBoxSlices(data: bytes, pos: nat, tail: bytes)
    requires pos + 16 + |tail| == |data| <= MAX_I64 && data[pos..] == MediaHeader(|tail|) + tail
    ensures data[pos..pos + 4] == [0, 0, 0, 1] && data[pos + 4..pos + 8] == Enc32(MDAT)
    ensures data[pos + 8..pos + 16] == Enc64(|tail| + 16) && data[pos + 16..|data|] == tail
  {
    hide Enc32, Enc64, U32, U64;
    var h := MediaHeader(|tail|) + tail;
    SliceSlice(data, pos, |data|, 0, 4);
    SliceSlice(data, pos, |data|, 4, 8);
    SliceSlice(data, pos, |data|, 8, 16);
    SliceSlice(data, pos, |data|, 16, 16 + |tail|);
    assert h[0..4] == [0, 0, 0, 1] && h[4..8] == Enc32(MDAT);
    assert h[8..16] == Enc64(|tail| + 16) && h[16..16 + |tail|] == tail;
  }

  /** The final box has a 64-bit size and ends exactly at the end of the file. */
  lemma LastBox(data: bytes, pos: nat, tail: bytes)
    requires pos + 16 + |tail| == |data| <= MAX_I64 && data[pos..] == MediaHeader(|tail|) + tail
    ensures ChildrenFrom(data, pos) == Some([Child(MDAT, tail)])
  {
    hide U32, U64, Enc32, Enc64, MediaHeader, ReadBox;
    LastBoxSlices(data, pos, tail);
    LastBoxFields(data, pos, |tail|);
    assert ChildrenFrom(data, |data|) == Some([]);
    assert [Child(MDAT, tail)] + [] == [Child(MDAT, tail)];
  }

  lemma LastBoxFields(data: bytes, pos: nat, n: nat)
    requires pos + 16 + n == |data| <= MAX_I64
    requires data[pos..pos + 4] == [0, 0, 0, 1] && data[pos + 4..pos + 8] == Enc32(MDAT) && data[pos + 8..pos + 16] == Enc64(n + 16)
    ensures ReadBox(data, pos, |data|) == Found(Box(pos, n + 16, 16, MDAT))
  {
    hide Enc32, Enc64;
    Field32(data, pos, [0, 0, 0, 1]);
    Field32(data, pos + 4, Enc32(MDAT));
    Field64(data, pos + 8, Enc64(n + 16));
    One32();
  }

  lemma One32()
    ensures U32([0, 0, 0, 1], 0) == 1
  {
  }

  /** The children of the virtual file, named part by part. */
  function Parts(before: seq<Child>, m: Movie, tail: bytes): seq<Child>
    requires FinalMovie(m).Some?
  {
    before + [Child(MOOV, Emit(FinalMovie(m).value))] + m.references + [Child(MDAT, tail)]
  }

  /** A file put together from its parts is walked part by part. */
  lemma PartsWalk(out: bytes, stop: nat, m: Movie, tail: bytes)
    requires FinalMovie(m).Some? && TotalSize(FinalMovie(m).value) <= MAX_METADATA && TotalSize(m.references) <= MAX_METADATA
    requires stop <= |out| <= MAX_I64 && BoxesUntil(out, 0, stop).Some?
    requires out[stop..] == EmitBox(MOOV, Emit(FinalMovie(m).value)) + Emit(m.references) + MediaHeader(|tail|) + tail
    ensures Children(out) == Some(Parts(BoxesUntil(out, 0, stop).value, m, tail))
  {
    hide U32, ReadBox, EmitBox, FinalMovie, BoxesUntil, Emit, MediaHeader, TotalSize, ChildrenFrom;
    var before, c := BoxesUntil(out, 0, stop).value, Child(MOOV, Emit(FinalMovie(m).value));
    var e := EmitBox(MOOV, c.body);
    OneBox(c);
    var a, b := stop + |e|, stop + |e| + |Emit(m.references)|;
    var r := e + Emit(m.references) + MediaHeader(|tail|) + tail;
    assert r[0..|e|] == e && r[|e|..b - stop] == Emit(m.references) && r[b - stop..|r|] == MediaHeader(|tail|) + tail;
    SliceSlice(out, stop, |out|, 0, |e|);
    SliceSlice(out, stop, |out|, |e|, b - stop);
    SliceSlice(out, stop, |out|, b - stop, |r|);
    WalkUntil(out, 0, stop);
    EmittedPrefix(out, stop, [c], a);
    EmittedPrefix(out, a, m.references, b);
    LastBox(out, b, tail);
    PrependBoth(before, [c], ChildrenFrom(out, a));
    PrependBoth(before + [c], m.references, ChildrenFrom(out, b));
  }

  lemma OneBox(c: Child)
    ensures Emit([c]) == EmitBox(c.kind, c.body) && TotalSize([c]) == 8 + |c.body|
  {
    assert [c][1..] == [] && EmitBox(c.kind, c.body) + [] == EmitBox(c.kind, c.body);
  }

  lemma ContentsSplit(src: bytes, m: Movie)
    requires Splice(src, m).Spliced? && m.moov.offset + m.moov.size <= |src|
    ensures var out := Contents(src, Splice(src, m).view);
            var tail := src[m.moov.offset + m.moov.size..];
            && m.moov.offset <= |out|
            && out[..m.moov.offset] == src[..m.moov.offset]
            && FinalMovie(m).Some?
            && out[m.moov.offset..] == EmitBox(MOOV, Emit(FinalMovie(m).value)) + Emit(m.references) + MediaHeader(|tail|) + tail
            && |out| == |src| - m.moov.size + 8 + |Emit(FinalMovie(m).value)| + |Emit(m.references)| + 16
  {
    hide Emit, FinalMovie, FinalDelta, MediaHeader, EmitBox;
    SpliceFacts(src, m);
  }

  lemma {:induction false} ReferencesSized(rs: seq<Reference>, tracks: map<u32, FlatTrack>, plans: map<u32, Plan>)
    ensures RewriteReferences(rs, tracks, plans).Some? ==> TotalSize(RewriteReferences(rs, tracks, plans).value) <= MAX_METADATA
  {
  }

  /**
   The top-level boxes of the virtual file are those of the source up to its
   movie header, the new movie header, the rewritten producer references, and one
   media data box that holds the whole rest of the source and ends the file.
   */
  lemma ViewTiles(src: bytes)
    requires |src| <= MAX_I64 && Normalize(src).Spliced?
    ensures var m, v := Normalize(src).movie, Normalize(src).view;
            && m.moov.offset + m.moov.size <= |src| && FinalMovie(m).Some?
            && BoxesUntil(src, 0, m.moov.offset).Some?
            && Children(Contents(src, v)) == Some(Parts(BoxesUntil(src, 0, m.moov.offset).value, m, src[m.moov.offset + m.moov.size..]))
            && (forall c | c in BoxesUntil(src, 0, m.moov.offset).value :: c.kind != MOOV)
  {
    hide ScanFrom, Splice, FinishMovie, ScanInv, FinalMovie, FinalDelta, BoxesUntil, Children, Contents, Parts, Emit, EmitBox, MediaHeader, ReadFlatMovie, Normalize;
    SplicedFacts(src);
    var m, v := Normalize(src).movie, Normalize(src).view;
    var s := ScanFrom(src, 0, START).s;
    FinishFacts(src, s);
    ReferencesSized(ReadReferences(src, s.references, s.defaults).value, s.tracks, m.plans);
    SpliceFacts(src, m);
    ContentsSplit(src, m);
    SizeExact(src);
    StartHolds(src);
    var out := Contents(src, v);
    var s' := SamePrefixSamePath(src, 0, START, out);
    PartsWalk(out, m.moov.offset, m, src[m.moov.offset + m.moov.size..]);
  }

  // ---------- the view as an input ----------

  lemma KindField(src: bytes, pos: nat)
    requires ReadBox(src, pos, |src|).Found?
    ensures pos + 8 <= |src| && ReadBox(src, pos, |src|).box.kind == U32(src, pos + 4)
  {
  }

  lemma BoxesTakeRoom(src: bytes, stop: nat)
    requires 0 < stop <= |src| && BoxesUntil(src, 0, stop).Some?
    ensures stop >= 8
  {
    hide U32, U64, SizedBox;
    var b := ReadBox(src, 0, |src|).box;
    assert BoxesUntil(src, b.size, stop).Some?;
  }

  lemma FirstBoxStays(src: bytes)
    requires |src| <= MAX_I64 && Normalize(src).Spliced?
    ensures Normalize(src).movie.moov.offset >= 8
    ensures |src| >= 8 && U32(src, 4) == FTYP
  {
    hide ScanFrom, Splice, FinishMovie, ScanInv, FinalMovie, FinalDelta, Children, ReadFlatMovie, Normalize, ReadBox, U32, BoxesUntil, StartOf;
    SplicedFacts(src);
    var m := Normalize(src).movie;
    var s := ScanFrom(src, 0, START).s;
    FinishFacts(src, s);
    SpliceFacts(src, m);
    StartHolds(src);
    var s' := SamePrefixSamePath(src, 0, START, src);
    KindField(src, m.moov.offset);
    if m.moov.offset > 0 { BoxesTakeRoom(src, m.moov.offset); } else { MoovKind(src, s); }
  }

  lemma MoovKind(src: bytes, s: Scan)
    requires ScanInv(src, s, |src|) && s.moov.Some?
    ensures s.moov.value.kind == MOOV
  {
  }

  /** At the new movie header the scan of the virtual file decides that the file is not fragmented. */
  lemma NewHeaderNotFragmented(out: bytes, stop: nat, m: Movie, s: Scan)
    requires stop <= |out| <= MAX_I64 && Untouched(s)
    requires FinalMovie(m).Some? && TotalSize(FinalMovie(m).value) <= MAX_METADATA
    requires var e := EmitBox(MOOV, Emit(FinalMovie(m).value)); stop + |e| <= |out| && out[stop..stop + |e|] == e
    requires ReadTracks(m.metadata).Read?
    ensures ScanFrom(out, stop, s) == PassThrough
  {
    hide U32, EmitBox, Emit, MovieChildren, ChildrenFrom, MoovFields, ReadBox;
    var cs := FinalMovie(m).value;
    var delta := FinalDelta(m).value;
    ReadEmitted(out, stop, |out|, MOOV, Emit(cs));
    EmitThenWalk(cs);
    NewMovieReads(m, Children(m.metadata).value, delta, map[], map[], map[]);
  }

  lemma HeaderInView(src: bytes)
    requires |src| <= MAX_I64 && Normalize(src).Spliced?
    ensures var m, v := Normalize(src).movie, Normalize(src).view;
            var stop := m.moov.offset;
            && v.start + v.removed <= |src| && 8 <= stop <= |src| && FinalMovie(m).Some? && TotalSize(FinalMovie(m).value) <= MAX_METADATA
            && var out, e := Contents(src, v), EmitBox(MOOV, Emit(FinalMovie(m).value));
               && |out| <= MAX_I64 && stop + |e| <= |out| && out[stop..stop + |e|] == e && src[..stop] == out[..stop]
  {
    hide ScanFrom, Splice, FinishMovie, FinalMovie, FinalDelta, Contents, Emit, EmitBox, MediaHeader, U32, ReadTracks, AllPlaced, TracksMatch;
    SplicedFacts(src);
    var m, v := Normalize(src).movie, Normalize(src).view;
    FinishFacts(src, ScanFrom(src, 0, START).s);
    SpliceFacts(src, m);
    ContentsSplit(src, m);
    SizeExact(src);
    FirstBoxStays(src);
    var out, e := Contents(src, v), EmitBox(MOOV, Emit(FinalMovie(m).value));
    assert out[m.moov.offset..][..|e|] == e;
  }

  /** Presenting the virtual file again changes nothing: it passes through as it is. */
  lemma Idempotent(src: bytes)
    requires |src| <= MAX_I64 && Normalize(src).Spliced?
    ensures Normalize(src).view.start + Normalize(src).view.removed <= |src|
    ensures Normalize(Contents(src, Normalize(src).view)) == Plain
  {
    hide ScanFrom, Splice, FinishMovie, FinalMovie, FinalDelta, Contents, Emit, EmitBox, MediaHeader, U32, BoxesUntil, ReadTracks, AllPlaced, TracksMatch;
    SplicedFacts(src);
    var m, v := Normalize(src).movie, Normalize(src).view;
    FinishFacts(src, ScanFrom(src, 0, START).s);
    HeaderInView(src);
    StartHolds(src);
    var out := Contents(src, v);
    var s' := SamePrefixSamePath(src, 0, START, out);
    NewHeaderNotFragmented(out, m.moov.offset, m, s');
    SamePrefix(src, out, m.moov.offset, 4, 8);
    SameField32(src, 4, out, 4);
  }
}
