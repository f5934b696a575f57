/** Clock conservation: the producer references (ISO/IEC 14496-12 section 8.16.5) of the virtual file. */
module ProducerClock {
  import opened Bytes
  import opened Options
  import opened Boxes
  import opened Tracks
  import opened Samples
  import opened Fragments
  import opened SampleTables
  import opened FlatScan
  import opened ScanLemmas
  import opened FlatMovie
  import opened Timing
  import opened Normalized
  import opened EndToEnd

  /** The producer references of the source, in file order. */
  function SourceReferences(src: bytes, pos: nat): seq<bytes>
    requires pos <= |src|
    decreases |src| - pos
  {
    if pos == |src| || !ReadBox(src, pos, |src|).Found? then []
    else
      var b := ReadBox(src, pos, |src|).box;
      (if b.kind == PRFT then [Body(src, b)] else []) + SourceReferences(src, pos + b.size)
  }

  predicate BoxInside(src: bytes, b: Box) { b.header <= b.size && b.offset + b.size <= |src| }

  function Bodies(src: bytes, boxes: seq<Box>): seq<bytes>
    requires forall b | b in boxes :: BoxInside(src, b)
  {
    if boxes == [] then []
    else
      assert BoxInside(src, boxes[|boxes| - 1]);
      Bodies(src, boxes[..|boxes| - 1]) + [Body(src, boxes[|boxes| - 1])]
  }

  lemma StepReferences(src: bytes, s: Scan, b: Box)
    requires BoxInside(src, b) && StepBox(src, s, b).Going?
    ensures StepBox(src, s, b).s.references == if b.kind == PRFT then s.references + [b] else s.references
  {
    hide ReadTracks, ReadRuns, ReadSamples, Children, KnownClocks, ApplyRuns;
  }

  lemma {:induction false} ScanReferences(src: bytes, pos: nat, s: Scan)
    requires pos <= |src| && ScanFrom(src, pos, s).Going?
    requires forall b | b in s.references :: BoxInside(src, b)
    ensures var f := ScanFrom(src, pos, s).s;
            && (forall b | b in f.references :: BoxInside(src, b))
            && Bodies(src, f.references) == Bodies(src, s.references) + SourceReferences(src, pos)
    decreases |src| - pos
  {
    hide ReadBox, StepBox;
    if pos == |src| {
      assert Bodies(src, s.references) + [] == Bodies(src, s.references);
    } else {
      var b := ReadBox(src, pos, |src|).box;
      StepReferences(src, s, b);
      ScanReferences(src, pos + b.size, StepBox(src, s, b).s);
      var rest := SourceReferences(src, pos + b.size);
      assert (s.references + [b])[..|s.references|] == s.references;
      assert Bodies(src, s.references) + [Body(src, b)] + rest == Bodies(src, s.references) + ([Body(src, b)] + rest);
      assert [] + rest == rest;
    }
  }

  /** The rewritten reference: same wall clock, media time moved from the source clock to the clock of the new track. */
  predicate Moved(body: bytes, source: bytes, t: FlatTrack, p: Plan) {
    && |body| == |source| >= 24
    && body[..16] == source[..16] && body[24..] == source[24..]
    && U64(body, 16) == U64(source, 16) - t.firstDTS + p.shift
  }

  lemma RewriteMoves(r: Reference, tracks: map<u32, FlatTrack>, plans: map<u32, Plan>, defaults: map<u32, Track>)
    requires ReadReference(r.payload, defaults) == Some(r) && RewriteReference(r, tracks, plans).Some?
    ensures r.track in tracks && r.track in plans && r.track == U32(r.payload, 4)
    ensures Moved(RewriteReference(r, tracks, plans).value.body, r.payload, tracks[r.track], plans[r.track])
  {
    hide U32, U64, Enc64;
    var v := r.value - tracks[r.track].firstDTS + plans[r.track].shift;
    var body := RewriteReference(r, tracks, plans).value.body;
    assert body[16..24] == Enc64(v);
    Field64(body, 16, Enc64(v));
  }

  predicate AllMoved(cs: seq<Child>, sources: seq<bytes>, tracks: map<u32, FlatTrack>, plans: map<u32, Plan>) {
    && |cs| == |sources|
    && forall k | 0 <= k < |cs| ::
      && cs[k].kind == PRFT && |sources[k]| >= 24
      && U32(sources[k], 4) in tracks && U32(sources[k], 4) in plans
      && Moved(cs[k].body, sources[k], tracks[U32(sources[k], 4)], plans[U32(sources[k], 4)])
  }

  lemma MovedMore(cs: seq<Child>, sources: seq<bytes>, c: Child, source: bytes, tracks: map<u32, FlatTrack>, plans: map<u32, Plan>)
    requires AllMoved(cs, sources, tracks, plans) && AllMoved([c], [source], tracks, plans)
    ensures AllMoved(cs + [c], sources + [source], tracks, plans)
  {
    hide U32, Moved;
    assert [c][0] == c && [source][0] == source;
  }

  lemma OneMoved(r: Reference, tracks: map<u32, FlatTrack>, plans: map<u32, Plan>, defaults: map<u32, Track>)
    requires ReadReference(r.payload, defaults) == Some(r) && RewriteReference(r, tracks, plans).Some?
    ensures AllMoved([RewriteReference(r, tracks, plans).value], [r.payload], tracks, plans)
  {
    hide U32, U64, Moved;
    RewriteMoves(r, tracks, plans, defaults);
    ReferencePayload(r.payload, defaults);
  }

  lemma {:induction false} ReferencesMove(src: bytes, boxes: seq<Box>, defaults: map<u32, Track>, tracks: map<u32, FlatTrack>, plans: map<u32, Plan>)
    requires forall b | b in boxes :: BoxInside(src, b)
    requires ReadReferences(src, boxes, defaults).Some?
    requires RewriteReferences(ReadReferences(src, boxes, defaults).value, tracks, plans).Some?
    ensures |ReadReferences(src, boxes, defaults).value| == |boxes|
    ensures AllMoved(RewriteReferences(ReadReferences(src, boxes, defaults).value, tracks, plans).value, Bodies(src, boxes), tracks, plans)
    decreases |boxes|
  {
    hide U32, U64, AllMoved, ReadReference, RewriteReference, TotalSize;
    if boxes == [] {
      NoneMoved(tracks, plans);
    } else {
      var n := |boxes| - 1;
      var before := ReadReferences(src, boxes[..n], defaults).value;
      var ref := ReadReference(Body(src, boxes[n]), defaults).value;
      assert (before + [ref])[..|before|] == before;
      ReferencesMove(src, boxes[..n], defaults, tracks, plans);
      ReferencePayload(Body(src, boxes[n]), defaults);
      OneMoved(ref, tracks, plans, defaults);
      MovedMore(RewriteReferences(before, tracks, plans).value, Bodies(src, boxes[..n]), RewriteReference(ref, tracks, plans).value, ref.payload, tracks, plans);
    }
  }

  lemma NoneMoved(tracks: map<u32, FlatTrack>, plans: map<u32, Plan>)
    ensures AllMoved([], [], tracks, plans)
  {
  }

  lemma ReferencePayload(p: bytes, defaults: map<u32, Track>)
    requires ReadReference(p, defaults).Some?
    ensures |p| >= 24 && ReadReference(p, defaults).value.payload == p
  {
  }

  /** The movie has one reference for each of the source, in order, moved to the clock of its track. */
  lemma ReferencesListed(src: bytes, m: Movie, v: View, defaults: map<u32, Track>)
    requires Presents(src, m, v, defaults)
    ensures AllMoved(m.references, SourceReferences(src, 0), m.tracks, m.plans)
  {
    hide ScanFrom, Splice, FinishMovie, ReadFlatMovie, Normalize, ReadTracks, AllMoved, ScanInv;
    SplicedFacts(src);
    var s := ScanFrom(src, 0, START).s;
    FinishFacts(src, s);
    ScanReferences(src, 0, START);
    ReferencesMove(src, s.references, s.defaults, m.tracks, m.plans);
    assert Bodies(src, START.references) + SourceReferences(src, 0) == SourceReferences(src, 0);
  }
}
