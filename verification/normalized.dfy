/** NormalizedMP4 of internal/recordingmedia/normalized.go: the layout of the virtual file and its box structure. */
module Normalized {
  import opened Bytes
  import opened Options
  import opened Boxes
  import opened Tracks
  import opened Fragments
  import opened FlatScan
  import opened ScanLemmas
  import opened FlatMovie
  import opened MovieBoxes

  /** The source with `removed` bytes at `start` replaced by `metadata`. */
  datatype View = View(start: nat, removed: nat, size: int, metadata: bytes)

  datatype Normal = Plain | Spliced(movie: Movie, view: View) | Failed

  /** The header of a media data box that holds `tail` bytes, always with a 64-bit size. */
  function MediaHeader(tail: nat): (r: bytes)
    ensures |r| == 16
  {
    [0, 0, 0, 1] + Enc32(MDAT) + Enc64(Wrap64(tail + 16))
  }

  function Delta(m: Movie, first: seq<Child>): int {
    8 + |Emit(first)| + |Emit(m.references)| + 16 - m.moov.size
  }

  function ViewOf(src: bytes, m: Movie, delta: int, second: seq<Child>): View
    requires m.moov.offset + m.moov.size <= |src|
  {
    View(m.moov.offset, m.moov.size, |src| + delta,
         EmitBox(MOOV, Emit(second)) + Emit(m.references) + MediaHeader(|src| - m.moov.offset - m.moov.size))
  }

  /** The shift of the source tail, as the first pass measures it. */
  function FinalDelta(m: Movie): Option<int> {
    var first :- NewMovie(m, 0);
    Some(Delta(m, first))
  }

  /** The header of the second pass. */
  function FinalMovie(m: Movie): Option<seq<Child>> {
    var delta :- FinalDelta(m);
    NewMovie(m, delta)
  }

  function Splice(src: bytes, m: Movie): Normal {
    if m.moov.offset + m.moov.size > |src| || FinalMovie(m).None? then Failed
    else
      var delta := FinalDelta(m).value;
      if delta > 0 && |src| > MAX_I64 - delta then Failed
      else Spliced(m, ViewOf(src, m, delta, FinalMovie(m).value))
  }

  ghost function Normalize(src: bytes): Normal {
    if |src| < 8 || U32(src, 4) != FTYP then Plain
    else match ReadFlatMovie(src)
      case NotFlat => Plain
      case FlatError => Failed
      case Flat(m) => Splice(src, m)
  }

  /** The bytes a reader of the virtual file sees. */
  function Contents(src: bytes, v: View): bytes
    requires v.start + v.removed <= |src|
  {
    src[..v.start] + v.metadata + src[v.start + v.removed..]
  }

  lemma StartHolds(src: bytes)
    ensures ScanInv(src, START, 0) && ClocksOk(START) && Untouched(START)
  {
  }

  lemma SpliceNames(src: bytes, m: Movie)
    ensures Splice(src, m).Spliced? ==> Splice(src, m).movie == m
  {
  }

  /** What is known of a file that is presented as a flat movie. */
  lemma SplicedFacts(src: bytes)
    requires Normalize(src).Spliced?
    ensures var m := Normalize(src).movie;
            && ScanFrom(src, 0, START).Going?
            && FinishMovie(src, ScanFrom(src, 0, START).s) == Flat(m)
            && ScanInv(src, ScanFrom(src, 0, START).s, |src|)
            && |src| >= 8 && U32(src, 4) == FTYP
            && Splice(src, m) == Normalize(src)
  {
    hide ScanFrom, Splice, FinishMovie, ScanInv;
    StartHolds(src);
    ScanKeeps(src, 0, START);
    SpliceNames(src, ReadFlatMovie(src).movie);
  }

  lemma SpliceFacts(src: bytes, m: Movie)
    requires Splice(src, m).Spliced?
    ensures m.moov.offset + m.moov.size <= |src| && FinalMovie(m).Some? && Splice(src, m).movie == m
    ensures Splice(src, m).view == ViewOf(src, m, FinalDelta(m).value, FinalMovie(m).value)
    ensures FinalDelta(m).value > 0 ==> |src| <= MAX_I64 - FinalDelta(m).value
    ensures FinalDelta(m).value == 8 + |Emit(FinalMovie(m).value)| + |Emit(m.references)| + 16 - m.moov.size
    ensures TotalSize(FinalMovie(m).value) <= MAX_METADATA
  {
    hide NewMovie, Emit;
    LayoutFixpoint(m, 0, FinalDelta(m).value);
  }

  /** The size computed from the first pass is the size of the file made in the second. */
  lemma SizeExact(src: bytes)
    requires Normalize(src).Spliced?
    ensures var v := Normalize(src).view;
            && v.start + v.removed <= |src|
            && |Contents(src, v)| == v.size
            && (|src| <= MAX_I64 ==> v.size <= MAX_I64)
  {
    hide Splice, ReadFlatMovie, Emit, FinalMovie, FinalDelta, ScanInv, FinishMovie, ScanFrom;
    SplicedFacts(src);
    SpliceFacts(src, Normalize(src).movie);
  }

  // ---------- top-level boxes ----------

  /** The boxes between `pos` and `stop`, which must end exactly there. */
  function BoxesUntil(src: bytes, pos: nat, stop: nat): Option<seq<Child>>
    requires stop <= |src|
    decreases |src| - pos
  {
    if pos >= stop then (if pos == stop then Some([]) else None)
    else match ReadBox(src, pos, |src|)
      case Found(b) => Prepend([Child(b.kind, Body(src, b))], BoxesUntil(src, pos + b.size, stop))
      case _ => None
  }

  predicate Untouched(s: Scan) {
    s.moov.None? && !s.haveFragment && s.pending == [] && s.tracks == map[] && s.defaults == map[]
  }

  lemma EarlyStep(src: bytes, pos: nat, s: Scan)
    requires pos < |src| && Untouched(s) && ScanInv(src, s, pos) && ReadBox(src, pos, |src|).Found?
    requires StepBox(src, s, ReadBox(src, pos, |src|).box).Going?
    ensures var b := ReadBox(src, pos, |src|).box;
            && b.kind != MOOF
            && (b.kind == MOOV ==> StepBox(src, s, b).s.moov == Some(b))
            && (b.kind != MOOV ==> Untouched(StepBox(src, s, b).s)
                                   && StepBox(src, s, b).s == if b.kind == PRFT then s.(references := s.references + [b]) else s)
  {
    hide ReadBox, ReadTracks, StepRuns;
    var b := ReadBox(src, pos, |src|).box;
    if b.kind == MOOF { MoofStepKeeps(src, s, b, pos); }
  }

  lemma {:induction false} MoovStays(src: bytes, pos: nat, s: Scan)
    requires pos <= |src| && s.moov.Some? && ScanFrom(src, pos, s).Going?
    ensures ScanFrom(src, pos, s).s.moov == s.moov
    decreases |src| - pos
  {
    hide ReadBox, ReadTracks, Children, ReadRuns, ReadSamples, KnownClocks;
    if pos < |src| {
      var b := ReadBox(src, pos, |src|).box;
      MoovStays(src, pos + b.size, StepBox(src, s, b).s);
    }
  }

  /**
   The boxes ahead of the movie header: another file that starts with the same
   bytes is walked, and scanned, to the same point in the same state.
   */
  lemma {:induction false} SamePrefixSamePath(src: bytes, pos: nat, s: Scan, other: bytes) returns (s': Scan)
    requires pos <= |src| && Untouched(s) && ScanInv(src, s, pos) && ScanFrom(src, pos, s).Going?
    requires ScanFrom(src, pos, s).s.moov.Some?
    requires ScanFrom(src, pos, s).s.moov.value.offset <= |other|
    requires var stop := ScanFrom(src, pos, s).s.moov.value.offset; stop <= |src| && src[..stop] == other[..stop]
    ensures var stop := ScanFrom(src, pos, s).s.moov.value.offset;
            && pos <= stop <= |other|
            && Untouched(s')
            && ScanFrom(other, pos, s) == ScanFrom(other, stop, s')
            && BoxesUntil(other, pos, stop) == BoxesUntil(src, pos, stop)
            && BoxesUntil(src, pos, stop).Some?
            && (forall c | c in BoxesUntil(src, pos, stop).value :: c.kind != MOOV)
            && ReadBox(src, stop, |src|) == Found(ScanFrom(src, pos, s).s.moov.value)
    decreases |src| - pos
  {
    hide ReadBox, StepBox, ScanInv;
    var b := ReadBox(src, pos, |src|).box;
    EarlyStep(src, pos, s);
    StepKeeps(src, s, b, pos);
    if b.kind == MOOV {
      MoovStays(src, pos + b.size, StepBox(src, s, b).s);
      s' := s;
    } else {
      var next := StepBox(src, s, b).s;
      s' := SamePrefixSamePath(src, pos + b.size, next, other);
      var stop := ScanFrom(src, pos, s).s.moov.value.offset;
      SamePrefix(src, other, stop, 0, pos + b.size);
      ReadBoxLocal(src, other, pos, |src|, |other|);
      SameStep(src, other, s, b);
    }
  }

  lemma SameStep(src: bytes, other: bytes, s: Scan, b: Box)
    requires b.header <= b.size && b.offset + b.size <= |src| && b.offset + b.size <= |other|
    requires b.kind != MOOV && b.kind != MOOF
    ensures StepBox(other, s, b) == StepBox(src, s, b)
  {
  }
}
