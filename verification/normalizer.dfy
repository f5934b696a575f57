/** NormalizedMP4 and readFlatMovie as programs over the loops that do their work (internal/recordingmedia/normalized.go, flat.go). */
module Normalizer {
  import opened Bytes
  import opened Options
  import opened Boxes
  import opened Tracks
  import opened FlatScan
  import opened ScanLoops
  import opened FlatMovie
  import opened MovieBoxes
  import opened BoxLoops
  import opened Normalized
  import Presentable

  datatype Presented = AsIs | Through(view: View) | Error

  /** readFlatMovie. */
  method BuildMovie(src: bytes) returns (r: FlatRead)
    ensures r == ReadFlatMovie(src)
    ensures r.Flat? <==> Presentable.Finished(src)
    ensures r.NotFlat? <==> Presentable.NoFlatMovie(src)
  {
    hide Presentable.Finished, Presentable.NoFlatMovie;
    Presentable.FlatExactly(src);
    hide ScanFrom, ReadReferences, RewriteReferences, Origin, Longest, PlanOf;
    hide ScanInv;
    var scanned := ScanBoxes(src);
    if scanned.PassThrough? { return NotFlat; }
    if scanned.Refused? { return FlatError; }
    r := Finish(src, scanned.s);
  }

  /** readFlatMovie after its loop. */
  method Finish(src: bytes, s: Scan) returns (r: FlatRead)
    ensures r == FinishMovie(src, s)
  {
    hide ReadReferences, RewriteReferences, Origin, Longest, PlanOf;
    if !s.haveFragment { return NotFlat; }
    if |s.pending| != 0 || s.moov.None? || !Scaled(s.tracks) { return FlatError; }
    var refs := CollectReferences(src, s.references, s.defaults);
    if refs.None? || |refs.value| == 0 || !(exists id | id in s.tracks :: s.tracks[id].pieces != []) { return FlatError; }
    var origin := FindOrigin(s.tracks);
    var plans, duration, ok := PlanTracks(s.tracks, origin);
    if !ok { return FlatError; }
    var rewritten, data := RewriteAll(refs.value, s.tracks, plans);
    if rewritten.None? { return FlatError; }
    return Flat(Movie(s.moov.value, s.metadata, s.tracks, plans, rewritten.value, duration));
  }

  /** The two passes and the layout of the view. */
  method LayOut(src: bytes, m: Movie) returns (r: Presented)
    ensures r == match Splice(src, m) case Spliced(_, v) => Through(v) case _ => Error
    ensures !Splice(src, m).Plain?
  {
    hide NewMovie, Emit, EmitBox;
    var first := MovieBox(m, 0);
    if first.None? || m.moov.offset + m.moov.size > |src| { return Error; }
    var delta := |first.value| + |Emit(m.references)| + 16 - m.moov.size;
    var second := MovieBox(m, delta);
    if second.None? || (delta > 0 && |src| > MAX_I64 - delta) { return Error; }
    var metadata := second.value + Emit(m.references);
    metadata := metadata + ([0, 0, 0, 1] + Enc32(MDAT)) + Enc64(Wrap64(|src| - m.moov.offset - m.moov.size + 16));
    assert metadata == ViewOf(src, m, delta, NewMovie(m, delta).value).metadata by { hide Enc32, Enc64; }
    return Through(View(m.moov.offset, m.moov.size, |src| + delta, metadata));
  }

  /** NormalizedMP4: the file itself exactly when it is foreign, a view of it as a flat movie exactly when it is presentable, and an error otherwise. */
  method NormalizedMP4(src: bytes) returns (r: Presented)
    ensures r == match Normalize(src)
                 case Plain => AsIs
                 case Failed => Error
                 case Spliced(_, v) => Through(v)
    ensures r.Through? <==> Presentable.Presentable(src)
    ensures r.AsIs? <==> Presentable.Foreign(src)
  {
    hide ReadFlatMovie, Splice, U32, Presentable.Presentable, Presentable.Foreign;
    Presentable.NormalizedExactly(src);
    if |src| < 8 { return AsIs; }
    if U32(src, 4) != FTYP { return AsIs; }
    var movie := BuildMovie(src);
    if movie.FlatError? { return Error; }
    if movie.NotFlat? { return AsIs; }
    r := LayOut(src, movie.movie);
  }
}
