/** Fetching samples the way a player does: positions from the tables of the virtual file, bytes through its reader. */
module SampleReads {
  import opened Bytes
  import opened Options
  import opened Boxes
  import opened Tracks
  import opened Samples
  import opened Fragments
  import opened FlatScan
  import opened SourceTruth
  import opened FlatMovie
  import opened MovieBoxes
  import opened Normalized
  import opened Demux
  import opened FlatFile
  import opened EndToEnd
  import opened MovieReaders

  function TableSpans(view: TrackView): seq<Span> {
    Spans(view.table.offsets, view.table.counts, view.table.sizes)
  }

  lemma TrackOfFile(src: bytes, m: Movie, v: View, defaults: map<u32, Track>, k: nat)
    requires Presents(src, m, v, defaults)
    requires v.start + v.removed <= |src| && ReadFile(Contents(src, v)).Some? && k < |ReadFile(Contents(src, v)).value.tracks|
    ensures Fits(src, v)
    ensures Faithful(src, Contents(src, v), ReadFile(Contents(src, v)).value.tracks[k], defaults)
  {
    hide Presents, ReadFile, Contents, PlayedTraks, Faithful, AllTabled, Children, First;
    SamplesPreserved(src, m, v, defaults);
    ViewShape(src, m, v, defaults);
  }

  /** Sample i of track k, read through the view, has the bytes its fragment holds in the source. */
  method ReadSample(src: bytes, ghost m: Movie, v: View, ghost defaults: map<u32, Track>, file: MovieView, k: nat, i: nat)
    returns (p: array<byte>, err: ReadError)
    requires Presents(src, m, v, defaults)
    requires v.start + v.removed <= |src| && ReadFile(Contents(src, v)) == Some(file)
    requires k < |file.tracks| && i < |TableSpans(file.tracks[k])|
    ensures fresh(p) && (p.Length > 0 ==> err == NoError)
    ensures var ps := SourcePieces(src, 0, defaults, file.tracks[k].header.id);
            i < |PieceSpans(ps, 0)| && BytesAt(src, PieceSpans(ps, 0)[i]) == Some(p[..])
  {
    hide Presents, ReadFile, Contents, Spans, PieceSpans, SourcePieces;
    TrackOfFile(src, m, v, defaults, k);
    var span := TableSpans(file.tracks[k])[i];
    assert BytesAt(Contents(src, v), span).Some?;
    p := new byte[span.size](_ => 0);
    var n;
    n, err := ReadAt(src, v, p, span.at);
    ghost var out := Contents(src, v);
    if span.at < v.size { assert p[..n] == p[..]; }
    assert p[..] == out[span.at..span.at + span.size];
  }
}
