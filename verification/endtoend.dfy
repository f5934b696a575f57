/** Sample by sample: the virtual file against the fragmented source. */
module EndToEnd {
  import opened Bytes
  import opened Options
  import opened Boxes
  import opened Tracks
  import opened Samples
  import opened Fragments
  import opened SampleTables
  import opened FlatScan
  import opened ScanLemmas
  import opened SourceTruth
  import opened FlatMovie
  import opened Timing
  import opened MovieBoxes
  import opened Normalized
  import opened Demux
  import opened FlatFile

  // ---------- where samples lie ----------

  datatype Span = Span(at: int, size: int)

  function ChunkSpans(at: int, sizes: seq<u32>): (r: seq<Span>)
    ensures |r| == |sizes| && forall i | 0 <= i < |sizes| :: r[i].size == sizes[i]
    decreases |sizes|
  {
    if sizes == [] then [] else [Span(at, sizes[0])] + ChunkSpans(at + sizes[0], sizes[1..])
  }

  /** Sample positions from chunk offsets, samples per chunk and sample sizes (ISO/IEC 14496-12 section 8.7). */
  function Spans(offsets: seq<u64>, counts: seq<u32>, sizes: seq<u32>): seq<Span> {
    if offsets == [] || counts == [] || counts[0] > |sizes| then []
    else ChunkSpans(offsets[0], sizes[..counts[0]]) + Spans(offsets[1..], counts[1..], sizes[counts[0]..])
  }

  /** Sample positions in the source, run by run, moved by `shift`. */
  function PieceSpans(ps: seq<Piece>, shift: int): seq<Span> {
    if ps == [] then []
    else ChunkSpans(ps[0].offset + shift, SizesOf(ps[0].samples)) + PieceSpans(ps[1..], shift)
  }

  predicate PieceInside(p: Piece, lo: int, hi: int) {
    0 < |p.samples| <= MAX_RUN && lo <= p.offset && End(p) <= hi
  }

  lemma FrontSamples(ps: seq<Piece>)
    requires ps != []
    ensures AllSamples(ps) == ps[0].samples + AllSamples(ps[1..])
  {
    AllSamplesConcat([ps[0]], ps[1..]);
    assert [ps[0]] + ps[1..] == ps;
    assert [ps[0]][..0] == [] && AllSamples([ps[0]]) == [] + ps[0].samples;
  }

  lemma ChunkTablesSplit(ps: seq<Piece>, delta: int)
    requires ps != [] && 0 < |ps[0].samples| <= MAX_RUN && 0 <= ps[0].offset + delta <= MAX_U64
    ensures var o, c := OffsetsOf(ChunksOf(ps), delta), CountsOf(ChunksOf(ps));
            && o != [] && o[0] == ps[0].offset + delta && o[1..] == OffsetsOf(ChunksOf(ps[1..]), delta)
            && c != [] && c[0] == |ps[0].samples| && c[1..] == CountsOf(ChunksOf(ps[1..]))
  {
  }

  lemma SpansHead(offsets: seq<u64>, counts: seq<u32>, a: seq<u32>, b: seq<u32>)
    requires offsets != [] && counts != [] && counts[0] == |a|
    ensures Spans(offsets, counts, a + b) == ChunkSpans(offsets[0], a) + Spans(offsets[1..], counts[1..], b)
  {
    assert (a + b)[..|a|] == a && (a + b)[|a|..] == b;
  }

  lemma SizesJoin(a: seq<Sample>, b: seq<Sample>)
    ensures SizesOf(a + b) == SizesOf(a) + SizesOf(b)
  {
  }

  /** The emitted chunk tables place the samples run by run, where the shifted runs lie. */
  lemma {:induction false} TablesPlaceSamples(ps: seq<Piece>, delta: int)
    requires forall p | p in ps :: 0 < |p.samples| <= MAX_RUN && 0 <= p.offset + delta <= MAX_U64
    ensures Spans(OffsetsOf(ChunksOf(ps), delta), CountsOf(ChunksOf(ps)), SizesOf(AllSamples(ps))) == PieceSpans(ps, delta)
    decreases |ps|
  {
    hide ChunkSpans, AllSamples, Spans, ChunksOf, OffsetsOf, CountsOf, SizesOf;
    if ps == [] {
      NothingPlaced(delta);
    } else {
      FrontSamples(ps);
      SizesJoin(ps[0].samples, AllSamples(ps[1..]));
      ChunkTablesSplit(ps, delta);
      SpansHead(OffsetsOf(ChunksOf(ps), delta), CountsOf(ChunksOf(ps)), SizesOf(ps[0].samples), SizesOf(AllSamples(ps[1..])));
      TablesPlaceSamples(ps[1..], delta);
    }
  }

  lemma NothingPlaced(delta: int)
    ensures Spans(OffsetsOf(ChunksOf([]), delta), CountsOf(ChunksOf([])), SizesOf(AllSamples([]))) == []
  {
  }

  lemma {:induction false} ChunkSpansIn(at: int, sizes: seq<u32>, i: nat)
    requires i < |sizes|
    ensures at <= ChunkSpans(at, sizes)[i].at
    ensures ChunkSpans(at, sizes)[i].at + sizes[i] <= at + SumWords(sizes)
    decreases |sizes|
  {
    if i > 0 { ChunkSpansIn(at + sizes[0], sizes[1..], i - 1); }
  }

  lemma {:induction false} ChunkSpansMove(at: int, sizes: seq<u32>, i: nat, shift: int)
    requires i < |sizes|
    ensures ChunkSpans(at + shift, sizes)[i].at == ChunkSpans(at, sizes)[i].at + shift
    decreases |sizes|
  {
    if i > 0 {
      ChunkSpansMove(at + sizes[0], sizes[1..], i - 1, shift);
      assert at + shift + sizes[0] == at + sizes[0] + shift;
    }
  }

  function SumWords(ws: seq<u32>): nat {
    if ws == [] then 0 else ws[0] + SumWords(ws[1..])
  }

  lemma {:induction false} SumWordsConcat(a: seq<u32>, b: seq<u32>)
    ensures SumWords(a + b) == SumWords(a) + SumWords(b)
    decreases |a|
  {
    if a == [] {
      assert a + b == b;
    } else {
      assert (a + b)[1..] == a[1..] + b;
      SumWordsConcat(a[1..], b);
    }
  }

  lemma {:induction false} SumsAgree(ss: seq<Sample>)
    ensures SumWords(SizesOf(ss)) == Sizes(ss) && SumWords(DurationsOf(ss)) == Durations(ss)
    decreases |ss|
  {
    if ss != [] {
      var n := |ss| - 1;
      SumsAgree(ss[..n]);
      SumWordsConcat(SizesOf(ss[..n]), [ss[n].size]);
      SumWordsConcat(DurationsOf(ss[..n]), [ss[n].duration]);
      assert SizesOf(ss) == SizesOf(ss[..n]) + [ss[n].size];
      assert DurationsOf(ss) == DurationsOf(ss[..n]) + [ss[n].duration];
      assert SumWords([ss[n].size]) == ss[n].size && SumWords([ss[n].duration]) == ss[n].duration;
    }
  }

  predicate MovedSpan(a: Span, b: Span, size: int, lo: int, hi: int, shift: int) {
    a.size == size && b == Span(a.at + shift, size) && lo <= a.at && a.at + size <= hi
  }

  lemma OnePieceSpans(p: Piece, lo: int, hi: int, shift: int, i: nat)
    requires PieceInside(p, lo, hi) && i < |p.samples|
    ensures MovedSpan(ChunkSpans(p.offset + 0, SizesOf(p.samples))[i], ChunkSpans(p.offset + shift, SizesOf(p.samples))[i], p.samples[i].size, lo, hi, shift)
  {
    hide ChunkSpans;
    SumsAgree(p.samples);
    ChunkSpansIn(p.offset, SizesOf(p.samples), i);
    ChunkSpansMove(p.offset, SizesOf(p.samples), i, shift);
  }

  /** Every sample of the source lies inside its run, and the shift moves it as a whole. */
  lemma {:induction false} PieceSpansAt(ps: seq<Piece>, lo: int, hi: int, shift: int)
    requires forall p | p in ps :: PieceInside(p, lo, hi)
    ensures |PieceSpans(ps, 0)| == |PieceSpans(ps, shift)| == |AllSamples(ps)|
    ensures forall i | 0 <= i < |PieceSpans(ps, 0)| ::
              MovedSpan(PieceSpans(ps, 0)[i], PieceSpans(ps, shift)[i], AllSamples(ps)[i].size, lo, hi, shift)
    decreases |ps|
  {
    hide AllSamples, ChunkSpans, MovedSpan, PieceInside;
    if ps == [] {
      NoPiecesNoSamples();
    } else {
      FrontSamples(ps);
      PieceSpansAt(ps[1..], lo, hi, shift);
      forall i | 0 <= i < |ps[0].samples|
        ensures MovedSpan(ChunkSpans(ps[0].offset + 0, SizesOf(ps[0].samples))[i], ChunkSpans(ps[0].offset + shift, SizesOf(ps[0].samples))[i],
                          ps[0].samples[i].size, lo, hi, shift)
      {
        OnePieceSpans(ps[0], lo, hi, shift, i);
      }
    }
  }

  function BytesAt(data: bytes, s: Span): Option<bytes> {
    if s.at < 0 || s.size < 0 || s.at + s.size > |data| then None else Some(data[s.at..s.at + s.size])
  }

  /** Source bytes behind the movie header are found in the virtual file, moved by the growth of the metadata. */
  lemma TailMoves(src: bytes, v: View, s: Span)
    requires v.start + v.removed <= s.at && s.size >= 0 && s.at + s.size <= |src|
    ensures var delta := |v.metadata| - v.removed;
            BytesAt(src, s).Some? && BytesAt(Contents(src, v), Span(s.at + delta, s.size)) == BytesAt(src, s)
  {
    var pre, tail := src[..v.start] + v.metadata, src[v.start + v.removed..];
    var x := s.at - v.start - v.removed;
    assert Contents(src, v) == pre + tail && s.at + (|v.metadata| - v.removed) == |pre| + x;
    assert (pre + tail)[|pre| + x..|pre| + x + s.size] == tail[x..x + s.size];
    assert tail == src[v.start + v.removed..|src|];
    SliceSlice(src, v.start + v.removed, |src|, x, x + s.size);
    assert v.start + v.removed + x == s.at && |pre| + x + s.size <= |pre + tail|;
    var moved := Span(s.at + (|v.metadata| - v.removed), s.size);
    assert BytesAt(Contents(src, v), moved) == Some((pre + tail)[|pre| + x..|pre| + x + s.size]);
  }

  // ---------- the whole file ----------

  /** Composition time of sample i as a reader of the tables computes it. */
  function TableTime(table: Table, i: nat): int
    requires i < |table.durations| && i < |table.compositions|
  {
    SumWords(table.durations[..i]) + table.compositions[i]
  }

  /**
   A track of the virtual file against the fragments of its number in the source:
   as many samples in the same order, with the durations, sizes, sync numbers and
   bytes they have there, and a track duration that is the length of its edits.
   */
  ghost predicate Faithful(src: bytes, out: bytes, view: TrackView, defaults: map<u32, Track>) {
    var id := view.header.id;
    id in defaults &&
    var ps := SourcePieces(src, 0, defaults, id);
    var ss := AllSamples(ps);
    var spans := Spans(view.table.offsets, view.table.counts, view.table.sizes);
    && ss != []
    && view.table.durations == DurationsOf(ss) && view.table.sizes == SizesOf(ss) && |view.table.compositions| == |ss|
    && view.table.sync == (if defaults[id].video then Some(SyncNumbers(ss)) else None)
    && view.duration == TotalEdits(view.edits)
    && |spans| == |PieceSpans(ps, 0)| == |ss|
    && forall i | 0 <= i < |ss| :: BytesAt(src, PieceSpans(ps, 0)[i]).Some? && BytesAt(out, spans[i]) == BytesAt(src, PieceSpans(ps, 0)[i])
  }

  /** What the scan and the plan know of a track with samples. */
  ghost predicate TrackKnown(src: bytes, m: Movie, defaults: map<u32, Track>, id: u32) {
    && id in m.tracks && id in m.plans && id in defaults && Scaled(m.tracks) && m.tracks[id].pieces != []
    && m.tracks[id].info == defaults[id] && TrackInRange(m.tracks[id])
    && m.tracks[id].pieces == SourcePieces(src, 0, defaults, id)
    && (forall p | p in m.tracks[id].pieces :: PieceInside(p, m.moov.offset + m.moov.size, |src|))
    && (exists j | j in m.tracks :: m.tracks[j].pieces != [])
    && m.plans[id] == PlanOf(m.tracks[id], Origin(m.tracks))
    && m.plans[id].duration <= MAX_U64 - m.plans[id].delay
    && Origin(m.tracks) <= StartOf(m.tracks[id])
  }

  /** The source is presented as movie `m` through view `v`; `defaults` are its track headers. */
  ghost predicate Presents(src: bytes, m: Movie, v: View, defaults: map<u32, Track>) {
    && |src| <= MAX_I64
    && Normalize(src) == Spliced(m, v)
    && ReadTracks(m.metadata) == Read(defaults)
  }

  lemma TrackFacts(src: bytes, m: Movie, v: View, defaults: map<u32, Track>, id: u32)
    requires Presents(src, m, v, defaults)
    requires id in m.tracks && m.tracks[id].pieces != []
    ensures TrackKnown(src, m, defaults, id)
  {
    hide ScanFrom, Splice, FinishMovie, ReadFlatMovie, Normalize, SourcePieces, Origin, ReadTracks, Payload, PlanOf, StartOf;
    SplicedFacts(src);
    var s := ScanFrom(src, 0, START).s;
    FinishFacts(src, s);
    StartHolds(src);
    ScanKeepsRange(src, 0, START);
    ScanCollects(src, 0, START, id);
    EmptyStart(id, SourcePieces(src, 0, s.defaults, id));
    forall p | p in m.tracks[id].pieces
      ensures PieceInside(p, m.moov.offset + m.moov.size, |src|)
    {
      assert Placed(s, |src|, p);
    }
  }

  lemma EmptyStart(id: u32, ps: seq<Piece>)
    ensures PiecesOf(START, id) + ps == ps
  {
  }

  lemma MediaTimeInRange(t: FlatTrack, origin: real)
    requires t.info.scale > 0 && TrackInRange(t)
    ensures 0 <= MediaTime(t, PlanOf(t, origin)) <= MAX_I64
  {
    hide Ceil, Seconds;
  }

  /** The bytes of every sample, through the emitted chunk tables. */
  lemma BytesKept(src: bytes, v: View, ps: seq<Piece>)
    requires v.start + v.removed <= |src| && |src| - v.removed + |v.metadata| <= MAX_I64
    requires forall p | p in ps :: PieceInside(p, v.start + v.removed, |src|)
    ensures var delta := |v.metadata| - v.removed;
            var spans := Spans(OffsetsOf(ChunksOf(ps), delta), CountsOf(ChunksOf(ps)), SizesOf(AllSamples(ps)));
            && |spans| == |PieceSpans(ps, 0)| == |AllSamples(ps)|
            && forall i | 0 <= i < |spans| ::
                 BytesAt(src, PieceSpans(ps, 0)[i]).Some? && BytesAt(Contents(src, v), spans[i]) == BytesAt(src, PieceSpans(ps, 0)[i])
  {
    hide Spans, PieceSpans, AllSamples, BytesAt, Contents;
    var delta := |v.metadata| - v.removed;
    PieceSpansAt(ps, v.start + v.removed, |src|, delta);
    forall p | p in ps
      ensures 0 < |p.samples| <= MAX_RUN && 0 <= p.offset + delta <= MAX_U64
    {
      assert PieceInside(p, v.start + v.removed, |src|);
    }
    TablesPlaceSamples(ps, delta);
    forall i | 0 <= i < |PieceSpans(ps, 0)|
      ensures BytesAt(src, PieceSpans(ps, 0)[i]).Some?
      ensures BytesAt(Contents(src, v), PieceSpans(ps, delta)[i]) == BytesAt(src, PieceSpans(ps, 0)[i])
    {
      TailMoves(src, v, PieceSpans(ps, 0)[i]);
    }
  }

  lemma SomeSamples(ps: seq<Piece>)
    requires ps != [] && forall p | p in ps :: p.samples != []
    ensures AllSamples(ps) != []
  {
    assert ps[|ps| - 1] in ps;
  }

  lemma TrackFaithful(src: bytes, m: Movie, v: View, defaults: map<u32, Track>, header: Track, stsd: bytes)
    requires TrackKnown(src, m, defaults, header.id) && v.start == m.moov.offset && v.removed == m.moov.size
    requires v.start + v.removed <= |src| && |src| - v.removed + |v.metadata| <= MAX_I64
    ensures Faithful(src, Contents(src, v),
                     ViewOfTrack(header, stsd, m.tracks[header.id], m.plans[header.id], |v.metadata| - v.removed), defaults)
  {
    hide SourcePieces, Spans, PieceSpans, AllSamples, BytesAt, Contents, PlanOf, StartOf, SyncNumbers, Origin, TrackInRange;
    var t := m.tracks[header.id];
    assert forall p | p in t.pieces :: PieceInside(p, v.start + v.removed, |src|);
    SomeSamples(t.pieces);
    BytesKept(src, v, t.pieces);
    EditsTotal(t, m.plans[header.id]);
  }

  lemma EditsTotal(t: FlatTrack, p: Plan)
    ensures TotalEdits(EditsOf(t, p)) == p.delay + p.duration
  {
    var e, last := EditsOf(t, p), [Edit(p.duration, MediaTime(t, p))];
    assert last[1..] == [] && TotalEdits(last) == p.duration;
    if p.delay > 0 { assert e[1..] == last; }
  }

  /** The trak boxes with samples, in file order. */
  function PlayedTraks(m: Movie, cs: seq<Child>): (r: seq<Child>)
    ensures forall c | c in r :: c in cs && Played(m, c)
  {
    if cs == [] then []
    else if Played(m, cs[0]) then [cs[0]] + PlayedTraks(m, cs[1..])
    else PlayedTraks(m, cs[1..])
  }

  /** The view is made from this trak box of the source, with its header fields and its sample descriptions. */
  ghost predicate MadeFrom(m: Movie, c: Child, view: TrackView, delta: int) {
    && Played(m, c) && ReadTrak(c.body).value == view.header
    && view.header.id in m.plans && m.tracks[view.header.id].pieces != []
    && view.table.stsd == StsdIn(c)
    && view == ViewOfTrack(view.header, view.table.stsd, m.tracks[view.header.id], m.plans[view.header.id], delta)
  }

  ghost predicate Described(m: Movie, cs: seq<Child>, views: seq<TrackView>, delta: int) {
    && |views| == |PlayedTraks(m, cs)|
    && forall k | 0 <= k < |views| :: MadeFrom(m, PlayedTraks(m, cs)[k], views[k], delta)
  }

  lemma {:induction false} ExpectedDescribed(m: Movie, cs: seq<Child>, delta: int)
    requires forall c | c in cs :: Playable(m, c)
    ensures Described(m, cs, Expected(m, cs, delta), delta)
    decreases |cs|
  {
    hide Playable, ReadTrak, ViewOfTrack, MadeFrom, Played, StsdIn;
    if cs != [] {
      ExpectedDescribed(m, cs[1..], delta);
      if Played(m, cs[0]) { MadeFromFirst(m, cs[0], delta); }
    }
  }

  lemma MadeFromFirst(m: Movie, c: Child, delta: int)
    requires Playable(m, c) && Played(m, c)
    ensures var header := ReadTrak(c.body).value;
            && header.id in m.tracks && header.id in m.plans
            && MadeFrom(m, c, ViewOfTrack(header, StsdIn(c), m.tracks[header.id], m.plans[header.id], delta), delta)
  {
    hide ReadTrak, StsdIn;
    ReadyWhenPlayed(m, c);
  }

  lemma ReadyWhenPlayed(m: Movie, c: Child)
    requires Playable(m, c) && Played(m, c)
    ensures ReadTrak(c.body).value.id in m.plans
  {
    hide ReadTrak;
  }

  /** Every trak box of an accepted recording can be read back once it has samples. */
  lemma AllPlayable(src: bytes, m: Movie, v: View, defaults: map<u32, Track>, c: Child)
    requires Presents(src, m, v, defaults)
    requires Children(m.metadata).Some? && c in Children(m.metadata).value
    ensures Playable(m, c)
  {
    hide Presents, TrackKnown, MoovFields, ReadTrak, ChildrenFrom;
    var cs := Children(m.metadata).value;
    HeaderOfScan(src, m, v, defaults);
    if c.kind == TRAK {
      var i :| 0 <= i < |cs| && cs[i] == c;
      TraksKnown(cs, map[], map[], i);
      var id := ReadTrak(c.body).value.id;
      if m.tracks[id].pieces != [] {
        TrackFacts(src, m, v, defaults, id);
        ReadyTrack(src, m, defaults, id);
      }
    }
  }

  lemma HeaderOfScan(src: bytes, m: Movie, v: View, defaults: map<u32, Track>)
    requires Presents(src, m, v, defaults)
    ensures ReadTracks(m.metadata) == Read(defaults) && m.tracks.Keys == defaults.Keys && Children(m.metadata).Some?
    ensures forall id | id in m.tracks :: m.tracks[id].info == defaults[id]
    ensures Scaled(m.tracks) && exists id | id in m.tracks :: m.tracks[id].pieces != []
    ensures m.plans == PlansFrom(m.tracks, Origin(m.tracks)) && PlansFit(m.plans) && m.duration == Longest(m.plans)
  {
    HeaderRead(m.metadata);
    hide ScanFrom, Splice, FinishMovie, ReadFlatMovie, Normalize, ReadTracks, Payload, Children, PlansFrom, Origin;
    SplicedFacts(src);
    FinishFacts(src, ScanFrom(src, 0, START).s);
  }

  lemma HeaderRead(data: bytes)
    ensures ReadTracks(data).Read? ==> Children(data).Some?
  {
  }

  lemma ReadyTrack(src: bytes, m: Movie, defaults: map<u32, Track>, id: u32)
    requires TrackKnown(src, m, defaults, id)
    ensures TrackReady(m, id)
  {
    hide PlanOf, SourcePieces;
    MediaTimeInRange(m.tracks[id], Origin(m.tracks));
  }

  lemma ViewShape(src: bytes, m: Movie, v: View, defaults: map<u32, Track>)
    requires Presents(src, m, v, defaults)
    ensures v.start == m.moov.offset && v.removed == m.moov.size && v.start + v.removed <= |src|
    ensures FinalDelta(m) == Some(|v.metadata| - v.removed)
    ensures |Contents(src, v)| == v.size == |src| - v.removed + |v.metadata| <= MAX_I64
  {
    hide ReadFlatMovie, NewMovie, Emit, ScanFrom, Splice, FinishMovie, Normalize;
    SplicedFacts(src);
    SpliceFacts(src, m);
    SizeExact(src);
  }

  /** What the independent reader makes of the virtual file. */
  lemma ViewRead(src: bytes, m: Movie, v: View, defaults: map<u32, Track>)
    requires Presents(src, m, v, defaults)
    ensures v.start + v.removed <= |src| && Children(m.metadata).Some?
    ensures var cs := Children(m.metadata).value;
            && (ReadFile(Contents(src, v)).Some? <==> AllTabled(m, cs))
            && (AllTabled(m, cs) ==>
                  && AllFew(m, cs)
                  && ReadFile(Contents(src, v)).value.clock == ExpectedClock(m, cs)
                  && Described(m, cs, ReadFile(Contents(src, v)).value.tracks, |v.metadata| - v.removed))
  {
    hide Normalize, ReadFile, Contents, Expected, Playable, FinalDelta, ReadTracks, AllTabled, AllFew, Described, First;
    HeaderOfScan(src, m, v, defaults);
    var cs := Children(m.metadata).value;
    forall c | c in cs
      ensures Playable(m, c)
    {
      AllPlayable(src, m, v, defaults, c);
    }
    ViewShape(src, m, v, defaults);
    ViewReads(src);
    ExpectedDescribed(m, cs, |v.metadata| - v.removed);
  }

  /** The movie header has a clock of microseconds whose duration is that of the longest track. */
  ghost predicate ClockCovers(view: MovieView) {
    view.clock.Some? ==>
      && view.clock.value.scale == MOVIE_SCALE
      && (exists k | 0 <= k < |view.tracks| :: view.tracks[k].duration == view.clock.value.duration)
      && (forall k | 0 <= k < |view.tracks| :: view.tracks[k].duration <= view.clock.value.duration)
  }

  /** The track has the header fields and the sample descriptions of this trak box. */
  ghost predicate SameHeader(c: Child, view: TrackView) {
    && ReadTrak(c.body) == Some(view.header)
    && Children(c.body).Some? && StsdOf(Children(c.body).value) == Some(view.table.stsd)
  }

  lemma FromTrak(m: Movie, c: Child, view: TrackView, delta: int)
    requires MadeFrom(m, c, view, delta)
    ensures ReadTrak(c.body) == Some(view.header) && view.header.id in m.tracks && view.header.id in m.plans && m.tracks[view.header.id].pieces != []
    ensures view == ViewOfTrack(view.header, view.table.stsd, m.tracks[view.header.id], m.plans[view.header.id], delta)
    ensures HasStsd(c) ==> SameHeader(c, view)
  {
    hide ReadTrak, StsdOf, ChildrenFrom, ViewOfTrack;
  }

  /** The tracks of the virtual file are those of the source that have samples, in header order, and each is faithful. */
  ghost predicate SameMovie(src: bytes, out: bytes, view: MovieView, m: Movie, defaults: map<u32, Track>, cs: seq<Child>) {
    && |view.tracks| == |PlayedTraks(m, cs)|
    && (forall k | 0 <= k < |view.tracks| :: SameHeader(PlayedTraks(m, cs)[k], view.tracks[k]) && Faithful(src, out, view.tracks[k], defaults))
    && (view.clock.Some? <==> First(cs, MVHD).Some?)
    && ClockCovers(view)
  }

  lemma {:induction false} PlayedAmong(m: Movie, cs: seq<Child>, c: Child) returns (k: nat)
    requires c in cs && Played(m, c)
    ensures k < |PlayedTraks(m, cs)| && PlayedTraks(m, cs)[k] == c
    decreases |cs|
  {
    hide ReadTrak;
    if c == cs[0] { return 0; }
    k := PlayedAmong(m, cs[1..], c);
    if Played(m, cs[0]) { k := k + 1; }
  }

  /** The duration of the movie header is that of its longest track. */
  lemma LongestTrack(src: bytes, m: Movie, v: View, defaults: map<u32, Track>, view: MovieView)
    requires Presents(src, m, v, defaults) && Children(m.metadata).Some?
    requires Described(m, Children(m.metadata).value, view.tracks, |v.metadata| - v.removed)
    requires view.clock == ExpectedClock(m, Children(m.metadata).value)
    ensures ClockCovers(view)
  {
    hide Presents, ReadTracks, First, Origin, PlanOf, Children, MoovFields, MadeFrom, Longest, PlansFit, Played, PlayedTraks;
    HeaderOfScan(src, m, v, defaults);
    var cs := Children(m.metadata).value;
    var k := LongestAmong(m, cs, defaults);
    forall j | 0 <= j < |view.tracks|
      ensures view.tracks[j].duration <= m.duration
      ensures j == k ==> view.tracks[j].duration == m.duration
    {
      FromTrak(m, PlayedTraks(m, cs)[j], view.tracks[j], |v.metadata| - v.removed);
      PlannedLength(m, PlayedTraks(m, cs)[j], view.tracks[j], |v.metadata| - v.removed);
    }
  }

  lemma PlannedLength(m: Movie, c: Child, view: TrackView, delta: int)
    requires MadeFrom(m, c, view, delta) && PlansFit(m.plans) && m.duration == Longest(m.plans)
    ensures view.duration == m.plans[view.header.id].delay + m.plans[view.header.id].duration <= m.duration
  {
    hide Longest, EditsOf, Meaning, ReadTrak;
    assert IsLongest(m.plans, m.duration);
  }

  lemma LongestAmong(m: Movie, cs: seq<Child>, defaults: map<u32, Track>) returns (k: nat)
    requires Children(m.metadata) == Some(cs) && ReadTracks(m.metadata) == Read(defaults) && m.tracks.Keys == defaults.Keys
    requires Scaled(m.tracks) && exists id | id in m.tracks :: m.tracks[id].pieces != []
    requires m.plans == PlansFrom(m.tracks, Origin(m.tracks)) && PlansFit(m.plans) && m.duration == Longest(m.plans)
    ensures k < |PlayedTraks(m, cs)|
    ensures ReadTrak(PlayedTraks(m, cs)[k].body).Some?
    ensures var id := ReadTrak(PlayedTraks(m, cs)[k].body).value.id; id in m.plans && m.plans[id].delay + m.plans[id].duration == m.duration
  {
    hide ReadTracks, Origin, PlanOf, Children, Longest, ReadTrak, PlayedTraks;
    assert IsLongest(m.plans, m.duration);
    var some :| some in m.tracks && m.tracks[some].pieces != [];
    assert some in m.plans;
    var id :| id in m.plans && m.plans[id].delay + m.plans[id].duration == m.duration;
    MapFromTraks(m.metadata, defaults, id);
    var c :| c in cs && c.kind == TRAK && ReadTrak(c.body).Some? && ReadTrak(c.body).value.id == id;
    k := PlayedAmong(m, cs, c);
  }

  lemma MapFromTraks(metadata: bytes, defaults: map<u32, Track>, id: u32)
    requires ReadTracks(metadata) == Read(defaults) && id in defaults
    ensures Children(metadata).Some?
    ensures exists c | c in Children(metadata).value && c.kind == TRAK :: ReadTrak(c.body).Some? && ReadTrak(c.body).value.id == id
  {
    hide MoovFields, ReadTrak;
    NumberHasTrak(Children(metadata).value, map[], map[], id);
  }

  /**
   For every recording that is presented as a flat movie: an independent reader
   can read the virtual file exactly when every track with samples has a sample
   table box to rewrite, and then finds the same samples with the same bytes in
   the same order.
   */
  lemma SamplesPreserved(src: bytes, m: Movie, v: View, defaults: map<u32, Track>)
    requires Presents(src, m, v, defaults)
    ensures v.start + v.removed <= |src| && Children(m.metadata).Some?
    ensures ReadFile(Contents(src, v)).Some? <==> AllTabled(m, Children(m.metadata).value)
    ensures ReadFile(Contents(src, v)).Some? ==>
              SameMovie(src, Contents(src, v), ReadFile(Contents(src, v)).value, m, defaults, Children(m.metadata).value)
  {
    hide Presents, Contents, ReadFile, Faithful, TrackKnown, ReadTrak, Children, AllTabled, ViewOfTrack, Played, First, ClockCovers, PlayedTraks, MadeFrom,
         SameHeader, FewSamples, HasStsd;
    ViewRead(src, m, v, defaults);
    ViewShape(src, m, v, defaults);
    var cs := Children(m.metadata).value;
    if ReadFile(Contents(src, v)).Some? {
      var view := ReadFile(Contents(src, v)).value;
      LongestTrack(src, m, v, defaults, view);
      forall k | 0 <= k < |view.tracks|
        ensures Faithful(src, Contents(src, v), view.tracks[k], defaults) && SameHeader(PlayedTraks(m, cs)[k], view.tracks[k])
      {
        var header := view.tracks[k].header;
        var c := PlayedTraks(m, cs)[k];
        assert c in cs && Played(m, c) && HasStsd(c);
        FromTrak(m, c, view.tracks[k], |v.metadata| - v.removed);
        TrackFacts(src, m, v, defaults, header.id);
        TrackFaithful(src, m, v, defaults, header, view.tracks[k].table.stsd);
      }
    }
  }
}
