/** The producer references (ISO/IEC 14496-12 section 8.16.5) a reader finds in the virtual file, and the samples they name there. */
module ProducerView {
  import opened Bytes
  import opened Options
  import opened Boxes
  import opened Tracks
  import opened Samples
  import opened Fragments
  import opened SampleTables
  import opened FlatScan
  import opened ScanLemmas
  import opened SourceTruth
  import opened Stretches
  import opened LateClocks
  import opened FlatMovie
  import opened Timing
  import opened MovieBoxes
  import opened Normalized
  import opened TopLevel
  import opened Demux
  import opened FlatFile
  import opened EndToEnd
  import opened Presentation
  import opened ProducerClock

  /** The payloads of the boxes of one kind, in file order. */
  function BodiesOf(cs: seq<Child>, kind: u32): seq<bytes> {
    if cs == [] then []
    else (if cs[0].kind == kind then [cs[0].body] else []) + BodiesOf(cs[1..], kind)
  }

  lemma {:induction false} BodiesConcat(a: seq<Child>, b: seq<Child>, kind: u32)
    ensures BodiesOf(a + b, kind) == BodiesOf(a, kind) + BodiesOf(b, kind)
    decreases |a|
  {
    if a == [] {
      assert a + b == b && [] + BodiesOf(b, kind) == BodiesOf(b, kind);
    } else {
      assert (a + b)[1..] == a[1..] + b;
      BodiesConcat(a[1..], b, kind);
      var first := if a[0].kind == kind then [a[0].body] else [];
      assert first + (BodiesOf(a[1..], kind) + BodiesOf(b, kind)) == first + BodiesOf(a[1..], kind) + BodiesOf(b, kind);
    }
  }

  lemma {:induction false} AllOfKind(cs: seq<Child>, kind: u32)
    requires forall c | c in cs :: c.kind == kind
    ensures |BodiesOf(cs, kind)| == |cs| && forall k | 0 <= k < |cs| :: BodiesOf(cs, kind)[k] == cs[k].body
    decreases |cs|
  {
    if cs != [] { AllOfKind(cs[1..], kind); }
  }

  lemma {:induction false} NoneLike(cs: seq<Child>, kind: u32)
    requires forall c | c in cs :: c.kind != kind
    ensures BodiesOf(cs, kind) == []
    decreases |cs|
  {
    if cs != [] { NoneLike(cs[1..], kind); }
  }

  /** The references of a file: those ahead of `stop`, and those behind. */
  lemma {:induction false} ReferencesSplit(src: bytes, pos: nat, stop: nat)
    requires pos <= stop <= |src| && BoxesUntil(src, pos, stop).Some?
    ensures SourceReferences(src, pos) == BodiesOf(BoxesUntil(src, pos, stop).value, PRFT) + SourceReferences(src, stop)
    decreases |src| - pos
  {
    hide ReadBox;
    if pos < stop {
      var b := ReadBox(src, pos, |src|).box;
      ReferencesSplit(src, pos + b.size, stop);
      var c, rest := Child(b.kind, Body(src, b)), BoxesUntil(src, pos + b.size, stop).value;
      assert ([c] + rest)[1..] == rest;
      var first := if b.kind == PRFT then [Body(src, b)] else [];
      assert first + (BodiesOf(rest, PRFT) + SourceReferences(src, stop)) == first + BodiesOf(rest, PRFT) + SourceReferences(src, stop);
    } else {
      assert [] + SourceReferences(src, stop) == SourceReferences(src, stop);
    }
  }

  /** The payloads of the prft boxes of a file. */
  function ReferencesIn(data: bytes): Option<seq<bytes>> {
    var cs :- Children(data);
    Some(BodiesOf(cs, PRFT))
  }

  /** The references of the source ahead of its movie header. */
  function ReferencesAhead(src: bytes, m: Movie): seq<bytes>
    requires m.moov.offset <= |src|
  {
    match BoxesUntil(src, 0, m.moov.offset) case None => [] case Some(cs) => BodiesOf(cs, PRFT)
  }

  /** Each reference moved from the source clock of its track to the clock of the new track, wall clock unchanged. */
  predicate MovedEach(now: seq<bytes>, was: seq<bytes>, m: Movie) {
    && |now| == |was|
    && forall k | 0 <= k < |was| ::
      && |was[k]| >= 24 && U32(was[k], 4) in m.tracks && U32(was[k], 4) in m.plans
      && Moved(now[k], was[k], m.tracks[U32(was[k], 4)], m.plans[U32(was[k], 4)])
  }

  lemma PartsReferences(before: seq<Child>, m: Movie, tail: bytes)
    requires FinalMovie(m).Some? && forall c | c in m.references :: c.kind == PRFT
    ensures BodiesOf(Parts(before, m, tail), PRFT) == BodiesOf(before, PRFT) + BodiesOf(m.references, PRFT)
  {
    hide FinalMovie, Emit, BodiesOf;
    var moov, mdat := [Child(MOOV, Emit(FinalMovie(m).value))], [Child(MDAT, tail)];
    BodiesConcat(before + moov + m.references, mdat, PRFT);
    BodiesConcat(before + moov, m.references, PRFT);
    BodiesConcat(before, moov, PRFT);
    NoneLike(moov, PRFT);
    NoneLike(mdat, PRFT);
    var a, b := BodiesOf(before, PRFT), BodiesOf(m.references, PRFT);
    assert a + [] == a && a + b + [] == a + b;
  }

  lemma MovedBodies(m: Movie, was: seq<bytes>)
    requires AllMoved(m.references, was, m.tracks, m.plans)
    ensures forall c | c in m.references :: c.kind == PRFT
    ensures MovedEach(BodiesOf(m.references, PRFT), was, m)
  {
    hide Moved, U32, BodiesOf;
    AllOfKind(m.references, PRFT);
  }

  /**
   The prft boxes of the virtual file are those ahead of the source's movie header,
   as they are, and then one moved reference for each reference of the source, in
   order.  They are the moved references alone exactly when none lies ahead of the
   movie header.
   */
  lemma ReferencesKept(src: bytes, m: Movie, v: View, defaults: map<u32, Track>)
    requires Presents(src, m, v, defaults)
    ensures v.start + v.removed <= |src| && m.moov.offset <= |src| && ReferencesIn(Contents(src, v)).Some?
    ensures var seen, ahead, all := ReferencesIn(Contents(src, v)).value, ReferencesAhead(src, m), SourceReferences(src, 0);
            && ahead <= all && ahead <= seen
            && MovedEach(seen[|ahead|..], all, m)
            && (MovedEach(seen, all, m) <==> ahead == [])
  {
    hide Normalize, Contents, ChildrenFrom, Parts, BodiesOf, SourceReferences, BoxesUntil, MovedEach, AllMoved, FinalMovie, ReadTracks;
    ReferencesListed(src, m, v, defaults);
    ViewShape(src, m, v, defaults);
    ViewTiles(src);
    var before := BoxesUntil(src, 0, m.moov.offset).value;
    ReferencesSplit(src, 0, m.moov.offset);
    MovedBodies(m, SourceReferences(src, 0));
    PartsReferences(before, m, src[m.moov.offset + m.moov.size..]);
    var seen, ahead := ReferencesIn(Contents(src, v)).value, ReferencesAhead(src, m);
    assert seen[|ahead|..] == BodiesOf(m.references, PRFT);
    MovedLength(seen, SourceReferences(src, 0), m);
    MovedLength(seen[|ahead|..], SourceReferences(src, 0), m);
    if ahead == [] { assert seen[0..] == seen; }
  }

  lemma MovedLength(now: seq<bytes>, was: seq<bytes>, m: Movie)
    ensures MovedEach(now, was, m) ==> |now| == |was|
  {
  }

  /** Reference k of the source, as the virtual file has it. */
  function SeenReference(src: bytes, m: Movie, v: View, k: nat): bytes
    requires v.start + v.removed <= |src| && m.moov.offset <= |src| && ReferencesIn(Contents(src, v)).Some?
    requires |ReferencesAhead(src, m)| + k < |ReferencesIn(Contents(src, v)).value|
  {
    ReferencesIn(Contents(src, v)).value[|ReferencesAhead(src, m)| + k]
  }

  lemma SeenMoved(src: bytes, m: Movie, v: View, defaults: map<u32, Track>, k: nat)
    requires Presents(src, m, v, defaults) && k < |SourceReferences(src, 0)|
    ensures v.start + v.removed <= |src| && m.moov.offset <= |src| && ReferencesIn(Contents(src, v)).Some?
    ensures |ReferencesAhead(src, m)| + k < |ReferencesIn(Contents(src, v)).value|
    ensures var source, seen := SourceReferences(src, 0)[k], SeenReference(src, m, v, k);
            && |seen| == |source| >= 24 && U32(source, 4) in m.tracks && U32(source, 4) in m.plans
            && U32(seen, 4) == U32(source, 4)
            && Moved(seen, source, m.tracks[U32(source, 4)], m.plans[U32(source, 4)])
  {
    hide Presents, Contents, ReferencesIn, ReferencesAhead, SourceReferences, U32, U64;
    ReferencesKept(src, m, v, defaults);
    var source, seen := SourceReferences(src, 0)[k], SeenReference(src, m, v, k);
    assert ReferencesIn(Contents(src, v)).value[|ReferencesAhead(src, m)|..][k] == seen;
    SliceSlice(seen, 0, 16, 4, 8);
    SliceSlice(source, 0, 16, 4, 8);
    assert seen[4..8] == source[4..8];
    SameField32(seen, 4, source, 4);
  }

  /** Each sample of the track is as far from the reference as it was in the source. */
  predicate SameDistance(view: TrackView, times: seq<int>, seen: int, source: int) {
    && |times| == |view.table.durations| == |view.table.compositions|
    && forall i | 0 <= i < |times| :: TableTime(view.table, i) - seen == times[i] - source
  }

  /** A reference with media time `media` that is moved by `move` names the samples in the virtual file that it names in the source. */
  predicate SameNames(view: TrackView, times: seq<int>, move: int, media: int) {
    && |times| == |view.table.durations| == |view.table.compositions|
    && forall i | 0 <= i < |times| :: media == times[i] <==> media + move == TableTime(view.table, i)
  }

  /** So does a reference of any media time. */
  ghost predicate NamesKept(view: TrackView, times: seq<int>, move: int) {
    forall media: int :: SameNames(view, times, move, media)
  }

  lemma DistanceKeepsNames(view: TrackView, times: seq<int>, seen: int, source: int)
    requires |times| == |view.table.durations| == |view.table.compositions|
    ensures SameDistance(view, times, seen, source) <==> NamesKept(view, times, seen - source)
  {
    hide SumWords, TableTime;
    var move := seen - source;
    if NamesKept(view, times, move) {
      forall i | 0 <= i < |times|
        ensures TableTime(view.table, i) - seen == times[i] - source
      {
        assert SameNames(view, times, move, times[i]);
      }
    } else if SameDistance(view, times, seen, source) {
      forall media: int
        ensures SameNames(view, times, move, media)
      {
        NamesAtDistance(view, times, seen, source, media);
      }
    }
  }

  lemma NamesAtDistance(view: TrackView, times: seq<int>, seen: int, source: int, media: int)
    requires SameDistance(view, times, seen, source)
    ensures SameNames(view, times, seen - source, media)
  {
    hide TableTime;
    forall i | 0 <= i < |times|
      ensures media == times[i] <==> media + (seen - source) == TableTime(view.table, i)
    {
      assert TableTime(view.table, i) - seen == times[i] - source;
    }
  }

  /** Moving a time by first decode time and shift is what the tables do to the recorded times. */
  lemma MovedWithTimes(view: TrackView, t: FlatTrack, p: Plan, delta: int, times: seq<int>, seen: int, source: int)
    requires view == ViewOfTrack(view.header, view.table.stsd, t, p, delta) && |times| == |t.Samples()|
    requires seen == source - t.firstDTS + p.shift
    ensures |view.table.durations| == |view.table.compositions| == |times|
    ensures SameDistance(view, times, seen, source) <==> TrackTimes(t) == times
    ensures forall i | 0 <= i < |times| :: source == TrackTimes(t)[i] <==> seen == TableTime(view.table, i)
  {
    hide AllSamples, Durations, TableTime;
    forall i | 0 <= i < |times|
      ensures |view.table.durations| == |view.table.compositions| == |t.Samples()|
      ensures TableTime(view.table, i) == TrackTimes(t)[i] - t.firstDTS + p.shift
    {
      TablePlaces(view.header, view.table.stsd, t, p, delta, i);
    }
    if SameDistance(view, times, seen, source) {
      forall i | 0 <= i < |times|
        ensures TrackTimes(t)[i] == times[i]
      {
        assert TableTime(view.table, i) - seen == times[i] - source;
      }
    }
  }

  /**
   A moved reference of a track the reader finds, against the decode and composition
   times the track's own tables give its samples.  It stays as far from every sample
   as it was in the source, and so a reference of any media time goes on naming the
   same samples, exactly when one clock gives every run of the track its start.  A
   reference to the recorded time of a sample always names that sample.
   */
  lemma ReferenceNamesSameSample(src: bytes, m: Movie, v: View, defaults: map<u32, Track>, k: nat, j: nat)
    requires Presents(src, m, v, defaults) && k < |SourceReferences(src, 0)|
    requires v.start + v.removed <= |src| && ReadFile(Contents(src, v)).Some? && j < |ReadFile(Contents(src, v)).value.tracks|
    requires |SourceReferences(src, 0)[k]| >= 24 ==> U32(SourceReferences(src, 0)[k], 4) == ReadFile(Contents(src, v)).value.tracks[j].header.id
    ensures m.moov.offset <= |src| && ReferencesIn(Contents(src, v)).Some?
    ensures |ReferencesAhead(src, m)| + k < |ReferencesIn(Contents(src, v)).value|
    ensures var body, now := SourceReferences(src, 0)[k], SeenReference(src, m, v, k);
            && |now| == |body| >= 24
            && var view := ReadFile(Contents(src, v)).value.tracks[j];
               var id, source, seen := view.header.id, U64(body, 16), U64(now, 16);
               var times := SampleTimes(src, defaults, id);
               && id in m.tracks && |TrackTimes(m.tracks[id])| == |times| == |view.table.durations| == |view.table.compositions|
               && (SameDistance(view, times, seen, source) <==> OneSourceClock(src, defaults, id))
               && (NamesKept(view, times, seen - source) <==> OneSourceClock(src, defaults, id))
               && (OneSourceClock(src, defaults, id) ==> forall i | 0 <= i < |times| :: source == times[i] <==> seen == TableTime(view.table, i))
               && (forall i | 0 <= i < |times| :: source == TrackTimes(m.tracks[id])[i] <==> seen == TableTime(view.table, i))
  {
    hide Presents, Contents, ReferencesIn, ReferencesAhead, SourceReferences, U32, U64, ReadFile, SampleTimes, OneSourceClock, Children, TableTime, AllSamples,
         SourcePieces, PieceInside, Origin, PlanOf, StartOf, TrackInRange, SourceSamples, Tallied, CountedRuns, NamesKept, SameDistance, DistinctTraks,
         FewSamples, ViewOfTrack, SeenReference;
    SeenMoved(src, m, v, defaults, k);
    TrackOfView(src, m, v, defaults, j);
    var view := ReadFile(Contents(src, v)).value.tracks[j];
    var id, source, seen := view.header.id, U64(SourceReferences(src, 0)[k], 16), U64(SeenReference(src, m, v, k), 16);
    var times := SampleTimes(src, defaults, id);
    RecordedClock(src, m, v, defaults, id);
    MovedWithTimes(view, m.tracks[id], m.plans[id], |v.metadata| - v.removed, times, seen, source);
    DistanceKeepsNames(view, times, seen, source);
    if OneSourceClock(src, defaults, id) { NamesOf(view, times, seen, source); }
  }

  lemma NamesOf(view: TrackView, times: seq<int>, seen: int, source: int)
    requires NamesKept(view, times, seen - source)
    ensures |times| == |view.table.durations| == |view.table.compositions|
    ensures forall i | 0 <= i < |times| :: source == times[i] <==> seen == TableTime(view.table, i)
  {
    hide TableTime;
    assert SameNames(view, times, seen - source, source);
  }
}
