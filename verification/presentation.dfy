/** When a reader presents the samples of the virtual file, against the times their fragments give them. */
module Presentation {
  import opened Bytes
  import opened Options
  import opened Boxes
  import opened Tracks
  import opened Samples
  import opened Fragments
  import opened Agreement
  import opened SampleTables
  import opened FlatScan
  import opened ScanLemmas
  import opened SourceTruth
  import opened Stretches
  import opened FirstFragments
  import opened LateClocks
  import opened FlatMovie
  import opened Timing
  import opened MovieBoxes
  import opened Normalized
  import opened Demux
  import opened FlatFile
  import opened EndToEnd

  /** Times of the samples of a track, each counted from the decode time its own fragment gives its run. */
  function SampleTimes(src: bytes, defaults: map<u32, Track>, id: u32): seq<int> {
    OwnTimes(SourceStretches(src, 0, defaults, id))
  }

  /** The samples of a track, from all runs of the file. */
  function SourceSamples(src: bytes, defaults: map<u32, Track>, id: u32): seq<Sample> {
    Joined(SourceStretches(src, 0, defaults, id))
  }

  /** One clock, from the first counted run of the track on, gives every run of the track its start. */
  predicate OneSourceClock(src: bytes, defaults: map<u32, Track>, id: u32) {
    OneClock(SourceStretches(src, 0, defaults, id), CountedRuns(src, defaults, id)[0].first)
  }

  /** From the start of the first counted run to the stop of the last one, the track decodes for as long as all its samples last. */
  predicate SourceConserved(src: bytes, defaults: map<u32, Track>, id: u32) {
    var rs := CountedRuns(src, defaults, id);
    rs[|rs| - 1].decodeEnd - rs[0].first == Durations(SourceSamples(src, defaults, id))
  }

  /** Media ticks in movie ticks, rounded up. */
  function MovieTicks(n: int, scale: u32): int
    requires scale > 0
  {
    Ceil(Seconds(n, scale) * MOVIE_SCALE as real)
  }

  /** Counted from the first counted run on, the samples of the track lie between the earliest start and the latest end of the counted runs, as far as 64 bits of movie ticks reach. */
  predicate SourceCovers(src: bytes, defaults: map<u32, Track>, id: u32)
    requires id in defaults && defaults[id].scale > 0
  {
    var rs, ss, scale := CountedRuns(src, defaults, id), SourceSamples(src, defaults, id), defaults[id].scale;
    ss != [] &&
    var first, low := rs[0].first, LeastStart(rs);
    && low <= MinPts(ss, first)
    && MovieTicks(MaxEnd(ss, first) - low, scale) <= Wrap64(MovieTicks(LatestStop(rs) - low, scale))
  }

  predicate HasSample(view: TrackView, i: int) { 0 <= i < |view.table.durations| && i < |view.table.compositions| }

  /** Movie time of sample i, in seconds, as a reader of the edit list computes it. */
  function PresentedAt(view: TrackView, movie: u32, i: nat): real
    requires view.header.scale > 0 && movie > 0 && HasSample(view, i)
  {
    Presented(view.edits, TableTime(view.table, i), view.header.scale, movie)
  }

  /** Sample i is presented at media time `time` counted from the origin, late by less than a microsecond. */
  predicate OnTime(view: TrackView, movie: u32, time: int, origin: real, i: nat)
    requires view.header.scale > 0 && movie > 0 && HasSample(view, i)
  {
    0.0 <= PresentedAt(view, movie, i) - (Seconds(time, view.header.scale) - origin) < MICRO
  }

  /** Sample i lies whole inside the media edit. */
  predicate Whole(view: TrackView, movie: u32, i: nat)
    requires view.header.scale > 0 && movie > 0 && HasSample(view, i)
  {
    Uncut(view.edits, TableTime(view.table, i), view.table.durations[i], view.header.scale, movie)
  }

  /** Track numbers are unique, clock boxes precede their runs, and each track starts with one run. */
  ghost predicate Regular(src: bytes, m: Movie) {
    && OrderlyFrom(src, 0, START)
    && Children(m.metadata).Some? && DistinctTraks(Children(m.metadata).value)
  }

  lemma TablePlaces(header: Track, stsd: bytes, t: FlatTrack, p: Plan, delta: int, i: nat)
    requires i < |t.Samples()|
    ensures var table := ViewOfTrack(header, stsd, t, p, delta).table;
            && |table.durations| == |table.compositions| == |t.Samples()|
            && TableTime(table, i) == CompositionTime(t.Samples(), p.shift, i) && table.durations[i] == t.Samples()[i].duration
  {
    var ss := t.Samples();
    assert DurationsOf(ss)[..i] == DurationsOf(ss[..i]);
    SumsAgree(ss[..i]);
  }

  /** A track is presented on its recorded clock exactly when its delay fits 64 bits. */
  lemma RecordedTimes(header: Track, stsd: bytes, t: FlatTrack, origin: real, delta: int)
    requires t.info.scale > 0 && t.Samples() != [] && origin <= StartOf(t) && header.scale == t.info.scale
    ensures var view := ViewOfTrack(header, stsd, t, PlanOf(t, origin), delta);
            && (forall i | 0 <= i < |t.Samples()| :: HasSample(view, i))
            && ((forall i | 0 <= i < |t.Samples()| :: OnTime(view, MOVIE_SCALE, TrackTimes(t)[i], origin, i)) <==> DelayFits(t, origin))
  {
    hide Presented, Seconds, EditsOf, Ceil, PlanOf, Durations, AllSamples, StartOf, DelayFits, TableTime, CompositionTime;
    var p := PlanOf(t, origin);
    var view := ViewOfTrack(header, stsd, t, p, delta);
    forall i | 0 <= i < |t.Samples()|
      ensures HasSample(view, i) && (OnTime(view, MOVIE_SCALE, TrackTimes(t)[i], origin, i) <==> DelayFits(t, origin))
    {
      TablePlaces(header, stsd, t, p, delta, i);
      PresentationKept(t, origin, i);
    }
    assert HasSample(view, 0);
  }

  /** Its media edit holds every sample exactly when it covers their extrema. */
  lemma RecordedSpans(header: Track, stsd: bytes, t: FlatTrack, origin: real, delta: int)
    requires t.info.scale > 0 && t.Samples() != [] && header.scale == t.info.scale
    ensures var view := ViewOfTrack(header, stsd, t, PlanOf(t, origin), delta);
            && (forall i | 0 <= i < |t.Samples()| :: HasSample(view, i))
            && ((forall i | 0 <= i < |t.Samples()| :: Whole(view, MOVIE_SCALE, i)) <==> EditCovers(t, origin))
  {
    hide Uncut, Seconds, EditsOf, Ceil, PlanOf, Durations, AllSamples, EditCovers, TableTime, CompositionTime, ClockOk;
    var p := PlanOf(t, origin);
    var view := ViewOfTrack(header, stsd, t, p, delta);
    NothingCut(t, origin);
    forall i | 0 <= i < |t.Samples()|
      ensures HasSample(view, i) && (Whole(view, MOVIE_SCALE, i) <==> SampleUncut(t, p, i))
    {
      TablePlaces(header, stsd, t, p, delta, i);
    }
  }

  /** Track k of the virtual file shows a track of the scan. */
  lemma TrackOfView(src: bytes, m: Movie, v: View, defaults: map<u32, Track>, k: nat)
    requires Presents(src, m, v, defaults)
    requires v.start + v.removed <= |src| && ReadFile(Contents(src, v)).Some? && k < |ReadFile(Contents(src, v)).value.tracks|
    ensures Children(m.metadata).Some?
    ensures var view := ReadFile(Contents(src, v)).value.tracks[k];
            var id := view.header.id;
            && TrackKnown(src, m, defaults, id) && FewSamples(m.tracks[id])
            && view == ViewOfTrack(view.header, view.table.stsd, m.tracks[id], m.plans[id], |v.metadata| - v.removed)
            && view.header.scale > 0
            && (DistinctTraks(Children(m.metadata).value) ==> view.header.scale == m.tracks[id].info.scale)
  {
    hide Presents, ReadFile, Contents, TrackKnown, ReadTrak, ViewOfTrack, Children, DistinctTraks, PlayedTraks, AllTabled, FewSamples, MadeFrom, SameHeader,
         HasStsd, Played, First;
    ViewRead(src, m, v, defaults);
    var cs, view := Children(m.metadata).value, ReadFile(Contents(src, v)).value.tracks[k];
    var c := PlayedTraks(m, cs)[k];
    FromTrak(m, c, view, |v.metadata| - v.removed);
    HeaderScaled(c);
    assert FewSamples(m.tracks[view.header.id]);
    TrackFacts(src, m, v, defaults, view.header.id);
    if DistinctTraks(cs) { HeaderAgrees(src, m, v, defaults, c); }
  }

  lemma HeaderScaled(c: Child)
    ensures ReadTrak(c.body).Some? ==> ReadTrak(c.body).value.scale > 0
  {
  }

  lemma HeaderAgrees(src: bytes, m: Movie, v: View, defaults: map<u32, Track>, c: Child)
    requires Presents(src, m, v, defaults) && Children(m.metadata).Some? && DistinctTraks(Children(m.metadata).value)
    requires c in Children(m.metadata).value && Played(m, c)
    ensures ReadTrak(c.body).value.scale == m.tracks[ReadTrak(c.body).value.id].info.scale
  {
    hide Presents, ReadTrak, DistinctTraks, MoovFields, ChildrenFrom;
    HeaderOfScan(src, m, v, defaults);
    var cs := Children(m.metadata).value;
    var i :| 0 <= i < |cs| && cs[i] == c;
    TraksKnown(cs, map[], map[], i);
  }

  lemma {:induction false} OrderlyClocksFirst(src: bytes, pos: nat, s: Scan)
    requires pos <= |src| && OrderlyFrom(src, pos, s) && ScanFrom(src, pos, s).Going?
    ensures ClocksFirstFrom(src, pos)
    decreases |src| - pos
  {
    hide ReadBox, StepMoov, StepMdat, StepRuns, MoofClocksFirst, KnownClocks, ChildrenFrom, MoofStart, NewTracksOnce, Fragments.ReadRuns;
    if pos < |src| { OrderlyClocksFirst(src, pos + ReadBox(src, pos, |src|).box.size, StepBox(src, s, ReadBox(src, pos, |src|).box).s); }
  }

  /** Over an orderly file the clock of a track is that of its samples, counted by their own fragments. */
  lemma OrderlyTrack(src: bytes, m: Movie, v: View, defaults: map<u32, Track>, id: u32)
    requires Presents(src, m, v, defaults) && OrderlyFrom(src, 0, START) && id in m.tracks
    ensures ClockOk(m.tracks[id]) && TrackTimes(m.tracks[id]) == SampleTimes(src, defaults, id)
  {
    hide ScanFrom, Splice, FinishMovie, ReadFlatMovie, Normalize, ClockOk, SourceTimes, ReadTracks, Payload, OrderlyFrom, ClocksFirstFrom,
         SourceStretches, OwnTimes;
    SplicedFacts(src);
    var s := ScanFrom(src, 0, START).s;
    FinishFacts(src, s);
    StartHolds(src);
    ScanKeepsClocks(src, 0, START);
    ScanTimes(src, 0, START, id);
    OrderlyClocksFirst(src, 0, START);
    ScanOwnTimes(src, 0, START, id);
    assert TimesOf(START, id) + SourceTimes(src, 0, defaults, id) == SourceTimes(src, 0, defaults, id);
  }

  /** For every recording: a track has the samples of all its runs and the clock of those that count; that clock gives each sample its own time exactly when it gives every run its start. */
  lemma RecordedClock(src: bytes, m: Movie, v: View, defaults: map<u32, Track>, id: u32)
    requires Presents(src, m, v, defaults) && id in m.tracks && m.tracks[id].pieces != []
    ensures var t := m.tracks[id];
            && |SampleTimes(src, defaults, id)| == |t.Samples()| > 0 && t.Samples() == SourceSamples(src, defaults, id)
            && Tallied(t, CountedRuns(src, defaults, id))
            && (TrackTimes(t) == SampleTimes(src, defaults, id) <==> OneSourceClock(src, defaults, id))
  {
    hide ScanFrom, Splice, FinishMovie, ReadFlatMovie, Normalize, ReadTracks, Payload, SourceStretches, SourcePieces, Joined, AllSamples,
         OwnTimes, TimesFrom, OneClock, Steady, CountedFrom, Origin, PlanOf, PieceInside, TrackInRange, StartOf, LeastStart, LatestStop;
    SplicedFacts(src);
    FinishFacts(src, ScanFrom(src, 0, START).s);
    StartHolds(src);
    ScanStretches(src, 0, START, id);
    ScanTally(src, 0, START, id, [NO_RUN]);
    TrackFacts(src, m, v, defaults, id);
    SomeTimes(src, m, defaults, id);
    var xs, t := SourceStretches(src, 0, defaults, id), m.tracks[id];
    JoinedNothing();
    SteadyTimes(xs, t.firstDTS);
    SteadyIsContinuous(xs, t.firstDTS);
  }

  /** What the scan of a file with its clock boxes first ends with. */
  lemma ScannedTrack(src: bytes, m: Movie, v: View, defaults: map<u32, Track>, id: u32) returns (rest: seq<Sample>)
    requires Presents(src, m, v, defaults) && ClocksFirstFrom(src, 0) && id in m.tracks
    ensures Began(m.tracks[id], FirstStretches(src, 0, defaults, id), rest, SampleTimes(src, defaults, id))
  {
    hide ScanFrom, Splice, FinishMovie, ReadFlatMovie, Normalize, ReadTracks, Payload, ClocksFirstFrom, FirstStretches, SourceTimes, Began,
         OwnTimes, SourceStretches;
    SplicedFacts(src);
    FinishFacts(src, ScanFrom(src, 0, START).s);
    StartHolds(src);
    ScanKeeps(src, 0, START);
    ScanOwnTimes(src, 0, START, id);
    rest := WholeScan(src, 0, START, id);
  }

  lemma {:induction false} DurationsBounded(ss: seq<Sample>)
    ensures Durations(ss) <= |ss| * MAX_U32
    decreases |ss|
  {
    if ss != [] { DurationsBounded(ss[..|ss| - 1]); }
  }

  /** The media header of a track has the sum of its sample durations exactly when the track's clock counted them all. */
  lemma MediaLength(header: Track, stsd: bytes, t: FlatTrack, p: Plan, delta: int)
    requires TrackInRange(t) && FewSamples(t)
    ensures var view := ViewOfTrack(header, stsd, t, p, delta);
            view.mediaDuration == SumWords(view.table.durations) <==> t.nextDTS - t.firstDTS == Durations(t.Samples())
  {
    hide AllSamples, Durations;
    SumsAgree(t.Samples());
    DurationsBounded(t.Samples());
  }

  /**
   The clock of every recording.  Where the header box of a track is the one the
   scan went by, the track is presented on its recorded clock, by its own edit list
   and the timescales of the file, exactly when its delay fits 64 bits.  The
   recorded clock gives every sample the time of its own fragment exactly when one
   clock, from the first counted run on, gives every run its start.  The media
   header has the sum of the sample durations exactly when the counted runs span it.
   */
  lemma TimesPreserved(src: bytes, m: Movie, v: View, defaults: map<u32, Track>, k: nat)
    requires Presents(src, m, v, defaults)
    requires v.start + v.removed <= |src| && ReadFile(Contents(src, v)).Some? && k < |ReadFile(Contents(src, v)).value.tracks|
    ensures Children(m.metadata).Some?
    ensures var file := ReadFile(Contents(src, v)).value;
            var view, id := file.tracks[k], file.tracks[k].header.id;
            && TrackKnown(src, m, defaults, id) && view.header.scale > 0
            && (DistinctTraks(Children(m.metadata).value) ==> view.header.scale == defaults[id].scale)
            && Tallied(m.tracks[id], CountedRuns(src, defaults, id)) && m.tracks[id].Samples() == SourceSamples(src, defaults, id)
            && var times := TrackTimes(m.tracks[id]);
               && |times| == |SampleTimes(src, defaults, id)| == |view.table.durations| && (forall i | 0 <= i < |times| :: HasSample(view, i))
               && (file.clock.Some? && view.header.scale == defaults[id].scale ==>
                     ((forall i | 0 <= i < |times| :: OnTime(view, file.clock.value.scale, times[i], Origin(m.tracks), i))
                      <==> DelayFits(m.tracks[id], Origin(m.tracks))))
               && (times == SampleTimes(src, defaults, id) <==> OneSourceClock(src, defaults, id))
               && (view.mediaDuration == SumWords(view.table.durations) <==> SourceConserved(src, defaults, id))
  {
    hide Presents, ReadFile, Contents, Children, DistinctTraks, SampleTimes, OneSourceClock, DelayFits, OnTime, Origin, SourceSamples, CountedRuns,
         PlanOf, AllSamples, SourcePieces, PieceInside, StartOf, EditsOf, AllTabled, First, TrackInRange, FewSamples, Durations, LeastStart, LatestStop;
    TrackOfView(src, m, v, defaults, k);
    ViewRead(src, m, v, defaults);
    var view := ReadFile(Contents(src, v)).value.tracks[k];
    var t := m.tracks[view.header.id];
    RecordedClock(src, m, v, defaults, view.header.id);
    MediaLength(view.header, view.table.stsd, t, m.plans[view.header.id], |v.metadata| - v.removed);
    if view.header.scale == t.info.scale { RecordedTimes(view.header, view.table.stsd, t, Origin(m.tracks), |v.metadata| - v.removed); }
    forall i | 0 <= i < |t.Samples()|
      ensures HasSample(view, i)
    {
      TablePlaces(view.header, view.table.stsd, t, m.plans[view.header.id], |v.metadata| - v.removed, i);
    }
  }

  /**
   What the first fragment of each track decides, for every recording that puts its
   clock boxes first: the track keeps the times of its fragments exactly when the
   runs of that fragment start together and only the last one lasts, and its media
   header has the sum of its sample durations exactly when only the last one lasts.
   */
  lemma FirstFragmentRules(src: bytes, m: Movie, v: View, defaults: map<u32, Track>, k: nat)
    requires Presents(src, m, v, defaults) && ClocksFirstFrom(src, 0)
    requires v.start + v.removed <= |src| && ReadFile(Contents(src, v)).Some? && k < |ReadFile(Contents(src, v)).value.tracks|
    ensures var view := ReadFile(Contents(src, v)).value.tracks[k];
            var id := view.header.id;
            var xs := FirstStretches(src, 0, defaults, id);
            && id in m.tracks && xs != []
            && (TrackTimes(m.tracks[id]) == SampleTimes(src, defaults, id) <==> StartTogether(xs))
            && (view.mediaDuration == SumWords(view.table.durations) <==> EarlierEmpty(xs))
  {
    hide Presents, ReadFile, Contents, ClocksFirstFrom, FirstStretches, SampleTimes, TrackTimes, StartTogether, EarlierEmpty, Durations, AllSamples, Children,
         DistinctTraks, OneSourceClock, SourceSamples, CountedRuns, Began, Origin, PlanOf, SourcePieces, OnTime, DelayFits, LeastStart, LatestStop;
    TimesPreserved(src, m, v, defaults, k);
    var id := ReadFile(Contents(src, v)).value.tracks[k].header.id;
    var rest := ScannedTrack(src, m, v, defaults, id);
    BeganSome(m.tracks[id], FirstStretches(src, 0, defaults, id), rest, SampleTimes(src, defaults, id));
    BeganRules(m.tracks[id], FirstStretches(src, 0, defaults, id), rest, SampleTimes(src, defaults, id));
  }

  lemma BeganSome(t: FlatTrack, xs: seq<Stretch>, rest: seq<Sample>, times: seq<int>)
    requires Began(t, xs, rest, times) && t.pieces != []
    ensures xs != []
  {
  }

  lemma SomeTimes(src: bytes, m: Movie, defaults: map<u32, Track>, id: u32)
    requires TrackKnown(src, m, defaults, id)
    ensures m.tracks[id].Samples() != []
  {
    hide SourcePieces, Origin, PlanOf, StartOf, AllSamples;
    var ps := m.tracks[id].pieces;
    assert forall p | p in ps :: PieceInside(p, m.moov.offset + m.moov.size, |src|);
    SomeSamples(ps);
  }

  lemma TicksReach(n: int, scale: u32, d: int)
    requires scale > 0
    ensures Seconds(n, scale) <= Seconds(d, MOVIE_SCALE) <==> MovieTicks(n, scale) <= d
  {
    hide Seconds;
    var x := Seconds(n, scale);
    CeilBounds(x * MOVIE_SCALE as real);
    TimesScale(x, d);
  }

  lemma TimesScale(x: real, d: int)
    ensures x <= Seconds(d, MOVIE_SCALE) <==> x * MOVIE_SCALE as real <= d as real
  {
  }

  lemma CoversInTicks(src: bytes, defaults: map<u32, Track>, id: u32, t: FlatTrack, origin: real)
    requires id in defaults && defaults[id] == t.info && t.info.scale > 0 && t.Samples() != []
    requires t.Samples() == SourceSamples(src, defaults, id) && Tallied(t, CountedRuns(src, defaults, id))
    ensures EditCovers(t, origin) <==> SourceCovers(src, defaults, id)
  {
    hide SourceSamples, CountedRuns, AllSamples, MinPts, MaxEnd, LeastStart, LatestStop, Seconds, Ceil;
    TicksReach(MaxEnd(t.Samples(), t.firstDTS) - t.minPTS, t.info.scale, PlanOf(t, origin).duration);
  }

  /** In a regular recording the counted runs cover all samples exactly when the span of the track fits 64 bits. */
  lemma RegularSpan(src: bytes, m: Movie, v: View, defaults: map<u32, Track>, id: u32)
    requires Presents(src, m, v, defaults) && Regular(src, m) && TrackKnown(src, m, defaults, id)
    ensures SourceCovers(src, defaults, id) <==> SpanFits(m.tracks[id])
  {
    hide Presents, OrderlyFrom, DistinctTraks, ClockOk, SpanFits, EditCovers, SourceCovers, Origin, SourcePieces, PlanOf, AllSamples, StartOf, TrackInRange,
         SampleTimes, SourceSamples, CountedRuns, TrackTimes, Tallied, OneSourceClock;
    OrderlyTrack(src, m, v, defaults, id);
    RecordedClock(src, m, v, defaults, id);
    NothingCut(m.tracks[id], Origin(m.tracks));
    CoversInTicks(src, defaults, id, m.tracks[id], Origin(m.tracks));
  }

  lemma CoveredWhole(src: bytes, m: Movie, v: View, defaults: map<u32, Track>, view: TrackView)
    requires Presents(src, m, v, defaults) && TrackKnown(src, m, defaults, view.header.id)
    requires view == ViewOfTrack(view.header, view.table.stsd, m.tracks[view.header.id], m.plans[view.header.id], |v.metadata| - v.removed)
    ensures forall i | 0 <= i < |view.table.durations| :: HasSample(view, i)
    ensures view.header.scale == defaults[view.header.id].scale ==>
              ((forall i | 0 <= i < |view.table.durations| :: Whole(view, MOVIE_SCALE, i)) <==> SourceCovers(src, defaults, view.header.id))
  {
    hide Presents, EditCovers, SourceCovers, Whole, Origin, SourceSamples, CountedRuns, PlanOf, AllSamples, SourcePieces, PieceInside, StartOf, EditsOf,
         TrackInRange, OneSourceClock, Tallied, SampleTimes, TrackTimes;
    var id := view.header.id;
    var t := m.tracks[id];
    RecordedClock(src, m, v, defaults, id);
    CoversInTicks(src, defaults, id, t, Origin(m.tracks));
    if view.header.scale == t.info.scale { RecordedSpans(view.header, view.table.stsd, t, Origin(m.tracks), |v.metadata| - v.removed); }
    forall i | 0 <= i < |t.Samples()|
      ensures HasSample(view, i)
    {
      TablePlaces(view.header, view.table.stsd, t, m.plans[id], |v.metadata| - v.removed, i);
    }
  }

  /** The edit list of a track cuts no sample exactly when the counted runs cover all samples; in a regular recording exactly when the span of the track fits 64 bits. */
  lemma SamplesWhole(src: bytes, m: Movie, v: View, defaults: map<u32, Track>, k: nat)
    requires Presents(src, m, v, defaults)
    requires v.start + v.removed <= |src| && ReadFile(Contents(src, v)).Some? && ReadFile(Contents(src, v)).value.clock.Some?
    requires k < |ReadFile(Contents(src, v)).value.tracks|
    ensures var file := ReadFile(Contents(src, v)).value;
            var view := file.tracks[k];
            var id := view.header.id;
            && TrackKnown(src, m, defaults, id) && view.header.scale > 0
            && (forall i | 0 <= i < |view.table.durations| :: HasSample(view, i))
            && (view.header.scale == defaults[id].scale ==>
                  ((forall i | 0 <= i < |view.table.durations| :: Whole(view, file.clock.value.scale, i)) <==> SourceCovers(src, defaults, id)))
            && (Regular(src, m) ==>
                  view.header.scale == defaults[id].scale && (SourceCovers(src, defaults, id) <==> SpanFits(m.tracks[id])))
  {
    hide Presents, OrderlyFrom, ReadFile, Contents, Children, DistinctTraks, SpanFits, SourceCovers, Whole, HasSample, Origin, PlanOf, AllSamples,
         SourcePieces, PieceInside, StartOf, AllTabled, First, TrackInRange, FewSamples, ViewOfTrack;
    TrackOfView(src, m, v, defaults, k);
    ViewRead(src, m, v, defaults);
    var view := ReadFile(Contents(src, v)).value.tracks[k];
    CoveredWhole(src, m, v, defaults, view);
    if Regular(src, m) { RegularSpan(src, m, v, defaults, view.header.id); }
  }

  /** One clock gives every run of the track its start, and its delay fits 64 bits. */
  ghost predicate Kept(src: bytes, m: Movie, defaults: map<u32, Track>, id: u32) {
    && id in m.tracks && OneSourceClock(src, defaults, id)
    && Scaled(m.tracks) && (exists j | j in m.tracks :: m.tracks[j].pieces != [])
    && DelayFits(m.tracks[id], Origin(m.tracks))
  }

  /** Any two samples of two such tracks keep their distance in time to the microsecond. */
  lemma SkewBounded(src: bytes, m: Movie, v: View, defaults: map<u32, Track>, k: nat, l: nat, i: nat, j: nat)
    requires Presents(src, m, v, defaults)
    requires Children(m.metadata).Some? && DistinctTraks(Children(m.metadata).value)
    requires v.start + v.removed <= |src| && ReadFile(Contents(src, v)).Some? && ReadFile(Contents(src, v)).value.clock.Some?
    requires k < |ReadFile(Contents(src, v)).value.tracks| && l < |ReadFile(Contents(src, v)).value.tracks|
    requires var file := ReadFile(Contents(src, v)).value;
             && i < |SampleTimes(src, defaults, file.tracks[k].header.id)| && j < |SampleTimes(src, defaults, file.tracks[l].header.id)|
             && Kept(src, m, defaults, file.tracks[k].header.id) && Kept(src, m, defaults, file.tracks[l].header.id)
    ensures var file := ReadFile(Contents(src, v)).value;
            var a, b := file.tracks[k], file.tracks[l];
            && a.header.scale > 0 && b.header.scale > 0 && HasSample(a, i) && HasSample(b, j)
            && var shown := PresentedAt(a, file.clock.value.scale, i) - PresentedAt(b, file.clock.value.scale, j);
               var meant := Seconds(SampleTimes(src, defaults, a.header.id)[i], a.header.scale)
                            - Seconds(SampleTimes(src, defaults, b.header.id)[j], b.header.scale);
               -MICRO < shown - meant < MICRO
  {
    hide Presents, Children, DistinctTraks, ReadFile, Contents, SampleTimes, OneSourceClock, DelayFits, Origin, PlanOf, Seconds, SourcePieces, PieceInside,
         StartOf, HasSample, PresentedAt, Durations, AllSamples;
    TimesPreserved(src, m, v, defaults, k);
    TimesPreserved(src, m, v, defaults, l);
    var file := ReadFile(Contents(src, v)).value;
    assert OnTime(file.tracks[k], file.clock.value.scale, SampleTimes(src, defaults, file.tracks[k].header.id)[i], Origin(m.tracks), i);
    assert OnTime(file.tracks[l], file.clock.value.scale, SampleTimes(src, defaults, file.tracks[l].header.id)[j], Origin(m.tracks), j);
  }
}
