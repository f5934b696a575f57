/** What the common origin of a recording is, in the presentation times of the source. */
module Origins {
  import opened Bytes
  import opened Options
  import opened Boxes
  import opened Tracks
  import opened Samples
  import opened Fragments
  import opened Agreement
  import opened SampleTables
  import opened FlatScan
  import opened ScanLemmas
  import opened SourceTruth
  import opened Stretches
  import opened FirstFragments
  import opened LateClocks
  import opened FlatMovie
  import opened Timing
  import opened MovieBoxes
  import opened Normalized
  import opened Demux
  import opened FlatFile
  import opened EndToEnd
  import opened Presentation

  predicate AtLeast(times: seq<int>, scale: u32, o: real)
    requires scale > 0
  {
    forall i | 0 <= i < |times| :: o <= Seconds(times[i], scale)
  }

  lemma AtLeastConcat(a: seq<int>, b: seq<int>, scale: u32, o: real)
    requires scale > 0
    ensures AtLeast(a + b, scale, o) <==> AtLeast(a, scale, o) && AtLeast(b, scale, o)
  {
    hide Seconds;
    assert forall i | 0 <= i < |b| :: (a + b)[|a| + i] == b[i];
    assert forall i | 0 <= i < |a| :: (a + b)[i] == a[i];
  }

  lemma TimesAtLeast(ss: seq<Sample>, d: int, scale: u32, o: real)
    requires scale > 0 && ss != []
    ensures AtLeast(TimesFrom(ss, d), scale, o) <==> o <= Seconds(MinPts(ss, d), scale)
    ensures exists i | 0 <= i < |ss| :: TimesFrom(ss, d)[i] == MinPts(ss, d)
  {
    hide Seconds, MinPts, MaxEnd, Pts;
    ExtremaBound(ss, d);
    forall i | 0 <= i < |ss|
      ensures Seconds(MinPts(ss, d), scale) <= Seconds(TimesFrom(ss, d)[i], scale)
    {
      SecondsMonotone(MinPts(ss, d), TimesFrom(ss, d)[i], scale);
    }
  }

  /** No stretch but the last starts presenting before o. */
  predicate NoneEarlier(xs: seq<Stretch>, scale: u32, o: real)
    requires scale > 0
  {
    forall k | 0 <= k < |xs| - 1 :: xs[k].samples != [] ==> o <= Seconds(MinPts(xs[k].samples, xs[k].first), scale)
  }

  predicate StretchesAtLeast(xs: seq<Stretch>, scale: u32, o: real)
    requires scale > 0
  {
    forall k | 0 <= k < |xs| :: xs[k].samples != [] ==> o <= Seconds(MinPts(xs[k].samples, xs[k].first), scale)
  }

  lemma {:induction false} OwnAtLeast(xs: seq<Stretch>, scale: u32, o: real)
    requires scale > 0 && NonEmpty(xs)
    ensures AtLeast(OwnTimes(xs), scale, o) <==> StretchesAtLeast(xs, scale, o)
    decreases |xs|
  {
    hide Seconds, MinPts, TimesFrom, AtLeast;
    if xs == [] {
      NoTimes(scale, o);
    } else {
      var n := |xs| - 1;
      assert xs[n] in xs;
      OwnAtLeast(xs[..n], scale, o);
      TimesAtLeast(xs[n].samples, xs[n].first, scale, o);
      AtLeastConcat(OwnTimes(xs[..n]), TimesFrom(xs[n].samples, xs[n].first), scale, o);
      assert StretchesAtLeast(xs, scale, o)
        <==> StretchesAtLeast(xs[..n], scale, o) && o <= Seconds(MinPts(xs[n].samples, xs[n].first), scale);
    }
  }

  lemma NoTimes(scale: u32, o: real)
    requires scale > 0
    ensures AtLeast([], scale, o) && OwnTimes([]) == [] && StretchesAtLeast([], scale, o)
  {
  }

  /** A track that begins no earlier than o has no sample before o exactly when no overwritten run of its first fragment has; and some sample of it is presented at its start. */
  lemma TrackAtLeast(t: FlatTrack, xs: seq<Stretch>, rest: seq<Sample>, times: seq<int>, o: real)
    requires t.info.scale > 0 && Began(t, xs, rest, times) && xs != [] && o <= StartOf(t)
    ensures AtLeast(times, t.info.scale, o) <==> NoneEarlier(xs, t.info.scale, o)
    ensures exists i | 0 <= i < |times| :: times[i] == t.minPTS
  {
    hide Seconds, MinPts, TimesFrom, AtLeast, OwnTimes, Joined, Durations, AllSamples, StretchesAtLeast;
    var scale, last := t.info.scale, xs[|xs| - 1];
    var stop := last.first + Durations(last.samples);
    OwnAtLeast(xs, scale, o);
    AtLeastConcat(OwnTimes(xs), TimesFrom(rest, stop), scale, o);
    StartBounds(t, last, rest, o);
    RestAtLeast(rest, stop, scale, o);
    LastStretch(xs, scale, o);
    StartAttained(t, xs, rest, times);
  }

  lemma StartAttained(t: FlatTrack, xs: seq<Stretch>, rest: seq<Sample>, times: seq<int>)
    requires Began(t, xs, rest, times) && xs != []
    ensures exists i | 0 <= i < |times| :: times[i] == t.minPTS
  {
    hide MinPts, TimesFrom, OwnTimes, Joined, Durations, AllSamples;
    var last := xs[|xs| - 1];
    var stop := last.first + Durations(last.samples);
    if t.minPTS == MinPts(last.samples, last.first) {
      var i := LastOwn(xs);
      assert times[i] == t.minPTS;
    } else {
      TimesAtLeast(rest, stop, 1, 0.0);
      var i :| 0 <= i < |rest| && TimesFrom(rest, stop)[i] == MinPts(rest, stop);
      assert times[|OwnTimes(xs)| + i] == t.minPTS;
    }
  }

  lemma StartBounds(t: FlatTrack, last: Stretch, rest: seq<Sample>, o: real)
    requires t.info.scale > 0 && last.samples != [] && o <= StartOf(t)
    requires t.minPTS == LeastWith(MinPts(last.samples, last.first), rest, last.first + Durations(last.samples))
    ensures o <= Seconds(MinPts(last.samples, last.first), t.info.scale)
    ensures rest != [] ==> t.minPTS <= MinPts(rest, last.first + Durations(last.samples))
    ensures rest != [] ==> o <= Seconds(MinPts(rest, last.first + Durations(last.samples)), t.info.scale)
  {
    hide MinPts, Durations, Seconds;
    SecondsMonotone(t.minPTS, MinPts(last.samples, last.first), t.info.scale);
    if rest != [] { SecondsMonotone(t.minPTS, MinPts(rest, last.first + Durations(last.samples)), t.info.scale); }
  }

  /** The last stretch of the first fragment has a sample at its earliest presentation. */
  lemma LastOwn(xs: seq<Stretch>) returns (i: nat)
    requires xs != [] && NonEmpty(xs)
    ensures xs[|xs| - 1] in xs
    ensures i < |OwnTimes(xs)| && OwnTimes(xs)[i] == MinPts(xs[|xs| - 1].samples, xs[|xs| - 1].first)
  {
    hide MinPts, TimesFrom;
    var n := |xs| - 1;
    assert xs[n] in xs;
    TimesAtLeast(xs[n].samples, xs[n].first, 1, 0.0);
    var j :| 0 <= j < |xs[n].samples| && TimesFrom(xs[n].samples, xs[n].first)[j] == MinPts(xs[n].samples, xs[n].first);
    i := |OwnTimes(xs[..n])| + j;
  }

  lemma RestAtLeast(rest: seq<Sample>, stop: int, scale: u32, o: real)
    requires scale > 0 && (rest != [] ==> o <= Seconds(MinPts(rest, stop), scale))
    ensures AtLeast(TimesFrom(rest, stop), scale, o)
  {
    hide Seconds, MinPts, Pts;
    if rest != [] { TimesAtLeast(rest, stop, scale, o); }
  }

  lemma LastStretch(xs: seq<Stretch>, scale: u32, o: real)
    requires scale > 0 && xs != [] && xs[|xs| - 1].samples != []
    requires o <= Seconds(MinPts(xs[|xs| - 1].samples, xs[|xs| - 1].first), scale)
    ensures StretchesAtLeast(xs, scale, o) <==> NoneEarlier(xs, scale, o)
  {
    hide Seconds, MinPts;
  }

  /** The earliest presentation of all samples of the source, each on the clock of its own run. */
  ghost predicate EarliestOfAll(src: bytes, defaults: map<u32, Track>, o: real)
    requires forall id | id in defaults :: defaults[id].scale > 0
  {
    && (exists id | id in defaults :: PresentedFirst(SampleTimes(src, defaults, id), defaults[id].scale, o))
    && (forall id | id in defaults :: AtLeast(SampleTimes(src, defaults, id), defaults[id].scale, o))
  }

  predicate PresentedFirst(times: seq<int>, scale: u32, o: real)
    requires scale > 0
  {
    exists i | 0 <= i < |times| :: Seconds(times[i], scale) == o
  }

  lemma OneTrack(src: bytes, m: Movie, v: View, defaults: map<u32, Track>, id: u32, o: real)
    requires Presents(src, m, v, defaults) && ClocksFirstFrom(src, 0) && id in m.tracks && id in defaults && m.tracks[id].info == defaults[id] && defaults[id].scale > 0
    requires m.tracks[id].pieces != [] ==> o <= StartOf(m.tracks[id])
    ensures AtLeast(SampleTimes(src, defaults, id), defaults[id].scale, o) <==> NoneEarlier(FirstStretches(src, 0, defaults, id), defaults[id].scale, o)
    ensures m.tracks[id].pieces != [] && StartOf(m.tracks[id]) == o ==> PresentedFirst(SampleTimes(src, defaults, id), defaults[id].scale, o)
  {
    hide Presents, ClocksFirstFrom, FirstStretches, SampleTimes, AtLeast, NoneEarlier, Seconds, MinPts, LeastWith, OwnTimes, TimesFrom, Joined, Durations;
    var t, xs, times := m.tracks[id], FirstStretches(src, 0, defaults, id), SampleTimes(src, defaults, id);
    var rest := ScannedTrack(src, m, v, defaults, id);
    if t.pieces != [] {
      TrackAtLeast(t, xs, rest, times, o);
    } else {
      NothingPresented(src, m, v, defaults, id, defaults[id].scale, o);
    }
  }

  /** A track without samples has no times. */
  lemma NothingPresented(src: bytes, m: Movie, v: View, defaults: map<u32, Track>, id: u32, scale: u32, o: real)
    requires Presents(src, m, v, defaults) && ClocksFirstFrom(src, 0) && id in m.tracks && m.tracks[id].pieces == [] && scale > 0
    ensures AtLeast(SampleTimes(src, defaults, id), scale, o) && NoneEarlier(FirstStretches(src, 0, defaults, id), scale, o)
  {
    hide ScanFrom, Splice, FinishMovie, ReadFlatMovie, Normalize, ReadTracks, Payload, ClocksFirstFrom, FirstStretches, SourceStretches, SourcePieces,
         Joined, AllSamples, OwnTimes, TimesFrom;
    var rest := ScannedTrack(src, m, v, defaults, id);
    SplicedFacts(src);
    FinishFacts(src, ScanFrom(src, 0, START).s);
    StartHolds(src);
    ScanStretches(src, 0, START, id);
    ScanCollects(src, 0, START, id);
    EmptyStart(id, SourcePieces(src, 0, defaults, id));
    NoPiecesNoSamples();
    SteadyTimes(SourceStretches(src, 0, defaults, id), 0);
  }

  /** Some stretch starts presenting at o. */
  predicate StretchAt(xs: seq<Stretch>, scale: u32, o: real)
    requires scale > 0
  {
    exists k | 0 <= k < |xs| :: xs[k].samples != [] && Seconds(MinPts(xs[k].samples, xs[k].first), scale) == o
  }

  /** No run of the file starts presenting before o, and one does so at o. */
  ghost predicate EarliestRun(src: bytes, defaults: map<u32, Track>, o: real)
    requires forall id | id in defaults :: defaults[id].scale > 0
  {
    && (exists id | id in defaults :: StretchAt(SourceStretches(src, 0, defaults, id), defaults[id].scale, o))
    && (forall id | id in defaults :: StretchesAtLeast(SourceStretches(src, 0, defaults, id), defaults[id].scale, o))
  }

  lemma {:induction false} AttainedOwn(xs: seq<Stretch>, scale: u32, o: real)
    requires scale > 0 && NonEmpty(xs) && StretchesAtLeast(xs, scale, o)
    ensures PresentedFirst(OwnTimes(xs), scale, o) <==> StretchAt(xs, scale, o)
    decreases |xs|
  {
    hide Seconds, MinPts, TimesFrom;
    if xs != [] {
      var n := |xs| - 1;
      assert xs[n] in xs;
      AttainedOwn(xs[..n], scale, o);
      AttainedTimes(xs[n].samples, xs[n].first, scale, o);
      FirstOfEither(OwnTimes(xs[..n]), TimesFrom(xs[n].samples, xs[n].first), scale, o);
      assert StretchAt(xs, scale, o) <==> StretchAt(xs[..n], scale, o) || Seconds(MinPts(xs[n].samples, xs[n].first), scale) == o;
    }
  }

  lemma AttainedTimes(ss: seq<Sample>, d: int, scale: u32, o: real)
    requires scale > 0 && ss != [] && o <= Seconds(MinPts(ss, d), scale)
    ensures PresentedFirst(TimesFrom(ss, d), scale, o) <==> Seconds(MinPts(ss, d), scale) == o
  {
    hide Seconds, MinPts, MaxEnd, Pts;
    TimesAtLeast(ss, d, scale, o);
    ExtremaBound(ss, d);
    forall i | 0 <= i < |ss|
      ensures Seconds(MinPts(ss, d), scale) <= Seconds(TimesFrom(ss, d)[i], scale)
    {
      SecondsMonotone(MinPts(ss, d), TimesFrom(ss, d)[i], scale);
    }
  }

  lemma FirstOfEither(a: seq<int>, b: seq<int>, scale: u32, o: real)
    requires scale > 0
    ensures PresentedFirst(a + b, scale, o) <==> PresentedFirst(a, scale, o) || PresentedFirst(b, scale, o)
  {
    hide Seconds;
    assert forall i | 0 <= i < |b| :: (a + b)[|a| + i] == b[i];
    assert forall i | 0 <= i < |a| :: (a + b)[i] == a[i];
  }

  lemma RunsNonEmpty(src: bytes, m: Movie, v: View, defaults: map<u32, Track>, id: u32)
    requires Presents(src, m, v, defaults)
    ensures NonEmpty(SourceStretches(src, 0, defaults, id))
  {
    hide ScanFrom, Splice, FinishMovie, ReadFlatMovie, Normalize, ReadTracks, Payload, SourceStretches, SourcePieces, Joined, AllSamples;
    SplicedFacts(src);
    FinishFacts(src, ScanFrom(src, 0, START).s);
    StartHolds(src);
    ScanStretches(src, 0, START, id);
    HeaderOfScan(src, m, v, defaults);
  }

  /** The origin is the earliest start of the counted runs, on the recording clock. */
  ghost predicate EarliestCounted(src: bytes, m: Movie, defaults: map<u32, Track>, o: real)
    requires m.tracks.Keys == defaults.Keys && forall id | id in defaults :: defaults[id].scale > 0
  {
    && (exists id | id in defaults :: m.tracks[id].pieces != [] && Seconds(LeastStart(CountedRuns(src, defaults, id)), defaults[id].scale) == o)
    && (forall id | id in defaults && m.tracks[id].pieces != [] :: o <= Seconds(LeastStart(CountedRuns(src, defaults, id)), defaults[id].scale))
  }

  lemma CountedStart(src: bytes, m: Movie, v: View, defaults: map<u32, Track>, id: u32)
    requires Presents(src, m, v, defaults) && id in m.tracks && m.tracks[id].pieces != [] && id in defaults
    requires m.tracks[id].info == defaults[id] && defaults[id].scale > 0
    ensures StartOf(m.tracks[id]) == Seconds(LeastStart(CountedRuns(src, defaults, id)), defaults[id].scale)
  {
    hide Presents, CountedRuns, SampleTimes, OneSourceClock, AllSamples, SourceSamples, LeastStart, LatestStop, Seconds, TrackTimes;
    RecordedClock(src, m, v, defaults, id);
  }

  /**
   The common origin is the earliest start of the runs that count.  It is the
   earliest presentation of all samples of the source exactly when no run at all
   starts before it and one starts at it; with clock boxes ahead of the runs, exactly
   when no run that a later one overwrites, in the fragment that introduces its
   track, starts before it.
   */
  lemma OriginIsEarliest(src: bytes, m: Movie, v: View, defaults: map<u32, Track>)
    requires Presents(src, m, v, defaults)
    ensures Scaled(m.tracks) && (exists j | j in m.tracks :: m.tracks[j].pieces != [])
    ensures m.tracks.Keys == defaults.Keys && forall id | id in defaults :: defaults[id].scale > 0
    ensures EarliestCounted(src, m, defaults, Origin(m.tracks))
    ensures EarliestOfAll(src, defaults, Origin(m.tracks)) <==> EarliestRun(src, defaults, Origin(m.tracks))
    ensures ClocksFirstFrom(src, 0) ==>
              (EarliestOfAll(src, defaults, Origin(m.tracks))
               <==> forall id | id in defaults :: NoneEarlier(FirstStretches(src, 0, defaults, id), defaults[id].scale, Origin(m.tracks)))
  {
    hide Presents, ClocksFirstFrom, FirstStretches, SourceStretches, SampleTimes, CountedRuns, Origin, Children, ReadTracks, Longest, PlansFrom, PlansFit,
         AtLeast, NoneEarlier, PresentedFirst, StretchesAtLeast, StretchAt, StartOf, Seconds, LeastStart;
    HeaderOfScan(src, m, v, defaults);
    var o := Origin(m.tracks);
    assert IsOrigin(m.tracks, o);
    forall id | id in defaults
      ensures defaults[id].scale > 0
      ensures m.tracks[id].pieces != [] ==> StartOf(m.tracks[id]) == Seconds(LeastStart(CountedRuns(src, defaults, id)), defaults[id].scale)
      ensures AtLeast(SampleTimes(src, defaults, id), defaults[id].scale, o) <==> StretchesAtLeast(SourceStretches(src, 0, defaults, id), defaults[id].scale, o)
      ensures StretchesAtLeast(SourceStretches(src, 0, defaults, id), defaults[id].scale, o) ==>
                (PresentedFirst(SampleTimes(src, defaults, id), defaults[id].scale, o) <==> StretchAt(SourceStretches(src, 0, defaults, id), defaults[id].scale, o))
      ensures ClocksFirstFrom(src, 0) ==>
                (AtLeast(SampleTimes(src, defaults, id), defaults[id].scale, o) <==> NoneEarlier(FirstStretches(src, 0, defaults, id), defaults[id].scale, o))
      ensures ClocksFirstFrom(src, 0) && m.tracks[id].pieces != [] && StartOf(m.tracks[id]) == o ==> PresentedFirst(SampleTimes(src, defaults, id), defaults[id].scale, o)
    {
      assert id in m.tracks && m.tracks[id].info.scale > 0;
      if m.tracks[id].pieces != [] { CountedStart(src, m, v, defaults, id); }
      RunsOf(src, m, v, defaults, id, o);
      if ClocksFirstFrom(src, 0) { OneTrack(src, m, v, defaults, id, o); }
    }
  }

  lemma RunsOf(src: bytes, m: Movie, v: View, defaults: map<u32, Track>, id: u32, o: real)
    requires Presents(src, m, v, defaults) && id in defaults && defaults[id].scale > 0
    ensures var xs, scale := SourceStretches(src, 0, defaults, id), defaults[id].scale;
            && (AtLeast(SampleTimes(src, defaults, id), scale, o) <==> StretchesAtLeast(xs, scale, o))
            && (StretchesAtLeast(xs, scale, o) ==> (PresentedFirst(SampleTimes(src, defaults, id), scale, o) <==> StretchAt(xs, scale, o)))
  {
    hide Presents, SourceStretches, AtLeast, StretchesAtLeast, PresentedFirst, StretchAt, OwnTimes;
    var xs, scale := SourceStretches(src, 0, defaults, id), defaults[id].scale;
    RunsNonEmpty(src, m, v, defaults, id);
    OwnAtLeast(xs, scale, o);
    if StretchesAtLeast(xs, scale, o) { AttainedOwn(xs, scale, o); }
  }
}
