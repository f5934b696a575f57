/**
 Presentation time under an edit list (ISO/IEC 14496-12 section 8.6.6), and how
 closely the emitted lists keep the recording clock.
 */
module Timing {
  import opened Bytes
  import opened Options
  import opened Tracks
  import opened Samples
  import opened Fragments
  import opened SampleTables
  import opened FlatScan
  import opened ScanLemmas
  import opened FlatMovie

  /** `mediaTime` -1 marks an empty edit. */
  datatype Edit = Edit(duration: u64, mediaTime: int)

  const MICRO: real := 0.000001

  /** Movie time at which a reader presents media time `at`, in seconds: empty edits, counted in movie ticks, delay the media. */
  function Presented(edits: seq<Edit>, at: int, scale: u32, movie: u32): real
    requires scale > 0 && movie > 0
  {
    if edits == [] then 0.0
    else if edits[0].mediaTime < 0 then Seconds(edits[0].duration, movie) + Presented(edits[1..], at, scale, movie)
    else Seconds(at - edits[0].mediaTime, scale)
  }

  /** The first media edit shows the stretch of the media from `at` on whole. */
  predicate Uncut(edits: seq<Edit>, at: int, duration: u32, scale: u32, movie: u32)
    requires scale > 0 && movie > 0
  {
    if edits == [] then false
    else if edits[0].mediaTime < 0 then Uncut(edits[1..], at, duration, scale, movie)
    else edits[0].mediaTime <= at && Seconds(at - edits[0].mediaTime + duration, scale) <= Seconds(edits[0].duration, movie)
  }

  function TotalEdits(edits: seq<Edit>): nat {
    if edits == [] then 0 else edits[0].duration + TotalEdits(edits[1..])
  }

  function MediaTime(t: FlatTrack, p: Plan): int { t.minPTS - t.firstDTS + p.shift }

  /** The edit list the emitter writes. */
  function EditsOf(t: FlatTrack, p: Plan): seq<Edit> {
    (if p.delay > 0 then [Edit(p.delay, -1)] else []) + [Edit(p.duration, MediaTime(t, p))]
  }

  /** Composition time of sample i in the new track: preceding durations plus its shifted offset. */
  function CompositionTime(ss: seq<Sample>, shift: int, i: nat): int
    requires i < |ss|
  {
    Durations(ss[..i]) + ss[i].cts + shift
  }

  lemma CeilBounds(x: real)
    ensures x <= Ceil(x) as real < x + 1.0
  {
  }

  /** Rounding up to movie ticks never falls short exactly when the result fits 64 bits, and then costs less than a tick. */
  lemma CeilMovieTimeError(seconds: real)
    requires seconds >= 0.0
    ensures var e := Seconds(CeilMovieTime(seconds), MOVIE_SCALE) - seconds;
            && (0.0 <= e <==> Ceil(seconds * MOVIE_SCALE as real) <= MAX_U64)
            && (0.0 <= e ==> e < MICRO)
  {
    var n := Ceil(seconds * MOVIE_SCALE as real);
    CeilBounds(seconds * MOVIE_SCALE as real);
    assert n >= 0;
    if n <= MAX_U64 {
      assert Wrap64(n) == n;
    } else {
      assert Wrap64(n) <= n - 1;
    }
  }

  lemma SecondsSub(a: int, b: int, scale: u32)
    requires scale > 0
    ensures Seconds(a - b, scale) == Seconds(a, scale) - Seconds(b, scale)
  {
    var s := scale as real;
    assert (a - b) as real == a as real - b as real;
    DivSub(a as real, b as real, s);
  }

  lemma DivSub(x: real, y: real, s: real)
    requires s > 0.0
    ensures (x - y) / s == x / s - y / s
  {
  }

  lemma SecondsMonotone(a: int, b: int, scale: u32)
    requires scale > 0 && a <= b
    ensures Seconds(a, scale) <= Seconds(b, scale)
  {
  }

  lemma PresentedUnderPlan(t: FlatTrack, p: Plan, at: int, duration: u32)
    requires t.info.scale > 0 && MediaTime(t, p) >= 0
    ensures Presented(EditsOf(t, p), at, t.info.scale, MOVIE_SCALE) == Seconds(p.delay, MOVIE_SCALE) + Seconds(at - MediaTime(t, p), t.info.scale)
    ensures Uncut(EditsOf(t, p), at, duration, t.info.scale, MOVIE_SCALE)
            <==> MediaTime(t, p) <= at && Seconds(at - MediaTime(t, p) + duration, t.info.scale) <= Seconds(p.duration, MOVIE_SCALE)
  {
    var e := EditsOf(t, p);
    if p.delay > 0 {
      assert e[1..] == [Edit(p.duration, MediaTime(t, p))] && e[1..][1..] == [];
      assert Presented(e[1..], at, t.info.scale, MOVIE_SCALE) == Seconds(at - MediaTime(t, p), t.info.scale);
    } else {
      assert e[1..] == [];
    }
  }

  /** The delay of the track fits the 64 bits of an edit. */
  predicate DelayFits(t: FlatTrack, origin: real)
    requires t.info.scale > 0
  {
    Ceil((StartOf(t) - origin) * MOVIE_SCALE as real) <= MAX_U64
  }

  /** So does the time from the earliest presentation to the latest end. */
  predicate SpanFits(t: FlatTrack)
    requires t.info.scale > 0
  {
    Ceil(Seconds(t.maxPTS - t.minPTS, t.info.scale) * MOVIE_SCALE as real) <= MAX_U64
  }

  lemma MediaTimeNotNegative(t: FlatTrack, origin: real)
    requires t.info.scale > 0
    ensures MediaTime(t, PlanOf(t, origin)) >= 0
  {
  }

  /**
   Every sample is presented at its time on the track's clock minus the common
   origin, late by less than a microsecond; the error is the same for all samples
   of the track, and it stays in that bound exactly when the delay fits 64 bits.
   */
  lemma PresentationKept(t: FlatTrack, origin: real, i: nat)
    requires t.info.scale > 0 && origin <= StartOf(t) && i < |t.Samples()|
    ensures var p := PlanOf(t, origin);
            var at := Presented(EditsOf(t, p), CompositionTime(t.Samples(), p.shift, i), t.info.scale, MOVIE_SCALE);
            var wanted := Seconds(Pts(t.Samples(), t.firstDTS, i), t.info.scale) - origin;
            && at - wanted == Seconds(p.delay, MOVIE_SCALE) - (StartOf(t) - origin)
            && (0.0 <= at - wanted < MICRO <==> DelayFits(t, origin))
  {
    hide MinPts, MaxEnd, Durations, Presented, Uncut, TotalEdits, EditsOf, CeilMovieTime, Ceil;
    var p := PlanOf(t, origin);
    MediaTimeNotNegative(t, origin);
    var ct := CompositionTime(t.Samples(), p.shift, i);
    PresentedUnderPlan(t, p, ct, 0);
    var pts := Pts(t.Samples(), t.firstDTS, i);
    assert ct - MediaTime(t, p) == pts - t.minPTS;
    SecondsSub(pts, t.minPTS, t.info.scale);
    CeilMovieTimeError(StartOf(t) - origin);
  }

  /** Sample i lies inside the media edit. */
  predicate SampleUncut(t: FlatTrack, p: Plan, i: nat)
    requires t.info.scale > 0 && i < |t.Samples()|
  {
    Uncut(EditsOf(t, p), CompositionTime(t.Samples(), p.shift, i), t.Samples()[i].duration, t.info.scale, MOVIE_SCALE)
  }

  lemma UncutMeans(t: FlatTrack, origin: real, i: nat)
    requires t.info.scale > 0 && i < |t.Samples()|
    ensures var pts := Pts(t.Samples(), t.firstDTS, i);
            SampleUncut(t, PlanOf(t, origin), i)
            <==> t.minPTS <= pts && Seconds(pts + t.Samples()[i].duration - t.minPTS, t.info.scale) <= Seconds(PlanOf(t, origin).duration, MOVIE_SCALE)
  {
    hide MinPts, MaxEnd, Durations, Presented, Uncut, TotalEdits, EditsOf, CeilMovieTime, Ceil, Seconds;
    var p := PlanOf(t, origin);
    var ss := t.Samples();
    MediaTimeNotNegative(t, origin);
    var ct := CompositionTime(ss, p.shift, i);
    PresentedUnderPlan(t, p, ct, ss[i].duration);
    assert ct - MediaTime(t, p) == Pts(ss, t.firstDTS, i) - t.minPTS;
  }

  /** The track's earliest presentation bounds that of its samples, and the length of its media edit reaches their latest end. */
  predicate EditCovers(t: FlatTrack, origin: real)
    requires t.info.scale > 0 && t.Samples() != []
  {
    && t.minPTS <= MinPts(t.Samples(), t.firstDTS)
    && Seconds(MaxEnd(t.Samples(), t.firstDTS) - t.minPTS, t.info.scale) <= Seconds(PlanOf(t, origin).duration, MOVIE_SCALE)
  }

  /** The media edit cuts no sample exactly when it covers the extrema of all; for a track whose extrema were counted right, exactly when its length fits 64 bits, whatever the delay. */
  lemma NothingCut(t: FlatTrack, origin: real)
    requires t.info.scale > 0 && t.Samples() != []
    ensures (forall i | 0 <= i < |t.Samples()| :: SampleUncut(t, PlanOf(t, origin), i)) <==> EditCovers(t, origin)
    ensures ClockOk(t) && t.pieces != [] ==> (EditCovers(t, origin) <==> SpanFits(t))
  {
    hide MinPts, MaxEnd, Durations, SampleUncut, EditsOf, CeilMovieTime, Ceil, Seconds;
    var ss := t.Samples();
    ExtremaBound(ss, t.firstDTS);
    var last :| 0 <= last < |ss| && MaxEnd(ss, t.firstDTS) == Pts(ss, t.firstDTS, last) + ss[last].duration;
    var first :| 0 <= first < |ss| && MinPts(ss, t.firstDTS) == Pts(ss, t.firstDTS, first);
    UncutMeans(t, origin, last);
    UncutMeans(t, origin, first);
    forall i | 0 <= i < |ss|
      ensures EditCovers(t, origin) ==> SampleUncut(t, PlanOf(t, origin), i)
    {
      UncutMeans(t, origin, i);
      SecondsMonotone(Pts(ss, t.firstDTS, i) + ss[i].duration - t.minPTS, MaxEnd(ss, t.firstDTS) - t.minPTS, t.info.scale);
    }
    if ClockOk(t) && t.pieces != [] { SpanCovers(t, origin); }
  }

  lemma SpanCovers(t: FlatTrack, origin: real)
    requires t.info.scale > 0 && t.Samples() != [] && ClockOk(t) && t.pieces != []
    ensures EditCovers(t, origin) <==> SpanFits(t)
  {
    hide MinPts, MaxEnd, Durations, CeilMovieTime, Ceil, Seconds;
    ExtremaBound(t.Samples(), t.firstDTS);
    var span := t.maxPTS - t.minPTS;
    SecondsNotNegative(span, t.info.scale);
    CeilMovieTimeError(Seconds(span, t.info.scale));
  }

  lemma SecondsNotNegative(n: int, scale: u32)
    requires scale > 0 && n >= 0
    ensures Seconds(n, scale) >= 0.0
  {
  }
}
