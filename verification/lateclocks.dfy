/**
 Decode times wherever they stand.  A tfdt box moves the clock of readRuns for
 the runs that follow it, and the first decode time it reports for all of them;
 the sample lists of readSamples are counted from that one time.
 */
module LateClocks {
  import opened Bytes
  import opened Options
  import opened Boxes
  import opened Tracks
  import opened Samples
  import opened Fragments
  import opened Agreement
  import opened FlatScan
  import opened ScanLemmas
  import opened SourceTruth
  import opened Stretches
  import opened FirstFragments

  /** A run with the decode time readRuns had reached when it came to it. */
  datatype Told = Told(track: u32, stretch: Stretch)

  function TrafTold(cs: seq<Child>, tracks: map<u32, Track>, moofOffset: int): seq<Told> {
    if cs == [] then []
    else
      var n := |cs| - 1;
      var before := TrafTold(cs[..n], tracks, moofOffset);
      match RunsTraf(cs[..n], tracks, moofOffset)
      case None => before
      case Some(st) =>
        if cs[n].kind != TRUN || TrunSamples(cs[n].body, st.t).None? then before
        else before + [Told(st.t.id, Stretch(st.decode, TrunSamples(cs[n].body, st.t).value))]
  }

  function MoofTold(cs: seq<Child>, tracks: map<u32, Track>, moofOffset: int): seq<Told> {
    if cs == [] then []
    else
      var n := |cs| - 1;
      MoofTold(cs[..n], tracks, moofOffset)
      + if cs[n].kind == TRAF && Children(cs[n].body).Some? then TrafTold(Children(cs[n].body).value, tracks, moofOffset) else []
  }

  function StretchesIn(ts: seq<Told>): (r: seq<Stretch>)
    ensures |r| == |ts|
  {
    if ts == [] then [] else StretchesIn(ts[..|ts| - 1]) + [ts[|ts| - 1].stretch]
  }

  /** The stretches of one track. */
  function Only(ts: seq<Told>, id: u32): seq<Stretch> {
    if ts == [] then []
    else Only(ts[..|ts| - 1], id) + if ts[|ts| - 1].track == id then [ts[|ts| - 1].stretch] else []
  }

  /** All runs of a track in the file, each with the decode time its fragment gives it. */
  function SourceStretches(src: bytes, pos: nat, tracks: map<u32, Track>, id: u32): seq<Stretch>
    requires pos <= |src|
    decreases |src| - pos
  {
    if pos == |src| || !ReadBox(src, pos, |src|).Found? then []
    else
      var b := ReadBox(src, pos, |src|).box;
      (if b.kind == MOOF && Children(Body(src, b)).Some? then Only(MoofTold(Children(Body(src, b)).value, tracks, pos), id) else [])
      + SourceStretches(src, pos + b.size, tracks, id)
  }

  // ---------- the two parsers see the same runs ----------

  predicate Tells(ts: seq<Told>, ps: seq<Piece>) {
    && |ts| == |ps|
    && forall j | 0 <= j < |ps| :: ps[j].samples != [] && ps[j].samples == ts[j].stretch.samples && ps[j].track == ts[j].track
  }

  lemma {:induction false} TellsSamples(ts: seq<Told>, ps: seq<Piece>, id: u32)
    requires Tells(ts, ps)
    ensures AllSamples(ps) == Joined(StretchesIn(ts)) && NonEmpty(StretchesIn(ts))
    ensures AllSamples(PiecesFor(ps, id)) == Joined(Only(ts, id)) && NonEmpty(Only(ts, id))
    decreases |ts|
  {
    hide AllSamples, PiecesFor, Joined;
    JoinedNothing();
    NoPiecesNoSamples();
    NothingFor(id);
    if ts != [] {
      var n := |ts| - 1;
      TellsSamples(ts[..n], ps[..n], id);
      assert ps == ps[..n] + [ps[n]];
      PiecesForConcat(ps[..n], [ps[n]], id);
      PiecesOfOneTrack([ps[n]], ps[n].track, id);
      JoinedMore(StretchesIn(ts[..n]), ts[n].stretch, ps[..n], ps[n]);
      if ts[n].track == id {
        JoinedMore(Only(ts[..n], id), ts[n].stretch, PiecesFor(ps[..n], id), ps[n]);
      } else {
        assert Only(ts[..n], id) + [] == Only(ts[..n], id) && PiecesFor(ps[..n], id) + [] == PiecesFor(ps[..n], id);
      }
    }
  }

  lemma JoinedMore(xs: seq<Stretch>, x: Stretch, ps: seq<Piece>, p: Piece)
    requires AllSamples(ps) == Joined(xs) && p.samples == x.samples
    ensures AllSamples(ps + [p]) == Joined(xs + [x])
  {
    assert (ps + [p])[..|ps|] == ps && (xs + [x])[..|xs|] == xs;
  }

  lemma {:induction false} TrafTells(cs: seq<Child>, tracks: map<u32, Track>, moofOffset: int)
    requires RunsTraf(cs, tracks, moofOffset).Some? && PiecesTraf(cs, tracks, moofOffset).Some?
    ensures Tells(TrafTold(cs, tracks, moofOffset), PiecesTraf(cs, tracks, moofOffset).value.pieces)
    decreases |cs|
  {
    hide TrunSamples, AddSamples, TfhdDefaults, BaseDecode;
    if cs != [] {
      var n := |cs| - 1;
      TrafTells(cs[..n], tracks, moofOffset);
      TrafsRelated(cs[..n], tracks, moofOffset);
      var st := RunsTraf(cs[..n], tracks, moofOffset).value;
      if cs[n].kind == TRUN { SomeInTrun(cs[n].body, st.t); }
    }
  }

  lemma SomeInTrun(v: bytes, t: Track)
    ensures TrunSamples(v, t).Some? ==> TrunSamples(v, t).value != []
  {
  }

  lemma TellsConcat(a: seq<Told>, ps: seq<Piece>, b: seq<Told>, qs: seq<Piece>)
    requires Tells(a, ps) && Tells(b, qs)
    ensures Tells(a + b, ps + qs)
  {
  }

  lemma FlattenMore(pss: seq<seq<Piece>>, ps: seq<Piece>)
    ensures Flatten(pss + [ps]) == Flatten(pss) + ps && Flatten([]) == []
  {
    assert (pss + [ps])[..|pss|] == pss;
  }

  lemma {:induction false} MoofTells(cs: seq<Child>, tracks: map<u32, Track>, moofOffset: int)
    requires RunsMoof(cs, tracks, moofOffset).Some? && PiecesMoof(cs, tracks, moofOffset).Some?
    ensures Tells(MoofTold(cs, tracks, moofOffset), Flatten(PiecesMoof(cs, tracks, moofOffset).value))
    decreases |cs|
  {
    hide RunsTraf, PiecesTraf, TrafTold, ChildrenFrom, Tells, Flatten;
    FlattenMore([], []);
    if cs == [] {
      NothingTells();
    } else {
      var n := |cs| - 1;
      MoofTells(cs[..n], tracks, moofOffset);
      var before, told := PiecesMoof(cs[..n], tracks, moofOffset).value, MoofTold(cs[..n], tracks, moofOffset);
      if cs[n].kind == TRAF {
        var inner := Children(cs[n].body).value;
        TrafTells(inner, tracks, moofOffset);
        var ps := TrafPieces(cs[n].body, tracks, moofOffset).value;
        FlattenMore(before, ps);
        TellsConcat(told, Flatten(before), TrafTold(inner, tracks, moofOffset), ps);
      } else {
        assert told + [] == told;
      }
    }
  }

  lemma NothingTells()
    ensures Tells([], [])
  {
  }

  lemma {:induction false} OnlyConcat(a: seq<Told>, b: seq<Told>, id: u32)
    ensures Only(a + b, id) == Only(a, id) + Only(b, id)
    decreases |b|
  {
    if b == [] {
      assert a + b == a;
    } else {
      assert (a + b)[..|a| + |b| - 1] == a + b[..|b| - 1];
      OnlyConcat(a, b[..|b| - 1], id);
    }
  }

  lemma {:induction false} JoinedConcat(a: seq<Stretch>, b: seq<Stretch>)
    ensures Joined(a + b) == Joined(a) + Joined(b)
    decreases |b|
  {
    if b == [] {
      assert a + b == a;
    } else {
      assert (a + b)[..|a| + |b| - 1] == a + b[..|b| - 1];
      JoinedConcat(a, b[..|b| - 1]);
    }
  }

  lemma MoofSamples(data: bytes, tracks: map<u32, Track>, offset: nat, id: u32)
    requires ReadRuns(data, tracks, offset).Some? && ReadSamples(data, tracks, offset).Some?
    ensures Children(data).Some?
    ensures var xs := Only(MoofTold(Children(data).value, tracks, offset), id);
            NonEmpty(xs) && AllSamples(MoofPieces(data, tracks, offset, id)) == Joined(xs)
  {
    hide RunsMoof, PiecesMoof, MoofTold, AllSamples, PiecesFor, Only, Joined, ChildrenFrom;
    MoofTells(Children(data).value, tracks, offset);
    TellsSamples(MoofTold(Children(data).value, tracks, offset), Flatten(ReadSamples(data, tracks, offset).value), id);
  }

  lemma StepAccepts(src: bytes, s: Scan, b: Box, pos: nat)
    requires pos + b.size <= |src| && ReadBox(src, pos, |src|) == Found(b) && b.kind == MOOF
    requires ScanInv(src, s, pos) && StepBox(src, s, b).Going?
    ensures ReadRuns(Body(src, b), s.defaults, pos).Some? && ReadSamples(Body(src, b), s.defaults, pos).Some?
    ensures s.moov.Some?
  {
    hide ReadBox, ReadTracks, ReadRuns, ReadSamples, KnownClocks, ScanInv, ApplyRuns;
    MoofStepKeeps(src, s, b, pos);
    MoofHasPayload(src, s, b);
  }

  /** The samples a scan collects are those of the runs of the file. */
  lemma {:induction false} ScanStretches(src: bytes, pos: nat, s: Scan, id: u32)
    requires pos <= |src| && ScanInv(src, s, pos) && ScanFrom(src, pos, s).Going?
    ensures var d := ScanFrom(src, pos, s).s.defaults;
            && NonEmpty(SourceStretches(src, pos, d, id))
            && AllSamples(SourcePieces(src, pos, d, id)) == Joined(SourceStretches(src, pos, d, id))
    decreases |src| - pos
  {
    hide ReadBox, StepBox, ScanInv, MoofPieces, AllSamples, Only, MoofTold, Joined, ChildrenFrom;
    NoPiecesNoSamples();
    JoinedNothing();
    if pos < |src| {
      var b := ReadBox(src, pos, |src|).box;
      var s' := StepBox(src, s, b).s;
      var d := ScanFrom(src, pos, s).s.defaults;
      StepKeeps(src, s, b, pos);
      StepCollects(src, s, b, pos, id);
      ScanCollects(src, pos, s, id);
      ScanStretches(src, pos + b.size, s', id);
      if b.kind == MOOF {
        StepAccepts(src, s, b, pos);
        MoofSamples(Body(src, b), d, pos, id);
        var xs := Only(MoofTold(Children(Body(src, b)).value, d, pos), id);
        JoinedConcat(xs, SourceStretches(src, pos + b.size, d, id));
        AllSamplesConcat(MoofPieces(Body(src, b), d, pos, id), SourcePieces(src, pos + b.size, d, id));
      } else {
        assert [] + SourceStretches(src, pos + b.size, d, id) == SourceStretches(src, pos + b.size, d, id);
        assert [] + SourcePieces(src, pos + b.size, d, id) == SourcePieces(src, pos + b.size, d, id);
      }
    }
  }

  // ---------- what a traf box reports ----------

  function LeastPts(xs: seq<Stretch>): int
    requires xs != [] && NonEmpty(xs)
  {
    var n := |xs| - 1;
    assert xs[n] in xs;
    var last := MinPts(xs[n].samples, xs[n].first);
    if n == 0 then last else Min(LeastPts(xs[..n]), last)
  }

  function LatestEnd(xs: seq<Stretch>): int
    requires xs != [] && NonEmpty(xs)
  {
    var n := |xs| - 1;
    assert xs[n] in xs;
    var last := MaxEnd(xs[n].samples, xs[n].first);
    if n == 0 then last else Max(LatestEnd(xs[..n]), last)
  }

  function StopOf(x: Stretch): int { x.first + Durations(x.samples) }

  /** The run reports the extent of its stretches on their own clocks. */
  predicate Reports(rr: Run, xs: seq<Stretch>)
    requires xs != [] && NonEmpty(xs)
  {
    assert xs[0] in xs;
    && rr.firstPTS == Pts(xs[0].samples, xs[0].first, 0) && rr.key == IsSync(xs[0].samples[0].flags)
    && rr.decodeEnd == StopOf(xs[|xs| - 1])
    && rr.start == LeastPts(xs) && rr.end == LatestEnd(xs)
  }

  lemma ReportsMore(rr: Run, xs: seq<Stretch>, c: Clock, ss: seq<Sample>, t: Track)
    requires ss != [] && AddSamples(c, ss, t).Some? && NonEmpty(xs) && c.rr == rr && c.haveSample == (xs != [])
    requires xs != [] ==> Reports(rr, xs)
    ensures var ys, d := xs + [Stretch(c.decode, ss)], AddSamples(c, ss, t).value;
            NonEmpty(ys) && Reports(d.rr.(decodeEnd := d.decode), ys)
  {
    hide AddSamples, MinPts, MaxEnd, Durations, IsSync;
    AddSamplesSums(c, ss, t);
    AddSamplesExtrema(c, ss, t);
    var ys := xs + [Stretch(c.decode, ss)];
    assert ys[..|xs|] == xs;
    if xs != [] { assert ys[0] == xs[0]; }
  }

  lemma {:induction false} TrafReports(cs: seq<Child>, tracks: map<u32, Track>, moofOffset: int)
    requires RunsTraf(cs, tracks, moofOffset).Some?
    ensures var st, xs := RunsTraf(cs, tracks, moofOffset).value, StretchesIn(TrafTold(cs, tracks, moofOffset));
            && NonEmpty(xs) && st.haveSample == (xs != [])
            && (xs != [] ==> Reports(st.rr, xs))
            && (st.haveDecode ==> TrafClock(cs) != [] && BaseDecode(TrafClock(cs)) == Some(st.rr.first))
            && (st.haveSample ==> st.haveDecode)
    decreases |cs|
  {
    hide TrunSamples, AddSamples, TfhdDefaults, BaseDecode, LeastPts, LatestEnd;
    if cs != [] {
      var n := |cs| - 1;
      TrafReports(cs[..n], tracks, moofOffset);
      var st := RunsTraf(cs[..n], tracks, moofOffset).value;
      if cs[n].kind == TRUN { TrunReports(cs[n].body, st, TrafTold(cs[..n], tracks, moofOffset), moofOffset); }
    }
  }

  lemma TrunReports(v: bytes, st: TrafState, ts: seq<Told>, moofOffset: int)
    requires RunsTrun(v, st, moofOffset).Some? && NonEmpty(StretchesIn(ts)) && st.haveSample == (ts != [])
    requires ts != [] ==> Reports(st.rr, StretchesIn(ts))
    ensures TrunSamples(v, st.t).Some? && st.haveDecode
    ensures var us, st' := ts + [Told(st.t.id, Stretch(st.decode, TrunSamples(v, st.t).value))], RunsTrun(v, st, moofOffset).value;
            && NonEmpty(StretchesIn(us)) && Reports(st'.rr, StretchesIn(us))
            && st'.haveSample && st'.haveDecode && st'.rr.first == st.rr.first
  {
    hide TrunSamples, AddSamples, LeastPts, LatestEnd, Pts, Durations, IsSync;
    var ss := TrunSamples(v, st.t).value;
    SomeInTrun(v, st.t);
    var c := Clock(st.rr, st.decode, moofOffset + TrunOffset(v), st.haveSample);
    AddSamplesSums(c, ss, st.t);
    ReportsMore(st.rr, StretchesIn(ts), c, ss, st.t);
    assert (ts + [Told(st.t.id, Stretch(st.decode, ss))])[..|ts|] == ts;
    ReportsRanges(AddSamples(c, ss, st.t).value.rr.(decodeEnd := AddSamples(c, ss, st.t).value.decode), RunsTrun(v, st, moofOffset).value.rr,
                  StretchesIn(ts) + [Stretch(c.decode, ss)]);
  }

  lemma ReportsRanges(a: Run, b: Run, xs: seq<Stretch>)
    requires xs != [] && NonEmpty(xs) && Reports(a, xs) && b == a.(ranges := b.ranges)
    ensures Reports(b, xs)
  {
    hide LeastPts, LatestEnd, Pts, Durations, IsSync;
  }

  // ---------- one clock for all runs ----------

  /** Each run goes on where the one before it stopped. */
  predicate Continuous(xs: seq<Stretch>) {
    forall k | 0 <= k < |xs| - 1 :: xs[k + 1].first == StopOf(xs[k])
  }

  /** One clock, started at `first`, gives every run its start. */
  predicate OneClock(xs: seq<Stretch>, first: int) { xs != [] && xs[0].first == first && Continuous(xs) }

  lemma {:induction false} SteadyIsContinuous(xs: seq<Stretch>, first: int)
    requires xs != []
    ensures Steady(xs, first) <==> OneClock(xs, first)
    ensures Steady(xs, first) ==> StopOf(xs[|xs| - 1]) == first + Durations(Joined(xs))
    decreases |xs|
  {
    hide Durations, Joined, Steady;
    var n := |xs| - 1;
    SteadySplit(xs, first);
    JoinedLast(xs);
    if n == 0 {
      JoinedNothing();
      EmptySteady(first);
    } else {
      SteadyIsContinuous(xs[..n], first);
      assert Continuous(xs) <==> Continuous(xs[..n]) && xs[n].first == StopOf(xs[n - 1]) by {
        assert forall k | 0 <= k < n :: xs[..n][k] == xs[k];
      }
    }
  }

  lemma {:induction false} SteadyExtrema(xs: seq<Stretch>, first: int)
    requires xs != [] && NonEmpty(xs) && Steady(xs, first)
    ensures Joined(xs) != [] && LeastPts(xs) == MinPts(Joined(xs), first) && LatestEnd(xs) == MaxEnd(Joined(xs), first)
    decreases |xs|
  {
    hide Durations, Joined, Steady, MinPts, MaxEnd;
    var n := |xs| - 1;
    assert xs[n] in xs;
    SteadySplit(xs, first);
    JoinedLast(xs);
    if n == 0 {
      JoinedNothing();
      assert [] + xs[0].samples == xs[0].samples;
    } else {
      SteadyExtrema(xs[..n], first);
      ExtremaConcat(Joined(xs[..n]), xs[n].samples, first);
    }
  }

  lemma FirstJoined(xs: seq<Stretch>)
    requires xs != [] && NonEmpty(xs)
    ensures Joined(xs) != [] && xs[0] in xs && Joined(xs)[0] == xs[0].samples[0]
    decreases |xs|
  {
    assert xs[|xs| - 1] in xs;
    if |xs| > 1 {
      FirstJoined(xs[..|xs| - 1]);
    } else {
      assert Joined([]) + xs[0].samples == xs[0].samples;
    }
  }

  /** The first run starts on the clock and the last one ends on it. */
  predicate EndsOnClock(xs: seq<Stretch>, first: int) {
    xs != [] ==> xs[0].first == first && StopOf(xs[|xs| - 1]) == first + Durations(Joined(xs))
  }

  lemma ClockOfRun(rr: Run, xs: seq<Stretch>)
    requires xs != [] && NonEmpty(xs) && Reports(rr, xs)
    ensures SameClock(rr, Joined(xs)) <==>
              && EndsOnClock(xs, rr.first)
              && LeastPts(xs) == MinPts(Joined(xs), rr.first) && LatestEnd(xs) == MaxEnd(Joined(xs), rr.first)
    ensures OneClock(xs, rr.first) ==> SameClock(rr, Joined(xs))
    ensures |xs| <= 2 ==> (SameClock(rr, Joined(xs)) <==> OneClock(xs, rr.first))
  {
    hide Durations, Joined, Steady, MinPts, MaxEnd, LeastPts, LatestEnd, IsSync;
    FirstJoined(xs);
    assert Joined(xs)[..0] == [] == xs[0].samples[..0];
    SteadyIsContinuous(xs, rr.first);
    if Steady(xs, rr.first) { SteadyExtrema(xs, rr.first); }
    if |xs| == 2 { TwoEnds(xs, rr.first); }
  }

  lemma TwoEnds(xs: seq<Stretch>, first: int)
    requires |xs| == 2
    ensures EndsOnClock(xs, first) ==> Continuous(xs)
  {
    hide Durations, Joined;
    JoinedLast(xs);
    JoinedLast(xs[..1]);
    JoinedNothing();
    assert xs[..1][..0] == [] && [] + xs[0].samples == xs[0].samples;
  }

  /**
   A traf box whatever the order of its boxes.  Counting its samples from the
   decode time readRuns reports, that of its last tfdt, gives each of them the
   time its own run has exactly when its first run starts there and every run
   goes on where the one before it stopped.
   */
  lemma TrafTimes(body: bytes, tracks: map<u32, Track>, moofOffset: int)
    requires TrafRun(body, tracks, moofOffset).Some? && TrafPieces(body, tracks, moofOffset).Some?
    ensures var cs := Children(body).value;
            var rr, ss, xs := TrafRun(body, tracks, moofOffset).value, AllSamples(TrafPieces(body, tracks, moofOffset).value),
                              StretchesIn(TrafTold(cs, tracks, moofOffset));
            && xs != [] && NonEmpty(xs) && ss == Joined(xs)
            && TrafClock(cs) != [] && BaseDecode(TrafClock(cs)) == Some(rr.first)
            && (TimesFrom(ss, rr.first) == OwnTimes(xs) <==> OneClock(xs, rr.first))
            && (OneClock(xs, rr.first) ==> SameClock(rr, ss))
            && (SameClock(rr, ss) <==>
                  EndsOnClock(xs, rr.first) && LeastPts(xs) == MinPts(ss, rr.first) && LatestEnd(xs) == MaxEnd(ss, rr.first))
            && (|xs| <= 2 ==> (SameClock(rr, ss) <==> OneClock(xs, rr.first)))
  {
    hide Durations, Joined, Steady, MinPts, MaxEnd, LeastPts, LatestEnd, IsSync, RunsTraf, PiecesTraf, TrafTold, AllSamples, OwnTimes, TimesFrom,
         BaseDecode, ChildrenFrom, Reports, OneClock, EndsOnClock, SameClock;
    var cs := Children(body).value;
    var rr, xs := TrafRun(body, tracks, moofOffset).value, StretchesIn(TrafTold(cs, tracks, moofOffset));
    TrafReports(cs, tracks, moofOffset);
    TrafTells(cs, tracks, moofOffset);
    TellsSamples(TrafTold(cs, tracks, moofOffset), TrafPieces(body, tracks, moofOffset).value, 0);
    SteadyTimes(xs, rr.first);
    SteadyIsContinuous(xs, rr.first);
    ClockOfRun(rr, xs);
  }

  // ---------- clock boxes ahead of the runs ----------

  lemma {:induction false} NothingTold(cs: seq<Child>, tracks: map<u32, Track>, moofOffset: int)
    requires forall i | 0 <= i < |cs| :: cs[i].kind != TRUN
    ensures TrafTold(cs, tracks, moofOffset) == []
    decreases |cs|
  {
    if cs != [] { NothingTold(cs[..|cs| - 1], tracks, moofOffset); }
  }

  lemma {:induction false} TrafSteady(cs: seq<Child>, tracks: map<u32, Track>, moofOffset: int)
    requires ClocksFirst(cs) && RunsTraf(cs, tracks, moofOffset).Some?
    ensures var st, xs := RunsTraf(cs, tracks, moofOffset).value, StretchesIn(TrafTold(cs, tracks, moofOffset));
            && Steady(xs, st.rr.first) && (st.haveDecode ==> st.decode == st.rr.first + Durations(Joined(xs)))
            && (xs != [] ==> st.haveDecode)
    decreases |cs|
  {
    hide TrunSamples, AddSamples, TfhdDefaults, BaseDecode, Durations, Joined, Steady, U32, U64;
    JoinedNothing();
    EmptySteady(0);
    EmptySteady(RunsTraf(cs, tracks, moofOffset).value.rr.first);
    if cs != [] {
      var n := |cs| - 1;
      assert ClocksFirst(cs[..n]);
      TrafSteady(cs[..n], tracks, moofOffset);
      var st := RunsTraf(cs[..n], tracks, moofOffset).value;
      var ts := TrafTold(cs[..n], tracks, moofOffset);
      if cs[n].kind == TRUN {
        TrunSteady(cs[n].body, st, ts, moofOffset);
      } else if cs[n].kind == TFDT {
        forall i | 0 <= i < n
          ensures cs[..n][i].kind != TRUN
        {
          assert cs[i].kind != TRUN;
        }
        NothingTold(cs[..n], tracks, moofOffset);
      }
    }
  }

  lemma StretchesMore(ts: seq<Told>, t: Told)
    ensures StretchesIn(ts + [t]) == StretchesIn(ts) + [t.stretch]
  {
    assert (ts + [t])[..|ts|] == ts;
  }

  lemma SteadyMore(xs: seq<Stretch>, x: Stretch, first: int)
    requires Steady(xs, first) && x.first == first + Durations(Joined(xs))
    ensures Steady(xs + [x], first) && Durations(Joined(xs + [x])) == Durations(Joined(xs)) + Durations(x.samples)
  {
    hide Durations, Joined, Steady;
    assert (xs + [x])[..|xs|] == xs;
    JoinedLast(xs + [x]);
    SteadySplit(xs + [x], first);
  }

  lemma TrunSteady(v: bytes, st: TrafState, ts: seq<Told>, moofOffset: int)
    requires RunsTrun(v, st, moofOffset).Some? && Steady(StretchesIn(ts), st.rr.first)
    requires st.decode == st.rr.first + Durations(Joined(StretchesIn(ts)))
    ensures TrunSamples(v, st.t).Some? && st.haveDecode
    ensures var us, st' := ts + [Told(st.t.id, Stretch(st.decode, TrunSamples(v, st.t).value))], RunsTrun(v, st, moofOffset).value;
            && Steady(StretchesIn(us), st'.rr.first) && st'.haveDecode
            && st'.decode == st'.rr.first + Durations(Joined(StretchesIn(us)))
  {
    hide TrunSamples, AddSamples, Durations, Joined, Steady, StretchesIn, TrunOffset;
    var ss := TrunSamples(v, st.t).value;
    AddSamplesSums(Clock(st.rr, st.decode, moofOffset + TrunOffset(v), st.haveSample), ss, st.t);
    StretchesMore(ts, Told(st.t.id, Stretch(st.decode, ss)));
    SteadyMore(StretchesIn(ts), Stretch(st.decode, ss), st.rr.first);
  }

  lemma {:induction false} OnlyOneTrack(ts: seq<Told>, track: u32, id: u32)
    requires forall t | t in ts :: t.track == track
    ensures Only(ts, id) == if id == track then StretchesIn(ts) else []
    decreases |ts|
  {
    if ts != [] { OnlyOneTrack(ts[..|ts| - 1], track, id); }
  }

  lemma {:induction false} OwnTimesConcat(a: seq<Stretch>, b: seq<Stretch>)
    ensures OwnTimes(a + b) == OwnTimes(a) + OwnTimes(b)
    decreases |b|
  {
    hide TimesFrom;
    if b == [] {
      assert a + b == a;
    } else {
      assert (a + b)[..|a| + |b| - 1] == a + b[..|b| - 1];
      OwnTimesConcat(a, b[..|b| - 1]);
    }
  }

  /** In a traf box with its clock boxes first, readRuns' first decode time counts for all runs. */
  lemma TrafOwnTimes(body: bytes, tracks: map<u32, Track>, moofOffset: int, id: u32)
    requires TrafRun(body, tracks, moofOffset).Some? && TrafPieces(body, tracks, moofOffset).Some?
    requires ClocksFirst(Children(body).value)
    ensures var rr, ps := TrafRun(body, tracks, moofOffset).value, TrafPieces(body, tracks, moofOffset).value;
            OwnTimes(Only(TrafTold(Children(body).value, tracks, moofOffset), id))
            == if id == rr.track then TimesFrom(AllSamples(ps), rr.first) else []
  {
    hide RunsTraf, PiecesTraf, TrafTold, AllSamples, TimesFrom, ChildrenFrom, SameClock, SameRanges, Joined, Steady, ClocksFirst;
    var cs := Children(body).value;
    var rr, ps, ts := TrafRun(body, tracks, moofOffset).value, TrafPieces(body, tracks, moofOffset).value, TrafTold(cs, tracks, moofOffset);
    TrafAgrees(body, tracks, moofOffset);
    TrafTells(cs, tracks, moofOffset);
    TellsSamples(ts, ps, id);
    TrafSteady(cs, tracks, moofOffset);
    SteadyTimes(StretchesIn(ts), rr.first);
    forall t | t in ts
      ensures t.track == rr.track
    {
      var j :| 0 <= j < |ts| && ts[j] == t;
      assert ps[j] in ps;
    }
    OnlyOneTrack(ts, rr.track, id);
    EmptySteady(0);
  }

  lemma RunTimesMore(runs: seq<Run>, pss: seq<seq<Piece>>, rr: Run, ps: seq<Piece>, id: u32)
    requires |runs| == |pss|
    ensures RunTimes(runs + [rr], pss + [ps], id)
            == RunTimes(runs, pss, id) + if rr.track == id then TimesFrom(AllSamples(ps), rr.first) else []
  {
    hide TimesFrom, AllSamples;
    assert (runs + [rr])[..|runs|] == runs && (pss + [ps])[..|pss|] == pss;
  }

  lemma {:induction false} MoofOwnTimes(cs: seq<Child>, tracks: map<u32, Track>, moofOffset: int, id: u32)
    requires RunsMoof(cs, tracks, moofOffset).Some? && PiecesMoof(cs, tracks, moofOffset).Some? && MoofClocksFirst(cs)
    ensures var runs, pss := RunsMoof(cs, tracks, moofOffset).value.runs, PiecesMoof(cs, tracks, moofOffset).value;
            |runs| == |pss| && RunTimes(runs, pss, id) == OwnTimes(Only(MoofTold(cs, tracks, moofOffset), id))
    decreases |cs|
  {
    hide TrafRun, TrafPieces, TrafTold, AllSamples, TimesFrom, ChildrenFrom, ClocksFirst, OwnTimes, Only, RunTimes;
    if cs == [] {
      NoOwnTimes(id);
    } else {
      var n := |cs| - 1;
      assert MoofClocksFirst(cs[..n]);
      MoofOwnTimes(cs[..n], tracks, moofOffset, id);
      var runs, pss := RunsMoof(cs[..n], tracks, moofOffset).value.runs, PiecesMoof(cs[..n], tracks, moofOffset).value;
      var told := MoofTold(cs[..n], tracks, moofOffset);
      if cs[n].kind == TRAF {
        TrafThere(cs[n].body, tracks, moofOffset);
        TrafOwnTimes(cs[n].body, tracks, moofOffset, id);
        var more := TrafTold(Children(cs[n].body).value, tracks, moofOffset);
        OnlyConcat(told, more, id);
        OwnTimesConcat(Only(told, id), Only(more, id));
        RunTimesMore(runs, pss, TrafRun(cs[n].body, tracks, moofOffset).value, TrafPieces(cs[n].body, tracks, moofOffset).value, id);
      } else {
        assert told + [] == told;
      }
    }
  }

  lemma NoOwnTimes(id: u32)
    ensures RunTimes([], [], id) == [] && OwnTimes(Only([], id)) == []
  {
  }

  lemma TrafThere(body: bytes, tracks: map<u32, Track>, moofOffset: int)
    requires TrafRun(body, tracks, moofOffset).Some?
    ensures Children(body).Some?
  {
  }

  /** Over a file with its clock boxes first the two ways of timing a fragment agree. */
  lemma {:induction false} ScanOwnTimes(src: bytes, pos: nat, s: Scan, id: u32)
    requires pos <= |src| && ScanInv(src, s, pos) && ScanFrom(src, pos, s).Going? && ClocksFirstFrom(src, pos)
    ensures var d := ScanFrom(src, pos, s).s.defaults;
            SourceTimes(src, pos, d, id) == OwnTimes(SourceStretches(src, pos, d, id))
    decreases |src| - pos
  {
    hide ReadBox, StepBox, ScanInv, MoofTimes, Only, MoofTold, OwnTimes, ChildrenFrom, MoofClocksFirst;
    EmptySteady(0);
    if pos < |src| {
      var b := ReadBox(src, pos, |src|).box;
      var s' := StepBox(src, s, b).s;
      var d := ScanFrom(src, pos, s).s.defaults;
      StepKeeps(src, s, b, pos);
      StepCollects(src, s, b, pos, id);
      ScanCollects(src, pos, s, id);
      ScanOwnTimes(src, pos + b.size, s', id);
      if b.kind == MOOF {
        StepAccepts(src, s, b, pos);
        MoofTimesOwn(Body(src, b), d, pos, id);
        OwnTimesConcat(Only(MoofTold(Children(Body(src, b)).value, d, pos), id), SourceStretches(src, pos + b.size, d, id));
      } else {
        assert [] + SourceStretches(src, pos + b.size, d, id) == SourceStretches(src, pos + b.size, d, id);
        assert [] + SourceTimes(src, pos + b.size, d, id) == SourceTimes(src, pos + b.size, d, id);
      }
    }
  }

  lemma MoofTimesOwn(data: bytes, tracks: map<u32, Track>, offset: nat, id: u32)
    requires ReadRuns(data, tracks, offset).Some? && ReadSamples(data, tracks, offset).Some?
    requires Children(data).Some? && MoofClocksFirst(Children(data).value)
    ensures MoofTimes(data, tracks, offset, id) == OwnTimes(Only(MoofTold(Children(data).value, tracks, offset), id))
  {
    hide RunsMoof, PiecesMoof, MoofTold, Only, OwnTimes, ChildrenFrom, MoofClocksFirst;
    MoofOwnTimes(Children(data).value, tracks, offset, id);
  }

  // ---------- the runs that count ----------

  function RunsFor(runs: seq<Run>, id: u32): seq<Run> {
    if runs == [] then []
    else RunsFor(runs[..|runs| - 1], id) + if runs[|runs| - 1].track == id then [runs[|runs| - 1]] else []
  }

  function MoofRunsFor(data: bytes, tracks: map<u32, Track>, offset: nat, id: u32): seq<Run> {
    match ReadRuns(data, tracks, offset) case None => [] case Some(m) => RunsFor(m.runs, id)
  }

  function LastOf(rs: seq<Run>, otherwise: seq<Run>): seq<Run> { if rs == [] then otherwise else [rs[|rs| - 1]] }

  /** While the track has no samples only its latest run counts; once it has, every further run does. */
  function CountMore(counted: seq<Run>, rs: seq<Run>, begun: bool): (r: seq<Run>)
    ensures counted != [] ==> r != []
  {
    if begun then counted + rs else LastOf(rs, counted)
  }

  function CountedFrom(src: bytes, pos: nat, tracks: map<u32, Track>, id: u32, counted: seq<Run>, begun: bool): (r: seq<Run>)
    requires pos <= |src|
    ensures counted != [] ==> r != []
    decreases |src| - pos
  {
    if pos == |src| || !ReadBox(src, pos, |src|).Found? then counted
    else
      var b := ReadBox(src, pos, |src|).box;
      if b.kind != MOOF then CountedFrom(src, pos + b.size, tracks, id, counted, begun)
      else
        CountedFrom(src, pos + b.size, tracks, id, CountMore(counted, MoofRunsFor(Body(src, b), tracks, pos, id), begun),
                    begun || MoofPieces(Body(src, b), tracks, pos, id) != [])
  }

  /** The runs of the file that make the clock of a track: the last one up to the fragment that brings its first samples, and every later one.  A track of no run keeps a clock of zeros. */
  function CountedRuns(src: bytes, tracks: map<u32, Track>, id: u32): (r: seq<Run>)
    ensures r != []
  {
    CountedFrom(src, 0, tracks, id, [NO_RUN], false)
  }

  function LeastStart(rs: seq<Run>): int
    requires rs != []
  {
    var n := |rs| - 1;
    if n == 0 then rs[0].start else Min(LeastStart(rs[..n]), rs[n].start)
  }

  function LatestStop(rs: seq<Run>): int
    requires rs != []
  {
    var n := |rs| - 1;
    if n == 0 then rs[0].end else Max(LatestStop(rs[..n]), rs[n].end)
  }

  /** The clock of the track is that of these runs. */
  predicate Tallied(t: FlatTrack, rs: seq<Run>) {
    && rs != []
    && t.firstDTS == rs[0].first && t.nextDTS == rs[|rs| - 1].decodeEnd
    && t.minPTS == LeastStart(rs) && t.maxPTS == LatestStop(rs)
  }

  lemma TallyMore(t: FlatTrack, u: FlatTrack, rs: seq<Run>, rr: Run)
    requires Tallied(t, rs) && u.nextDTS == rr.decodeEnd
    requires if t.pieces == [] then u.firstDTS == rr.first && u.minPTS == rr.start && u.maxPTS == rr.end
             else u.firstDTS == t.firstDTS && u.minPTS == Min(t.minPTS, rr.start) && u.maxPTS == Max(t.maxPTS, rr.end)
    ensures Tallied(u, if t.pieces == [] then [rr] else rs + [rr])
  {
    assert (rs + [rr])[..|rs|] == rs;
  }

  lemma {:induction false} RunsTally(tracks: map<u32, FlatTrack>, runs: seq<Run>, id: u32, rs: seq<Run>)
    requires ApplyRuns(tracks, runs).Some? && id in tracks && Tallied(tracks[id], rs)
    ensures id in ApplyRuns(tracks, runs).value && ApplyRuns(tracks, runs).value[id].pieces == tracks[id].pieces
    ensures Tallied(ApplyRuns(tracks, runs).value[id], CountMore(rs, RunsFor(runs, id), tracks[id].pieces != []))
    decreases |runs|
  {
    hide ApplyRun, Tallied;
    if runs == [] {
      assert rs + [] == rs;
    } else {
      var n := |runs| - 1;
      RunsTally(tracks, runs[..n], id, rs);
      var before := ApplyRuns(tracks, runs[..n]).value;
      RunUpdatesTrack(before, runs[n]);
      var so_far := RunsFor(runs[..n], id);
      if runs[n].track == id {
        TallyMore(before[id], ApplyRuns(tracks, runs).value[id], CountMore(rs, so_far, tracks[id].pieces != []), runs[n]);
        assert rs + (so_far + [runs[n]]) == rs + so_far + [runs[n]];
      } else {
        assert so_far + [] == so_far;
      }
    }
  }

  lemma PiecesTallied(t: FlatTrack, u: FlatTrack, rs: seq<Run>)
    requires Tallied(t, rs) && u == t.(pieces := u.pieces)
    ensures Tallied(u, rs)
  {
  }

  lemma MoofTally(s: Scan, data: bytes, offset: nat, id: u32, rs: seq<Run>)
    requires StepRuns(s, data, offset).Going? && id in s.tracks && Tallied(s.tracks[id], rs)
    ensures id in StepRuns(s, data, offset).s.tracks
    ensures Tallied(StepRuns(s, data, offset).s.tracks[id], CountMore(rs, MoofRunsFor(data, s.defaults, offset, id), s.tracks[id].pieces != []))
  {
    hide ReadRuns, ReadSamples, ApplyRuns, PiecesFor, Flatten, Tallied, CountMore, RunsFor;
    var runs := ReadRuns(data, s.defaults, offset).value.runs;
    RunsTally(s.tracks, runs, id, rs);
    PiecesTallied(ApplyRuns(s.tracks, runs).value[id], StepRuns(s, data, offset).s.tracks[id], CountMore(rs, RunsFor(runs, id), s.tracks[id].pieces != []));
  }

  lemma NewTallied(t: Track)
    ensures Tallied(NewTrack(t), [NO_RUN]) && NewTrack(t).pieces == []
  {
  }

  lemma StepTally(src: bytes, s: Scan, b: Box, pos: nat, id: u32, rs: seq<Run>)
    requires pos + b.size <= |src| && ReadBox(src, pos, |src|) == Found(b)
    requires ScanInv(src, s, pos) && StepBox(src, s, b).Going? && (id in s.tracks ==> Tallied(s.tracks[id], rs))
    ensures var s' := StepBox(src, s, b).s;
            && (id !in s.tracks && id in s'.tracks ==> s.moov.None? && s'.tracks[id].pieces == [] && Tallied(s'.tracks[id], [NO_RUN]))
            && (id in s.tracks && b.kind != MOOF ==> s'.tracks == s.tracks)
            && (id in s.tracks && b.kind == MOOF && id in s'.tracks ==>
                  Tallied(s'.tracks[id], CountMore(rs, MoofRunsFor(Body(src, b), s.defaults, pos, id), s.tracks[id].pieces != [])))
  {
    hide ReadBox, ReadTracks, StepRuns, MoofRunsFor, AllPlaced, KnownClocks, Tallied, CountMore;
    if b.kind == MOOF {
      MoofStepKeeps(src, s, b, pos);
      MoofHasPayload(src, s, b);
      RunsDefaults(s, Payload(src, b).value, pos);
      if id in s.tracks { MoofTally(s, Payload(src, b).value, pos, id, rs); }
    } else if b.kind == MOOV && id !in s.tracks && id in StepBox(src, s, b).s.tracks {
      NewTallied(StepBox(src, s, b).s.defaults[id]);
    }
  }

  /** The scan gives a track the clock of its counted runs, whatever the order of boxes. */
  lemma {:induction false} ScanTally(src: bytes, pos: nat, s: Scan, id: u32, rs: seq<Run>)
    requires pos <= |src| && ScanInv(src, s, pos) && ScanFrom(src, pos, s).Going?
    requires if id in s.tracks then Tallied(s.tracks[id], rs) else rs == [NO_RUN]
    ensures var f := ScanFrom(src, pos, s).s;
            id in f.tracks ==> Tallied(f.tracks[id], CountedFrom(src, pos, f.defaults, id, rs, PiecesOf(s, id) != []))
    decreases |src| - pos
  {
    hide ReadBox, StepBox, ScanInv, MoofRunsFor, MoofPieces, Tallied, CountMore, PiecesOf;
    if pos < |src| {
      var b := ReadBox(src, pos, |src|).box;
      var s', f := StepBox(src, s, b).s, ScanFrom(src, pos, s).s;
      StepKeeps(src, s, b, pos);
      StepTally(src, s, b, pos, id, rs);
      StepCollects(src, s, b, pos, id);
      ScanCollects(src, pos, s, id);
      NoPiecesEarly(src, s, pos, id);
      NoTrackNoPieces(s, id);
      NoTrackNoPieces(s', id);
      var more := if id in s.tracks && b.kind == MOOF then CountMore(rs, MoofRunsFor(Body(src, b), f.defaults, pos, id), PiecesOf(s, id) != []) else rs;
      ScanTally(src, pos + b.size, s', id, more);
    }
  }

  lemma NoTrackNoPieces(s: Scan, id: u32)
    ensures PiecesOf(s, id) == if id in s.tracks then s.tracks[id].pieces else []
  {
  }
}
