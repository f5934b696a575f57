/**
 The fragment that introduces a track.  While it is read every run of the track
 counts as the first one, so the last of them sets the track's clock; later
 fragments must go on where the track stopped.
 */
module FirstFragments {
  import opened Bytes
  import opened Options
  import opened Boxes
  import opened Tracks
  import opened Samples
  import opened Fragments
  import opened Agreement
  import opened FlatScan
  import opened ScanLemmas
  import opened SourceTruth
  import opened Stretches

  predicate EarlierEmpty(xs: seq<Stretch>) {
    forall k | 0 <= k < |xs| - 1 :: Durations(xs[k].samples) == 0
  }

  predicate StartTogether(xs: seq<Stretch>) {
    EarlierEmpty(xs) && forall k | 0 <= k < |xs| - 1 :: xs[k].first == xs[|xs| - 1].first
  }

  lemma {:induction false} JoinedDurations(xs: seq<Stretch>, n: nat)
    requires n <= |xs|
    ensures Durations(Joined(xs[..n])) == 0 <==> forall k | 0 <= k < n :: Durations(xs[k].samples) == 0
    decreases n
  {
    if n > 0 {
      JoinedDurations(xs, n - 1);
      assert xs[..n][..n - 1] == xs[..n - 1];
      SumsConcat(Joined(xs[..n - 1]), xs[n - 1].samples);
    }
  }

  lemma LastRules(xs: seq<Stretch>)
    requires xs != []
    ensures var n := |xs| - 1;
            && (Durations(Joined(xs)) == Durations(xs[n].samples) <==> EarlierEmpty(xs))
            && (Steady(xs, xs[n].first) <==> StartTogether(xs))
  {
    hide Durations, Joined;
    var n := |xs| - 1;
    JoinedLast(xs);
    forall k | 0 <= k <= n
      ensures Durations(Joined(xs[..k])) == 0 <==> forall j | 0 <= j < k :: Durations(xs[j].samples) == 0
    {
      JoinedDurations(xs, k);
    }
  }

  /** The runs of one track in a fragment. */
  function StretchesOf(runs: seq<Run>, pss: seq<seq<Piece>>, id: u32): seq<Stretch>
    requires |runs| == |pss|
  {
    if runs == [] then []
    else
      var n := |runs| - 1;
      StretchesOf(runs[..n], pss[..n], id) + if runs[n].track == id then [Stretch(runs[n].first, AllSamples(pss[n]))] else []
  }

  function MoofStretches(data: bytes, tracks: map<u32, Track>, offset: nat, id: u32): seq<Stretch> {
    match ReadRuns(data, tracks, offset)
    case None => []
    case Some(m) =>
      match ReadSamples(data, tracks, offset)
      case None => []
      case Some(pss) => if |m.runs| == |pss| then StretchesOf(m.runs, pss, id) else []
  }

  /** The runs of the track in the first fragment that has any. */
  function FirstStretches(src: bytes, pos: nat, tracks: map<u32, Track>, id: u32): seq<Stretch>
    requires pos <= |src|
    decreases |src| - pos
  {
    if pos == |src| || !ReadBox(src, pos, |src|).Found? then []
    else
      var b := ReadBox(src, pos, |src|).box;
      var here := if b.kind == MOOF then MoofStretches(Body(src, b), tracks, pos, id) else [];
      if here != [] then here else FirstStretches(src, pos + b.size, tracks, id)
  }

  /** Every fragment from `pos` on puts its clock boxes ahead of its runs. */
  predicate ClocksFirstFrom(src: bytes, pos: nat)
    requires pos <= |src|
    decreases |src| - pos
  {
    if pos == |src| || !ReadBox(src, pos, |src|).Found? then true
    else
      var b := ReadBox(src, pos, |src|).box;
      && (b.kind == MOOF && Children(Body(src, b)).Some? ==> MoofClocksFirst(Children(Body(src, b)).value))
      && ClocksFirstFrom(src, pos + b.size)
  }

  lemma {:induction false} StretchFacts(runs: seq<Run>, pss: seq<seq<Piece>>, id: u32)
    requires RunsMatch(runs, pss)
    ensures var xs := StretchesOf(runs, pss, id);
            && NonEmpty(xs) && RunTimes(runs, pss, id) == OwnTimes(xs)
            && AllSamples(PiecesFor(Flatten(pss), id)) == Joined(xs)
    decreases |runs|
  {
    hide SameRanges, RunFits, TimesFrom, AllSamples, PiecesFor;
    NoPiecesNoSamples();
    NothingFor(id);
    if runs != [] {
      var n := |runs| - 1;
      StretchFacts(runs[..n], pss[..n], id);
      var xs := StretchesOf(runs[..n], pss[..n], id);
      PiecesForConcat(Flatten(pss[..n]), pss[n], id);
      PiecesOfOneTrack(pss[n], runs[n].track, id);
      AllSamplesConcat(PiecesFor(Flatten(pss[..n]), id), PiecesFor(pss[n], id));
      if runs[n].track == id {
        var x := Stretch(runs[n].first, AllSamples(pss[n]));
        assert (xs + [x])[..|xs|] == xs;
      } else {
        assert xs + [] == xs && RunTimes(runs[..n], pss[..n], id) + [] == RunTimes(runs[..n], pss[..n], id);
        assert AllSamples(PiecesFor(Flatten(pss[..n]), id)) + [] == AllSamples(PiecesFor(Flatten(pss[..n]), id));
      }
    }
  }

  predicate LastRuled(t: FlatTrack, xs: seq<Stretch>)
    requires xs != [] && NonEmpty(xs)
  {
    var last := xs[|xs| - 1];
    assert last in xs;
    && t.firstDTS == last.first && t.nextDTS == last.first + Durations(last.samples)
    && t.minPTS == MinPts(last.samples, last.first)
  }

  lemma RunRules(t: FlatTrack, rr: Run, ps: seq<Piece>, xs: seq<Stretch>)
    requires RunOfPieces(rr, ps) && NonEmpty(xs) && t.firstDTS == rr.first && t.nextDTS == rr.decodeEnd && t.minPTS == rr.start
    ensures NonEmpty(xs + [Stretch(rr.first, AllSamples(ps))]) && LastRuled(t, xs + [Stretch(rr.first, AllSamples(ps))])
  {
    hide AllSamples, Durations, MinPts, MaxEnd, SameRanges, IsSync, Pts;
  }

  /** While the track has no samples the last run rules its clock. */
  lemma {:induction false} FirstClock(tracks: map<u32, FlatTrack>, runs: seq<Run>, pss: seq<seq<Piece>>, id: u32)
    requires RunsMatch(runs, pss) && ApplyRuns(tracks, runs).Some? && id in tracks && tracks[id].pieces == []
    ensures id in ApplyRuns(tracks, runs).value
    ensures var xs, t := StretchesOf(runs, pss, id), ApplyRuns(tracks, runs).value[id];
            && t.pieces == [] && NonEmpty(xs) && (xs != [] ==> LastRuled(t, xs))
    decreases |runs|
  {
    hide SameClock, SameRanges, RunFits, AllSamples, Durations, MinPts, MaxEnd, ApplyRun, LastRuled;
    if runs != [] {
      var n := |runs| - 1;
      FirstClock(tracks, runs[..n], pss[..n], id);
      RunUpdatesTrack(ApplyRuns(tracks, runs[..n]).value, runs[n]);
      var xs := StretchesOf(runs[..n], pss[..n], id);
      if runs[n].track == id { RunRules(ApplyRuns(tracks, runs).value[id], runs[n], pss[n], xs); } else { assert xs + [] == xs; }
    }
  }

  /** The earlier of `low` and the earliest presentation of samples that start decoding at d. */
  function LeastWith(low: int, ss: seq<Sample>, d: int): int { if ss == [] then low else Min(low, MinPts(ss, d)) }

  lemma LeastWithConcat(low: int, a: seq<Sample>, b: seq<Sample>, d: int)
    ensures LeastWith(LeastWith(low, a, d), b, d + Durations(a)) == LeastWith(low, a + b, d)
  {
    hide MinPts, Durations;
    JoinedNothing();
    if a == [] {
      assert a + b == b;
    } else if b == [] {
      assert a + b == a;
    } else {
      ExtremaConcat(a, b, d);
    }
  }

  lemma LaterClockStep(t: FlatTrack, u: FlatTrack, w: FlatTrack, rr: Run, ps: seq<Piece>, xs: seq<Stretch>)
    requires RunOfPieces(rr, ps) && Went(t, u, xs) && rr.first == u.nextDTS
    requires w.pieces == u.pieces && w.firstDTS == u.firstDTS && w.nextDTS == rr.decodeEnd && w.minPTS == Min(u.minPTS, rr.start)
    ensures Went(t, w, xs + [Stretch(rr.first, AllSamples(ps))])
  {
    hide AllSamples, Durations, MinPts, MaxEnd, SameRanges, IsSync, Pts, Joined, Steady;
    var x := Stretch(rr.first, AllSamples(ps));
    var ys := xs + [x];
    assert ys[..|ys| - 1] == xs;
    JoinedLast(ys);
    SteadySplit(ys, t.nextDTS);
    LeastWithConcat(t.minPTS, Joined(xs), x.samples, t.nextDTS);
  }

  /** The clock of a track that has samples after these stretches, before their samples are added. */
  predicate Went(t: FlatTrack, u: FlatTrack, xs: seq<Stretch>) {
    && u.pieces == t.pieces && u.firstDTS == t.firstDTS && u.nextDTS == t.nextDTS + Durations(Joined(xs))
    && u.minPTS == LeastWith(t.minPTS, Joined(xs), t.nextDTS) && Steady(xs, t.nextDTS)
  }

  lemma WentNowhere(t: FlatTrack)
    ensures Went(t, t, [])
  {
    JoinedNothing();
    EmptySteady(t.nextDTS);
  }

  /** From then on each run starts where the one before it stopped. */
  lemma {:induction false} LaterClock(tracks: map<u32, FlatTrack>, runs: seq<Run>, pss: seq<seq<Piece>>, id: u32)
    requires RunsMatch(runs, pss) && ApplyRuns(tracks, runs).Some? && id in tracks && tracks[id].pieces != []
    ensures id in ApplyRuns(tracks, runs).value
    ensures Went(tracks[id], ApplyRuns(tracks, runs).value[id], StretchesOf(runs, pss, id))
    decreases |runs|
  {
    hide SameClock, SameRanges, RunFits, AllSamples, ApplyRun, Went;
    if runs == [] {
      WentNowhere(tracks[id]);
    } else {
      var n := |runs| - 1;
      LaterClock(tracks, runs[..n], pss[..n], id);
      RunUpdatesTrack(ApplyRuns(tracks, runs[..n]).value, runs[n]);
      RunsKeepPieces(tracks, runs[..n]);
      var xs := StretchesOf(runs[..n], pss[..n], id);
      if runs[n].track == id {
        LaterClockStep(tracks[id], ApplyRuns(tracks, runs[..n]).value[id], ApplyRuns(tracks, runs).value[id], runs[n], pss[n], xs);
      } else {
        assert xs + [] == xs;
      }
    }
  }

  // ---------- one fragment ----------

  /** What a fragment with stretches `xs` of a track makes of the track. */
  predicate Advanced(t: FlatTrack, u: FlatTrack, xs: seq<Stretch>) {
    && NonEmpty(xs) && u.Samples() == t.Samples() + Joined(xs)
    && (u.pieces == [] <==> t.pieces == [] && xs == [])
    && (t.pieces == [] && xs != [] ==> LastRuled(u, xs))
    && (t.pieces != [] ==> Went(t, u.(pieces := t.pieces), xs))
  }

  lemma MoofMatches(s: Scan, data: bytes, offset: nat)
    requires offset <= MAX_I64 && StepRuns(s, data, offset).Going? && Children(data).Some? && MoofClocksFirst(Children(data).value)
    ensures ReadRuns(data, s.defaults, offset).Some? && ReadSamples(data, s.defaults, offset).Some?
    ensures RunsMatch(ReadRuns(data, s.defaults, offset).value.runs, ReadSamples(data, s.defaults, offset).value)
  {
    hide RunsMoof, PiecesMoof, MoofClocksFirst, RunOfPieces, RunFits, ApplyPieces, ApplyRuns;
    ParsersAgree(data, s.defaults, offset);
    MoofRunsInRange(Children(data).value, s.defaults, offset);
  }

  lemma MoofStarts(s: Scan, data: bytes, offset: nat, id: u32)
    requires offset <= MAX_I64 && StepRuns(s, data, offset).Going? && Children(data).Some? && MoofClocksFirst(Children(data).value)
    requires id in s.tracks
    ensures id in StepRuns(s, data, offset).s.tracks
    ensures var xs, t, u := MoofStretches(data, s.defaults, offset, id), s.tracks[id], StepRuns(s, data, offset).s.tracks[id];
            MoofTimes(data, s.defaults, offset, id) == OwnTimes(xs) && Advanced(t, u, xs)
  {
    hide *;
    MoofMatches(s, data, offset);
    var runs, pss := ReadRuns(data, s.defaults, offset).value.runs, ReadSamples(data, s.defaults, offset).value;
    StepRunsOf(s, data, offset);
    StretchFacts(runs, pss, id);
    StretchesThere(s, data, offset, id);
    RunsKeepPieces(s.tracks, runs);
    var moved := ApplyRuns(s.tracks, runs).value;
    PiecesApplied(moved, Flatten(pss), id);
    SamplesGrow(s.tracks[id], PiecesFor(Flatten(pss), id), StretchesOf(runs, pss, id));
    if s.tracks[id].pieces == [] { FirstClock(s.tracks, runs, pss, id); } else { LaterClock(s.tracks, runs, pss, id); }
    SamplesAre(StepRuns(s, data, offset).s.tracks[id]);
    SamplesAre(s.tracks[id]);
    NoneWithout(runs, pss, id);
    AdvancedIs(s.tracks[id], moved[id], StepRuns(s, data, offset).s.tracks[id], MoofStretches(data, s.defaults, offset, id));
  }

  lemma AdvancedIs(t: FlatTrack, moved: FlatTrack, u: FlatTrack, xs: seq<Stretch>)
    requires NonEmpty(xs) && u.Samples() == t.Samples() + Joined(xs) && (u.pieces == [] <==> t.pieces == [] && xs == [])
    requires moved.pieces == t.pieces && u == moved.(pieces := u.pieces)
    requires t.pieces == [] && xs != [] ==> LastRuled(moved, xs)
    requires t.pieces != [] ==> Went(t, moved, xs)
    ensures Advanced(t, u, xs)
  {
  }

  lemma SamplesAre(t: FlatTrack)
    ensures t.Samples() == AllSamples(t.pieces)
  {
  }

  lemma StepRunsOf(s: Scan, data: bytes, offset: nat)
    requires StepRuns(s, data, offset).Going?
    ensures ReadRuns(data, s.defaults, offset).Some? && ReadSamples(data, s.defaults, offset).Some?
    ensures var runs, pss := ReadRuns(data, s.defaults, offset).value.runs, ReadSamples(data, s.defaults, offset).value;
            ApplyRuns(s.tracks, runs).Some? && StepRuns(s, data, offset).s.tracks == ApplyPieces(ApplyRuns(s.tracks, runs).value, Flatten(pss))
  {
  }

  lemma StretchesThere(s: Scan, data: bytes, offset: nat, id: u32)
    requires ReadRuns(data, s.defaults, offset).Some? && ReadSamples(data, s.defaults, offset).Some?
    requires RunsMatch(ReadRuns(data, s.defaults, offset).value.runs, ReadSamples(data, s.defaults, offset).value)
    ensures var runs, pss := ReadRuns(data, s.defaults, offset).value.runs, ReadSamples(data, s.defaults, offset).value;
            && |runs| == |pss|
            && MoofStretches(data, s.defaults, offset, id) == StretchesOf(runs, pss, id)
            && MoofTimes(data, s.defaults, offset, id) == RunTimes(runs, pss, id)
  {
    hide RunOfPieces, RunFits;
  }

  lemma SamplesGrow(t: FlatTrack, ps: seq<Piece>, xs: seq<Stretch>)
    requires AllSamples(ps) == Joined(xs)
    ensures AllSamples(t.pieces + ps) == AllSamples(t.pieces) + Joined(xs)
    ensures t.pieces + ps == [] <==> t.pieces == [] && ps == []
  {
    hide Joined;
    AllSamplesConcat(t.pieces, ps);
  }

  lemma {:induction false} NoneWithout(runs: seq<Run>, pss: seq<seq<Piece>>, id: u32)
    requires RunsMatch(runs, pss)
    ensures PiecesFor(Flatten(pss), id) == [] <==> StretchesOf(runs, pss, id) == []
    decreases |runs|
  {
    hide SameClock, RunFits, AllSamples, PiecesFor;
    NothingFor(id);
    if runs != [] {
      var n := |runs| - 1;
      NoneWithout(runs[..n], pss[..n], id);
      PiecesForConcat(Flatten(pss[..n]), pss[n], id);
      PiecesOfOneTrack(pss[n], runs[n].track, id);
      PieceThere(runs[n], pss[n]);
    }
  }

  lemma PieceThere(rr: Run, ps: seq<Piece>)
    requires RunOfPieces(rr, ps)
    ensures ps != []
  {
  }

  // ---------- the whole scan ----------

  lemma StepStretches(src: bytes, s: Scan, b: Box, pos: nat, id: u32)
    requires |src| <= MAX_I64 && pos + b.size <= |src| && ReadBox(src, pos, |src|) == Found(b)
    requires ScanInv(src, s, pos) && StepBox(src, s, b).Going?
    requires b.kind == MOOF && Children(Body(src, b)).Some? ==> MoofClocksFirst(Children(Body(src, b)).value)
    ensures var s' := StepBox(src, s, b).s;
            && (s.moov.None? ==> b.kind != MOOF && id !in s.tracks && (id in s'.tracks ==> s'.tracks[id].pieces == []))
            && (s.moov.Some? ==> s'.moov.Some? && s'.defaults == s.defaults && s'.tracks.Keys == s.tracks.Keys)
            && (id in s.tracks && b.kind != MOOF ==> s'.tracks == s.tracks)
            && (id in s.tracks && b.kind == MOOF ==>
                  && MoofTimes(Body(src, b), s.defaults, pos, id) == OwnTimes(MoofStretches(Body(src, b), s.defaults, pos, id))
                  && Advanced(s.tracks[id], s'.tracks[id], MoofStretches(Body(src, b), s.defaults, pos, id)))
  {
    hide ReadBox, ReadTracks, StepRuns, MoofTimes, AllPlaced, KnownClocks, MoofClocksFirst, OwnTimes, MoofStretches, Advanced;
    if b.kind == MOOF {
      MoofStepKeeps(src, s, b, pos);
      MoofHasPayload(src, s, b);
      StepKeeps(src, s, b, pos);
      RunsDefaults(s, Payload(src, b).value, pos);
      if id in s.tracks { MoofStarts(s, Payload(src, b).value, pos, id); }
    }
  }

  /** A track that has samples keeps its start, and its clock advances by what it gets. */
  predicate WentOn(t: FlatTrack, u: FlatTrack, rest: seq<Sample>) {
    && t.pieces != [] && u.pieces != []
    && u.Samples() == t.Samples() + rest && u.firstDTS == t.firstDTS && u.nextDTS == t.nextDTS + Durations(rest)
    && u.minPTS == LeastWith(t.minPTS, rest, t.nextDTS)
  }

  lemma WentOnStep(t: FlatTrack, u: FlatTrack, w: FlatTrack, xs: seq<Stretch>, rest: seq<Sample>)
    requires t.pieces != [] && Advanced(t, u, xs) && WentOn(u, w, rest)
    ensures WentOn(t, w, Joined(xs) + rest)
    ensures OwnTimes(xs) + TimesFrom(rest, u.nextDTS) == TimesFrom(Joined(xs) + rest, t.nextDTS)
  {
    hide AllSamples, TimesFrom, Durations, OwnTimes, Joined, NonEmpty, LeastWith;
    SumsConcat(Joined(xs), rest);
    LeastWithConcat(t.minPTS, Joined(xs), rest, t.nextDTS);
    assert t.Samples() + Joined(xs) + rest == t.Samples() + (Joined(xs) + rest);
    SteadyTimes(xs, t.nextDTS);
    TimesConcat(Joined(xs), rest, t.nextDTS);
  }

  lemma {:induction false} LaterScan(src: bytes, pos: nat, s: Scan, id: u32) returns (rest: seq<Sample>)
    requires |src| <= MAX_I64 && pos <= |src| && ScanInv(src, s, pos) && ScanFrom(src, pos, s).Going?
    requires id in s.tracks && s.tracks[id].pieces != [] && ClocksFirstFrom(src, pos)
    ensures var f := ScanFrom(src, pos, s).s;
            && id in f.tracks && f.defaults == s.defaults && WentOn(s.tracks[id], f.tracks[id], rest)
            && SourceTimes(src, pos, s.defaults, id) == TimesFrom(rest, s.tracks[id].nextDTS)
    decreases |src| - pos
  {
    hide ReadBox, StepBox, MoovSeen, AllPlaced, MoofTimes, MoofStretches, MoofClocksFirst, Advanced, WentOn, OwnTimes, TimesFrom, ChildrenFrom;
    if pos == |src| {
      NothingLeft(s.tracks[id]);
      return [];
    }
    var b := ReadBox(src, pos, |src|).box;
    var s' := StepBox(src, s, b).s;
    StepKeeps(src, s, b, pos);
    StepStretches(src, s, b, pos, id);
    var xs := if b.kind == MOOF then MoofStretches(Body(src, b), s.defaults, pos, id) else [];
    if b.kind != MOOF { StoodStill(s.tracks[id]); }
    AdvancedPieces(s.tracks[id], s'.tracks[id], xs);
    rest := LaterScan(src, pos + b.size, s', id);
    WentOnStep(s.tracks[id], s'.tracks[id], ScanFrom(src, pos, s).s.tracks[id], xs, rest);
    rest := Joined(xs) + rest;
  }

  lemma NothingLeft(t: FlatTrack)
    ensures t.pieces != [] ==> WentOn(t, t, [])
    ensures TimesFrom([], t.nextDTS) == []
  {
    assert t.Samples() + [] == t.Samples();
  }

  lemma StoodStill(t: FlatTrack)
    ensures Advanced(t, t, []) && OwnTimes([]) == []
  {
    JoinedNothing();
    assert t.Samples() + [] == t.Samples();
  }

  lemma AdvancedPieces(t: FlatTrack, u: FlatTrack, xs: seq<Stretch>)
    requires Advanced(t, u, xs)
    ensures u.pieces == [] <==> t.pieces == [] && xs == []
  {
  }

  /** A track the scan ends with: its first fragment, and what came later. */
  predicate Began(t: FlatTrack, xs: seq<Stretch>, rest: seq<Sample>, times: seq<int>) {
    && NonEmpty(xs) && (t.pieces == [] <==> xs == [])
    && (xs != [] ==>
          var last := xs[|xs| - 1];
          && t.Samples() == Joined(xs) + rest
          && last in xs
          && t.firstDTS == last.first && t.nextDTS == last.first + Durations(last.samples) + Durations(rest)
          && t.minPTS == LeastWith(MinPts(last.samples, last.first), rest, last.first + Durations(last.samples))
          && times == OwnTimes(xs) + TimesFrom(rest, last.first + Durations(last.samples)))
  }

  lemma BeganHere(t: FlatTrack, u: FlatTrack, w: FlatTrack, xs: seq<Stretch>, rest: seq<Sample>)
    requires t.pieces == [] && xs != [] && Advanced(t, u, xs) && WentOn(u, w, rest)
    ensures Began(w, xs, rest, OwnTimes(xs) + TimesFrom(rest, u.nextDTS))
  {
    hide TimesFrom, Joined, OwnTimes, Durations, LeastWith, MinPts;
    NoPiecesNoSamples();
    assert xs[|xs| - 1] in xs;
    assert [] + Joined(xs) == Joined(xs);
  }

  lemma {:induction false} WholeScan(src: bytes, pos: nat, s: Scan, id: u32) returns (rest: seq<Sample>)
    requires |src| <= MAX_I64 && pos <= |src| && ScanInv(src, s, pos) && ScanFrom(src, pos, s).Going?
    requires (id in s.tracks ==> s.tracks[id].pieces == []) && ClocksFirstFrom(src, pos)
    ensures var f := ScanFrom(src, pos, s).s;
            id in f.tracks ==> Began(f.tracks[id], FirstStretches(src, pos, f.defaults, id), rest, SourceTimes(src, pos, f.defaults, id))
    decreases |src| - pos
  {
    hide ReadBox, StepBox, MoovSeen, AllPlaced, MoofTimes, MoofStretches, MoofClocksFirst, Advanced, WentOn, OwnTimes, TimesFrom, Began, ChildrenFrom;
    if pos == |src| {
      if id in s.tracks { NeverBegan(s.tracks[id]); }
      return [];
    }
    var b := ReadBox(src, pos, |src|).box;
    var s', f := StepBox(src, s, b).s, ScanFrom(src, pos, s).s;
    StepKeeps(src, s, b, pos);
    StepStretches(src, s, b, pos, id);
    ScanCollects(src, pos, s, id);
    var xs := if b.kind == MOOF then MoofStretches(Body(src, b), f.defaults, pos, id) else [];
    if id in s.tracks && b.kind == MOOF { AdvancedPieces(s.tracks[id], s'.tracks[id], xs); }
    if id in s.tracks && xs != [] {
      rest := LaterScan(src, pos + b.size, s', id);
      BeganHere(s.tracks[id], s'.tracks[id], f.tracks[id], xs, rest);
    } else {
      EmptySteady(0);
      rest := WholeScan(src, pos + b.size, s', id);
      assert [] + SourceTimes(src, pos + b.size, f.defaults, id) == SourceTimes(src, pos + b.size, f.defaults, id);
    }
  }

  lemma NeverBegan(t: FlatTrack)
    requires t.pieces == []
    ensures Began(t, [], [], [])
  {
  }

  lemma BeganRules(t: FlatTrack, xs: seq<Stretch>, rest: seq<Sample>, times: seq<int>)
    requires Began(t, xs, rest, times) && xs != []
    ensures |times| == |t.Samples()| && (TrackTimes(t) == times <==> StartTogether(xs))
    ensures t.nextDTS - t.firstDTS == Durations(t.Samples()) <==> EarlierEmpty(xs)
  {
    hide TimesFrom, Joined, OwnTimes, Durations, Steady, StartTogether, EarlierEmpty, AllSamples;
    var last := xs[|xs| - 1];
    LastRules(xs);
    SumsConcat(Joined(xs), rest);
    TimesConcat(Joined(xs), rest, last.first);
    SteadyTimes(xs, last.first);
    SplitEqual(TimesFrom(Joined(xs), last.first), TimesFrom(rest, last.first + Durations(Joined(xs))),
               OwnTimes(xs), TimesFrom(rest, last.first + Durations(last.samples)));
    TogetherEmpty(xs);
  }

  lemma TogetherEmpty(xs: seq<Stretch>)
    ensures StartTogether(xs) ==> EarlierEmpty(xs)
  {
  }
}
