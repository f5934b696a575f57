/** The two fragment parsers agree on every fragment both of them accept. */
module Agreement {
  import opened Bytes
  import opened Options
  import opened Boxes
  import opened Tracks
  import opened Samples
  import opened Fragments

  lemma {:induction false} AddSamplesSums(c: Clock, ss: seq<Sample>, t: Track)
    requires AddSamples(c, ss, t).Some?
    ensures var c' := AddSamples(c, ss, t).value;
            && c'.decode == c.decode + Durations(ss)
            && c'.dataEnd == c.dataEnd + Sizes(ss)
            && c'.haveSample == (c.haveSample || ss != [])
            && c'.rr.track == c.rr.track && c'.rr.first == c.rr.first
            && c'.rr.ranges == c.rr.ranges && c'.rr.decodeEnd == c.rr.decodeEnd
    decreases |ss|
  {
    if ss != [] { AddSamplesSums(c, ss[..|ss| - 1], t); }
  }

  lemma {:induction false} AddSamplesExtrema(c: Clock, ss: seq<Sample>, t: Track)
    requires ss != [] && AddSamples(c, ss, t).Some?
    ensures var rr := AddSamples(c, ss, t).value.rr;
            var fresh0 := !c.haveSample;
            && rr.start == (if fresh0 then MinPts(ss, c.decode) else Min(c.rr.start, MinPts(ss, c.decode)))
            && rr.end == (if fresh0 then MaxEnd(ss, c.decode) else Max(c.rr.end, MaxEnd(ss, c.decode)))
            && rr.firstPTS == (if fresh0 then Pts(ss, c.decode, 0) else c.rr.firstPTS)
            && rr.key == (if fresh0 then IsSync(ss[0].flags) else c.rr.key)
    decreases |ss|
  {
    var n := |ss| - 1;
    AddSamplesSums(c, ss[..n], t);
    if n > 0 {
      AddSamplesExtrema(c, ss[..n], t);
      assert ss[..n][..0] == ss[..0];
    }
  }

  predicate Related(st: TrafState, ps: PieceState, clocked: bool) {
    && st.haveHeader == ps.t.Some?
    && (st.haveHeader ==> ps.t.value == st.t)
    && SameRanges(st.rr, ps.pieces)
    && st.haveSample == (ps.pieces != [])
    && (clocked ==> ClockRelated(st, ps))
  }

  predicate ClockRelated(st: TrafState, ps: PieceState) {
    && (st.haveHeader ==> st.rr.track == st.t.id)
    && (st.haveDecode && !st.haveSample ==> st.rr.first == st.decode)
    && (st.haveSample ==> st.haveHeader && st.haveDecode && RunOfPieces(st.rr, ps.pieces) && st.decode == st.rr.decodeEnd)
  }

  lemma TrunKeepsRanges(v: bytes, st: TrafState, ps: PieceState, moofOffset: int, clocked: bool)
    requires Related(st, ps, clocked)
    requires RunsTrun(v, st, moofOffset).Some? && PiecesTrun(v, ps, moofOffset).Some?
    ensures Related(RunsTrun(v, st, moofOffset).value, PiecesTrun(v, ps, moofOffset).value, false)
  {
    hide AddSamples, FirstSamples, Sizes, Durations, ClockRelated, U32, SameRanges, TrunOffset;
    var ss := TrunSamples(v, st.t).value;
    AddSamplesSums(Clock(st.rr, st.decode, moofOffset + TrunOffset(v), st.haveSample), ss, st.t);
    OneMoreRange(st.rr, ps.pieces, RunsTrun(v, st, moofOffset).value.rr, Piece(ps.t.value.id, moofOffset + TrunOffset(v), ss));
  }

  lemma OneMoreRange(rr: Run, ps: seq<Piece>, next: Run, p: Piece)
    requires SameRanges(rr, ps) && p.samples != [] && next.ranges == rr.ranges + [Range(p.offset, p.offset + Sizes(p.samples))]
    ensures SameRanges(next, ps + [p])
  {
    hide Sizes;
  }

  /** One more run extends the clock of the runs before it. */
  lemma ClockExtends(c: Clock, before: seq<Sample>, ss: seq<Sample>, t: Track)
    requires ss != [] && AddSamples(c, ss, t).Some?
    requires if c.haveSample then SameClock(c.rr, before) && c.decode == c.rr.decodeEnd else before == [] && c.rr.first == c.decode
    ensures var c' := AddSamples(c, ss, t).value;
            SameClock(c'.rr.(decodeEnd := c'.decode), before + ss)
  {
    hide AddSamples, MinPts, MaxEnd, Durations, Sizes, IsSync, AddSample;
    AddSamplesSums(c, ss, t);
    AddSamplesExtrema(c, ss, t);
    SumsConcat(before, ss);
    if c.haveSample {
      ExtremaConcat(before, ss, c.rr.first);
      assert (before + ss)[..0] == before[..0];
    } else {
      assert before + ss == ss;
    }
  }

  lemma TrunKeepsClock(v: bytes, st: TrafState, ps: PieceState, moofOffset: int)
    requires Related(st, ps, true)
    requires RunsTrun(v, st, moofOffset).Some? && PiecesTrun(v, ps, moofOffset).Some?
    ensures Related(RunsTrun(v, st, moofOffset).value, PiecesTrun(v, ps, moofOffset).value, true)
  {
    hide MinPts, MaxEnd, Durations, Sizes, U32, FirstSamples, AddSamples, TrunOffset;
    TrunKeepsRanges(v, st, ps, moofOffset, true);
    var ss := TrunSamples(v, st.t).value;
    var c := Clock(st.rr, st.decode, moofOffset + TrunOffset(v), st.haveSample);
    AddSamplesSums(c, ss, st.t);
    ClockExtends(c, AllSamples(ps.pieces), ss, st.t);
    var ps' := PiecesTrun(v, ps, moofOffset).value.pieces;
    assert ps'[..|ps'| - 1] == ps.pieces;
  }

  lemma StepAgrees(c: Child, st: TrafState, ps: PieceState, tracks: map<u32, Track>, moofOffset: int, clocked: bool)
    requires Related(st, ps, clocked)
    requires RunsStep(c, st, tracks, moofOffset).Some? && PiecesStep(c, ps, tracks, moofOffset).Some?
    requires clocked && (c.kind == TFHD || c.kind == TFDT) ==> ps.pieces == []
    ensures Related(RunsStep(c, st, tracks, moofOffset).value, PiecesStep(c, ps, tracks, moofOffset).value, clocked)
  {
    if c.kind == TRUN {
      TrunKeepsRanges(c.body, st, ps, moofOffset, clocked);
      if clocked { TrunKeepsClock(c.body, st, ps, moofOffset); }
    }
  }

  lemma {:induction false} NoPiecesWithoutTrun(cs: seq<Child>, tracks: map<u32, Track>, moofOffset: int)
    requires PiecesTraf(cs, tracks, moofOffset).Some?
    requires forall i | 0 <= i < |cs| :: cs[i].kind != TRUN
    ensures PiecesTraf(cs, tracks, moofOffset).value.pieces == []
    decreases |cs|
  {
    if cs != [] { NoPiecesWithoutTrun(cs[..|cs| - 1], tracks, moofOffset); }
  }

  lemma {:induction false} TrafsRelated(cs: seq<Child>, tracks: map<u32, Track>, moofOffset: int)
    requires RunsTraf(cs, tracks, moofOffset).Some? && PiecesTraf(cs, tracks, moofOffset).Some?
    ensures Related(RunsTraf(cs, tracks, moofOffset).value, PiecesTraf(cs, tracks, moofOffset).value, ClocksFirst(cs))
    decreases |cs|
  {
    if cs != [] {
      var n := |cs| - 1;
      TrafsRelated(cs[..n], tracks, moofOffset);
      if ClocksFirst(cs) {
        assert ClocksFirst(cs[..n]);
        if cs[n].kind == TFHD || cs[n].kind == TFDT {
          forall i | 0 <= i < n
            ensures cs[..n][i].kind != TRUN
          {
            assert cs[i].kind != TRUN;
          }
          NoPiecesWithoutTrun(cs[..n], tracks, moofOffset);
        }
      }
      StepAgrees(cs[n], RunsTraf(cs[..n], tracks, moofOffset).value, PiecesTraf(cs[..n], tracks, moofOffset).value,
                 tracks, moofOffset, ClocksFirst(cs));
    }
  }

  /**
   Whenever both parsers accept a traf box they found the same byte ranges, one
   for each run; and if its clock boxes precede its runs, the decode end, first
   presentation time, earliest presentation and latest end of readRuns are those
   of the sample list of readSamples.
   */
  lemma TrafAgrees(body: bytes, tracks: map<u32, Track>, moofOffset: int)
    requires TrafRun(body, tracks, moofOffset).Some? && TrafPieces(body, tracks, moofOffset).Some?
    ensures SameRanges(TrafRun(body, tracks, moofOffset).value, TrafPieces(body, tracks, moofOffset).value)
    ensures ClocksFirst(Children(body).value) ==>
              RunOfPieces(TrafRun(body, tracks, moofOffset).value, TrafPieces(body, tracks, moofOffset).value)
  {
    TrafsRelated(Children(body).value, tracks, moofOffset);
  }

  /** Every traf box of a moof keeps its clock boxes ahead of its runs. */
  predicate MoofClocksFirst(cs: seq<Child>) {
    forall i | 0 <= i < |cs| && cs[i].kind == TRAF :: Children(cs[i].body).Some? ==> ClocksFirst(Children(cs[i].body).value)
  }

  lemma {:induction false} MoofsAgree(cs: seq<Child>, tracks: map<u32, Track>, moofOffset: int)
    requires RunsMoof(cs, tracks, moofOffset).Some? && PiecesMoof(cs, tracks, moofOffset).Some?
    ensures var runs := RunsMoof(cs, tracks, moofOffset).value.runs;
            var pieces := PiecesMoof(cs, tracks, moofOffset).value;
            && |runs| == |pieces|
            && (forall k | 0 <= k < |runs| :: SameRanges(runs[k], pieces[k]))
            && (MoofClocksFirst(cs) ==> forall k | 0 <= k < |runs| :: RunOfPieces(runs[k], pieces[k]))
    decreases |cs|
  {
    if cs != [] {
      var n := |cs| - 1;
      MoofsAgree(cs[..n], tracks, moofOffset);
      assert MoofClocksFirst(cs) ==> MoofClocksFirst(cs[..n]) by {
        assert forall i | 0 <= i < n :: cs[..n][i] == cs[i];
      }
      if cs[n].kind == TRAF { TrafAgrees(cs[n].body, tracks, moofOffset); }
    }
  }

  /** The same for a whole moof box: run k of one parser is the k-th sample list of the other. */
  lemma ParsersAgree(data: bytes, tracks: map<u32, Track>, moofOffset: int)
    requires ReadRuns(data, tracks, moofOffset).Some? && ReadSamples(data, tracks, moofOffset).Some?
    ensures var runs := ReadRuns(data, tracks, moofOffset).value.runs;
            var pieces := ReadSamples(data, tracks, moofOffset).value;
            && |runs| == |pieces|
            && (forall k | 0 <= k < |runs| :: SameRanges(runs[k], pieces[k]))
            && (MoofClocksFirst(Children(data).value) ==> forall k | 0 <= k < |runs| :: RunOfPieces(runs[k], pieces[k]))
  {
    MoofsAgree(Children(data).value, tracks, moofOffset);
  }

  // ---------- int64 guards ----------

  lemma TrunInRange(v: bytes, st: TrafState, moofOffset: int)
    requires 0 <= moofOffset <= MAX_I64 && RunsTrun(v, st, moofOffset).Some?
    requires RunFits(st.rr) && 0 <= st.decode <= MAX_I64
    ensures var st' := RunsTrun(v, st, moofOffset).value;
            RunFits(st'.rr) && 0 <= st'.decode <= MAX_I64
  {
    hide U32, FirstSamples, AddSample;
    var c := Clock(st.rr, st.decode, moofOffset + TrunOffset(v), st.haveSample);
    AddSamplesSums(c, TrunSamples(v, st.t).value, st.t);
    assert ClockFits(c);
  }

  lemma {:induction false} RunsStayInRange(cs: seq<Child>, tracks: map<u32, Track>, moofOffset: int)
    requires 0 <= moofOffset <= MAX_I64 && RunsTraf(cs, tracks, moofOffset).Some?
    ensures var st := RunsTraf(cs, tracks, moofOffset).value;
            RunFits(st.rr) && 0 <= st.decode <= MAX_I64
    decreases |cs|
  {
    if cs != [] {
      var n := |cs| - 1;
      RunsStayInRange(cs[..n], tracks, moofOffset);
      var st := RunsTraf(cs[..n], tracks, moofOffset).value;
      if cs[n].kind == TRUN { TrunInRange(cs[n].body, st, moofOffset); }
    }
  }

  lemma {:induction false} MoofRunsInRange(cs: seq<Child>, tracks: map<u32, Track>, moofOffset: int)
    requires 0 <= moofOffset <= MAX_I64 && RunsMoof(cs, tracks, moofOffset).Some?
    ensures forall k | k in RunsMoof(cs, tracks, moofOffset).value.runs :: RunFits(k)
    decreases |cs|
  {
    if cs != [] {
      var n := |cs| - 1;
      MoofRunsInRange(cs[..n], tracks, moofOffset);
      if cs[n].kind == TRAF { RunsStayInRange(Children(cs[n].body).value, tracks, moofOffset); }
    }
  }
}
