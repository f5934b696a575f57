/**
 What a reader of the fragmented source sees, fragment by fragment: the runs of
 a track with their data, and the time of every sample on the clock of its own
 fragment.  The scan collects exactly that.
 */
module SourceTruth {
  import opened Bytes
  import opened Options
  import opened Boxes
  import opened Tracks
  import opened Samples
  import opened Fragments
  import opened Agreement
  import opened FlatScan
  import opened ScanLemmas

  /** Presentation times of samples that start decoding at d. */
  function TimesFrom(ss: seq<Sample>, d: int): (r: seq<int>)
    ensures |r| == |ss| && forall i | 0 <= i < |ss| :: r[i] == Pts(ss, d, i)
  {
    seq(|ss|, i requires 0 <= i < |ss| => Pts(ss, d, i))
  }

  function MoofPieces(data: bytes, tracks: map<u32, Track>, offset: nat, id: u32): seq<Piece> {
    match ReadSamples(data, tracks, offset) case None => [] case Some(pss) => PiecesFor(Flatten(pss), id)
  }

  /** Times of the samples of one track in a fragment, each run counted from its own tfdt. */
  function RunTimes(runs: seq<Run>, pss: seq<seq<Piece>>, id: u32): seq<int>
    requires |runs| == |pss|
  {
    if runs == [] then []
    else
      var n := |runs| - 1;
      RunTimes(runs[..n], pss[..n], id) + if runs[n].track == id then TimesFrom(AllSamples(pss[n]), runs[n].first) else []
  }

  function MoofTimes(data: bytes, tracks: map<u32, Track>, offset: nat, id: u32): seq<int> {
    match ReadRuns(data, tracks, offset)
    case None => []
    case Some(m) =>
      match ReadSamples(data, tracks, offset)
      case None => []
      case Some(pss) => if |m.runs| == |pss| then RunTimes(m.runs, pss, id) else []
  }

  function SourcePieces(src: bytes, pos: nat, tracks: map<u32, Track>, id: u32): seq<Piece>
    requires pos <= |src|
    decreases |src| - pos
  {
    if pos == |src| || !ReadBox(src, pos, |src|).Found? then []
    else
      var b := ReadBox(src, pos, |src|).box;
      (if b.kind == MOOF then MoofPieces(Body(src, b), tracks, pos, id) else []) + SourcePieces(src, pos + b.size, tracks, id)
  }

  function SourceTimes(src: bytes, pos: nat, tracks: map<u32, Track>, id: u32): seq<int>
    requires pos <= |src|
    decreases |src| - pos
  {
    if pos == |src| || !ReadBox(src, pos, |src|).Found? then []
    else
      var b := ReadBox(src, pos, |src|).box;
      (if b.kind == MOOF then MoofTimes(Body(src, b), tracks, pos, id) else []) + SourceTimes(src, pos + b.size, tracks, id)
  }

  function PiecesOf(s: Scan, id: u32): seq<Piece> {
    if id in s.tracks then s.tracks[id].pieces else []
  }

  function TimesOf(s: Scan, id: u32): seq<int> {
    if id in s.tracks then TimesFrom(s.tracks[id].Samples(), s.tracks[id].firstDTS) else []
  }

  // ---------- the scan collects the pieces ----------

  lemma RunsStepCollects(s: Scan, data: bytes, offset: nat, id: u32)
    requires StepRuns(s, data, offset).Going? && id in s.tracks
    ensures id in StepRuns(s, data, offset).s.tracks
    ensures PiecesOf(StepRuns(s, data, offset).s, id) == PiecesOf(s, id) + MoofPieces(data, s.defaults, offset, id)
  {
    hide ReadRuns, ReadSamples, ApplyRuns, PiecesFor, Flatten;
    RunsKeepPieces(s.tracks, ReadRuns(data, s.defaults, offset).value.runs);
  }

  /** Before the movie header nothing is known; after it the tracks stay. */
  lemma StepCollects(src: bytes, s: Scan, b: Box, pos: nat, id: u32)
    requires pos + b.size <= |src| && ReadBox(src, pos, |src|) == Found(b)
    requires ScanInv(src, s, pos) && StepBox(src, s, b).Going?
    ensures var s' := StepBox(src, s, b).s;
            && (s.moov.Some? ==> s'.defaults == s.defaults && s'.moov == s.moov)
            && (s.moov.None? ==> b.kind != MOOF && PiecesOf(s', id) == [])
            && (s.moov.Some? && b.kind != MOOF ==> PiecesOf(s', id) == PiecesOf(s, id))
            && (s.moov.Some? && b.kind == MOOF && id in s.tracks ==>
                  PiecesOf(s', id) == PiecesOf(s, id) + MoofPieces(Body(src, b), s.defaults, pos, id))
            && (s.moov.Some? ==> s'.tracks.Keys == s.tracks.Keys)
  {
    hide ReadBox, ReadTracks, StepRuns, MoofPieces, AllPlaced, KnownClocks;
    if b.kind == MOOF {
      MoofStepKeeps(src, s, b, pos);
      StepKeeps(src, s, b, pos);
      RunsDefaults(s, Payload(src, b).value, pos);
      if id in s.tracks { RunsStepCollects(s, Payload(src, b).value, pos, id); }
    }
  }

  lemma RunsDefaults(s: Scan, data: bytes, offset: nat)
    requires StepRuns(s, data, offset).Going?
    ensures StepRuns(s, data, offset).s.defaults == s.defaults && StepRuns(s, data, offset).s.moov == s.moov
    ensures StepRuns(s, data, offset).s.tracks.Keys == s.tracks.Keys
  {
    hide ReadRuns, ReadSamples;
    RunsKeepPieces(s.tracks, ReadRuns(data, s.defaults, offset).value.runs);
  }

  /** The pieces of each track are those of all the fragments of the file, in file order. */
  lemma {:induction false} ScanCollects(src: bytes, pos: nat, s: Scan, id: u32)
    requires pos <= |src| && ScanInv(src, s, pos) && ScanFrom(src, pos, s).Going?
    ensures var f := ScanFrom(src, pos, s).s;
            && (s.moov.Some? ==> f.defaults == s.defaults && f.tracks.Keys == s.tracks.Keys)
            && (id in f.tracks ==> PiecesOf(f, id) == PiecesOf(s, id) + SourcePieces(src, pos, f.defaults, id))
    decreases |src| - pos
  {
    hide ReadBox, StepBox, ScanInv, MoofPieces, PiecesOf;
    var f := ScanFrom(src, pos, s).s;
    if pos == |src| {
      assert SourcePieces(src, pos, f.defaults, id) == [];
      assert PiecesOf(s, id) + [] == PiecesOf(s, id);
    } else {
      var b := ReadBox(src, pos, |src|).box;
      var s' := StepBox(src, s, b).s;
      StepKeeps(src, s, b, pos);
      StepCollects(src, s, b, pos, id);
      ScanCollects(src, pos + b.size, s', id);
      NoPiecesEarly(src, s, pos, id);
      var rest := SourcePieces(src, pos + b.size, f.defaults, id);
      var here := if b.kind == MOOF then MoofPieces(Body(src, b), f.defaults, pos, id) else [];
      assert (PiecesOf(s, id) + here) + rest == PiecesOf(s, id) + (here + rest);
      assert [] + rest == rest && PiecesOf(s, id) + [] == PiecesOf(s, id);
    }
  }

  lemma NoPiecesEarly(src: bytes, s: Scan, pos: nat, id: u32)
    requires ScanInv(src, s, pos)
    ensures s.moov.None? ==> PiecesOf(s, id) == []
  {
  }

  // ---------- and their times ----------

  lemma TimesConcat(a: seq<Sample>, b: seq<Sample>, d: int)
    ensures TimesFrom(a + b, d) == TimesFrom(a, d) + TimesFrom(b, d + Durations(a))
  {
    forall i | 0 <= i < |a| + |b|
      ensures TimesFrom(a + b, d)[i] == (TimesFrom(a, d) + TimesFrom(b, d + Durations(a)))[i]
    {
      if i < |a| {
        assert (a + b)[..i] == a[..i];
      } else {
        assert (a + b)[..i] == a + b[..i - |a|];
        SumsConcat(a, b[..i - |a|]);
      }
    }
  }

  function TrackTimes(t: FlatTrack): seq<int> { TimesFrom(t.Samples(), t.firstDTS) }

  lemma TimesStep(t: FlatTrack, u: FlatTrack, rr: Run, ps: seq<Piece>)
    requires ClockOk(t) && u.pieces == t.pieces + ps
    requires u.firstDTS == if t.pieces == [] then rr.first else t.firstDTS
    requires t.pieces != [] ==> rr.first == t.nextDTS
    ensures TrackTimes(u) == TrackTimes(t) + TimesFrom(AllSamples(ps), rr.first)
  {
    hide MinPts, MaxEnd, Durations, AllSamples;
    AllSamplesConcat(t.pieces, ps);
    NoPiecesNoSamples();
    TimesConcat(t.Samples(), AllSamples(ps), u.firstDTS);
    if t.pieces == [] {
      assert [] + AllSamples(ps) == AllSamples(ps);
      assert TrackTimes(t) == [];
    }
  }

  lemma RunTimesOne(tracks: map<u32, FlatTrack>, rr: Run, before: seq<Piece>, ps: seq<Piece>, id: u32)
    requires ApplyRun(tracks, rr).Some? && id in tracks
    requires forall p | p in ps :: p.track == rr.track
    requires ClockOk(ApplyPieces(tracks, before)[id])
    requires id == rr.track && tracks[id].pieces == [] ==> PiecesFor(before, id) == []
    ensures id in ApplyRun(tracks, rr).value
    ensures TrackTimes(ApplyPieces(ApplyRun(tracks, rr).value, before + ps)[id])
            == TrackTimes(ApplyPieces(tracks, before)[id]) + if id == rr.track then TimesFrom(AllSamples(ps), rr.first) else []
  {
    hide *;
    RunUpdatesTrack(tracks, rr);
    var after := ApplyRun(tracks, rr).value;
    PiecesApplied(tracks, before, id);
    PiecesApplied(after, before + ps, id);
    PiecesForConcat(before, ps, id);
    PiecesOfOneTrack(ps, rr.track, id);
    var t, u := ApplyPieces(tracks, before)[id], ApplyPieces(after, before + ps)[id];
    var had, mine := tracks[id].pieces, PiecesFor(before, id);
    if id != rr.track {
      assert mine + [] == mine;
      assert u == t;
      assert TrackTimes(t) + [] == TrackTimes(t);
    } else {
      assert had + (mine + ps) == had + mine + ps;
      TimesStep(t, u, rr, ps);
    }
  }

  lemma LastRun(tracks: map<u32, FlatTrack>, runs: seq<Run>, pss: seq<seq<Piece>>, id: u32)
    requires runs != [] && RunsMatch(runs, pss) && ApplyRuns(tracks, runs).Some?
    ensures var n := |runs| - 1;
            && |pss| == |runs|
            && ApplyRuns(tracks, runs[..n]).Some?
            && ApplyRun(ApplyRuns(tracks, runs[..n]).value, runs[n]) == ApplyRuns(tracks, runs)
            && Flatten(pss) == Flatten(pss[..n]) + pss[n]
            && RunTimes(runs, pss, id)
               == RunTimes(runs[..n], pss[..n], id) + (if id == runs[n].track then TimesFrom(AllSamples(pss[n]), runs[n].first) else [])
            && (forall p | p in pss[n] :: p.track == runs[n].track)
  {
    hide ApplyRun, SameClock, SameRanges, RunFits, TimesFrom;
  }

  /** A track without samples has no run before the one that starts it. */
  lemma FirstOfTrack(runs: seq<Run>, tracks: map<u32, FlatTrack>, id: u32)
    requires runs != [] && NewTracksOnce(runs, tracks) && id in tracks && tracks[id].pieces == [] && runs[|runs| - 1].track == id
    ensures forall r | r in runs[..|runs| - 1] :: r.track != id
  {
    var n := |runs| - 1;
    forall r | r in runs[..n]
      ensures r.track != id
    {
      var i :| 0 <= i < n && runs[i] == r;
    }
  }

  lemma {:induction false} RunsTimes(tracks: map<u32, FlatTrack>, runs: seq<Run>, pss: seq<seq<Piece>>, id: u32)
    requires RunsMatch(runs, pss) && NewTracksOnce(runs, tracks) && ApplyRuns(tracks, runs).Some?
    requires id in tracks && ClockOk(tracks[id])
    requires |runs| == |pss|
    ensures id in ApplyRuns(tracks, runs).value
    ensures TrackTimes(ApplyPieces(ApplyRuns(tracks, runs).value, Flatten(pss))[id]) == TrackTimes(tracks[id]) + RunTimes(runs, pss, id)
    decreases |runs|
  {
    hide *;
    if runs == [] {
      NoRuns(tracks, id);
    } else {
      var n := |runs| - 1;
      LastRun(tracks, runs, pss, id);
      RunsMatchPrefix(runs, pss, tracks);
      RunsTimes(tracks, runs[..n], pss[..n], id);
      RunsAndPieces(tracks, runs[..n], pss[..n], id);
      RunsKeepPieces(tracks, runs[..n]);
      if id == runs[n].track && tracks[id].pieces == [] { FirstOfTrack(runs, tracks, id); }
      RunTimesOne(ApplyRuns(tracks, runs[..n]).value, runs[n], Flatten(pss[..n]), pss[n], id);
      var last := if id == runs[n].track then TimesFrom(AllSamples(pss[n]), runs[n].first) else [];
      assert (TrackTimes(tracks[id]) + RunTimes(runs[..n], pss[..n], id)) + last
          == TrackTimes(tracks[id]) + (RunTimes(runs[..n], pss[..n], id) + last);
    }
  }

  lemma NoRuns(tracks: map<u32, FlatTrack>, id: u32)
    requires id in tracks
    ensures ApplyRuns(tracks, []) == Some(tracks) && RunTimes([], [], id) == []
    ensures TrackTimes(ApplyPieces(tracks, Flatten([]))[id]) == TrackTimes(tracks[id]) + []
  {
    NothingFor(id);
    assert tracks[id].pieces + [] == tracks[id].pieces;
  }

  lemma NothingFor(id: u32)
    ensures PiecesFor([], id) == [] && Flatten([]) == []
  {
  }

  lemma RunsStepTimes(s: Scan, data: bytes, offset: nat, id: u32)
    requires ClocksOk(s) && offset <= MAX_I64 && StepRuns(s, data, offset).Going? && OrderlyMoof(data, s, offset) && id in s.tracks
    ensures TimesOf(StepRuns(s, data, offset).s, id) == TimesOf(s, id) + MoofTimes(data, s.defaults, offset, id)
  {
    hide RunsMoof, PiecesMoof, ClockOk, MoofClocksFirst, RunOfPieces, RunFits, Children, ApplyPieces, ApplyRuns, TimesFrom;
    ParsersAgree(data, s.defaults, offset);
    MoofRunsInRange(Children(data).value, s.defaults, offset);
    var runs, pss := ReadRuns(data, s.defaults, offset).value.runs, ReadSamples(data, s.defaults, offset).value;
    assert RunsMatch(runs, pss);
    RunsKeepPieces(s.tracks, runs);
    KeysKept(ApplyRuns(s.tracks, runs).value, Flatten(pss));
    RunsTimes(s.tracks, runs, pss, id);
  }

  lemma StepTimes(src: bytes, s: Scan, b: Box, pos: nat, id: u32)
    requires |src| <= MAX_I64 && pos + b.size <= |src| && ReadBox(src, pos, |src|) == Found(b)
    requires ScanInv(src, s, pos) && ClocksOk(s) && StepBox(src, s, b).Going?
    requires b.kind == MOOF && Payload(src, b).Some? ==> OrderlyMoof(Payload(src, b).value, s, pos)
    ensures var s' := StepBox(src, s, b).s;
            && (s.moov.None? ==> b.kind != MOOF && TimesOf(s', id) == [])
            && (s.moov.Some? && b.kind != MOOF ==> TimesOf(s', id) == TimesOf(s, id))
            && (s.moov.Some? && b.kind == MOOF && id in s.tracks ==>
                  TimesOf(s', id) == TimesOf(s, id) + MoofTimes(Body(src, b), s.defaults, pos, id))
  {
    hide ReadBox, ReadTracks, StepRuns, MoofTimes, AllPlaced, KnownClocks, OrderlyMoof, ClocksOk, AllSamples;
    NoPiecesNoSamples();
    if b.kind == MOOF {
      MoofStepKeeps(src, s, b, pos);
      MoofHasPayload(src, s, b);
      if id in s.tracks { RunsStepTimes(s, Payload(src, b).value, pos, id); }
    }
  }

  /** Counting on from the first decode time gives every sample the time its own fragment gives it. */
  lemma {:induction false} ScanTimes(src: bytes, pos: nat, s: Scan, id: u32)
    requires |src| <= MAX_I64 && pos <= |src| && ScanInv(src, s, pos) && ClocksOk(s) && ScanFrom(src, pos, s).Going?
    requires OrderlyFrom(src, pos, s)
    ensures var f := ScanFrom(src, pos, s).s;
            id in f.tracks ==> TimesOf(f, id) == TimesOf(s, id) + SourceTimes(src, pos, f.defaults, id)
    decreases |src| - pos
  {
    hide ReadBox, StepBox, ScanInv, ClocksOk, OrderlyMoof, MoofTimes, TimesOf;
    var f := ScanFrom(src, pos, s).s;
    if pos == |src| {
      assert TimesOf(s, id) + [] == TimesOf(s, id);
    } else {
      var b := ReadBox(src, pos, |src|).box;
      var s' := StepBox(src, s, b).s;
      StepKeeps(src, s, b, pos);
      StepKeepsClocks(src, s, b, pos);
      StepTimes(src, s, b, pos, id);
      ScanTimes(src, pos + b.size, s', id);
      ScanCollects(src, pos, s, id);
      NoTimesEarly(src, s, pos, id);
      var rest := SourceTimes(src, pos + b.size, f.defaults, id);
      var here := if b.kind == MOOF then MoofTimes(Body(src, b), f.defaults, pos, id) else [];
      assert (TimesOf(s, id) + here) + rest == TimesOf(s, id) + (here + rest);
      assert [] + rest == rest && TimesOf(s, id) + [] == TimesOf(s, id);
    }
  }

  lemma NoTimesEarly(src: bytes, s: Scan, pos: nat, id: u32)
    requires ScanInv(src, s, pos)
    ensures s.moov.None? ==> TimesOf(s, id) == []
  {
  }
}
