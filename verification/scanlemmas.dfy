/** What the scan keeps from box to box: where the data of each run lies, and the decode clock of each track. */
module ScanLemmas {
  import opened Bytes
  import opened Options
  import opened Boxes
  import opened Tracks
  import opened Samples
  import opened Fragments
  import opened Agreement
  import opened SampleTables
  import opened FlatScan

  // ---------- pieces ----------

  lemma {:induction false} FlattenFrom(pss: seq<seq<Piece>>, p: Piece) returns (k: nat)
    requires p in Flatten(pss)
    ensures k < |pss| && p in pss[k]
    decreases |pss|
  {
    var n := |pss| - 1;
    if p in pss[n] { return n; }
    k := FlattenFrom(pss[..n], p);
  }

  predicate PieceSized(p: Piece) { 0 < |p.samples| <= MAX_RUN }

  lemma {:induction false} TrafPiecesSized(cs: seq<Child>, tracks: map<u32, Track>, moofOffset: int)
    requires PiecesTraf(cs, tracks, moofOffset).Some?
    ensures forall p | p in PiecesTraf(cs, tracks, moofOffset).value.pieces :: PieceSized(p)
    decreases |cs|
  {
    if cs != [] { TrafPiecesSized(cs[..|cs| - 1], tracks, moofOffset); }
  }

  lemma {:induction false} MoofPiecesSized(cs: seq<Child>, tracks: map<u32, Track>, moofOffset: int)
    requires PiecesMoof(cs, tracks, moofOffset).Some?
    ensures forall ps | ps in PiecesMoof(cs, tracks, moofOffset).value :: forall p | p in ps :: PieceSized(p)
    decreases |cs|
  {
    if cs != [] {
      var n := |cs| - 1;
      MoofPiecesSized(cs[..n], tracks, moofOffset);
      if cs[n].kind == TRAF { TrafPiecesSized(Children(cs[n].body).value, tracks, moofOffset); }
    }
  }

  lemma {:induction false} RunsKeepPieces(tracks: map<u32, FlatTrack>, runs: seq<Run>)
    requires ApplyRuns(tracks, runs).Some?
    ensures var after := ApplyRuns(tracks, runs).value;
            && after.Keys == tracks.Keys
            && forall id | id in tracks :: after[id].info == tracks[id].info && after[id].pieces == tracks[id].pieces
    decreases |runs|
  {
    if runs != [] { RunsKeepPieces(tracks, runs[..|runs| - 1]); }
  }

  /** The data of each new piece is a range of the new pending runs. */
  lemma NewPiecesPending(data: bytes, tracks: map<u32, Track>, offset: nat, p: Piece)
    requires ReadRuns(data, tracks, offset).Some? && ReadSamples(data, tracks, offset).Some?
    requires p in Flatten(ReadSamples(data, tracks, offset).value)
    ensures PieceSized(p) && PendingCovers(ReadRuns(data, tracks, offset).value.runs, p)
  {
    hide PieceSized, TrafRun, TrafPieces;
    ParsersAgree(data, tracks, offset);
    MoofPiecesSized(Children(data).value, tracks, offset);
    var pss, runs := ReadSamples(data, tracks, offset).value, ReadRuns(data, tracks, offset).value.runs;
    var k := FlattenFrom(pss, p);
    assert SameRanges(runs[k], pss[k]) && pss[k] in pss;
    var i :| 0 <= i < |pss[k]| && pss[k][i] == p;
    assert runs[k].ranges[i] == Range(p.offset, End(p));
    assert runs[k] in runs;
  }

  // ---------- steps ----------

  lemma MoovStepKeeps(src: bytes, s: Scan, b: Box, pos: nat)
    requires pos + b.size <= |src| && ReadBox(src, pos, |src|) == Found(b) && b.kind == MOOV
    requires ScanInv(src, s, pos) && StepMoov(src, s, b).Going?
    ensures ScanInv(src, StepMoov(src, s, b).s, pos + b.size)
  {
    hide ReadBox, ReadTracks;
  }

  lemma RunsStepKeeps(src: bytes, s: Scan, data: bytes, pos: nat, after: nat)
    requires pos <= after <= |src| && ScanInv(src, s, pos) && s.pending == []
    requires s.moov.Some?
    requires StepRuns(s, data, pos).Going?
    ensures ScanInv(src, StepRuns(s, data, pos).s, after)
  {
    hide ReadBox, ReadTracks, ReadRuns, ReadSamples;
    var s' := StepRuns(s, data, pos).s;
    var runs, pss := ReadRuns(data, s.defaults, pos).value.runs, ReadSamples(data, s.defaults, pos).value;
    RunsKeepPieces(s.tracks, runs);
    forall id, p | id in s'.tracks && p in s'.tracks[id].pieces
      ensures Placed(s', after, p)
    {
      if p in s.tracks[id].pieces {
        assert Placed(s, pos, p);
      } else {
        NewPiecesPending(data, s.defaults, pos, p);
      }
    }
  }

  lemma {:induction false} NoTracksNoStart(cs: seq<Child>)
    ensures MoofStart(cs, map[]).Some? ==> MoofStart(cs, map[]).value == NoStart
    decreases |cs|
  {
    if cs != [] { NoTracksNoStart(cs[..|cs| - 1]); }
  }

  lemma MoofStepKeeps(src: bytes, s: Scan, b: Box, pos: nat)
    requires pos + b.size <= |src| && ReadBox(src, pos, |src|) == Found(b) && b.kind == MOOF
    requires ScanInv(src, s, pos) && StepMoof(src, s, b).Going?
    ensures ScanInv(src, StepMoof(src, s, b).s, pos + b.size)
    ensures s.moov.Some? && StepMoof(src, s, b) == StepRuns(s, Payload(src, b).value, pos)
  {
    hide ReadRuns, ReadSamples, ReadTracks, KnownClocks, StepRuns;
    var data := Payload(src, b).value;
    assert ReadBox(src, pos, |src|).box.offset == pos;
    if s.moov.None? {
      assert s.defaults == map[];
      NoTracksNoStart(Children(data).value);
    }
    RunsStepKeeps(src, s, data, pos, pos + b.size);
  }

  lemma MdatStepKeeps(src: bytes, s: Scan, b: Box, pos: nat)
    requires pos + b.size <= |src| && ReadBox(src, pos, |src|) == Found(b) && b.kind == MDAT
    requires ScanInv(src, s, pos) && StepMdat(s, b).Going?
    ensures ScanInv(src, StepMdat(s, b).s, pos + b.size)
  {
    hide ReadTracks, Sizes, U32, Payload;
    assert b.offset == pos && b.header >= 8;
    var s' := StepMdat(s, b).s;
    forall id, p | id in s'.tracks && p in s'.tracks[id].pieces
      ensures Placed(s', pos + b.size, p)
    {
      assert Placed(s, pos, p);
    }
  }

  lemma StepKeeps(src: bytes, s: Scan, b: Box, pos: nat)
    requires pos + b.size <= |src| && ReadBox(src, pos, |src|) == Found(b)
    requires ScanInv(src, s, pos) && StepBox(src, s, b).Going?
    ensures ScanInv(src, StepBox(src, s, b).s, pos + b.size)
  {
    hide ReadBox, StepMoov, StepMoof, StepMdat, ReadTracks;
    if b.kind == MOOV {
      MoovStepKeeps(src, s, b, pos);
    } else if b.kind == MOOF {
      MoofStepKeeps(src, s, b, pos);
    } else if b.kind == MDAT {
      MdatStepKeeps(src, s, b, pos);
    } else {
      assert forall p | Placed(s, pos, p) :: Placed(StepBox(src, s, b).s, pos + b.size, p);
    }
  }

  /** Every finished scan has all its data behind the movie header and inside the file. */
  lemma {:induction false} ScanKeeps(src: bytes, pos: nat, s: Scan)
    requires pos <= |src| && ScanInv(src, s, pos) && ScanFrom(src, pos, s).Going?
    ensures ScanInv(src, ScanFrom(src, pos, s).s, |src|)
    decreases |src| - pos
  {
    hide ReadBox, StepBox, ScanInv;
    if pos < |src| {
      var b := ReadBox(src, pos, |src|).box;
      StepKeeps(src, s, b, pos);
      ScanKeeps(src, pos + b.size, StepBox(src, s, b).s);
    }
  }

  // ---------- ranges ----------

  predicate TrackInRange(t: FlatTrack) {
    && 0 <= t.firstDTS <= MAX_I64 && 0 <= t.nextDTS <= MAX_I64
    && 0 <= t.minPTS <= MAX_I64 && 0 <= t.maxPTS <= MAX_I64
  }

  predicate TracksInRange(tracks: map<u32, FlatTrack>) {
    forall id | id in tracks :: TrackInRange(tracks[id])
  }

  lemma {:induction false} RunsKeepRange(tracks: map<u32, FlatTrack>, runs: seq<Run>)
    requires TracksInRange(tracks) && ApplyRuns(tracks, runs).Some? && forall r | r in runs :: RunFits(r)
    ensures TracksInRange(ApplyRuns(tracks, runs).value)
    decreases |runs|
  {
    if runs != [] {
      var n := |runs| - 1;
      RunsKeepRange(tracks, runs[..n]);
      assert runs[n] in runs;
    }
  }

  lemma StepKeepsRange(src: bytes, s: Scan, b: Box, pos: nat)
    requires |src| <= MAX_I64 && pos + b.size <= |src| && ReadBox(src, pos, |src|) == Found(b)
    requires ScanInv(src, s, pos) && TracksInRange(s.tracks) && StepBox(src, s, b).Going?
    ensures TracksInRange(StepBox(src, s, b).s.tracks)
  {
    hide ReadBox, ReadTracks, ReadRuns, ReadSamples, MoovSeen, AllPlaced, RunFits, KnownClocks, ApplyRuns;
    if b.kind == MOOF {
      MoofStepKeeps(src, s, b, pos);
      MoofHasPayload(src, s, b);
      var data := Payload(src, b).value;
      MoofRunsFit(data, s.defaults, pos);
      RunsKeepRange(s.tracks, ReadRuns(data, s.defaults, pos).value.runs);
    }
  }

  lemma MoofRunsFit(data: bytes, tracks: map<u32, Track>, offset: nat)
    requires offset <= MAX_I64 && ReadRuns(data, tracks, offset).Some?
    ensures forall r | r in ReadRuns(data, tracks, offset).value.runs :: RunFits(r)
  {
    hide RunFits;
    MoofRunsInRange(Children(data).value, tracks, offset);
  }

  /** Whatever file is accepted, the clocks of its tracks stay within the non-negative int64 numbers. */
  lemma {:induction false} ScanKeepsRange(src: bytes, pos: nat, s: Scan)
    requires |src| <= MAX_I64 && pos <= |src| && ScanInv(src, s, pos) && TracksInRange(s.tracks) && ScanFrom(src, pos, s).Going?
    ensures TracksInRange(ScanFrom(src, pos, s).s.tracks)
    decreases |src| - pos
  {
    hide ReadBox, StepBox, ScanInv, TracksInRange;
    if pos < |src| {
      var b := ReadBox(src, pos, |src|).box;
      StepKeeps(src, s, b, pos);
      StepKeepsRange(src, s, b, pos);
      ScanKeepsRange(src, pos + b.size, StepBox(src, s, b).s);
    }
  }

  // ---------- clocks ----------

  /** A track's clock is the clock of its samples: first decode time, next decode time, earliest presentation, latest end. */
  predicate ClockOk(t: FlatTrack) {
    t.pieces != [] ==>
      var ss := t.Samples();
      && ss != []
      && t.nextDTS == t.firstDTS + Durations(ss)
      && t.minPTS == MinPts(ss, t.firstDTS)
      && t.maxPTS == MaxEnd(ss, t.firstDTS)
      && 0 <= t.firstDTS <= MAX_I64 && 0 <= t.nextDTS <= MAX_I64
      && 0 <= t.minPTS <= MAX_I64 && 0 <= t.maxPTS <= MAX_I64
  }

  /** A track that has no samples yet occurs once among the runs of a fragment. */
  predicate NewTracksOnce(runs: seq<Run>, tracks: map<u32, FlatTrack>) {
    forall i, j | 0 <= i < j < |runs| && runs[i].track == runs[j].track ::
      runs[i].track in tracks ==> tracks[runs[i].track].pieces != []
  }

  predicate OrderlyMoof(data: bytes, s: Scan, offset: nat) {
    && (Children(data).Some? ==> MoofClocksFirst(Children(data).value))
    && (ReadRuns(data, s.defaults, offset).Some? ==> NewTracksOnce(ReadRuns(data, s.defaults, offset).value.runs, s.tracks))
  }

  /** The fragments from `pos` on put their clock boxes ahead of their runs, and start each track with one run. */
  predicate OrderlyFrom(src: bytes, pos: nat, s: Scan)
    requires pos <= |src|
    decreases |src| - pos
  {
    if pos == |src| || !ReadBox(src, pos, |src|).Found? then true
    else
      var b := ReadBox(src, pos, |src|).box;
      && (b.kind == MOOF && Payload(src, b).Some? ==> OrderlyMoof(Payload(src, b).value, s, pos))
      && (StepBox(src, s, b).Going? ==> OrderlyFrom(src, pos + b.size, StepBox(src, s, b).s))
  }

  lemma {:induction false} PiecesForConcat(a: seq<Piece>, b: seq<Piece>, id: u32)
    ensures PiecesFor(a + b, id) == PiecesFor(a, id) + PiecesFor(b, id)
    decreases |b|
  {
    if b == [] {
      assert a + b == a;
    } else {
      var n := |b| - 1;
      assert (a + b)[..|a| + n] == a + b[..n];
      PiecesForConcat(a, b[..n], id);
    }
  }

  lemma {:induction false} PiecesOfOneTrack(ps: seq<Piece>, track: u32, id: u32)
    requires forall p | p in ps :: p.track == track
    ensures PiecesFor(ps, id) == if id == track then ps else []
    decreases |ps|
  {
    if ps != [] {
      var n := |ps| - 1;
      PiecesOfOneTrack(ps[..n], track, id);
      assert ps == ps[..n] + [ps[n]];
    }
  }

  lemma {:induction false} AllSamplesConcat(a: seq<Piece>, b: seq<Piece>)
    ensures AllSamples(a + b) == AllSamples(a) + AllSamples(b)
    decreases |b|
  {
    if b == [] {
      assert a + b == a;
    } else {
      var n := |b| - 1;
      assert (a + b)[..|a| + n] == a + b[..n];
      AllSamplesConcat(a, b[..n]);
    }
  }

  predicate RunsMatch(runs: seq<Run>, pss: seq<seq<Piece>>) {
    && |runs| == |pss|
    && forall k | 0 <= k < |runs| :: RunOfPieces(runs[k], pss[k]) && RunFits(runs[k])
  }

  lemma NoPiecesNoSamples()
    ensures AllSamples([]) == []
  {
  }

  /** The clock update for a run and the samples of its pieces, seen on one track. */
  lemma ClockStep(t: FlatTrack, u: FlatTrack, rr: Run, ps: seq<Piece>)
    requires ClockOk(t) && RunOfPieces(rr, ps) && RunFits(rr)
    requires t.pieces != [] ==> rr.first == t.nextDTS && u.firstDTS == t.firstDTS && u.minPTS == Min(t.minPTS, rr.start) && u.maxPTS == Max(t.maxPTS, rr.end)
    requires t.pieces == [] ==> u.firstDTS == rr.first && u.minPTS == rr.start && u.maxPTS == rr.end
    requires u.nextDTS == rr.decodeEnd && u.pieces == t.pieces + ps
    ensures ClockOk(u)
  {
    hide MinPts, MaxEnd, Durations, Sizes, AllSamples, SameRanges, Pts, IsSync;
    AllSamplesConcat(t.pieces, ps);
    var a, b := t.Samples(), AllSamples(ps);
    SumsConcat(a, b);
    if t.pieces != [] {
      ExtremaConcat(a, b, t.firstDTS);
    } else {
      NoPiecesNoSamples();
      assert a + b == b;
    }
  }

  /** What ApplyRun does to the track of the run. */
  lemma RunUpdatesTrack(tracks: map<u32, FlatTrack>, rr: Run)
    requires ApplyRun(tracks, rr).Some?
    ensures rr.track in tracks
    ensures var t, u := tracks[rr.track], ApplyRun(tracks, rr).value[rr.track];
            && u.info == t.info && u.pieces == t.pieces && u.nextDTS == rr.decodeEnd
            && (if t.pieces == [] then u.firstDTS == rr.first && u.minPTS == rr.start && u.maxPTS == rr.end
                else rr.first == t.nextDTS && u.firstDTS == t.firstDTS
                     && u.minPTS == Min(t.minPTS, rr.start) && u.maxPTS == Max(t.maxPTS, rr.end))
    ensures forall id | id in tracks && id != rr.track :: ApplyRun(tracks, rr).value[id] == tracks[id]
    ensures ApplyRun(tracks, rr).value.Keys == tracks.Keys
  {
  }

  lemma PiecesApplied(tracks: map<u32, FlatTrack>, ps: seq<Piece>, id: u32)
    requires id in tracks
    ensures id in ApplyPieces(tracks, ps) && ApplyPieces(tracks, ps)[id] == tracks[id].(pieces := tracks[id].pieces + PiecesFor(ps, id))
  {
  }

  lemma RunAppliesToOne(tracks: map<u32, FlatTrack>, rr: Run, before: seq<Piece>, ps: seq<Piece>, id: u32)
    requires ApplyRun(tracks, rr).Some? && id in tracks
    requires forall p | p in ps :: p.track == rr.track
    requires RunOfPieces(rr, ps) && RunFits(rr)
    requires ClockOk(ApplyPieces(tracks, before)[id])
    requires id == rr.track && tracks[id].pieces == [] ==> PiecesFor(before, id) == []
    ensures ClockOk(ApplyPieces(ApplyRun(tracks, rr).value, before + ps)[id])
  {
    hide *;
    RunUpdatesTrack(tracks, rr);
    var after := ApplyRun(tracks, rr).value;
    PiecesApplied(tracks, before, id);
    PiecesApplied(after, before + ps, id);
    PiecesForConcat(before, ps, id);
    PiecesOfOneTrack(ps, rr.track, id);
    var t, u := ApplyPieces(tracks, before)[id], ApplyPieces(after, before + ps)[id];
    var had, mine := tracks[id].pieces, PiecesFor(before, id);
    if id != rr.track {
      assert mine + [] == mine;
      assert u == t;
    } else if had == [] {
      assert [] + ([] + ps) == ps;
      EmptyStaysEmpty(u, ps, rr);
    } else {
      assert had + (mine + ps) == had + mine + ps;
      ClockStep(t, u, rr, ps);
    }
  }

  lemma EmptyStaysEmpty(u: FlatTrack, ps: seq<Piece>, rr: Run)
    requires u.pieces == ps && RunOfPieces(rr, ps) && RunFits(rr)
    requires u.firstDTS == rr.first && u.minPTS == rr.start && u.maxPTS == rr.end && u.nextDTS == rr.decodeEnd
    ensures ClockOk(u)
  {
    hide MinPts, MaxEnd, Durations, Sizes, AllSamples, SameRanges, Pts, IsSync;
  }

  lemma {:induction false} RunsAndPieces(tracks: map<u32, FlatTrack>, runs: seq<Run>, pss: seq<seq<Piece>>, id: u32)
    requires RunsMatch(runs, pss) && NewTracksOnce(runs, tracks) && ApplyRuns(tracks, runs).Some?
    requires id in tracks && ClockOk(tracks[id])
    ensures ApplyRuns(tracks, runs).value.Keys == tracks.Keys
    ensures ClockOk(ApplyPieces(ApplyRuns(tracks, runs).value, Flatten(pss))[id])
    ensures (forall r | r in runs :: r.track != id) ==> PiecesFor(Flatten(pss), id) == []
    decreases |runs|
  {
    hide ClockOk, RunFits, SameRanges, SameClock;
    RunsKeepPieces(tracks, runs);
    if runs == [] {
      assert tracks[id].pieces + [] == tracks[id].pieces;
    } else {
      var n := |runs| - 1;
      RunsMatchPrefix(runs, pss, tracks);
      RunsAndPieces(tracks, runs[..n], pss[..n], id);
      RunsKeepPieces(tracks, runs[..n]);
      if id == runs[n].track && tracks[id].pieces == [] {
        forall r | r in runs[..n]
          ensures r.track != id
        {
          var i :| 0 <= i < n && runs[i] == r;
        }
      }
      RunAppliesToOne(ApplyRuns(tracks, runs[..n]).value, runs[n], Flatten(pss[..n]), pss[n], id);
      PiecesForConcat(Flatten(pss[..n]), pss[n], id);
      PiecesOfOneTrack(pss[n], runs[n].track, id);
      assert forall r | r in runs[..n] :: r in runs;
    }
  }

  lemma RunsMatchPrefix(runs: seq<Run>, pss: seq<seq<Piece>>, tracks: map<u32, FlatTrack>)
    requires runs != [] && RunsMatch(runs, pss) && NewTracksOnce(runs, tracks)
    ensures RunsMatch(runs[..|runs| - 1], pss[..|runs| - 1]) && NewTracksOnce(runs[..|runs| - 1], tracks)
  {
  }

  predicate ClocksOk(s: Scan) {
    forall id | id in s.tracks :: ClockOk(s.tracks[id])
  }

  lemma RunsStepKeepsClocks(s: Scan, data: bytes, offset: nat)
    requires ClocksOk(s) && offset <= MAX_I64 && StepRuns(s, data, offset).Going? && OrderlyMoof(data, s, offset)
    ensures ClocksOk(StepRuns(s, data, offset).s)
  {
    hide RunsMoof, PiecesMoof, ClockOk, MoofClocksFirst, RunOfPieces, RunFits, Children, ApplyPieces, ApplyRuns;
    ParsersAgree(data, s.defaults, offset);
    MoofRunsInRange(Children(data).value, s.defaults, offset);
    var runs, pss := ReadRuns(data, s.defaults, offset).value.runs, ReadSamples(data, s.defaults, offset).value;
    assert RunsMatch(runs, pss);
    var s' := StepRuns(s, data, offset).s;
    RunsKeepPieces(s.tracks, runs);
    KeysKept(ApplyRuns(s.tracks, runs).value, Flatten(pss));
    forall id | id in s'.tracks
      ensures ClockOk(s'.tracks[id])
    {
      RunsAndPieces(s.tracks, runs, pss, id);
    }
  }

  lemma KeysKept(tracks: map<u32, FlatTrack>, ps: seq<Piece>)
    ensures ApplyPieces(tracks, ps).Keys == tracks.Keys
  {
  }

  lemma StepKeepsClocks(src: bytes, s: Scan, b: Box, pos: nat)
    requires |src| <= MAX_I64 && pos + b.size <= |src| && ReadBox(src, pos, |src|) == Found(b)
    requires ScanInv(src, s, pos) && ClocksOk(s) && StepBox(src, s, b).Going?
    requires b.kind == MOOF && Payload(src, b).Some? ==> OrderlyMoof(Payload(src, b).value, s, pos)
    ensures ClocksOk(StepBox(src, s, b).s)
  {
    hide ReadBox, ReadTracks, OrderlyMoof, StepMoof, StepRuns, MoovSeen, AllPlaced;
    if b.kind == MOOF {
      MoofStepKeeps(src, s, b, pos);
      MoofHasPayload(src, s, b);
      RunsStepKeepsClocks(s, Payload(src, b).value, pos);
    }
  }

  lemma MoofHasPayload(src: bytes, s: Scan, b: Box)
    requires b.header <= b.size && b.offset + b.size <= |src| && StepMoof(src, s, b).Going?
    ensures Payload(src, b).Some?
  {
  }

  /** Over an orderly file every track's clock is that of its samples, whatever fragments they came in. */
  lemma {:induction false} ScanKeepsClocks(src: bytes, pos: nat, s: Scan)
    requires |src| <= MAX_I64 && pos <= |src| && ScanInv(src, s, pos) && ClocksOk(s) && ScanFrom(src, pos, s).Going?
    requires OrderlyFrom(src, pos, s)
    ensures ClocksOk(ScanFrom(src, pos, s).s)
    decreases |src| - pos
  {
    hide ReadBox, StepBox, ScanInv, ClocksOk, OrderlyMoof;
    if pos < |src| {
      var b := ReadBox(src, pos, |src|).box;
      StepKeeps(src, s, b, pos);
      StepKeepsClocks(src, s, b, pos);
      ScanKeepsClocks(src, pos + b.size, StepBox(src, s, b).s);
    }
  }
}
