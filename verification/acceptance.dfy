/**
 Which recordings the scan of internal/recordingmedia/flat.go accepts: a condition
 on each top-level box by what is ahead of it, for files of any number of fragments.
 */
module Acceptance {
  import opened Bytes
  import opened Options
  import opened Boxes
  import opened Tracks
  import opened Samples
  import opened Fragments
  import opened FlatScan
  import opened ScanLemmas
  import opened LateClocks
  import opened BoxOrder

  // ---------- the condition on each box ----------

  /** The fragment brings samples of the track. */
  predicate Brings(src: bytes, bs: seq<Box>, k: nat, id: u32)
    requires k < |bs|
  {
    && bs[k].kind == MOOF && SamplesOfBox(src, bs, k).Some?
    && exists ps | ps in SamplesOfBox(src, bs, k).value :: HasTrack(ps, id)
  }

  predicate HasTrack(ps: seq<Piece>, id: u32) { exists p | p in ps :: p.track == id }

  /** The track has samples ahead of box i. */
  predicate Begun(src: bytes, bs: seq<Box>, i: nat, id: u32)
    requires i <= |bs|
  {
    exists k | 0 <= k < i :: Brings(src, bs, k, id)
  }

  /** Run j of fragment i starts where the run of its track before it stopped, in this fragment or an earlier one, unless the track has no samples yet. */
  predicate GoesOn(src: bytes, bs: seq<Box>, i: nat, runs: seq<Run>, j: nat)
    requires i < |bs| && j < |runs|
  {
    var id := runs[j].track;
    && id in TracksAhead(src, bs, i)
    && (Begun(src, bs, i, id) ==> runs[j].first == EndAfter(0, RunsAhead(src, bs, i, id) + RunsFor(runs[..j], id)))
  }

  /** Every track fragment has a readable start. */
  predicate Started(cs: seq<Child>, tracks: map<u32, Track>) {
    forall c | c in cs && c.kind == TRAF :: TrafStart(c.body, tracks).Some?
  }

  predicate StartsEarly(c: Child, tracks: map<u32, Track>) {
    c.kind == TRAF && TrafStart(c.body, tracks).Some? && TrafStart(c.body, tracks).value < 946684800.0
  }

  /** The fragment is on the recording clock: it has a track fragment, and none starts before the year 2000. */
  predicate OnRecordingClock(cs: seq<Child>, tracks: map<u32, Track>) {
    (exists c | c in cs :: c.kind == TRAF) && (forall c | c in cs :: !StartsEarly(c, tracks))
  }

  predicate Versioned(src: bytes, b: Box) {
    SmallEnough(b) && Children(BodyOf(src, b)).Some? && KnownClocks(Children(BodyOf(src, b)).value)
  }

  predicate MoofFits(src: bytes, bs: seq<Box>, i: nat)
    requires i < |bs|
  {
    && OpenRuns(src, bs, i) == [] && Versioned(src, bs[i])
    && (LastKind(bs, MOOF, i) < 0 ==>
          var cs := Children(BodyOf(src, bs[i])).value;
          Started(cs, TracksAhead(src, bs, i)) && OnRecordingClock(cs, TracksAhead(src, bs, i)))
    && RunsIn(src, bs, i).Some? && SamplesOfBox(src, bs, i).Some?
    && RunsIn(src, bs, i).value.sequence > SequenceAhead(src, bs, i)
    && forall j | 0 <= j < |RunsIn(src, bs, i).value.runs| :: GoesOn(src, bs, i, RunsIn(src, bs, i).value.runs, j)
  }

  predicate MdatFits(src: bytes, bs: seq<Box>, i: nat)
    requires i < |bs|
  {
    OpenRuns(src, bs, i) != [] && forall rr | rr in OpenRuns(src, bs, i) :: InsideBox(rr, bs[i])
  }

  predicate MoovFits(src: bytes, bs: seq<Box>, i: nat)
    requires i < |bs|
  {
    LastKind(bs, MOOV, i) < 0 && SmallEnough(bs[i]) && ReadTracks(BodyOf(src, bs[i])).Read?
  }

  /** What box i must be, given the boxes ahead of it. */
  predicate Fits(src: bytes, bs: seq<Box>, i: nat)
    requires i < |bs|
  {
    if bs[i].kind == MOOV then MoovFits(src, bs, i)
    else if bs[i].kind == MOOF then MoofFits(src, bs, i)
    else if bs[i].kind == MDAT then LastKind(bs, MOOV, i) >= 0 ==> MdatFits(src, bs, i)
    else true
  }

  /** At box i the file turns out not to be a recording of this program. */
  predicate LeftAlone(src: bytes, bs: seq<Box>, i: nat)
    requires i < |bs|
  {
    if bs[i].kind == MOOV then LastKind(bs, MOOV, i) < 0 && SmallEnough(bs[i]) && ReadTracks(BodyOf(src, bs[i])).NotFragmented?
    else
      && bs[i].kind == MOOF && LastKind(bs, MOOF, i) < 0 && Versioned(src, bs[i])
      && var cs := Children(BodyOf(src, bs[i])).value;
         Started(cs, TracksAhead(src, bs, i)) && !OnRecordingClock(cs, TracksAhead(src, bs, i))
  }

  // ---------- the start of the recording clock ----------

  predicate Earliest(cs: seq<Child>, tracks: map<u32, Track>, at: real) {
    && (exists c | c in cs :: c.kind == TRAF && TrafStart(c.body, tracks) == Some(at))
    && (forall c | c in cs && c.kind == TRAF :: TrafStart(c.body, tracks).Some? && at <= TrafStart(c.body, tracks).value)
  }

  lemma {:induction false} StartIs(cs: seq<Child>, tracks: map<u32, Track>)
    ensures MoofStart(cs, tracks).Some? <==> Started(cs, tracks)
    ensures MoofStart(cs, tracks) == Some(NoStart) ==> forall c | c in cs :: c.kind != TRAF
    ensures MoofStart(cs, tracks).Some? && MoofStart(cs, tracks).value.At? ==> Earliest(cs, tracks, MoofStart(cs, tracks).value.seconds)
    decreases |cs|
  {
    hide TrafStart;
    if cs != [] {
      var n := |cs| - 1;
      StartIs(cs[..n], tracks);
      assert cs == cs[..n] + [cs[n]];
      assert forall c | c in cs[..n] :: c in cs;
    }
  }

  lemma ClockCases(cs: seq<Child>, tracks: map<u32, Track>)
    requires Started(cs, tracks)
    ensures MoofStart(cs, tracks).Some?
    ensures var start := MoofStart(cs, tracks).value;
            OnRecordingClock(cs, tracks) <==> start.At? && start.seconds >= EPOCH_2000 as real
  {
    hide TrafStart, MoofStart;
    StartIs(cs, tracks);
  }

  // ---------- decode times ----------

  predicate Follows(tracks: map<u32, FlatTrack>, runs: seq<Run>, j: nat)
    requires j < |runs|
  {
    var id := runs[j].track;
    id in tracks && (tracks[id].pieces != [] ==> runs[j].first == EndAfter(tracks[id].nextDTS, RunsFor(runs[..j], id)))
  }

  lemma RunsForNext(runs: seq<Run>, n: nat, id: u32)
    requires n < |runs|
    ensures RunsFor(runs[..n + 1], id) == RunsFor(runs[..n], id) + if runs[n].track == id then [runs[n]] else []
  {
    assert runs[..n + 1][..n] == runs[..n];
  }

  /** The loop over the runs goes through exactly when each starts where its track has come. */
  lemma {:induction false} RunsApply(tracks: map<u32, FlatTrack>, runs: seq<Run>, n: nat)
    requires n <= |runs|
    ensures ApplyRuns(tracks, runs[..n]).Some? <==> forall j | 0 <= j < n :: Follows(tracks, runs, j)
    ensures ApplyRuns(tracks, runs[..n]).Some? ==>
              forall id | id in tracks :: id in ApplyRuns(tracks, runs[..n]).value
                && ApplyRuns(tracks, runs[..n]).value[id].nextDTS == EndAfter(tracks[id].nextDTS, RunsFor(runs[..n], id))
    decreases n
  {
    hide ApplyRun, EndAfter, RunsFor;
    if n == 0 {
      NoRunsApply(tracks, runs);
    } else {
      RunsApply(tracks, runs, n - 1);
      assert runs[..n][..n - 1] == runs[..n - 1] && runs[..n][n - 1] == runs[n - 1];
      var before := ApplyRuns(tracks, runs[..n - 1]);
      if before.Some? {
        RunsKeepPieces(tracks, runs[..n - 1]);
        RunApplies(tracks, before.value, runs, n - 1);
      }
    }
  }

  lemma NoRunsApply(tracks: map<u32, FlatTrack>, runs: seq<Run>)
    ensures ApplyRuns(tracks, runs[..0]) == Some(tracks)
    ensures forall id | id in tracks :: EndAfter(tracks[id].nextDTS, RunsFor(runs[..0], id)) == tracks[id].nextDTS
  {
  }

  lemma RunApplies(tracks: map<u32, FlatTrack>, before: map<u32, FlatTrack>, runs: seq<Run>, n: nat)
    requires n < |runs| && before.Keys == tracks.Keys
    requires forall id | id in tracks ::
               before[id].pieces == tracks[id].pieces && before[id].nextDTS == EndAfter(tracks[id].nextDTS, RunsFor(runs[..n], id))
    ensures ApplyRun(before, runs[n]).Some? <==> Follows(tracks, runs, n)
    ensures ApplyRun(before, runs[n]).Some? ==>
              forall id | id in tracks :: id in ApplyRun(before, runs[n]).value
                && ApplyRun(before, runs[n]).value[id].nextDTS == EndAfter(tracks[id].nextDTS, RunsFor(runs[..n + 1], id))
  {
    hide RunsFor;
    forall id | id in tracks
      ensures RunsFor(runs[..n + 1], id) == RunsFor(runs[..n], id) + if runs[n].track == id then [runs[n]] else []
    {
      RunsForNext(runs, n, id);
    }
  }

  // ---------- the state of the scan ----------

  /** What the scan knows of a track ahead of box i. */
  ghost predicate TrackAt(src: bytes, bs: seq<Box>, i: nat, id: u32, t: FlatTrack)
    requires i <= |bs|
  {
    t.nextDTS == EndAfter(0, RunsAhead(src, bs, i, id)) && (t.pieces != [] <==> Begun(src, bs, i, id))
  }

  ghost predicate TracksAt(src: bytes, bs: seq<Box>, i: nat, tracks: map<u32, FlatTrack>)
    requires i <= |bs|
  {
    tracks.Keys == TracksAhead(src, bs, i).Keys && forall id | id in tracks :: TrackAt(src, bs, i, id, tracks[id])
  }

  ghost predicate StateAt(src: bytes, bs: seq<Box>, i: nat, s: Scan)
    requires i <= |bs|
  {
    var h := LastKind(bs, MOOV, i);
    && s.moov == (if h < 0 then None else Some(bs[h]))
    && s.metadata == (if h < 0 then [] else BodyOf(src, bs[h]))
    && s.defaults == TracksAhead(src, bs, i) && TracksAt(src, bs, i, s.tracks)
    && s.pending == OpenRuns(src, bs, i) && s.sequence == SequenceAhead(src, bs, i)
    && s.haveFragment == (LastKind(bs, MOOF, i) >= 0) && (h < 0 ==> !s.haveFragment)
    && s.references == OfKind(bs[..i], PRFT)
  }

  lemma BeginState(src: bytes, bs: seq<Box>)
    ensures StateAt(src, bs, 0, START)
  {
  }

  lemma {:induction false} NotBegun(src: bytes, bs: seq<Box>, i: nat, id: u32)
    requires i <= |bs| && LastKind(bs, MOOF, i) < 0
    ensures !Begun(src, bs, i, id)
  {
    hide SamplesOfBox;
  }

  lemma BegunNext(src: bytes, bs: seq<Box>, i: nat, id: u32)
    requires i < |bs|
    ensures Begun(src, bs, i + 1, id) <==> Begun(src, bs, i, id) || Brings(src, bs, i, id)
  {
    hide Brings;
  }

  // ---------- one step ----------

  /** A box that is neither header nor fragment nor media data. */
  lemma PlainStep(src: bytes, bs: seq<Box>, i: nat, s: Scan)
    requires i < |bs| && IsBox(src, bs[i]) && StateAt(src, bs, i, s)
    requires bs[i].kind != MOOV && bs[i].kind != MOOF && bs[i].kind != MDAT
    ensures StepBox(src, s, bs[i]).Going? && StateAt(src, bs, i + 1, StepBox(src, s, bs[i]).s)
  {
    hide RunsIn, SamplesOfBox, Brings, ReadTracks, StepMoov, StepMoof, StepMdat, EndAfter, TracksAhead, OfKind;
    OfKindNext(bs, PRFT, i);
    SameTracks(src, bs, i, s.tracks);
    assert s.references + [] == s.references;
  }

  /** Nothing is known of the tracks that a box without runs could change. */
  lemma SameTracks(src: bytes, bs: seq<Box>, i: nat, tracks: map<u32, FlatTrack>)
    requires i < |bs| && bs[i].kind != MOOV && bs[i].kind != MOOF && TracksAt(src, bs, i, tracks)
    ensures TracksAt(src, bs, i + 1, tracks) && TracksAhead(src, bs, i + 1) == TracksAhead(src, bs, i)
  {
    hide RunsIn, SamplesOfBox, ReadTracks, EndAfter, Begun;
    forall id | id in tracks
      ensures TrackAt(src, bs, i + 1, id, tracks[id])
    {
      NoMoreRuns(src, bs, i, id);
    }
  }

  lemma NoMoreRuns(src: bytes, bs: seq<Box>, i: nat, id: u32)
    requires i < |bs| && bs[i].kind != MOOF
    ensures RunsAhead(src, bs, i + 1, id) == RunsAhead(src, bs, i, id) && (Begun(src, bs, i + 1, id) <==> Begun(src, bs, i, id))
  {
    hide RunsIn, SamplesOfBox;
    BegunNext(src, bs, i, id);
    assert RunsFor(RunListIn(src, bs, i), id) == [];
  }

  lemma MdatStep(src: bytes, bs: seq<Box>, i: nat, s: Scan)
    requires i < |bs| && IsBox(src, bs[i]) && StateAt(src, bs, i, s) && bs[i].kind == MDAT
    ensures StepBox(src, s, bs[i]).Going? <==> Fits(src, bs, i)
    ensures !StepBox(src, s, bs[i]).PassThrough?
    ensures StepBox(src, s, bs[i]).Going? ==> StateAt(src, bs, i + 1, StepBox(src, s, bs[i]).s)
  {
    hide RunsIn, SamplesOfBox, Brings, ReadTracks, StepMoov, StepMoof, EndAfter, TracksAhead, OfKind, RunListIn;
    OfKindNext(bs, PRFT, i);
    SameTracks(src, bs, i, s.tracks);
    assert s.references + [] == s.references;
  }

  lemma MoovStep(src: bytes, bs: seq<Box>, i: nat, s: Scan)
    requires i < |bs| && IsBox(src, bs[i]) && StateAt(src, bs, i, s) && bs[i].kind == MOOV
    ensures StepBox(src, s, bs[i]).Going? <==> Fits(src, bs, i)
    ensures StepBox(src, s, bs[i]).PassThrough? <==> LeftAlone(src, bs, i)
    ensures StepBox(src, s, bs[i]).Going? ==> StateAt(src, bs, i + 1, StepBox(src, s, bs[i]).s)
  {
    hide RunsIn, SamplesOfBox, Brings, ReadTracks, StepMoof, StepMdat, EndAfter, OfKind, RunListIn, Payload;
    BodyIs(src, bs[i]);
    OfKindNext(bs, PRFT, i);
    assert s.references + [] == s.references;
    if StepBox(src, s, bs[i]).Going? { FreshTracks(src, bs, i, StepBox(src, s, bs[i]).s.tracks); }
  }

  lemma FreshTracks(src: bytes, bs: seq<Box>, i: nat, tracks: map<u32, FlatTrack>)
    requires i < |bs| && bs[i].kind == MOOV && LastKind(bs, MOOF, i) < 0
    requires forall id | id in tracks :: tracks[id].nextDTS == 0 && tracks[id].pieces == []
    ensures forall id | id in tracks :: TrackAt(src, bs, i + 1, id, tracks[id])
  {
    hide RunsIn, SamplesOfBox, Begun, RunsAhead;
    forall id | id in tracks
      ensures TrackAt(src, bs, i + 1, id, tracks[id])
    {
      NoKindNoRuns(src, bs, i + 1, id);
      NotBegun(src, bs, i + 1, id);
    }
  }

  // ---------- the fragment step ----------

  lemma EndAfterMore(start: int, a: seq<Run>, b: seq<Run>)
    ensures EndAfter(EndAfter(start, a), b) == EndAfter(start, a + b)
  {
  }

  lemma FollowsIsGoesOn(src: bytes, bs: seq<Box>, i: nat, tracks: map<u32, FlatTrack>, runs: seq<Run>, j: nat)
    requires i < |bs| && j < |runs| && TracksAt(src, bs, i, tracks)
    ensures Follows(tracks, runs, j) <==> GoesOn(src, bs, i, runs, j)
  {
    hide RunsAhead, RunsFor, Begun, TracksAhead;
    var id := runs[j].track;
    EndAfterMore(0, RunsAhead(src, bs, i, id), RunsFor(runs[..j], id));
  }

  lemma {:induction false} PiecesForAny(ps: seq<Piece>, id: u32)
    ensures PiecesFor(ps, id) != [] <==> HasTrack(ps, id)
    decreases |ps|
  {
    if ps != [] {
      var n := |ps| - 1;
      PiecesForAny(ps[..n], id);
      assert ps == ps[..n] + [ps[n]];
    }
  }

  lemma {:induction false} FlattenAny(pss: seq<seq<Piece>>, id: u32)
    ensures HasTrack(Flatten(pss), id) <==> exists ps | ps in pss :: HasTrack(ps, id)
    decreases |pss|
  {
    if pss != [] {
      var n := |pss| - 1;
      FlattenAny(pss[..n], id);
      TrackInEither(Flatten(pss[..n]), pss[n], id);
      hide HasTrack;
      assert pss == pss[..n] + [pss[n]];
    }
  }

  lemma TrackInEither(a: seq<Piece>, b: seq<Piece>, id: u32)
    ensures HasTrack(a + b, id) <==> HasTrack(a, id) || HasTrack(b, id)
  {
    if HasTrack(a, id) {
      var p :| p in a && p.track == id;
      assert p in a + b;
    }
    if HasTrack(b, id) {
      var p :| p in b && p.track == id;
      assert p in a + b;
    }
  }

  /** The tracks behind a fragment. */
  lemma MovedTracks(src: bytes, bs: seq<Box>, i: nat, tracks: map<u32, FlatTrack>, id: u32)
    requires i < |bs| && bs[i].kind == MOOF && RunsIn(src, bs, i).Some? && SamplesOfBox(src, bs, i).Some?
    requires id in tracks && TrackAt(src, bs, i, id, tracks[id])
    requires ApplyRuns(tracks, RunsIn(src, bs, i).value.runs).Some?
    ensures var after := ApplyPieces(ApplyRuns(tracks, RunsIn(src, bs, i).value.runs).value, Flatten(SamplesOfBox(src, bs, i).value));
            id in after && TrackAt(src, bs, i + 1, id, after[id])
  {
    hide RunsIn, SamplesOfBox, Begun, RunsFor, PiecesFor, Flatten, ApplyRuns;
    var runs, pss := RunsIn(src, bs, i).value.runs, SamplesOfBox(src, bs, i).value;
    assert runs[..|runs|] == runs;
    RunsApply(tracks, runs, |runs|);
    RunsKeepPieces(tracks, runs);
    PiecesForAny(Flatten(pss), id);
    FlattenAny(pss, id);
    BegunNext(src, bs, i, id);
    EndAfterMore(0, RunsAhead(src, bs, i, id), RunsFor(runs, id));
  }

  /** Behind a fragment that was read, it is the last one. */
  lemma AheadNext(src: bytes, bs: seq<Box>, i: nat)
    requires i < |bs| && bs[i].kind == MOOF && RunsIn(src, bs, i).Some?
    ensures OpenRuns(src, bs, i + 1) == RunsIn(src, bs, i).value.runs && SequenceAhead(src, bs, i + 1) == RunsIn(src, bs, i).value.sequence
    ensures LastKind(bs, MOOV, i + 1) == LastKind(bs, MOOV, i) && LastKind(bs, MOOF, i + 1) == i
    ensures TracksAhead(src, bs, i + 1) == TracksAhead(src, bs, i) && OfKind(bs[..i + 1], PRFT) == OfKind(bs[..i], PRFT)
  {
    hide RunsIn, ReadTracks;
    OfKindNext(bs, PRFT, i);
    assert OfKind(bs[..i], PRFT) + [] == OfKind(bs[..i], PRFT);
  }

  lemma RunsStep(src: bytes, bs: seq<Box>, i: nat, s: Scan)
    requires i < |bs| && StateAt(src, bs, i, s) && bs[i].kind == MOOF && LastKind(bs, MOOV, i) >= 0
    ensures var r := StepRuns(s, BodyOf(src, bs[i]), bs[i].offset);
            && !r.PassThrough?
            && (r.Going? <==> RunsIn(src, bs, i).Some? && SamplesOfBox(src, bs, i).Some?
                              && RunsIn(src, bs, i).value.sequence > SequenceAhead(src, bs, i)
                              && forall j | 0 <= j < |RunsIn(src, bs, i).value.runs| :: GoesOn(src, bs, i, RunsIn(src, bs, i).value.runs, j))
            && (r.Going? ==> StateAt(src, bs, i + 1, r.s))
  {
    hide TrackAt, GoesOn, ApplyRuns, Fragments.ReadRuns, ReadSamples, Follows, ApplyPieces, Flatten, RunListIn, ReadTracks, OpenRuns, SequenceAhead, TracksAhead, OfKind;
    var data, offset := BodyOf(src, bs[i]), bs[i].offset;
    if RunsIn(src, bs, i).Some? {
      var runs := RunsIn(src, bs, i).value.runs;
      assert runs[..|runs|] == runs;
      RunsApply(s.tracks, runs, |runs|);
      forall j | 0 <= j < |runs|
        ensures Follows(s.tracks, runs, j) <==> GoesOn(src, bs, i, runs, j)
      {
        FollowsIsGoesOn(src, bs, i, s.tracks, runs, j);
      }
      var r := StepRuns(s, data, offset);
      if r.Going? {
        AheadNext(src, bs, i);
        TracksMoved(src, bs, i, s);
      }
    }
  }

  lemma TracksMoved(src: bytes, bs: seq<Box>, i: nat, s: Scan)
    requires i < |bs| && StateAt(src, bs, i, s) && bs[i].kind == MOOF
    requires RunsIn(src, bs, i).Some? && SamplesOfBox(src, bs, i).Some? && ApplyRuns(s.tracks, RunsIn(src, bs, i).value.runs).Some?
    ensures TracksAt(src, bs, i + 1, ApplyPieces(ApplyRuns(s.tracks, RunsIn(src, bs, i).value.runs).value, Flatten(SamplesOfBox(src, bs, i).value)))
  {
    hide TrackAt, ApplyRuns, RunsIn, SamplesOfBox, Flatten, TracksAhead, PiecesFor;
    var runs, pss := RunsIn(src, bs, i).value.runs, SamplesOfBox(src, bs, i).value;
    var after := ApplyPieces(ApplyRuns(s.tracks, runs).value, Flatten(pss));
    RunsKeepPieces(s.tracks, runs);
    AheadNext(src, bs, i);
    forall id | id in after
      ensures TrackAt(src, bs, i + 1, id, after[id])
    {
      MovedTracks(src, bs, i, s.tracks, id);
    }
  }

  lemma MoofStep(src: bytes, bs: seq<Box>, i: nat, s: Scan)
    requires i < |bs| && IsBox(src, bs[i]) && StateAt(src, bs, i, s) && bs[i].kind == MOOF
    ensures StepBox(src, s, bs[i]).Going? <==> Fits(src, bs, i)
    ensures StepBox(src, s, bs[i]).PassThrough? <==> LeftAlone(src, bs, i)
    ensures StepBox(src, s, bs[i]).Going? ==> StateAt(src, bs, i + 1, StepBox(src, s, bs[i]).s)
  {
    hide StepRuns, RunsIn, SamplesOfBox, GoesOn, KnownClocks, MoofStart, Payload, StepMoov, StepMdat, ChildrenFrom, Started, OnRecordingClock, BodyOf, TracksAt;
    var b := bs[i];
    BodyIs(src, b);
    if s.pending == [] && Versioned(src, b) {
      var cs := Children(BodyOf(src, b)).value;
      StartIs(cs, s.defaults);
      if Started(cs, s.defaults) { ClockCases(cs, s.defaults); }
      if LastKind(bs, MOOV, i) < 0 {
        NoHeader(cs);
      } else {
        RunsStep(src, bs, i, s);
      }
    }
  }

  /** Ahead of the movie header no track fragment has a start. */
  lemma NoHeader(cs: seq<Child>)
    ensures Started(cs, map[]) ==> !OnRecordingClock(cs, map[])
  {
    hide ChildrenFrom, TrafTrack, TrafClock;
    forall c | c in cs && c.kind == TRAF
      ensures TrafStart(c.body, map[]).None?
    {
    }
  }

  // ---------- all boxes ----------

  lemma FitStep(src: bytes, bs: seq<Box>, i: nat, s: Scan)
    requires i < |bs| && IsBox(src, bs[i]) && StateAt(src, bs, i, s)
    ensures StepBox(src, s, bs[i]).Going? <==> Fits(src, bs, i)
    ensures StepBox(src, s, bs[i]).PassThrough? <==> LeftAlone(src, bs, i)
    ensures StepBox(src, s, bs[i]).Going? ==> StateAt(src, bs, i + 1, StepBox(src, s, bs[i]).s)
  {
    hide StepBox, StateAt, MoofFits, MdatFits, MoovFits, RunsIn, SamplesOfBox, Versioned, Started, OnRecordingClock, ReadTracks;
    if bs[i].kind == MOOV {
      MoovStep(src, bs, i, s);
    } else if bs[i].kind == MOOF {
      MoofStep(src, bs, i, s);
    } else if bs[i].kind == MDAT {
      MdatStep(src, bs, i, s);
    } else {
      PlainStep(src, bs, i, s);
    }
  }

  predicate FitFrom(src: bytes, bs: seq<Box>, i: nat, n: nat)
    requires n <= |bs|
  {
    forall k | i <= k < n :: Fits(src, bs, k)
  }

  predicate AloneFrom(src: bytes, bs: seq<Box>, i: nat)
    requires i <= |bs|
  {
    exists k | i <= k < |bs| :: LeftAlone(src, bs, k) && FitFrom(src, bs, i, k)
  }

  lemma FitsFirst(src: bytes, bs: seq<Box>, i: nat)
    requires i < |bs|
    ensures FitFrom(src, bs, i, |bs|) <==> Fits(src, bs, i) && FitFrom(src, bs, i + 1, |bs|)
    ensures AloneFrom(src, bs, i) <==> LeftAlone(src, bs, i) || (Fits(src, bs, i) && AloneFrom(src, bs, i + 1))
    ensures !(Fits(src, bs, i) && LeftAlone(src, bs, i))
  {
    FitOrAlone(src, bs, i);
    hide Fits, LeftAlone;
    if AloneFrom(src, bs, i) { AloneHereOrLater(src, bs, i); }
    if LeftAlone(src, bs, i) { assert FitFrom(src, bs, i, i); }
    if AloneFrom(src, bs, i + 1) && Fits(src, bs, i) { AloneSooner(src, bs, i); }
  }

  lemma AloneHereOrLater(src: bytes, bs: seq<Box>, i: nat)
    requires i < |bs| && AloneFrom(src, bs, i)
    ensures LeftAlone(src, bs, i) || (Fits(src, bs, i) && AloneFrom(src, bs, i + 1))
  {
    hide Fits, LeftAlone;
    var k :| i <= k < |bs| && LeftAlone(src, bs, k) && FitFrom(src, bs, i, k);
    if k > i {
      assert Fits(src, bs, i);
      assert FitFrom(src, bs, i + 1, k);
    }
  }

  lemma AloneSooner(src: bytes, bs: seq<Box>, i: nat)
    requires i < |bs| && AloneFrom(src, bs, i + 1) && Fits(src, bs, i)
    ensures AloneFrom(src, bs, i)
  {
    hide Fits, LeftAlone;
    var k :| i + 1 <= k < |bs| && LeftAlone(src, bs, k) && FitFrom(src, bs, i + 1, k);
    assert FitFrom(src, bs, i, k);
  }

  lemma FitOrAlone(src: bytes, bs: seq<Box>, i: nat)
    requires i < |bs|
    ensures !(Fits(src, bs, i) && LeftAlone(src, bs, i))
  {
    hide RunsIn, SamplesOfBox, GoesOn, ReadTracks, Started, OnRecordingClock, KnownClocks, ChildrenFrom, OpenRuns, TracksAhead;
  }

  /** From box i on, the scan goes through exactly when every box fits, and lets the file pass exactly at the first that tells it is another kind of file. */
  lemma {:induction false} ScanFits(src: bytes, pos: nat, s: Scan, bs: seq<Box>, i: nat)
    requires pos <= |src| && i <= |bs| && bs[i..] == BoxesFrom(src, |src|, pos) && StateAt(src, bs, i, s)
    ensures ScanFrom(src, pos, s).Going? <==> StopAt(src, |src|, pos) == |src| && FitFrom(src, bs, i, |bs|)
    ensures ScanFrom(src, pos, s).PassThrough? <==> AloneFrom(src, bs, i)
    ensures ScanFrom(src, pos, s).Going? ==> StateAt(src, bs, |bs|, ScanFrom(src, pos, s).s)
    decreases |src| - pos
  {
    hide ReadBox, StepBox, StateAt, Fits, LeftAlone, FitFrom, AloneFrom, BoxesFrom;
    BoxesHead(src, |src|, pos, bs, i);
    if i < |bs| {
      FitStep(src, bs, i, s);
      FitsFirst(src, bs, i);
      if StepBox(src, s, bs[i]).Going? { ScanFits(src, pos + bs[i].size, StepBox(src, s, bs[i]).s, bs, i + 1); }
    } else {
      NoneLeft(src, bs);
    }
  }

  lemma NoneLeft(src: bytes, bs: seq<Box>)
    ensures FitFrom(src, bs, |bs|, |bs|) && !AloneFrom(src, bs, |bs|)
  {
    hide Fits, LeftAlone;
  }

  /** Every box of the file fits. */
  predicate Accepted(src: bytes) { Whole(src) && FitFrom(src, BoxesOf(src), 0, |BoxesOf(src)|) }

  /**
   The scan accepts a file exactly when it is made of whole boxes each of which fits
   what is ahead of it, and leaves it alone exactly when some box, behind others that
   fit, tells that it is no recording of this program.
   */
  lemma ScanAccepts(src: bytes)
    ensures ScanFrom(src, 0, START).Going? <==> Accepted(src)
    ensures ScanFrom(src, 0, START).PassThrough? <==> AloneFrom(src, BoxesOf(src), 0)
    ensures Accepted(src) ==> StateAt(src, BoxesOf(src), |BoxesOf(src)|, ScanFrom(src, 0, START).s)
  {
    hide ScanFrom, StateAt, FitFrom, AloneFrom, BoxesFrom;
    BeginState(src, BoxesOf(src));
    assert BoxesOf(src)[0..] == BoxesOf(src);
    ScanFits(src, 0, START, BoxesOf(src), 0);
  }
}
