/** One more fragment behind a recording, told from what a muxer writes into it. */
module NextWritten {
  import opened Bytes
  import opened Options
  import opened Boxes
  import opened Tracks
  import opened Samples
  import opened Fragments
  import opened FlatScan
  import opened LateClocks
  import opened BoxOrder
  import opened Acceptance
  import opened NextFragment
  import opened FragmentWriter
  import opened WrittenMoof
  import opened WrittenClock
  import opened Keyframes

  /** Where a track has come behind the first j track fragments, if it was at `start` before. */
  function Come(w: Moof, j: nat, id: u32, start: int): int
    requires j <= |w.trafs|
  {
    if j == 0 then start
    else
      var t := w.trafs[j - 1];
      if t.header.track == id then t.clock.time + Durations(SamplesIn(t.runs)) else Come(w, j - 1, id, start)
  }

  /** Track fragment j starts where its track has come, unless the track has no samples yet. */
  predicate TrafContinues(src: bytes, w: Moof, j: nat)
    requires j < |w.trafs|
  {
    var bs, id := BoxesOf(src), w.trafs[j].header.track;
    && id in TracksAhead(src, bs, |bs|)
    && (Begun(src, bs, |bs|, id) ==> w.trafs[j].clock.time == Come(w, j, id, EndAfter(0, RunsAhead(src, bs, |bs|, id))))
  }

  /** The data of every run lies in the media data box. */
  predicate DataInside(t: Traf, at: int, d: Box) {
    forall k | 0 <= k < |t.runs| :: d.offset + d.header <= at + t.runs[k].offset && at + t.runs[k].offset + Sizes(t.runs[k].samples) <= d.offset + d.size
  }

  predicate KnownVersion(t: Traf) { t.clock.version <= 1 && forall x | x in t.runs :: x.version <= 1 }

  /** A written fragment that goes on from the file. */
  predicate WrittenContinues(src: bytes, w: Moof, f: Box, d: Box) {
    var bs := BoxesOf(src);
    var tracks := TracksAhead(src, bs, |bs|);
    && SmallEnough(f) && w.trafs != [] && w.sequence > SequenceAhead(src, bs, |bs|)
    && (forall t | t in w.trafs :: KnownVersion(t) && t.Guarded(tracks, f.offset) && t.Readable(tracks) && DataInside(t, f.offset, d))
    && forall j | 0 <= j < |w.trafs| :: TrafContinues(src, w, j)
  }

  lemma {:induction false} ComeIs(w: Moof, runs: seq<Run>, at: int, j: nat, id: u32, start: int)
    requires RunsOf(w, runs, at) && j <= |w.trafs|
    ensures EndAfter(start, RunsFor(runs[..j], id)) == Come(w, j, id, start)
    decreases j
  {
    hide SameRanges, Durations, MinPts, MaxEnd, Pts, IsSync, SamplesIn;
    if j > 0 {
      ComeIs(w, runs, at, j - 1, id, start);
      RunsForNext(runs, j - 1, id);
    } else {
      assert RunsFor(runs[..0], id) == [];
    }
  }

  lemma TrafIsRun(src: bytes, w: Moof, runs: seq<Run>, at: int, j: nat)
    requires RunsOf(w, runs, at) && j < |w.trafs|
    ensures RunContinues(src, runs, j) <==> TrafContinues(src, w, j)
  {
    hide SameRanges, SameClock, Durations, RunsFor, Come, Begun, RunsAhead, TracksAhead, SamplesIn, EndAfter;
    var bs, id := BoxesOf(src), w.trafs[j].header.track;
    EndAfterMore(0, RunsAhead(src, bs, |bs|, id), RunsFor(runs[..j], id));
    ComeIs(w, runs, at, j, id, EndAfter(0, RunsAhead(src, bs, |bs|, id)));
  }

  lemma InsideIs(w: Moof, runs: seq<Run>, at: int, d: Box, i: nat)
    requires RunsOf(w, runs, at) && i < |w.trafs|
    ensures InsideBox(runs[i], d) <==> DataInside(w.trafs[i], at, d)
  {
    hide SameClock, Sizes, SamplesIn;
    var rr, ps := runs[i], w.trafs[i].Pieces(at);
    assert SameRanges(rr, ps);
    forall k | 0 <= k < |rr.ranges|
      ensures rr.ranges[k] == Range(at + w.trafs[i].runs[k].offset, at + w.trafs[i].runs[k].offset + Sizes(w.trafs[i].runs[k].samples))
    {
    }
    if InsideBox(rr, d) {
      forall k | 0 <= k < |w.trafs[i].runs|
        ensures d.offset + d.header <= rr.ranges[k].start && rr.ranges[k].end <= d.offset + d.size
      {
        assert rr.ranges[k] in rr.ranges;
      }
    }
    if DataInside(w.trafs[i], at, d) {
      forall e | e in rr.ranges
        ensures d.offset + d.header <= e.start && e.end <= d.offset + d.size
      {
        var k :| 0 <= k < |rr.ranges| && rr.ranges[k] == e;
      }
    }
  }

  lemma AllInside(w: Moof, runs: seq<Run>, at: int, d: Box)
    requires RunsOf(w, runs, at)
    ensures (forall rr | rr in runs :: InsideBox(rr, d)) <==> forall t | t in w.trafs :: DataInside(t, at, d)
  {
    forall i | 0 <= i < |runs|
      ensures InsideBox(runs[i], d) <==> DataInside(w.trafs[i], at, d)
    {
      InsideIs(w, runs, at, d, i);
    }
    hide InsideBox, DataInside, SameRanges, SameClock;
    if forall rr | rr in runs :: InsideBox(rr, d) {
      forall t | t in w.trafs
        ensures DataInside(t, at, d)
      {
        var i :| 0 <= i < |w.trafs| && w.trafs[i] == t;
        assert runs[i] in runs;
      }
    }
    if forall t | t in w.trafs :: DataInside(t, at, d) {
      forall rr | rr in runs
        ensures InsideBox(rr, d)
      {
        var i :| 0 <= i < |runs| && runs[i] == rr;
        assert w.trafs[i] in w.trafs;
      }
    }
  }

  /** A written fragment is accepted behind a recording exactly when it goes on from it in what was written: sequence, decode times, sound samples, data in its box. */
  lemma WrittenFragmentContinues(src: bytes, all: bytes, w: Moof, f: Box, d: Box)
    requires w.Written(TracksAhead(src, BoxesOf(src), |BoxesOf(src)|)) && BodyOf(all, f) == w.Body()
    ensures Continues(src, all, f, d) <==> WrittenContinues(src, w, f, d)
  {
    hide *;
    var tracks := TracksAhead(src, BoxesOf(src), |BoxesOf(src)|);
    RunsReadBack(w, tracks, f.offset);
    SamplesReadBack(w, tracks, f.offset);
    ClocksReadBack(w, tracks);
    KnownIs(w);
    var m := Fragments.ReadRuns(w.Body(), tracks, f.offset);
    if m.Some? {
      AllInside(w, m.value.runs, f.offset, d);
      CountsAgree(w, m.value.runs, f.offset);
      forall j | 0 <= j < |w.trafs|
        ensures RunContinues(src, m.value.runs, j) <==> TrafContinues(src, w, j)
      {
        TrafIsRun(src, w, m.value.runs, f.offset, j);
      }
    }
    BothContinue(src, all, w, f, d);
  }

  lemma KnownIs(w: Moof)
    ensures (forall t | t in w.trafs :: t.clock.version <= 1 && forall x | x in t.runs :: x.version <= 1) <==> forall t | t in w.trafs :: KnownVersion(t)
  {
  }

  lemma BothContinue(src: bytes, all: bytes, w: Moof, f: Box, d: Box)
    requires BodyOf(all, f) == w.Body() && Children(w.Body()) == Some(w.Kids())
    requires KnownClocks(w.Kids()) <==> forall t | t in w.trafs :: KnownVersion(t)
    requires var tracks := TracksAhead(src, BoxesOf(src), |BoxesOf(src)|);
             && (ReadSamples(w.Body(), tracks, f.offset).Some? <==> forall t | t in w.trafs :: t.Readable(tracks))
             && (Fragments.ReadRuns(w.Body(), tracks, f.offset).Some? <==> forall t | t in w.trafs :: t.Guarded(tracks, f.offset))
             && (Fragments.ReadRuns(w.Body(), tracks, f.offset).Some? ==>
                   var m := Fragments.ReadRuns(w.Body(), tracks, f.offset).value;
                   && m.sequence == w.sequence && |m.runs| == |w.trafs|
                   && ((forall rr | rr in m.runs :: InsideBox(rr, d)) <==> forall t | t in w.trafs :: DataInside(t, f.offset, d))
                   && forall j | 0 <= j < |w.trafs| :: RunContinues(src, m.runs, j) <==> TrafContinues(src, w, j))
    ensures Continues(src, all, f, d) <==> WrittenContinues(src, w, f, d)
  {
    hide Fragments.ReadRuns, ReadSamples, RunContinues, TrafContinues, InsideBox, DataInside, Traf.Guarded, Traf.Readable, Moof.Kids, Moof.Body, BodyOf, TracksAhead,
         KnownClocks, ChildrenFrom, SequenceAhead, BoxesOf, KnownVersion;
  }

  lemma CountsAgree(w: Moof, runs: seq<Run>, at: int)
    requires RunsOf(w, runs, at)
    ensures |runs| == |w.trafs|
  {
    hide SameRanges, SameClock;
  }

  /** Track fragment v of a written fragment starts on a keyframe exactly when its first sample was written as a sync sample. */
  lemma WrittenKeyframe(w: Moof, tracks: map<u32, Track>, at: int, v: nat)
    requires w.Written(tracks) && Numbered(tracks) && v < |w.trafs| && forall t | t in w.trafs :: t.Guarded(tracks, at)
    ensures SamplesIn(w.trafs[v].runs) != [] && (KeyframeRun(w.Body(), tracks, v) <==> SyncFlags(SamplesIn(w.trafs[v].runs)[0].flags))
  {
    RunsReadBack(w, tracks, at);
    var m := Fragments.ReadRuns(w.Body(), tracks, at).value;
    assert RunsOf(w, m.runs, at);
    KeysAreSync(w.Body(), tracks, at, v);
    assert SameClock(m.runs[v], SamplesIn(w.trafs[v].runs));
    hide Fragments.ReadRuns, KeyframeRun, Moof.Body, Moof.Written, Traf.Guarded, SameRanges, Durations, MinPts, MaxEnd, Pts, SamplesIn;
  }
}
