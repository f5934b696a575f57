/** What the scan of internal/recordingmedia/flat.go makes of the clocks of a written fragment before it reads its runs. */
module WrittenClock {
  import opened Bytes
  import opened Options
  import opened Boxes
  import opened Tracks
  import opened Samples
  import opened Fragments
  import opened FlatScan
  import opened Acceptance
  import opened FragmentWriter
  import opened WrittenMoof

  lemma {:induction false} TrackOfRuns(cs: seq<Child>, n: nat)
    requires n <= |cs| && forall i | n <= i < |cs| :: cs[i].kind == TRUN
    ensures TrafTrack(cs) == TrafTrack(cs[..n]) && TrafClock(cs) == TrafClock(cs[..n])
    decreases |cs|
  {
    if n < |cs| {
      assert cs[..|cs| - 1][..n] == cs[..n];
      TrackOfRuns(cs[..|cs| - 1], n);
    } else {
      assert cs[..n] == cs;
    }
  }

  lemma HeadTells(t: Traf, tracks: map<u32, Track>)
    requires t.Written(tracks)
    ensures TrafTrack(t.Kids()[..2]) == t.header.track && TrafClock(t.Kids()[..2]) == t.clock.Written()
  {
    hide Bit, U32, TfhdDefaults, BaseDecode, Samples.FlagBits, TrackHeader.Written, FragmentClock.Written, FragmentWriter.ReadClock;
    HeadOfTraf(t);
    var h, k := t.header.Written(), t.Kids();
    assert h == h + [];
    TfhdReads(h, t.header, [], BLANK);
    assert k[..2][1] == Child(TFDT, t.clock.Written()) && k[..1][0] == Child(TFHD, h);
    assert TrafTrack(k[..2]) == TrafTrack(k[..1]) && TrafTrack(k[..1]) == t.header.track;
  }

  /** A track fragment starts on the recording clock at its decode time over the timescale of its track, when its clock is of version 0 or 1. */
  lemma StartReadsBack(t: Traf, tracks: map<u32, Track>)
    requires t.Written(tracks)
    ensures TrafStart(Emit(t.Kids()), tracks)
            == if t.header.track in tracks && tracks[t.header.track].scale > 0 && t.clock.version <= 1
               then Some(t.clock.time as real / tracks[t.header.track].scale as real) else None
  {
    hide TrafTrack, TrafClock, Emit, Children, FragmentClock.Written, BaseDecode, FragmentWriter.ReadClock, TrackHeader.Written;
    var k := t.Kids();
    EmitThenWalk(k);
    HeadTells(t, tracks);
    TrackOfRuns(k, 2);
    var c := t.clock.Written();
    assert c == c + [];
    TfdtReads(c, t.clock, []);
    ClockAlike(c);
  }

  lemma ClockAlike(c: bytes)
    ensures FragmentWriter.ReadClock(c) == FlatScan.ReadClock(c, 4)
  {
  }

  /** A box whose first byte says version 0 or 1. */
  predicate Versioned01(c: Child) { |c.body| >= 4 && c.body[0] <= 1 }

  /** The boxes behind the first two are those of the runs, with their versions. */
  predicate RunsSay(k: seq<Child>, runs: seq<TrackRun>) {
    |k| == 2 + |runs| && forall i | 2 <= i < |k| :: k[i].kind == TRUN && (Versioned01(k[i]) <==> runs[i - 2].version <= 1)
  }

  lemma KidVersions(t: Traf, tracks: map<u32, Track>)
    requires t.Written(tracks)
    ensures var k := t.Kids();
            && RunsSay(k, t.runs) && k[0].kind == TFHD && k[1].kind == TFDT && (Versioned01(k[1]) <==> t.clock.version <= 1)
  {
    hide Bit, U32, TrackHeader.Written, FragmentClock.Written, TrackRun.Written, BaseDecode, FragmentWriter.ReadClock, TrackHeader.Announced, TrackRun.Holds;
    var k, c := t.Kids(), t.clock.Written();
    assert c == c + [];
    TfdtReads(c, t.clock, []);
    KidCount(t);
    HeadOfTraf(t);
    assert k[..2][0] == k[0] && k[..2][1] == k[1];
    forall i | 2 <= i < |k|
      ensures k[i].kind == TRUN && (Versioned01(k[i]) <==> t.runs[i - 2].version <= 1)
    {
      KidsAre(t, i - 2);
      RunVersion(t.runs[i - 2]);
    }
  }

  lemma AllVersions(k: seq<Child>, clock: bool, runs: seq<TrackRun>)
    requires RunsSay(k, runs) && k[0].kind == TFHD && k[1].kind == TFDT && (Versioned01(k[1]) <==> clock)
    ensures KnownVersions(k) <==> clock && forall w | w in runs :: w.version <= 1
  {
    if KnownVersions(k) {
      assert k[1] in k;
      forall w | w in runs
        ensures w.version <= 1
      {
        var j :| 0 <= j < |runs| && runs[j] == w;
        assert k[2 + j] in k;
      }
    }
    if clock && forall w | w in runs :: w.version <= 1 {
      forall x | x in k && (x.kind == TFDT || x.kind == TRUN)
        ensures Versioned01(x)
      {
        var i :| 0 <= i < |k| && k[i] == x;
        if i >= 2 { assert runs[i - 2] in runs && k[2 + (i - 2)] == x; }
      }
    }
  }

  /** The versions of a track fragment are known exactly when its clock and its runs are of version 0 or 1. */
  lemma VersionsReadBack(t: Traf, tracks: map<u32, Track>)
    requires t.Written(tracks)
    ensures KnownVersions(t.Kids()) <==> t.clock.version <= 1 && forall w | w in t.runs :: w.version <= 1
  {
    hide Traf.Kids, Traf.Written, Versioned01, KnownVersions, RunsSay;
    KidVersions(t, tracks);
    AllVersions(t.Kids(), t.clock.version <= 1, t.runs);
  }

  lemma RunVersion(w: TrackRun)
    ensures |w.Written()| >= 4 && w.Written()[0] == w.version
  {
    hide Bit, Enc32, FullHead;
    var rest := Enc32(Wrap32(|w.samples|)) + (Enc32(Wrap32(w.offset)) + (Optional(Chosen(Bit(w.bits, 4), w.first)) + Records(w.bits, w.samples)));
    HeadReads(w.Written(), w.version, w.bits, rest);
  }

  lemma TrafKidFrom(w: Moof, tracks: map<u32, Track>, c: Child)
    requires w.Written(tracks) && c in w.Kids() && c.kind == TRAF
    ensures exists t | t in w.trafs :: c.body == Emit(t.Kids())
  {
    hide Emit, Traf.Kids, Traf.Written, Enc32, FullHead;
    var i :| 0 <= i < |w.Kids()| && w.Kids()[i] == c;
    MoofKid(w, i - 1);
    assert w.trafs[i - 1] in w.trafs;
  }

  lemma TrafKidIn(w: Moof, t: Traf)
    requires t in w.trafs
    ensures Child(TRAF, Emit(t.Kids())) in w.Kids()
  {
    hide Emit, Traf.Kids, Enc32, FullHead;
    var j :| 0 <= j < |w.trafs| && w.trafs[j] == t;
    MoofKid(w, j);
  }

  /** The versions of a fragment are known exactly when all its clocks and runs are of version 0 or 1. */
  lemma ClocksReadBack(w: Moof, tracks: map<u32, Track>)
    requires w.Written(tracks)
    ensures Children(w.Body()) == Some(w.Kids())
    ensures KnownClocks(w.Kids()) <==> forall t | t in w.trafs :: t.clock.version <= 1 && forall x | x in t.runs :: x.version <= 1
  {
    hide Emit, Children, Traf.Kids, TrafBoxes, KnownVersions, Moof.Kids, TotalSize;
    EmitThenWalk(w.Kids());
    forall t | t in w.trafs
      ensures Child(TRAF, Emit(t.Kids())) in w.Kids() && Children(Emit(t.Kids())) == Some(t.Kids())
      ensures KnownVersions(t.Kids()) <==> t.clock.version <= 1 && forall x | x in t.runs :: x.version <= 1
    {
      TrafKidIn(w, t);
      EmitThenWalk(t.Kids());
      VersionsReadBack(t, tracks);
    }
    if forall t | t in w.trafs :: KnownVersions(t.Kids()) {
      forall c | c in w.Kids() && c.kind == TRAF
        ensures Children(c.body).Some? && KnownVersions(Children(c.body).value)
      {
        TrafKidFrom(w, tracks, c);
      }
    }
  }

  /** Every track fragment of a written fragment has a readable start, exactly when its track is known, with a timescale, and its clock is of version 0 or 1; and the fragment is on the recording clock exactly when it has track fragments and all of them start in the year 2000 or later. */
  lemma StartsReadBack(w: Moof, tracks: map<u32, Track>)
    requires w.Written(tracks)
    ensures Started(w.Kids(), tracks) <==> forall t | t in w.trafs :: t.header.track in tracks && tracks[t.header.track].scale > 0 && t.clock.version <= 1
    ensures Started(w.Kids(), tracks) ==>
              (OnRecordingClock(w.Kids(), tracks)
               <==> w.trafs != [] && forall t | t in w.trafs :: t.clock.time as real / tracks[t.header.track].scale as real >= 946684800.0)
  {
    hide Emit, Traf.Kids, TrafBoxes, Moof.Kids, TotalSize, TrafStart;
    forall t | t in w.trafs
      ensures Child(TRAF, Emit(t.Kids())) in w.Kids()
      ensures TrafStart(Emit(t.Kids()), tracks)
              == if t.header.track in tracks && tracks[t.header.track].scale > 0 && t.clock.version <= 1
                 then Some(t.clock.time as real / tracks[t.header.track].scale as real) else None
    {
      TrafKidIn(w, t);
      StartReadsBack(t, tracks);
    }
    forall c | c in w.Kids() && c.kind == TRAF
      ensures exists t | t in w.trafs :: c.body == Emit(t.Kids())
    {
      TrafKidFrom(w, tracks, c);
    }
    if w.trafs != [] { assert w.trafs[0] in w.trafs; }
  }
}
