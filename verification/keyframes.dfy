/** Which sample a track fragment starts with, and that readRuns of internal/recordingmedia/index.go calls its run a keyframe run exactly for a sync sample. */
module Keyframes {
  import opened Bytes
  import opened Options
  import opened Boxes
  import opened Tracks
  import opened Samples
  import opened Fragments
  import opened Agreement

  /** The last child of a kind among the first n; -1 without one. */
  function LastOfKind(cs: seq<Child>, kind: u32, n: nat): (k: int)
    requires n <= |cs|
    ensures -1 <= k < n && (k >= 0 ==> cs[k].kind == kind)
    ensures forall j | k < j < n :: cs[j].kind != kind
  {
    if n == 0 then -1 else if cs[n - 1].kind == kind then n - 1 else LastOfKind(cs, kind, n - 1)
  }

  /** The first child of a kind; their number without one. */
  function FirstOfKind(cs: seq<Child>, kind: u32): (k: nat)
    ensures k <= |cs| && (k < |cs| ==> cs[k].kind == kind)
    ensures forall j | 0 <= j < k :: cs[j].kind != kind
  {
    if cs == [] then 0
    else
      var k := FirstOfKind(cs[..|cs| - 1], kind);
      assert forall j | 0 <= j < |cs| - 1 :: cs[..|cs| - 1][j] == cs[j];
      if k < |cs| - 1 || cs[k].kind == kind then k else |cs|
  }

  /** The first sample of the first run, with the defaults of the track header ahead of it. */
  function FirstSample(cs: seq<Child>, tracks: map<u32, Track>): Option<Sample> {
    var r := FirstOfKind(cs, TRUN);
    var h := LastOfKind(cs, TFHD, r);
    if r == |cs| || h < 0 || |cs[h].body| < 8 || U32(cs[h].body, 4) !in tracks then None
    else
      var d :- TfhdDefaults(cs[h].body, tracks[U32(cs[h].body, 4)]);
      var ss :- TrunSamples(cs[r].body, d);
      Some(ss[0])
  }

  /** ISO/IEC 14496-12 section 8.8.3.1: no difference to other samples is signalled, and the sample is not said to depend on others. */
  predicate SyncFlags(word: u32) {
    word / 0x1_0000 % 2 == 0 && word / 0x100_0000 % 4 != 1
  }

  predicate StartsOnKeyframe(body: bytes, tracks: map<u32, Track>) {
    && Children(body).Some? && FirstSample(Children(body).value, tracks).Some?
    && SyncFlags(FirstSample(Children(body).value, tracks).value.flags)
  }

  /** The header in force is the last one seen. */
  predicate HeaderIs(cs: seq<Child>, tracks: map<u32, Track>, n: nat, st: TrafState)
    requires n <= |cs|
  {
    var h := LastOfKind(cs, TFHD, n);
    && (st.haveHeader <==> h >= 0)
    && (h >= 0 ==> |cs[h].body| >= 8 && U32(cs[h].body, 4) in tracks && TfhdDefaults(cs[h].body, tracks[U32(cs[h].body, 4)]) == Some(st.t))
  }

  lemma TrunKeys(v: bytes, st: TrafState, moofOffset: int)
    requires RunsTrun(v, st, moofOffset).Some?
    ensures st.haveHeader && TrunSamples(v, st.t).Some? && RunsTrun(v, st, moofOffset).value.t == st.t
    ensures RunsTrun(v, st, moofOffset).value.haveSample && RunsTrun(v, st, moofOffset).value.haveHeader
    ensures RunsTrun(v, st, moofOffset).value.rr.key == if st.haveSample then st.rr.key else SyncFlags(TrunSamples(v, st.t).value[0].flags)
  {
    hide AddSamples, TrunSamples, MinPts, MaxEnd, Pts;
    var ss := TrunSamples(v, st.t).value;
    AddSamplesExtrema(Clock(st.rr, st.decode, moofOffset + TrunOffset(v), st.haveSample), ss, st.t);
  }

  lemma {:induction false} HeaderKept(cs: seq<Child>, tracks: map<u32, Track>, moofOffset: int, n: nat)
    requires n <= |cs| && RunsTraf(cs[..n], tracks, moofOffset).Some?
    ensures HeaderIs(cs, tracks, n, RunsTraf(cs[..n], tracks, moofOffset).value)
    decreases n
  {
    hide RunsTrun, TfhdDefaults, BaseDecode;
    if n > 0 {
      assert cs[..n][..n - 1] == cs[..n - 1] && cs[..n][n - 1] == cs[n - 1];
      HeaderKept(cs, tracks, moofOffset, n - 1);
      if cs[n - 1].kind == TRUN { TrunKeys(cs[n - 1].body, RunsTraf(cs[..n - 1], tracks, moofOffset).value, moofOffset); }
    }
  }

  /** The key flag of a run tells of the first sample of the track fragment. */
  lemma {:induction false} KeyKept(cs: seq<Child>, tracks: map<u32, Track>, moofOffset: int, n: nat)
    requires n <= |cs| && RunsTraf(cs[..n], tracks, moofOffset).Some?
    ensures var st := RunsTraf(cs[..n], tracks, moofOffset).value;
            && (st.haveSample <==> FirstOfKind(cs, TRUN) < n)
            && (st.haveSample ==> FirstSample(cs, tracks).Some? && st.rr.key == SyncFlags(FirstSample(cs, tracks).value.flags))
    decreases n
  {
    hide RunsTrun, TfhdDefaults, BaseDecode, TrunSamples, FirstOfKind, LastOfKind;
    if n > 0 {
      assert cs[..n][..n - 1] == cs[..n - 1] && cs[..n][n - 1] == cs[n - 1];
      KeyKept(cs, tracks, moofOffset, n - 1);
      if cs[n - 1].kind == TRUN {
        TrunKeys(cs[n - 1].body, RunsTraf(cs[..n - 1], tracks, moofOffset).value, moofOffset);
        HeaderKept(cs, tracks, moofOffset, n - 1);
      }
    }
  }

  lemma TrafKey(body: bytes, tracks: map<u32, Track>, moofOffset: int)
    requires TrafRun(body, tracks, moofOffset).Some?
    ensures TrafRun(body, tracks, moofOffset).value.key <==> StartsOnKeyframe(body, tracks)
  {
    hide RunsTraf, FirstSample, SyncFlags;
    var cs := Children(body).value;
    assert cs[..|cs|] == cs;
    KeyKept(cs, tracks, moofOffset, |cs|);
  }

  // ---------- the track fragments of a moof box ----------

  function TrafBodies(cs: seq<Child>): seq<bytes> {
    if cs == [] then []
    else TrafBodies(cs[..|cs| - 1]) + if cs[|cs| - 1].kind == TRAF then [cs[|cs| - 1].body] else []
  }

  /** Run k is that of the k-th track fragment. */
  lemma {:induction false} RunsAreTrafs(cs: seq<Child>, tracks: map<u32, Track>, moofOffset: int)
    requires RunsMoof(cs, tracks, moofOffset).Some?
    ensures var runs, bodies := RunsMoof(cs, tracks, moofOffset).value.runs, TrafBodies(cs);
            && |runs| == |bodies|
            && forall k | 0 <= k < |runs| :: TrafRun(bodies[k], tracks, moofOffset) == Some(runs[k])
    decreases |cs|
  {
    hide TrafRun;
    if cs != [] { RunsAreTrafs(cs[..|cs| - 1], tracks, moofOffset); }
  }

  /** Track fragment k of a moof box starts on a keyframe. */
  predicate KeyframeRun(data: bytes, tracks: map<u32, Track>, k: nat) {
    && Children(data).Some? && k < |TrafBodies(Children(data).value)|
    && StartsOnKeyframe(TrafBodies(Children(data).value)[k], tracks)
  }

  /** readRuns calls run k a keyframe run exactly when its track fragment starts with a sync sample. */
  lemma KeysAreSync(data: bytes, tracks: map<u32, Track>, moofOffset: int, k: nat)
    requires ReadRuns(data, tracks, moofOffset).Some? && k < |ReadRuns(data, tracks, moofOffset).value.runs|
    ensures ReadRuns(data, tracks, moofOffset).value.runs[k].key <==> KeyframeRun(data, tracks, k)
  {
    hide RunsMoof, TrafRun, StartsOnKeyframe, TrafBodies;
    RunsAreTrafs(Children(data).value, tracks, moofOffset);
    TrafKey(TrafBodies(Children(data).value)[k], tracks, moofOffset);
  }
}
