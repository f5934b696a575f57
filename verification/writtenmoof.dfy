/**
 Whole moof boxes from a writer, and what readRuns and readSamples make of them:
 the samples read are the samples written, each run has the clock of its samples,
 and a fragment is refused exactly when it breaks one of the stated limits.
 */
module WrittenMoof {
  import opened Bytes
  import opened Options
  import opened Boxes
  import opened Tracks
  import opened Samples
  import opened Fragments
  import opened Agreement
  import opened Walks
  import opened FragmentWriter

  // ---------- samples under the int64 guards ----------

  /** Every sample has data, a duration unless it is of an mp4a track, and times and data that stay non-negative int64 numbers. */
  predicate Sound(ss: seq<Sample>, decode: int, data: int, t: Track) {
    forall i | 0 <= i < |ss| :: SoundAt(ss, decode, data, t, i)
  }

  predicate SoundAt(ss: seq<Sample>, decode: int, data: int, t: Track, i: nat)
    requires i < |ss|
  {
    && ss[i].size > 0 && (ss[i].duration > 0 || (!t.video && t.codec == [0x6d, 0x70, 0x34, 0x61]))
    && decode + Durations(ss[..i + 1]) <= MAX_I64 && data + Sizes(ss[..i + 1]) <= MAX_I64
    && 0 <= Pts(ss, decode, i) && Pts(ss, decode, i) + ss[i].duration <= MAX_I64
  }

  lemma SoundPrefix(ss: seq<Sample>, decode: int, data: int, t: Track, n: nat, i: nat)
    requires i < n <= |ss|
    ensures SoundAt(ss[..n], decode, data, t, i) <==> SoundAt(ss, decode, data, t, i)
  {
    assert ss[..n][..i + 1] == ss[..i + 1] && ss[..n][..i] == ss[..i];
  }

  /** The guarded sums of readRuns go through exactly for sound samples. */
  lemma {:induction false} AddsSound(c: Clock, ss: seq<Sample>, t: Track)
    ensures AddSamples(c, ss, t).Some? <==> Sound(ss, c.decode, c.dataEnd, t)
    decreases |ss|
  {
    hide SoundAt, AddSample;
    if ss != [] {
      var n := |ss| - 1;
      AddsSound(c, ss[..n], t);
      forall i | 0 <= i < n
        ensures SoundAt(ss[..n], c.decode, c.dataEnd, t, i) <==> SoundAt(ss, c.decode, c.dataEnd, t, i)
      {
        SoundPrefix(ss, c.decode, c.dataEnd, t, n, i);
      }
      assert Sound(ss, c.decode, c.dataEnd, t) <==> Sound(ss[..n], c.decode, c.dataEnd, t) && SoundAt(ss, c.decode, c.dataEnd, t, n);
      if AddSamples(c, ss[..n], t).Some? {
        AddSamplesSums(c, ss[..n], t);
        AddsOne(AddSamples(c, ss[..n], t).value, c, ss, t);
      }
    }
  }

  lemma AddsOne(p: Clock, c: Clock, ss: seq<Sample>, t: Track)
    requires ss != [] && p.decode == c.decode + Durations(ss[..|ss| - 1]) && p.dataEnd == c.dataEnd + Sizes(ss[..|ss| - 1])
    ensures AddSample(p, ss[|ss| - 1], t).Some? <==> SoundAt(ss, c.decode, c.dataEnd, t, |ss| - 1)
  {
    assert ss[..|ss|] == ss;
  }

  // ---------- one track fragment ----------

  function RunBoxes(runs: seq<TrackRun>): (r: seq<Child>)
    ensures |r| == |runs|
  {
    seq(|runs|, i requires 0 <= i < |runs| => Child(TRUN, runs[i].Written()))
  }

  function SamplesIn(runs: seq<TrackRun>): seq<Sample> {
    if runs == [] then [] else SamplesIn(runs[..|runs| - 1]) + runs[|runs| - 1].samples
  }

  /** A track fragment: its header, its decode time, its runs. */
  datatype Traf = Traf(header: TrackHeader, clock: FragmentClock, runs: seq<TrackRun>) {
    function Kids(): seq<Child> { [Child(TFHD, header.Written()), Child(TFDT, clock.Written())] + RunBoxes(runs) }

    /** Its boxes say what it holds. */
    predicate Written(tracks: map<u32, Track>) {
      && header.Announced() && clock.Fits() && TotalSize(Kids()) <= MAX_U32
      && (header.track in tracks ==> forall w | w in runs :: w.Holds(header.Over(tracks[header.track])))
    }

    /** Where its data is, run by run. */
    function Pieces(at: int): (r: seq<Piece>)
      ensures |r| == |runs|
    {
      seq(|runs|, i requires 0 <= i < |runs| => Piece(header.track, at + runs[i].offset, runs[i].samples))
    }

    /** A known track, and data offsets that count from the moof box. */
    predicate Based(tracks: map<u32, Track>) {
      header.track in tracks && Bit(header.bits, 0x2_0000) && !Bit(header.bits, 1)
    }

    /** Run j starts decoding where the run before it stopped. */
    function Decode(j: nat): int
      requires j <= |runs|
    {
      clock.time + Durations(SamplesIn(runs[..j]))
    }

    predicate RunSound(t: Track, at: int, j: nat)
      requires j < |runs|
    {
      && 0 <= runs[j].offset <= MAX_I64 - at
      && Sound(runs[j].samples, Decode(j), at + runs[j].offset, t)
    }

    predicate SoundUpTo(t: Track, at: int, j: nat)
      requires j <= |runs|
    {
      forall i | 0 <= i < j :: RunSound(t, at, i)
    }

    /** What readRuns asks for. */
    predicate Guarded(tracks: map<u32, Track>, at: int) {
      && Based(tracks) && clock.time <= MAX_I64 && runs != []
      && SoundUpTo(tracks[header.track], at, |runs|)
    }

    /** What readSamples asks for: the first sample description, and composition offsets of a known version. */
    predicate Readable(tracks: map<u32, Track>) {
      && Based(tracks) && header.description in {None, Some(1)}
      && KnownUpTo(|runs|)
    }

    predicate KnownUpTo(j: nat)
      requires j <= |runs|
    {
      forall i | 0 <= i < j :: Bit(runs[i].bits, 0x800) ==> runs[i].version <= 1
    }
  }

  lemma DefaultsKeepKind(h: TrackHeader, t: Track, ss: seq<Sample>, decode: int, data: int)
    ensures Sound(ss, decode, data, h.Over(t)) <==> Sound(ss, decode, data, t)
  {
    hide Durations, Sizes, Pts;
    forall i | 0 <= i < |ss|
      ensures SoundAt(ss, decode, data, h.Over(t), i) <==> SoundAt(ss, decode, data, t, i)
    {
    }
  }

  lemma KidsAre(t: Traf, j: nat)
    requires j < |t.runs|
    ensures |t.Kids()| == 2 + |t.runs| && t.Kids()[2 + j] == Child(TRUN, t.runs[j].Written())
  {
    hide TrackHeader.Written, FragmentClock.Written, TrackRun.Written;
  }

  lemma RunsTrafNext(cs: seq<Child>, tracks: map<u32, Track>, at: int, n: nat)
    requires n < |cs|
    ensures RunsTraf(cs[..n + 1], tracks, at)
            == if RunsTraf(cs[..n], tracks, at).None? then None else RunsStep(cs[n], RunsTraf(cs[..n], tracks, at).value, tracks, at)
    ensures PiecesTraf(cs[..n + 1], tracks, at)
            == if PiecesTraf(cs[..n], tracks, at).None? then None else PiecesStep(cs[n], PiecesTraf(cs[..n], tracks, at).value, tracks, at)
  {
    hide RunsStep, PiecesStep;
    assert cs[..n + 1][..n] == cs[..n];
  }

  lemma HeadOfTraf(t: Traf)
    ensures var k := t.Kids();
            && k[..2] == [Child(TFHD, t.header.Written()), Child(TFDT, t.clock.Written())]
            && k[..1] == [Child(TFHD, t.header.Written())] && k[..2][..1] == k[..1] && k[..1][..0] == []
  {
    hide TrackHeader.Written, FragmentClock.Written, TrackRun.Written;
  }

  // ---------- readRuns on one track fragment ----------

  function Opened(t: Traf, d: Track): TrafState {
    TrafState(d, NO_RUN.(track := d.id, first := t.clock.time), t.clock.time, true, true, false)
  }

  lemma RunsOpen(t: Traf, tracks: map<u32, Track>, at: int)
    requires t.Written(tracks)
    ensures RunsTraf(t.Kids()[..2], tracks, at)
            == if t.Based(tracks) && t.clock.time <= MAX_I64 then Some(Opened(t, t.header.Over(tracks[t.header.track]))) else None
  {
    hide Bit, U32, TfhdDefaults, BaseDecode, FlagBits, TrackHeader.Written, FragmentClock.Written;
    HeadOfTraf(t);
    var h, c := t.header.Written(), t.clock.Written();
    assert h == h + [] && c == c + [];
    TfhdReads(h, t.header, [], if t.header.track in tracks then tracks[t.header.track] else BLANK);
    TfdtReads(c, t.clock, []);
    var k := t.Kids();
    assert RunsTraf(k[..1], tracks, at) == RunsStep(k[0], TRAF_START, tracks, at);
    if RunsTraf(k[..1], tracks, at).Some? {
      assert RunsTraf(k[..2], tracks, at) == RunsStep(k[1], RunsTraf(k[..1], tracks, at).value, tracks, at);
    }
  }

  /** The clock of a state is that of the samples read so far. */
  predicate Reached(t: Traf, st: TrafState, d: Track, at: int, j: nat)
    requires j <= |t.runs|
  {
    && st.t == d && st.haveHeader && st.haveDecode && st.haveSample == (j > 0)
    && st.decode == t.Decode(j) && st.rr.first == t.clock.time && st.rr.track == d.id
    && SameRanges(st.rr, t.Pieces(at)[..j])
    && (j > 0 ==> SameClock(st.rr, SamplesIn(t.runs[..j])) && st.rr.decodeEnd == st.decode)
  }

  /** A written track fragment of track u, with the defaults d for its runs. */
  predicate Ready(t: Traf, tracks: map<u32, Track>, u: Track, d: Track) {
    t.Written(tracks) && t.Based(tracks) && u == tracks[t.header.track] && d == t.header.Over(u)
  }

  lemma {:induction false} RunsReach(t: Traf, tracks: map<u32, Track>, at: int, j: nat, u: Track, d: Track)
    requires Ready(t, tracks, u, d) && t.clock.time <= MAX_I64 && j <= |t.runs|
    ensures |t.Kids()| == 2 + |t.runs|
    ensures var st := RunsTraf(t.Kids()[..2 + j], tracks, at);
            (st.Some? <==> t.SoundUpTo(u, at, j)) && (st.Some? ==> Reached(t, st.value, d, at, j))
    decreases j
  {
    hide RunsTraf, RunsStep, Traf.SoundUpTo, Reached, Traf.Kids, Ready;
    NextSound(t, u, at, j);
    KidCount(t);
    if j == 0 {
      RunsOpened(t, tracks, at, u, d);
      OpenedReached(t, d, at);
    } else {
      RunsReach(t, tracks, at, j - 1, u, d);
      KidsAre(t, j - 1);
      RunsTrafNext(t.Kids(), tracks, at, 1 + j);
      var before := RunsTraf(t.Kids()[..1 + j], tracks, at);
      if before.Some? { RunReached(t, tracks, at, j - 1, before.value, u, d); }
    }
  }

  lemma RunsOpened(t: Traf, tracks: map<u32, Track>, at: int, u: Track, d: Track)
    requires Ready(t, tracks, u, d) && t.clock.time <= MAX_I64
    ensures |t.Kids()| == 2 + |t.runs| && RunsTraf(t.Kids()[..2], tracks, at) == Some(Opened(t, d))
  {
    hide Bit, RunsTraf, TrackHeader.Written, FragmentClock.Written;
    RunsOpen(t, tracks, at);
  }

  lemma KidCount(t: Traf)
    ensures |t.Kids()| == 2 + |t.runs|
  {
    hide TrackHeader.Written, FragmentClock.Written, TrackRun.Written;
  }

  lemma NextSound(t: Traf, d: Track, at: int, j: nat)
    requires j <= |t.runs|
    ensures t.SoundUpTo(d, at, j) <==> j == 0 || (t.SoundUpTo(d, at, j - 1) && t.RunSound(d, at, j - 1))
    ensures t.KnownUpTo(j) <==> j == 0 || (t.KnownUpTo(j - 1) && (Bit(t.runs[j - 1].bits, 0x800) ==> t.runs[j - 1].version <= 1))
  {
    hide Traf.RunSound, Bit;
  }

  lemma OpenedReached(t: Traf, d: Track, at: int)
    ensures Reached(t, Opened(t, d), d, at, 0)
  {
    assert t.runs[..0] == [] && SamplesIn([]) == [];
  }

  lemma RunReached(t: Traf, tracks: map<u32, Track>, at: int, j: nat, st: TrafState, u: Track, d: Track)
    requires Ready(t, tracks, u, d) && j < |t.runs| && Reached(t, st, d, at, j)
    ensures var next := RunsStep(Child(TRUN, t.runs[j].Written()), st, tracks, at);
            && (next.Some? <==> t.RunSound(u, at, j))
            && (next.Some? ==> Reached(t, next.value, d, at, j + 1))
  {
    hide Bit, U32, TrunSamples, TrunOffset, AddSamples, Sound, Durations, Sizes, SameClock, SameRanges, TrackRun.Written, TrackRun.Holds, SamplesIn;
    var w, v := t.runs[j], t.runs[j].Written();
    assert w in t.runs && v == v + [];
    TrunReads(v, w, [], d);
    var c := Clock(st.rr, st.decode, at + w.offset, st.haveSample);
    AddsSound(c, w.samples, d);
    DefaultsKeepKind(t.header, u, w.samples, c.decode, c.dataEnd);
    assert RunsStep(Child(TRUN, v), st, tracks, at) == RunsTrun(v, st, at);
    if RunsTrun(v, st, at).Some? { RunExtends(t, at, j, st, w, AddSamples(c, w.samples, d).value); }
  }

  lemma RunExtends(t: Traf, at: int, j: nat, st: TrafState, w: TrackRun, c: Clock)
    requires j < |t.runs| && w == t.runs[j] && w.Holds(st.t) && Reached(t, st, st.t, at, j)
    requires AddSamples(Clock(st.rr, st.decode, at + w.offset, st.haveSample), w.samples, st.t) == Some(c)
    ensures Reached(t, st.(rr := c.rr.(ranges := c.rr.ranges + [Range(at + w.offset, c.dataEnd)], decodeEnd := c.decode), decode := c.decode, haveSample := true),
                    st.t, at, j + 1)
  {
    hide AddSamples, Durations, Sizes, MinPts, MaxEnd, Pts, IsSync, TrackRun.HoldsSample;
    var before := SamplesIn(t.runs[..j]);
    assert t.runs[..j + 1][..j] == t.runs[..j] && SamplesIn(t.runs[..j + 1]) == before + w.samples;
    AddSamplesSums(Clock(st.rr, st.decode, at + w.offset, st.haveSample), w.samples, st.t);
    if j == 0 { assert t.runs[..0] == [] && before == []; }
    NoDuration();
    ClockExtends(Clock(st.rr, st.decode, at + w.offset, st.haveSample), before, w.samples, st.t);
    SumsConcat(before, w.samples);
    var rr := c.rr.(ranges := c.rr.ranges + [Range(at + w.offset, c.dataEnd)], decodeEnd := c.decode);
    var p := Piece(t.header.track, at + w.offset, w.samples);
    OneMoreRange(st.rr, t.Pieces(at)[..j], rr, p);
    assert t.Pieces(at)[..j + 1] == t.Pieces(at)[..j] + [p];
  }

  lemma NoDuration()
    ensures Durations([]) == 0
  {
  }

  /** readRuns reads a track fragment exactly when its samples are sound, and gives the run their clock and ranges. */
  lemma TrafRunRead(t: Traf, tracks: map<u32, Track>, at: int)
    requires t.Written(tracks) && Numbered(tracks)
    ensures TrafRun(Emit(t.Kids()), tracks, at).Some? <==> t.Guarded(tracks, at)
    ensures t.Guarded(tracks, at) ==>
              var rr := TrafRun(Emit(t.Kids()), tracks, at).value;
              && rr.track == t.header.track && rr.first == t.clock.time
              && SameRanges(rr, t.Pieces(at)) && SameClock(rr, SamplesIn(t.runs))
  {
    hide RunsTraf, Traf.RunSound, SameRanges, SameClock, Emit, Children, RunBoxes;
    var k := t.Kids();
    EmitThenWalk(k);
    assert k[..2 + |t.runs|] == k;
    assert t.runs[..|t.runs|] == t.runs && t.Pieces(at)[..|t.runs|] == t.Pieces(at);
    RunsOpen(t, tracks, at);
    if t.Based(tracks) && t.clock.time <= MAX_I64 {
      RunsReach(t, tracks, at, |t.runs|, tracks[t.header.track], t.header.Over(tracks[t.header.track]));
    } else {
      TrafBroken(k, tracks, at, 2);
    }
  }

  // ---------- readSamples on one track fragment ----------

  lemma PiecesOpen(t: Traf, tracks: map<u32, Track>, at: int)
    requires t.Written(tracks)
    ensures PiecesTraf(t.Kids()[..2], tracks, at)
            == if t.Based(tracks) && t.header.description in {None, Some(1)} then Some(PieceState(Some(t.header.Over(tracks[t.header.track])), [])) else None
  {
    hide Bit, U32, TfhdDefaults, FlagBits, TrackHeader.Written, FragmentClock.Written, BaseDecode, FragmentWriter.ReadClock;
    HeadOfTraf(t);
    var h, c := t.header.Written(), t.clock.Written();
    assert h == h + [] && c == c + [];
    TfhdReads(h, t.header, [], if t.header.track in tracks then tracks[t.header.track] else BLANK);
    TfdtReads(c, t.clock, []);
    var k := t.Kids();
    assert PiecesTraf(k[..1], tracks, at) == PiecesStep(k[0], PieceState(None, []), tracks, at);
    if PiecesTraf(k[..1], tracks, at).Some? {
      assert PiecesTraf(k[..2], tracks, at) == PiecesStep(k[1], PiecesTraf(k[..1], tracks, at).value, tracks, at);
    }
  }

  lemma {:induction false} PiecesReach(t: Traf, tracks: map<u32, Track>, at: int, j: nat, u: Track, d: Track)
    requires Ready(t, tracks, u, d) && u.id == t.header.track && t.header.description in {None, Some(1)} && j <= |t.runs|
    ensures |t.Kids()| == 2 + |t.runs|
    ensures PiecesTraf(t.Kids()[..2 + j], tracks, at) == if t.KnownUpTo(j) then Some(PieceState(Some(d), t.Pieces(at)[..j])) else None
    decreases j
  {
    hide Bit, TrackRun.Written, PiecesTraf, PiecesTrun, Traf.Kids, TrackRun.Holds, Traf.KnownUpTo, Ready;
    NextSound(t, d, at, j);
    KidCount(t);
    if j == 0 {
      PiecesOpened(t, tracks, at, u, d);
      assert t.Pieces(at)[..0] == [];
    } else {
      PiecesReach(t, tracks, at, j - 1, u, d);
      KidsAre(t, j - 1);
      RunsTrafNext(t.Kids(), tracks, at, 1 + j);
      ReadyRun(t, tracks, u, d, j - 1);
      PieceReached(t.runs[j - 1], d, u.id, at, t.Pieces(at)[..j - 1]);
      assert t.Pieces(at)[..j] == t.Pieces(at)[..j - 1] + [t.Pieces(at)[j - 1]];
    }
  }

  lemma ReadyRun(t: Traf, tracks: map<u32, Track>, u: Track, d: Track, j: nat)
    requires Ready(t, tracks, u, d) && j < |t.runs|
    ensures t.runs[j].Holds(d) && d.id == u.id
  {
    hide TrackRun.Holds, Traf.Kids;
    assert t.runs[j] in t.runs;
  }

  lemma PiecesOpened(t: Traf, tracks: map<u32, Track>, at: int, u: Track, d: Track)
    requires Ready(t, tracks, u, d) && t.header.description in {None, Some(1)}
    ensures |t.Kids()| == 2 + |t.runs| && PiecesTraf(t.Kids()[..2], tracks, at) == Some(PieceState(Some(d), []))
  {
    hide Bit, PiecesTraf, TrackHeader.Written, FragmentClock.Written;
    PiecesOpen(t, tracks, at);
  }

  lemma PieceReached(w: TrackRun, d: Track, id: u32, at: int, before: seq<Piece>)
    requires w.Holds(d) && d.id == id
    ensures |w.Written()| >= 4
    ensures PiecesTrun(w.Written(), PieceState(Some(d), before), at)
            == if Bit(w.bits, 0x800) && w.version > 1 then None
               else Some(PieceState(Some(d), before + [Piece(id, at + w.offset, w.samples)]))
  {
    hide Bit, TrunSamples, TrunOffset, TrackRun.Written, TrackRun.Holds;
    assert w.Written() == w.Written() + [];
    TrunReads(w.Written(), w, [], d);
  }

  /** readSamples reads a track fragment exactly when it can, and then reads the samples written. */
  lemma TrafPiecesRead(t: Traf, tracks: map<u32, Track>, at: int)
    requires t.Written(tracks) && Numbered(tracks)
    ensures TrafPieces(Emit(t.Kids()), tracks, at) == if t.Readable(tracks) then Some(t.Pieces(at)) else None
  {
    hide PiecesTraf, Emit, Children, RunBoxes, Bit;
    var k := t.Kids();
    EmitThenWalk(k);
    assert k[..2 + |t.runs|] == k && t.Pieces(at)[..|t.runs|] == t.Pieces(at);
    PiecesOpen(t, tracks, at);
    if t.Based(tracks) && t.header.description in {None, Some(1)} {
      PiecesReach(t, tracks, at, |t.runs|, tracks[t.header.track], t.header.Over(tracks[t.header.track]));
    } else {
      PiecesBroken(k, tracks, at, 2);
    }
  }

  // ---------- whole moof boxes ----------

  /** A fragment: its sequence number and its track fragments. */
  datatype Moof = Moof(version: byte, bits: flags, sequence: u32, trafs: seq<Traf>) {
    predicate Written(tracks: map<u32, Track>) {
      (forall t | t in trafs :: t.Written(tracks)) && TotalSize(Kids()) <= MAX_U32
    }

    function Kids(): seq<Child> { [Child(MFHD, FullHead(version, bits) + Enc32(sequence))] + TrafBoxes(trafs) }

    function Body(): bytes { Emit(Kids()) }

    predicate GuardedUpTo(tracks: map<u32, Track>, at: int, j: nat)
      requires j <= |trafs|
    {
      forall i | 0 <= i < j :: trafs[i].Guarded(tracks, at)
    }

    predicate ReadableUpTo(tracks: map<u32, Track>, j: nat)
      requires j <= |trafs|
    {
      forall i | 0 <= i < j :: trafs[i].Readable(tracks)
    }

    function Pieces(at: int): (r: seq<seq<Piece>>)
      ensures |r| == |trafs|
    {
      seq(|trafs|, i requires 0 <= i < |trafs| => trafs[i].Pieces(at))
    }
  }

  function TrafBoxes(ts: seq<Traf>): (r: seq<Child>)
    ensures |r| == |ts|
  {
    seq(|ts|, i requires 0 <= i < |ts| => Child(TRAF, Emit(ts[i].Kids())))
  }

  /** The runs are those of the track fragments: their tracks, decode times, clocks and ranges. */
  predicate RunsOf(w: Moof, runs: seq<Run>, at: int) {
    && |runs| == |w.trafs|
    && forall i | 0 <= i < |runs| ::
      && runs[i].track == w.trafs[i].header.track && runs[i].first == w.trafs[i].clock.time
      && SameRanges(runs[i], w.trafs[i].Pieces(at)) && SameClock(runs[i], SamplesIn(w.trafs[i].runs))
  }

  lemma SequenceReads(w: Moof)
    ensures var v := FullHead(w.version, w.bits) + Enc32(w.sequence); |v| == 8 && U32(v, 4) == w.sequence
  {
    hide Enc32, U32;
    var v := FullHead(w.version, w.bits) + Enc32(w.sequence);
    assert Enc32(w.sequence) + [] == Enc32(w.sequence);
    HeadReads(v, w.version, w.bits, Enc32(w.sequence));
    WordReads(v, 4, w.sequence, []);
  }

  lemma MoofKid(w: Moof, j: nat)
    requires j < |w.trafs|
    ensures |w.Kids()| == 1 + |w.trafs| && w.Kids()[1 + j] == Child(TRAF, Emit(w.trafs[j].Kids()))
  {
    hide Emit, Enc32;
  }

  lemma RunsMoofNext(cs: seq<Child>, tracks: map<u32, Track>, at: int, n: nat)
    requires n < |cs| && cs[n].kind == TRAF
    ensures var before, rr := RunsMoof(cs[..n], tracks, at), TrafRun(cs[n].body, tracks, at);
            RunsMoof(cs[..n + 1], tracks, at)
            == if before.None? || rr.None? then None else Some(before.value.(runs := before.value.runs + [rr.value]))
    ensures var before, ps := PiecesMoof(cs[..n], tracks, at), TrafPieces(cs[n].body, tracks, at);
            PiecesMoof(cs[..n + 1], tracks, at) == if before.None? || ps.None? then None else Some(before.value + [ps.value])
  {
    hide TrafRun, TrafPieces;
    assert cs[..n + 1][..n] == cs[..n];
  }

  lemma FirstKid(w: Moof)
    ensures w.Kids()[..1] == [Child(MFHD, FullHead(w.version, w.bits) + Enc32(w.sequence))] && w.Kids()[..1][..0] == []
  {
    hide Emit, Enc32;
  }

  predicate RunsUpTo(w: Moof, runs: seq<Run>, at: int, j: nat)
    requires j <= |w.trafs|
  {
    RunsOf(w.(trafs := w.trafs[..j]), runs, at)
  }

  lemma {:induction false} MoofRunsReach(w: Moof, tracks: map<u32, Track>, at: int, j: nat)
    requires w.Written(tracks) && Numbered(tracks) && j <= |w.trafs|
    ensures var m := RunsMoof(w.Kids()[..1 + j], tracks, at);
            && (m.Some? <==> w.GuardedUpTo(tracks, at, j))
            && (m.Some? ==> m.value.sequence == w.sequence && RunsUpTo(w, m.value.runs, at, j))
    decreases j
  {
    hide RunsMoof, TrafRun, Traf.Guarded, Traf.Written, Emit, U32, Enc32, TrafBoxes, Moof.Kids, Moof.GuardedUpTo, RunsUpTo, Moof.Written, Numbered;
    NextGuarded(w, tracks, at, j);
    if j == 0 {
      NoTrafs(w, tracks, at);
    } else {
      MoofRunsReach(w, tracks, at, j - 1);
      MoofKid(w, j - 1);
      RunsMoofNext(w.Kids(), tracks, at, j);
      var t := w.trafs[j - 1];
      TrafIn(w, tracks, j - 1);
      TrafRunRead(t, tracks, at);
      if t.Guarded(tracks, at) && w.GuardedUpTo(tracks, at, j - 1) {
        MoreRuns(w, RunsMoof(w.Kids()[..j], tracks, at).value.runs, at, j, TrafRun(Emit(t.Kids()), tracks, at).value);
      }
    }
  }

  lemma TrafIn(w: Moof, tracks: map<u32, Track>, j: nat)
    requires w.Written(tracks) && j < |w.trafs|
    ensures w.trafs[j].Written(tracks)
  {
    hide Traf.Written, Moof.Kids;
    assert w.trafs[j] in w.trafs;
  }

  lemma NextGuarded(w: Moof, tracks: map<u32, Track>, at: int, j: nat)
    requires j <= |w.trafs|
    ensures w.GuardedUpTo(tracks, at, j) <==> j == 0 || (w.GuardedUpTo(tracks, at, j - 1) && w.trafs[j - 1].Guarded(tracks, at))
    ensures w.ReadableUpTo(tracks, j) <==> j == 0 || (w.ReadableUpTo(tracks, j - 1) && w.trafs[j - 1].Readable(tracks))
  {
    hide Traf.Guarded, Traf.Readable;
  }

  lemma NoTrafs(w: Moof, tracks: map<u32, Track>, at: int)
    ensures RunsMoof(w.Kids()[..1], tracks, at) == Some(MoofRuns([], w.sequence)) && RunsUpTo(w, [], at, 0)
    ensures PiecesMoof(w.Kids()[..1], tracks, at) == Some([])
  {
    hide Emit, U32, Enc32, TrafBoxes;
    FirstKid(w);
    SequenceReads(w);
    assert RunsMoof([], tracks, at) == Some(MoofRuns([], 0)) && PiecesMoof([], tracks, at) == Some([]);
  }

  lemma MoreRuns(w: Moof, runs: seq<Run>, at: int, j: nat, rr: Run)
    requires 0 < j <= |w.trafs| && RunsUpTo(w, runs, at, j - 1)
    requires var t := w.trafs[j - 1];
             && rr.track == t.header.track && rr.first == t.clock.time
             && SameRanges(rr, t.Pieces(at)) && SameClock(rr, SamplesIn(t.runs))
    ensures RunsUpTo(w, runs + [rr], at, j)
  {
    hide SameRanges, SameClock;
  }

  lemma {:induction false} MoofPiecesReach(w: Moof, tracks: map<u32, Track>, at: int, j: nat)
    requires w.Written(tracks) && Numbered(tracks) && j <= |w.trafs|
    ensures PiecesMoof(w.Kids()[..1 + j], tracks, at)
            == if w.ReadableUpTo(tracks, j) then Some(w.Pieces(at)[..j]) else None
    decreases j
  {
    hide PiecesMoof, TrafPieces, Traf.Readable, Traf.Written, Emit, Enc32, TrafBoxes, Moof.Kids, Moof.ReadableUpTo, Moof.Written, Numbered;
    NextGuarded(w, tracks, at, j);
    if j == 0 {
      NoTrafs(w, tracks, at);
    } else {
      MoofPiecesReach(w, tracks, at, j - 1);
      MoofKid(w, j - 1);
      RunsMoofNext(w.Kids(), tracks, at, j);
      TrafIn(w, tracks, j - 1);
      TrafPiecesRead(w.trafs[j - 1], tracks, at);
      assert w.Pieces(at)[..j] == w.Pieces(at)[..j - 1] + [w.trafs[j - 1].Pieces(at)];
    }
  }

  /**
   readRuns accepts a written fragment exactly when every track is known, offsets
   count from the moof box, and all samples are sound.  Its runs then have the
   tracks, decode times, clocks and ranges that were written.
   */
  lemma RunsReadBack(w: Moof, tracks: map<u32, Track>, at: int)
    requires w.Written(tracks) && Numbered(tracks)
    ensures var m := Fragments.ReadRuns(w.Body(), tracks, at);
            && (m.Some? <==> forall t | t in w.trafs :: t.Guarded(tracks, at))
            && (m.Some? ==> m.value.sequence == w.sequence && RunsOf(w, m.value.runs, at))
  {
    hide RunsMoof, Traf.Guarded, Traf.Written, Emit, TrafBoxes, Children, Enc32, RunsOf;
    EmitThenWalk(w.Kids());
    assert w.Kids()[..1 + |w.trafs|] == w.Kids() && w.trafs[..|w.trafs|] == w.trafs && w.(trafs := w.trafs) == w;
    MoofRunsReach(w, tracks, at, |w.trafs|);
    if w.GuardedUpTo(tracks, at, |w.trafs|) {
      forall t | t in w.trafs
        ensures t.Guarded(tracks, at)
      {
        var i :| 0 <= i < |w.trafs| && w.trafs[i] == t;
      }
    } else {
      var i :| 0 <= i < |w.trafs| && !w.trafs[i].Guarded(tracks, at);
      assert w.trafs[i] in w.trafs;
    }
  }

  /**
   readSamples accepts a written fragment exactly when every track is known, offsets
   count from the moof box, and no run uses another sample description or version.
   The samples read are then the samples written, at the places written.
   */
  lemma SamplesReadBack(w: Moof, tracks: map<u32, Track>, at: int)
    requires w.Written(tracks) && Numbered(tracks)
    ensures ReadSamples(w.Body(), tracks, at) == if forall t | t in w.trafs :: t.Readable(tracks) then Some(w.Pieces(at)) else None
  {
    hide PiecesMoof, Traf.Readable, Traf.Written, Emit, TrafBoxes, Children, Enc32;
    EmitThenWalk(w.Kids());
    assert w.Kids()[..1 + |w.trafs|] == w.Kids() && w.Pieces(at)[..|w.trafs|] == w.Pieces(at);
    MoofPiecesReach(w, tracks, at, |w.trafs|);
    if w.ReadableUpTo(tracks, |w.trafs|) {
      forall t | t in w.trafs
        ensures t.Readable(tracks)
      {
        var i :| 0 <= i < |w.trafs| && w.trafs[i] == t;
      }
    } else {
      var i :| 0 <= i < |w.trafs| && !w.trafs[i].Readable(tracks);
      assert w.trafs[i] in w.trafs;
    }
  }
}
