/** What the times of an indexed fragment mean: the producer clock and the media clock of its video samples, to the millisecond. */
module FragmentClocks {
  import opened Bytes
  import opened Options
  import opened Boxes
  import opened Tracks
  import opened Samples
  import opened Fragments
  import opened Agreement
  import opened RecordingIndex

  /** Media ticks in milliseconds, unrounded. */
  function Ms(ticks: int, scale: u32): real
    requires scale > 0
  {
    ticks as real * 1000.0 / scale as real
  }

  lemma HalfUp(n: nat, d: int) returns (q: int, rest: int)
    requires d > 0
    ensures q == (2 * n + d) / (2 * d) && 2 * n + d == 2 * (q * d) + rest && 0 <= rest < 2 * d
  {
    q, rest := (2 * n + d) / (2 * d), (2 * n + d) % (2 * d);
    assert q * (2 * d) == 2 * (q * d);
  }

  lemma Halves(n: int, q: int, rest: int, d: int)
    requires d > 0 && 2 * n + d == 2 * (q * d) + rest && 0 <= rest < 2 * d
    ensures -0.5 <= q as real - n as real / d as real <= 0.5
  {
    RealProduct(q, d);
    Nearest(n as real, q as real, rest as real / 2.0, d as real, (q * d) as real);
  }

  lemma RealProduct(a: int, b: int)
    ensures (a * b) as real == a as real * b as real
  {
  }

  lemma WholeQuotient(q: real, c: real)
    requires c > 0.0
    ensures (q * c) / c == q
  {
  }

  lemma Nearest(n: real, q: real, rest: real, c: real, product: real)
    requires c > 0.0 && product == q * c && n + c / 2.0 == product + rest && 0.0 <= rest <= c
    ensures -0.5 <= q - n / c <= 0.5
  {
    WholeQuotient(q, c);
    SubQuotient(product, n, c);
    QuotientMonotone(product - n, c / 2.0, c);
    QuotientMonotone(-(c / 2.0), product - n, c);
    NegatedQuotient(c / 2.0, c);
    assert (c / 2.0) / c == 0.5;
  }

  /** Rounding to milliseconds costs at most half of one. */
  lemma TicksMsError(n: int, scale: u32)
    requires scale > 0
    ensures -0.5 <= TicksMs(n, scale) as real - Ms(n, scale) <= 0.5
  {
    var m := if n >= 0 then n * 1000 else -(n * 1000);
    var q, rest := HalfUp(m, scale);
    Halves(m, q, rest, scale);
    assert (n * 1000) as real == n as real * 1000.0;
    if n < 0 {
      assert m as real == -((n * 1000) as real);
      NegatedQuotient((n * 1000) as real, scale as real);
    }
  }

  lemma NegatedQuotient(x: real, d: real)
    requires d > 0.0
    ensures (-x) / d == -(x / d)
  {
  }

  lemma MsSub(a: int, b: int, scale: u32)
    requires scale > 0
    ensures Ms(a - b, scale) == Ms(a, scale) - Ms(b, scale)
  {
    var x, y, d := a as real * 1000.0, b as real * 1000.0, scale as real;
    assert (a - b) as real * 1000.0 == x - y;
    SubQuotient(x, y, d);
  }

  lemma SubQuotient(x: real, y: real, d: real)
    requires d > 0.0
    ensures (x - y) / d == x / d - y / d
  {
  }

  lemma MsMonotone(a: int, b: int, scale: u32)
    requires scale > 0 && a <= b
    ensures Ms(a, scale) <= Ms(b, scale)
  {
    assert a as real * 1000.0 <= b as real * 1000.0;
    QuotientMonotone(a as real * 1000.0, b as real * 1000.0, scale as real);
  }

  lemma QuotientMonotone(x: real, y: real, d: real)
    requires d > 0.0 && x <= y
    ensures x / d <= y / d
  {
  }

  /** Wall clock of a presentation time, when the fragment's first sample is presented at `epochMs`. */
  function Wall(epochMs: int, pts: int, first: int, scale: u32): real
    requires scale > 0
  {
    epochMs as real + Ms(pts - first, scale)
  }

  predicate Near(a: int, x: real) { -1.0 <= a as real - x <= 1.0 }

  /** The fragment's interval holds every video sample on the producer clock, and both of its ends are those of samples; its media interval is the same on the media clock. */
  ghost predicate TellsTimes(f: Fragment, epochMs: int, origin: int, ss: seq<Sample>, first: int, scale: u32)
    requires scale > 0 && ss != []
  {
    var firstPts := Pts(ss, first, 0);
    && (forall i | 0 <= i < |ss| ::
          && f.startMs as real - 1.0 <= Wall(epochMs, Pts(ss, first, i), firstPts, scale)
          && Wall(epochMs, Pts(ss, first, i) + ss[i].duration, firstPts, scale) <= f.endMs as real + 1.0)
    && (exists i | 0 <= i < |ss| :: Near(f.startMs, Wall(epochMs, Pts(ss, first, i), firstPts, scale)) && Near(f.mediaStartMs + origin, Ms(Pts(ss, first, i), scale)))
    && (exists i | 0 <= i < |ss| ::
          && Near(f.endMs, Wall(epochMs, Pts(ss, first, i) + ss[i].duration, firstPts, scale))
          && Near(f.mediaEndMs + origin, Ms(Pts(ss, first, i) + ss[i].duration, scale)))
  }

  lemma NearWall(epochMs: int, pts: int, first: int, scale: u32)
    requires scale > 0
    ensures Near(epochMs + TicksMs(pts, scale) - TicksMs(first, scale), Wall(epochMs, pts, first, scale))
    ensures Near(TicksMs(pts, scale), Ms(pts, scale))
  {
    hide TicksMs, Ms;
    TicksMsError(pts, scale);
    TicksMsError(first, scale);
    MsSub(pts, first, scale);
  }

  lemma WallMonotone(epochMs: int, a: int, b: int, first: int, scale: u32)
    requires scale > 0 && a <= b
    ensures Wall(epochMs, a, first, scale) <= Wall(epochMs, b, first, scale)
  {
    MsMonotone(a - first, b - first, scale);
  }

  /** The fragment recorded for a video run whose first sample is presented at `epochMs`. */
  function FragmentOf(sequence: int, offset: int, length: int, video: Run, scale: u32, epochMs: int, origin: int): Fragment {
    var start, end, anchor := TicksMs(video.start, scale), TicksMs(video.end, scale), TicksMs(video.firstPTS, scale);
    Fragment(sequence, offset, length, start - origin, end - origin, epochMs + start - anchor, epochMs + end - anchor)
  }

  lemma FragmentOfTells(sequence: int, offset: int, length: int, video: Run, scale: u32, epoch: int, origin: int, ss: seq<Sample>)
    requires SameClock(video, ss) && scale > 0
    ensures TellsTimes(FragmentOf(sequence, offset, length, video, scale, epoch, origin), epoch, origin, ss, video.first, scale)
  {
    hide TicksMs, Ms, Wall, MinPts, MaxEnd, Durations, Near, IsSync;
    ExtremaBound(ss, video.first);
    NearWall(epoch, video.start, video.firstPTS, scale);
    NearWall(epoch, video.end, video.firstPTS, scale);
    forall i | 0 <= i < |ss|
      ensures Wall(epoch, video.start, video.firstPTS, scale) <= Wall(epoch, Pts(ss, video.first, i), video.firstPTS, scale)
      ensures Wall(epoch, Pts(ss, video.first, i) + ss[i].duration, video.firstPTS, scale) <= Wall(epoch, video.end, video.firstPTS, scale)
    {
      WallMonotone(epoch, video.start, Pts(ss, video.first, i), video.firstPTS, scale);
      WallMonotone(epoch, Pts(ss, video.first, i) + ss[i].duration, video.end, video.firstPTS, scale);
    }
    NearBounds(epoch, video.start, video.firstPTS, scale);
    NearBounds(epoch, video.end, video.firstPTS, scale);
    var low :| 0 <= low < |ss| && MinPts(ss, video.first) == Pts(ss, video.first, low);
    var high :| 0 <= high < |ss| && MaxEnd(ss, video.first) == Pts(ss, video.first, high) + ss[high].duration;
  }

  lemma NearBounds(epochMs: int, pts: int, first: int, scale: u32)
    requires scale > 0
    ensures var at := epochMs + TicksMs(pts, scale) - TicksMs(first, scale);
            at as real - 1.0 <= Wall(epochMs, pts, first, scale) <= at as real + 1.0
  {
    hide TicksMs, Wall;
    NearWall(epochMs, pts, first, scale);
  }

  /** The earliest decode time of the runs, capped at the largest int64. */
  predicate EarliestOf(origin: int, runs: seq<Run>, tracks: map<u32, Track>) {
    && (forall i | 0 <= i < |runs| :: origin <= TicksMs(runs[i].first, ScaleOf(tracks, runs[i].track)))
    && (origin == MAX_I64 || exists i | 0 <= i < |runs| :: origin == TicksMs(runs[i].first, ScaleOf(tracks, runs[i].track)))
  }

  lemma {:induction false} EarliestIs(runs: seq<Run>, tracks: map<u32, Track>)
    ensures EarliestOf(EarliestMs(runs, tracks), runs, tracks)
    decreases |runs|
  {
    hide TicksMs;
    if runs != [] {
      var n := |runs| - 1;
      EarliestIs(runs[..n], tracks);
      assert forall i | 0 <= i < n :: runs[..n][i] == runs[i];
    }
  }

  // ---------- one fragment of the file ----------

  lemma {:induction false} RunOfIs(runs: seq<Run>, track: u32) returns (k: nat)
    requires RunOf(runs, track).Some?
    ensures k < |runs| && runs[k] == RunOf(runs, track).value && runs[k].track == track
    decreases |runs|
  {
    k := |runs| - 1;
    if runs[k].track != track { k := RunOfIs(runs[..k], track); }
  }

  lemma ClockHasSamples(rr: Run, ss: seq<Sample>)
    requires SameClock(rr, ss)
    ensures ss != []
  {
  }

  /** From the first fragment on the origin of the media clock stays. */
  lemma {:induction false} OriginStays(src: bytes, size: nat, pos: nat, s: State)
    requires pos <= size <= |src| && s.index.fragments != [] && WalkFrom(src, size, pos, s).Stopped?
    ensures WalkFrom(src, size, pos, s).s.originMs == s.originMs
    decreases size - pos
  {
    hide ReadBox, OnBox;
    if pos < size && ReadBox(src, pos, size).Found? {
      var b := ReadBox(src, pos, size).box;
      StepOrigin(src, s, b);
      OriginStays(src, size, pos + b.size, OnBox(src, s, b).s);
    }
  }

  lemma StepOrigin(src: bytes, s: State, b: Box)
    requires b.header <= b.size && b.offset + b.size <= |src| && s.index.fragments != [] && OnBox(src, s, b).Next?
    ensures OnBox(src, s, b).s.originMs == s.originMs && OnBox(src, s, b).s.index.fragments != []
  {
    hide ReadTracks, ReadRuns, Payload, RunFollows, EarliestMs, Decoded, TicksMs, RunOf, ReadProducerReference;
  }

  // ---------- where a fragment comes from ----------

  /** The boxes a fragment is made from: its producer reference, its moof and mdat boxes, the movie header its moof was read with, and the one its times were scaled with. */
  datatype Places = Places(moov: nat, prft: nat, moof: nat, header: nat, mdat: nat)

  predicate BoxHere(src: bytes, size: nat, pos: nat, kind: u32)
    requires size <= |src|
  {
    pos < size && ReadBox(src, pos, size).Found? && ReadBox(src, pos, size).box.kind == kind
  }

  function BodyHere(src: bytes, size: nat, pos: nat): bytes
    requires size <= |src|
  {
    if pos < size && ReadBox(src, pos, size).Found? then Body(src, ReadBox(src, pos, size).box) else []
  }

  predicate HeaderAt(src: bytes, size: nat, pos: nat, tracks: map<u32, Track>)
    requires size <= |src|
  {
    BoxHere(src, size, pos, MOOV) && ReadTracks(BodyHere(src, size, pos)) == Read(tracks)
  }

  function TracksAt(src: bytes, size: nat, pos: nat): map<u32, Track>
    requires size <= |src|
  {
    match ReadTracks(BodyHere(src, size, pos)) case Read(tracks) => tracks case _ => map[]
  }

  predicate ReferenceAt(src: bytes, size: nat, pos: int, ref: Ref)
    requires size <= |src|
  {
    pos >= 0 && BoxHere(src, size, pos, PRFT) && ReadProducerReference(BodyHere(src, size, pos)) == SomeRef(ref)
  }

  predicate RunsAt(src: bytes, size: nat, moov: nat, moof: nat, m: MoofRuns)
    requires size <= |src|
  {
    && BoxHere(src, size, moov, MOOV) && BoxHere(src, size, moof, MOOF)
    && ReadRuns(BodyHere(src, size, moof), TracksAt(src, size, moov), moof) == Some(m)
  }

  /** The fragment is what these boxes say, with its media times counted from `origin`. */
  ghost predicate ToldBy(src: bytes, size: nat, f: Fragment, origin: int, p: Places, m: MoofRuns, ref: Ref)
    requires size <= |src|
  {
    && RunsAt(src, size, p.moov, p.moof, m) && ReferenceAt(src, size, p.prft, ref)
    && BoxHere(src, size, p.header, MOOV) && BoxHere(src, size, p.mdat, MDAT)
    && RunOf(m.runs, ref.track).Some?
    && var scale := ScaleOf(TracksAt(src, size, p.header), ref.track);
       && scale > 0
       && f == FragmentOf(m.sequence, p.prft, p.mdat + ReadBox(src, p.mdat, size).box.size - p.prft, RunOf(m.runs, ref.track).value, scale, ref.epochMs, origin)
  }

  ghost predicate Told(src: bytes, size: nat, f: Fragment, origin: int)
    requires size <= |src|
  {
    exists p: Places, m: MoofRuns, ref: Ref :: ToldBy(src, size, f, origin, p, m, ref)
  }

  /** And the origin is the earliest decode time of its runs. */
  ghost predicate ToldFirst(src: bytes, size: nat, f: Fragment, origin: int)
    requires size <= |src|
  {
    exists p: Places, m: MoofRuns, ref: Ref :: ToldBy(src, size, f, origin, p, m, ref) && EarliestOf(origin, m.runs, TracksAt(src, size, p.header))
  }

  ghost predicate HeaderKnown(src: bytes, size: nat, s: State)
    requires size <= |src|
  {
    s.tracks != map[] ==> exists h: nat :: HeaderAt(src, size, h, s.tracks)
  }

  ghost predicate ReferenceKnown(src: bytes, size: nat, s: State)
    requires size <= |src|
  {
    && (s.ref.Some? ==> ReferenceAt(src, size, s.pendingOffset, s.ref.value))
    && (s.pending ==> s.ref.Some? && SequenceFits(s) && exists moov: nat, moof: nat :: RunsAt(src, size, moov, moof, MoofRuns(s.runs, s.previousSequence)))
  }

  ghost predicate FragmentsKnown(src: bytes, size: nat, s: State)
    requires size <= |src|
  {
    && (forall j | 0 <= j < |s.index.fragments| :: Told(src, size, s.index.fragments[j], s.originMs))
    && (s.index.fragments != [] ==> ToldFirst(src, size, s.index.fragments[0], s.originMs))
  }

  predicate SequenceFits(s: State) { 0 <= s.previousSequence <= MAX_U32 }

  lemma MoovKnown(src: bytes, size: nat, s: State, b: Box)
    requires size <= |src| && ReadBox(src, b.offset, size) == Found(b) && b.kind == MOOV && b.offset < size
    requires OnMoov(src, s, b).Next?
    ensures HeaderKnown(src, size, OnMoov(src, s, b).s)
  {
    hide ReadBox, ReadTracks;
    assert HeaderAt(src, size, b.offset, OnMoov(src, s, b).s.tracks);
  }

  lemma PrftKnown(src: bytes, size: nat, s: State, b: Box)
    requires size <= |src| && ReadBox(src, b.offset, size) == Found(b) && b.kind == PRFT && b.offset < size
    requires OnPrft(src, s, b).Next?
    ensures ReferenceKnown(src, size, OnPrft(src, s, b).s)
  {
    hide ReadBox, ReadProducerReference, RunsAt;
  }

  lemma MoofKnown(src: bytes, size: nat, s: State, b: Box)
    requires size <= |src| && ReadBox(src, b.offset, size) == Found(b) && b.kind == MOOF && b.offset < size
    requires HeaderKnown(src, size, s) && ReferenceKnown(src, size, s) && OnMoof(src, s, b).Next?
    ensures ReferenceKnown(src, size, OnMoof(src, s, b).s) && SequenceFits(OnMoof(src, s, b).s)
  {
    hide ReadBox, ReadTracks, ReadRuns, ReadProducerReference;
    var s' := OnMoof(src, s, b).s;
    var h: nat :| HeaderAt(src, size, h, s.tracks);
    assert RunsAt(src, size, h, b.offset, MoofRuns(s'.runs, s'.previousSequence));
  }

  /** A run on a track without timescale would have no length. */
  lemma ScaledVideo(s: State, b: Box)
    requires OnMdat(s, b).Next?
    ensures s.pending && s.ref.Some? && RunOf(s.runs, s.ref.value.track).Some?
    ensures ScaleOf(s.tracks, s.ref.value.track) > 0
    ensures var fs := s.index.fragments;
            var origin := if fs == [] then EarliestMs(s.runs, s.tracks) else s.originMs;
            && OnMdat(s, b).s.index.fragments
               == fs + [FragmentOf(s.previousSequence, s.pendingOffset, b.offset + b.size - s.pendingOffset, RunOf(s.runs, s.ref.value.track).value,
                                   ScaleOf(s.tracks, s.ref.value.track), s.ref.value.epochMs, origin)]
            && OnMdat(s, b).s.originMs == origin && OnMdat(s, b).s.tracks == s.tracks
            && !OnMdat(s, b).s.pending && OnMdat(s, b).s.ref.None? && OnMdat(s, b).s.previousSequence == s.previousSequence
  {
    hide RunFollows, EarliestMs, Decoded;
    var k := RunOfIs(s.runs, s.ref.value.track);
  }

  lemma MdatKnown(src: bytes, size: nat, s: State, b: Box)
    requires size <= |src| && ReadBox(src, b.offset, size) == Found(b) && b.kind == MDAT && b.offset < size
    requires HeaderKnown(src, size, s) && ReferenceKnown(src, size, s) && FragmentsKnown(src, size, s) && SequenceFits(s) && OnMdat(s, b).Next?
    ensures FragmentsKnown(src, size, OnMdat(s, b).s)
  {
    hide ReadBox, ReadTracks, ReadRuns, OnMdat, EarliestMs, EarliestOf, RunOf, FragmentOf, RunsAt, ReferenceAt, ToldBy;
    ScaledVideo(s, b);
    EarliestIs(s.runs, s.tracks);
    var h: nat :| HeaderAt(src, size, h, s.tracks);
    var moov: nat, moof: nat :| RunsAt(src, size, moov, moof, MoofRuns(s.runs, s.previousSequence));
    var m, t := MoofRuns(s.runs, s.previousSequence), OnMdat(s, b).s;
    var p := PlacesOf(src, size, s, moov, moof, h, b.offset);
    var f := t.index.fragments[|s.index.fragments|];
    NewTold(src, size, s, b, p, f, t.originMs);
    assert Told(src, size, f, t.originMs);
    if s.index.fragments == [] { assert ToldFirst(src, size, f, t.originMs); }
  }

  lemma PlacesOf(src: bytes, size: nat, s: State, moov: nat, moof: nat, header: nat, mdat: nat) returns (p: Places)
    requires size <= |src| && s.ref.Some? && ReferenceAt(src, size, s.pendingOffset, s.ref.value)
    ensures p.moov == moov && p.prft == s.pendingOffset && p.moof == moof && p.header == header && p.mdat == mdat
  {
    p := Places(moov, s.pendingOffset, moof, header, mdat);
  }

  lemma NewTold(src: bytes, size: nat, s: State, b: Box, p: Places, f: Fragment, origin: int)
    requires size <= |src| && ReadBox(src, b.offset, size) == Found(b) && b.kind == MDAT && p.mdat == b.offset < size
    requires SequenceFits(s) && s.ref.Some? && ReferenceAt(src, size, s.pendingOffset, s.ref.value) && p.prft == s.pendingOffset
    requires RunsAt(src, size, p.moov, p.moof, MoofRuns(s.runs, s.previousSequence)) && HeaderAt(src, size, p.header, s.tracks)
    requires RunOf(s.runs, s.ref.value.track).Some? && ScaleOf(s.tracks, s.ref.value.track) > 0
    requires f == FragmentOf(s.previousSequence, s.pendingOffset, b.offset + b.size - s.pendingOffset, RunOf(s.runs, s.ref.value.track).value,
                             ScaleOf(s.tracks, s.ref.value.track), s.ref.value.epochMs, origin)
    ensures ToldBy(src, size, f, origin, p, MoofRuns(s.runs, s.previousSequence), s.ref.value) && TracksAt(src, size, p.header) == s.tracks
  {
    hide ReadBox, ReadTracks, ReadRuns, RunOf, FragmentOf, RunsAt, ReferenceAt;
  }

  ghost predicate Known(src: bytes, size: nat, s: State)
    requires size <= |src|
  {
    HeaderKnown(src, size, s) && ReferenceKnown(src, size, s) && FragmentsKnown(src, size, s) && SequenceFits(s)
  }

  lemma StepKnown(src: bytes, size: nat, s: State, b: Box)
    requires size <= |src| && ReadBox(src, b.offset, size) == Found(b) && b.offset < size && Known(src, size, s) && OnBox(src, s, b).Next?
    ensures Known(src, size, OnBox(src, s, b).s)
  {
    hide ReadBox, ReadTracks, ReadRuns, ReadProducerReference, OnMdat, Told, ToldFirst, HeaderAt, RunsAt, ReferenceAt, Payload;
    if b.kind == MOOV {
      MoovKnown(src, size, s, b);
    } else if b.kind == PRFT {
      PrftKnown(src, size, s, b);
    } else if b.kind == MOOF {
      MoofKnown(src, size, s, b);
    } else if b.kind == MDAT {
      MdatKnown(src, size, s, b);
      ScaledVideo(s, b);
    }
  }

  lemma {:induction false} WalkKnown(src: bytes, size: nat, pos: nat, s: State)
    requires pos <= size <= |src| && Known(src, size, s) && WalkFrom(src, size, pos, s).Stopped?
    ensures Known(src, size, WalkFrom(src, size, pos, s).s)
    decreases size - pos
  {
    hide ReadBox, OnBox, Known;
    if pos < size && ReadBox(src, pos, size).Found? {
      var b := ReadBox(src, pos, size).box;
      FoundHere(src, pos, size);
      StepKnown(src, size, s, b);
      WalkKnown(src, size, pos + b.size, OnBox(src, s, b).s);
    }
  }

  lemma FoundHere(src: bytes, pos: nat, size: nat)
    requires size <= |src| && ReadBox(src, pos, size).Found?
    ensures ReadBox(src, pos, size).box.offset == pos
  {
  }

  lemma BeginKnown(src: bytes, size: nat)
    requires size <= |src|
    ensures Known(src, size, BEGIN)
  {
  }

  // ---------- every indexed fragment ----------

  /** The interval of the fragment is that of the video samples of its moof box, where readSamples can read them and their clock boxes come first. */
  ghost predicate TimesTold(src: bytes, size: nat, f: Fragment, origin: int, p: Places, m: MoofRuns, ref: Ref)
    requires size <= |src|
  {
    var data, tracks := BodyHere(src, size, p.moof), TracksAt(src, size, p.moov);
    Children(data).Some? && MoofClocksFirst(Children(data).value) && ReadSamples(data, tracks, p.moof).Some? ==>
      exists k | 0 <= k < |m.runs| ::
        VideoSamples(ReadSamples(data, tracks, p.moof).value, m.runs, k, ref.track, f, ref.epochMs, origin, ScaleOf(TracksAt(src, size, p.header), ref.track))
  }

  ghost predicate VideoSamples(pss: seq<seq<Piece>>, runs: seq<Run>, k: nat, track: u32, f: Fragment, epochMs: int, origin: int, scale: u32) {
    && k < |runs| && k < |pss| && runs[k].track == track && scale > 0 && AllSamples(pss[k]) != []
    && TellsTimes(f, epochMs, origin, AllSamples(pss[k]), runs[k].first, scale)
  }

  lemma ToldTimes(src: bytes, size: nat, f: Fragment, origin: int, p: Places, m: MoofRuns, ref: Ref)
    requires size <= |src| && ToldBy(src, size, f, origin, p, m, ref)
    ensures TimesTold(src, size, f, origin, p, m, ref)
  {
    hide ReadBox, ReadTracks, RunsMoof, PiecesMoof, RunOf, MoofClocksFirst, SameClock, SameRanges, AllSamples, FragmentOf, TellsTimes, ChildrenFrom,
         ReadProducerReference;
    var data, tracks := BodyHere(src, size, p.moof), TracksAt(src, size, p.moov);
    if Children(data).Some? && MoofClocksFirst(Children(data).value) && ReadSamples(data, tracks, p.moof).Some? {
      var pss := ReadSamples(data, tracks, p.moof).value;
      ParsersAgree(data, tracks, p.moof);
      var k := RunOfIs(m.runs, ref.track);
      assert RunOfPieces(m.runs[k], pss[k]);
      ClockHasSamples(m.runs[k], AllSamples(pss[k]));
      var scale := ScaleOf(TracksAt(src, size, p.header), ref.track);
      FragmentOfTells(m.sequence, p.prft, p.mdat + ReadBox(src, p.mdat, size).box.size - p.prft, m.runs[k], scale, ref.epochMs, origin, AllSamples(pss[k]));
      assert VideoSamples(pss, m.runs, k, ref.track, f, ref.epochMs, origin, scale);
    }
  }

  /** The fragment comes from boxes of the file, and its times are theirs. */
  ghost predicate FragmentTold(src: bytes, size: nat, f: Fragment, origin: int)
    requires size <= |src|
  {
    exists p: Places, m: MoofRuns, ref: Ref :: ToldBy(src, size, f, origin, p, m, ref) && TimesTold(src, size, f, origin, p, m, ref)
  }

  /**
   Every fragment of an index comes from a producer reference, a moof box and an mdat
   box of the file.  Its times are those of the moof box's video samples: on the
   producer clock, which presents the first of them at the reference, and on the
   media clock, which for all of them counts from the earliest decode time of the
   first fragment.
   */
  lemma FragmentTells(src: bytes, n: nat) returns (origin: int)
    requires n <= |src| && ReadIndex(src, n).Indexed?
    ensures forall f | f in ReadIndex(src, n).index.fragments :: FragmentTold(src, n, f, origin)
    ensures ReadIndex(src, n).index.fragments != [] ==> ToldFirst(src, n, ReadIndex(src, n).index.fragments[0], origin)
  {
    hide WalkFrom, Told, ToldFirst, ToldBy, TimesTold, HeaderKnown, ReferenceKnown;
    BeginKnown(src, n);
    WalkKnown(src, n, 0, BEGIN);
    var s := WalkFrom(src, n, 0, BEGIN).s;
    origin := s.originMs;
    forall f | f in s.index.fragments
      ensures FragmentTold(src, n, f, origin)
    {
      var j :| 0 <= j < |s.index.fragments| && s.index.fragments[j] == f;
      ToldIsTimed(src, n, f, origin);
    }
  }

  lemma ToldIsTimed(src: bytes, n: nat, f: Fragment, origin: int)
    requires n <= |src| && Told(src, n, f, origin)
    ensures FragmentTold(src, n, f, origin)
  {
    hide ToldBy, TimesTold;
    var p: Places, m: MoofRuns, ref: Ref :| ToldBy(src, n, f, origin, p, m, ref);
    ToldTimes(src, n, f, origin, p, m, ref);
  }
}
