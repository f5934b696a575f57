/**
 What ReadIndex of internal/recordingmedia/index.go makes of a file, told from its
 top-level boxes: which ones it goes along with, and the fragment of each mdat box.
 */
module IndexAcceptance {
  import opened Bytes
  import opened Options
  import opened Boxes
  import opened Tracks
  import opened Samples
  import opened Fragments
  import opened LateClocks
  import opened RecordingIndex
  import opened FragmentClocks
  import opened Keyframes
  import opened BoxOrder

  // ---------- what is ahead of a box ----------

  /** A fragment ahead of box i waits for its media data. */
  predicate Open(bs: seq<Box>, i: nat)
    requires i <= |bs|
  {
    LastKind(bs, MOOF, i) > LastKind(bs, MDAT, i)
  }

  /** The producer reference for the next fragment: the last one behind the last media data. */
  function RefAhead(src: bytes, bs: seq<Box>, i: nat): Option<Ref>
    requires i <= |bs|
  {
    var p := LastKind(bs, PRFT, i);
    if p <= LastKind(bs, MDAT, i) then None
    else match ReadProducerReference(BodyOf(src, bs[p])) case SomeRef(ref) => Some(ref) case _ => None
  }

  /** The end of the last box of a kind; zero without one. */
  function EndOfLast(bs: seq<Box>, kind: u32, i: nat): int
    requires i <= |bs|
  {
    var k := LastKind(bs, kind, i);
    if k < 0 then 0 else bs[k].offset + bs[k].size
  }

  /** The first media data box; -1 without one ahead of box i. */
  function FirstMdat(bs: seq<Box>, i: nat): (k: int)
    requires i <= |bs|
    ensures -1 <= k < i && (k >= 0 ==> bs[k].kind == MDAT)
    ensures forall j | 0 <= j < (if k < 0 then i else k) :: bs[j].kind != MDAT
  {
    if i == 0 then -1
    else if FirstMdat(bs, i - 1) >= 0 then FirstMdat(bs, i - 1)
    else if bs[i - 1].kind == MDAT then i - 1 else -1
  }

  /** The runs of the fragment that box i closes. */
  function RunsOfFragment(src: bytes, bs: seq<Box>, i: nat): seq<Run>
    requires i <= |bs|
  {
    if LastKind(bs, MOOF, i) < 0 then [] else RunListIn(src, bs, LastKind(bs, MOOF, i))
  }

  /** The last run of a track; -1 without one. */
  function LastRun(runs: seq<Run>, id: u32): (k: int)
    ensures -1 <= k < |runs| && (k >= 0 ==> runs[k].track == id)
    ensures forall j | k < j < |runs| :: runs[j].track != id
  {
    if runs == [] then -1
    else if runs[|runs| - 1].track == id then |runs| - 1
    else
      var k := LastRun(runs[..|runs| - 1], id);
      assert forall j | 0 <= j < |runs| - 1 :: runs[..|runs| - 1][j] == runs[j];
      k
  }

  /** Which of the runs is the video run. */
  function VideoIndex(src: bytes, bs: seq<Box>, i: nat): (r: int)
    requires i <= |bs|
    ensures -1 <= r < |RunsOfFragment(src, bs, i)|
  {
    match RefAhead(src, bs, i) case None => -1 case Some(ref) => LastRun(RunsOfFragment(src, bs, i), ref.track)
  }

  function VideoScale(src: bytes, bs: seq<Box>, i: nat): u32
    requires i <= |bs|
  {
    match RefAhead(src, bs, i) case None => 0 case Some(ref) => ScaleOf(TracksAhead(src, bs, i), ref.track)
  }

  /** How far the producer clock is ahead of the clock of the video run, in milliseconds. */
  function Lead(src: bytes, bs: seq<Box>, i: nat): int
    requires i <= |bs|
  {
    var v := VideoIndex(src, bs, i);
    if v < 0 then 0 else RefAhead(src, bs, i).value.epochMs - TicksMs(RunsOfFragment(src, bs, i)[v].firstPTS, VideoScale(src, bs, i))
  }

  // ---------- the condition on each box ----------

  predicate MoovTaken(src: bytes, bs: seq<Box>, i: nat)
    requires i < |bs|
  {
    SmallEnough(bs[i]) && ReadTracks(BodyOf(src, bs[i])).Read?
  }

  predicate PrftTaken(src: bytes, bs: seq<Box>, i: nat)
    requires i < |bs|
  {
    !Open(bs, i) && SmallEnough(bs[i]) && ReadProducerReference(BodyOf(src, bs[i])).SomeRef?
  }

  /** A reference to a video track of the header is there, and the runs can be read under a higher sequence number. */
  predicate MoofTaken(src: bytes, bs: seq<Box>, i: nat)
    requires i < |bs|
  {
    && !Open(bs, i) && RefAhead(src, bs, i).Some?
    && RefAhead(src, bs, i).value.track in TracksAhead(src, bs, i) && TracksAhead(src, bs, i)[RefAhead(src, bs, i).value.track].video
    && SmallEnough(bs[i]) && RunsIn(src, bs, i).Some? && RunsIn(src, bs, i).value.sequence > SequenceAhead(src, bs, i)
  }

  /** Each run starts where the fragments before left its track. */
  predicate DecodeGoesOn(src: bytes, bs: seq<Box>, i: nat)
    requires i <= |bs|
  {
    forall rr | rr in RunsOfFragment(src, bs, i) ::
      var before := RunsAhead(src, bs, Max(LastKind(bs, MOOF, i), 0), rr.track);
      before != [] ==> rr.first == EndAfter(0, before)
  }

  /** The fragment is whole: its data is in the box, and its decode times go on. */
  predicate MediaFits(src: bytes, bs: seq<Box>, i: nat)
    requires i < |bs|
  {
    (forall rr | rr in RunsOfFragment(src, bs, i) :: InsideBox(rr, bs[i])) && DecodeGoesOn(src, bs, i)
  }

  /** It has a video run that starts with a sync sample and lasts. */
  predicate VideoFits(src: bytes, bs: seq<Box>, i: nat)
    requires i < |bs| && Open(bs, i)
  {
    var v, k, scale := VideoIndex(src, bs, i), LastKind(bs, MOOF, i), VideoScale(src, bs, i);
    && v >= 0 && KeyframeRun(BodyOf(src, bs[k]), TracksAhead(src, bs, k), v)
    && TicksMs(RunsOfFragment(src, bs, i)[v].end, scale) > TicksMs(RunsOfFragment(src, bs, i)[v].start, scale)
  }

  predicate MdatTaken(src: bytes, bs: seq<Box>, i: nat)
    requires i < |bs|
  {
    && Open(bs, i) && MediaFits(src, bs, i) && VideoFits(src, bs, i)
    && (FirstMdat(bs, i) >= 0 ==> -2 <= Lead(src, bs, i) - Lead(src, bs, FirstMdat(bs, i)) <= 2)
  }

  /** What box i must be, given the boxes ahead of it. */
  predicate Taken(src: bytes, bs: seq<Box>, i: nat)
    requires i < |bs|
  {
    if bs[i].kind == MOOV then MoovTaken(src, bs, i)
    else if bs[i].kind == PRFT then PrftTaken(src, bs, i)
    else if bs[i].kind == MOOF then MoofTaken(src, bs, i)
    else if bs[i].kind == MDAT then MdatTaken(src, bs, i)
    else true
  }

  /** A prft box of the right form, with a wall clock outside this century. */
  predicate OtherClock(p: bytes) { |p| >= 24 && p[0] == 1 && ReadProducerReference(p).NoRef? }

  /** Box i tells that the file is no fragmented recording, rather than a broken one. */
  predicate Unfragmented(src: bytes, bs: seq<Box>, i: nat)
    requires i < |bs|
  {
    if bs[i].kind == MOOV then SmallEnough(bs[i]) && ReadTracks(BodyOf(src, bs[i])).NotFragmented?
    else if bs[i].kind == PRFT then !Open(bs, i) && SmallEnough(bs[i]) && OtherClock(BodyOf(src, bs[i]))
    else if bs[i].kind == MOOF then !Open(bs, i) && (TracksAhead(src, bs, i) == map[] || RefAhead(src, bs, i).None?)
    else bs[i].kind == MDAT && !Open(bs, i)
  }

  // ---------- the fragment of each mdat box ----------

  /** From the producer reference to the end of the media data, with the times of the video run. */
  function FragmentOfBox(src: bytes, bs: seq<Box>, i: nat, origin: int): Fragment
    requires i < |bs|
  {
    var p, v := LastKind(bs, PRFT, i), VideoIndex(src, bs, i);
    if p < 0 || v < 0 then Fragment(0, 0, 0, 0, 0, 0, 0)
    else
      FragmentOf(SequenceAhead(src, bs, i), bs[p].offset, bs[i].offset + bs[i].size - bs[p].offset,
                 RunsOfFragment(src, bs, i)[v], VideoScale(src, bs, i), RefAhead(src, bs, i).value.epochMs, origin)
  }

  /** Media times count from the earliest decode time of the first fragment. */
  function OriginOf(src: bytes, bs: seq<Box>, i: nat): int
    requires i <= |bs|
  {
    var d := FirstMdat(bs, i);
    if d < 0 then 0 else EarliestMs(RunsOfFragment(src, bs, d), TracksAhead(src, bs, d))
  }

  /** The fragments of the mdat boxes ahead of box i. */
  function FragmentsAhead(src: bytes, bs: seq<Box>, i: nat, origin: int): seq<Fragment>
    requires i <= |bs|
  {
    if i == 0 then []
    else FragmentsAhead(src, bs, i - 1, origin) + if bs[i - 1].kind == MDAT then [FragmentOfBox(src, bs, i - 1, origin)] else []
  }

  // ---------- the state of the walk ----------

  /** The fragments that have been indexed lie ahead of this box. */
  function Closed(bs: seq<Box>, i: nat): (n: nat)
    requires i <= |bs|
    ensures n <= i
  {
    if Open(bs, i) then LastKind(bs, MOOF, i) else i
  }

  ghost predicate DecodedAt(src: bytes, bs: seq<Box>, n: nat, previous: map<u32, int>)
    requires n <= |bs|
  {
    forall id: u32 :: (id in previous <==> RunsAhead(src, bs, n, id) != []) && (id in previous ==> previous[id] == EndAfter(0, RunsAhead(src, bs, n, id)))
  }

  ghost predicate StateAt(src: bytes, bs: seq<Box>, i: nat, s: State)
    requires i <= |bs|
  {
    && s.tracks == TracksAhead(src, bs, i) && s.ref == RefAhead(src, bs, i)
    && s.index.initLength == EndOfLast(bs, MOOV, i) && s.index.committedOffset == EndOfLast(bs, MDAT, i)
    && (s.ref.Some? ==> s.pendingOffset == bs[LastKind(bs, PRFT, i)].offset)
    && s.pending == Open(bs, i) && (s.pending ==> s.runs == RunsOfFragment(src, bs, i) && s.ref.Some?)
    && s.previousSequence == SequenceAhead(src, bs, i) && DecodedAt(src, bs, Closed(bs, i), s.previousDecode)
    && s.originMs == OriginOf(src, bs, i) && s.index.fragments == FragmentsAhead(src, bs, i, s.originMs)
    && (FirstMdat(bs, i) >= 0 ==> VideoIndex(src, bs, FirstMdat(bs, i)) >= 0)
  }

  lemma BeginState(src: bytes, bs: seq<Box>)
    ensures StateAt(src, bs, 0, BEGIN)
  {
  }

  // ---------- lists ----------

  lemma {:induction false} RunOfIsLast(runs: seq<Run>, id: u32)
    ensures RunOf(runs, id) == if LastRun(runs, id) < 0 then None else Some(runs[LastRun(runs, id)])
    decreases |runs|
  {
    if runs != [] && runs[|runs| - 1].track != id { RunOfIsLast(runs[..|runs| - 1], id); }
  }

  lemma {:induction false} DecodedIs(previous: map<u32, int>, runs: seq<Run>, id: u32)
    ensures var d := Decoded(previous, runs);
            && (id in d <==> id in previous || RunsFor(runs, id) != [])
            && (id in d ==> d[id] == EndAfter(if id in previous then previous[id] else 0, RunsFor(runs, id)))
    decreases |runs|
  {
    if runs != [] { DecodedIs(previous, runs[..|runs| - 1], id); }
  }

  lemma DecodedMore(src: bytes, bs: seq<Box>, k: nat, previous: map<u32, int>)
    requires k < |bs| && DecodedAt(src, bs, k, previous)
    ensures DecodedAt(src, bs, k + 1, Decoded(previous, RunListIn(src, bs, k)))
  {
    hide Decoded, RunsFor, RunListIn;
    forall id: u32
      ensures var d, rs := Decoded(previous, RunListIn(src, bs, k)), RunsAhead(src, bs, k + 1, id);
              (id in d <==> rs != []) && (id in d ==> d[id] == EndAfter(0, rs))
    {
      DecodedIs(previous, RunListIn(src, bs, k), id);
    }
  }

  /** Boxes that are no fragments bring no runs. */
  lemma {:induction false} SameDecoded(src: bytes, bs: seq<Box>, n: nat, m: nat, previous: map<u32, int>)
    requires n <= m <= |bs| && DecodedAt(src, bs, n, previous) && forall j | n <= j < m :: bs[j].kind != MOOF
    ensures DecodedAt(src, bs, m, previous)
    decreases m - n
  {
    hide RunsAhead, EndAfter;
    if n < m {
      forall id: u32
        ensures RunsAhead(src, bs, n + 1, id) == RunsAhead(src, bs, n, id)
      {
        NoRunsHere(src, bs, n, id);
      }
      SameDecoded(src, bs, n + 1, m, previous);
    }
  }

  lemma {:induction false} NoMdatYet(src: bytes, bs: seq<Box>, i: nat, origin: int)
    requires i <= |bs|
    ensures FragmentsAhead(src, bs, i, origin) == [] <==> FirstMdat(bs, i) < 0
    ensures FirstMdat(bs, i) >= 0 ==> FragmentsAhead(src, bs, i, origin)[0] == FragmentOfBox(src, bs, FirstMdat(bs, i), origin)
    decreases i
  {
    hide FragmentOfBox;
    if i > 0 { NoMdatYet(src, bs, i - 1, origin); }
  }

  // ---------- one step ----------

  /** What a box that is no mdat leaves as it was. */
  lemma SameMedia(src: bytes, bs: seq<Box>, i: nat, origin: int)
    requires i < |bs| && bs[i].kind != MDAT
    ensures FirstMdat(bs, i + 1) == FirstMdat(bs, i) && OriginOf(src, bs, i + 1) == OriginOf(src, bs, i)
    ensures FragmentsAhead(src, bs, i + 1, origin) == FragmentsAhead(src, bs, i, origin)
    ensures EndOfLast(bs, MDAT, i + 1) == EndOfLast(bs, MDAT, i)
  {
    hide FragmentOfBox, EarliestMs;
    assert FragmentsAhead(src, bs, i, origin) + [] == FragmentsAhead(src, bs, i, origin);
  }

  lemma MoovStep(src: bytes, bs: seq<Box>, i: nat, s: State)
    requires i < |bs| && IsBox(src, bs[i]) && StateAt(src, bs, i, s) && bs[i].kind == MOOV
    ensures OnBox(src, s, bs[i]).Next? <==> Taken(src, bs, i)
    ensures OnBox(src, s, bs[i]).Fail? ==> (OnBox(src, s, bs[i]).error == NotFragmentedMedia <==> Unfragmented(src, bs, i))
    ensures OnBox(src, s, bs[i]).Next? ==> StateAt(src, bs, i + 1, OnBox(src, s, bs[i]).s)
  {
    BodyIs(src, bs[i]);
    SameMedia(src, bs, i, s.originMs);
    SameDecodedNext(src, bs, i, s.previousDecode);
    NewHeader(src, bs, i);
    hide RunsIn, ReadTracks, ReadProducerReference, OnMoof, OnMdat, OnPrft, VideoIndex, FragmentsAhead, OriginOf, RunsAhead, Payload, TracksAhead, DecodedAt, RunsOfFragment,
         SequenceAhead, RefAhead, EndOfLast, Open, Closed, FirstMdat;
  }

  lemma NewHeader(src: bytes, bs: seq<Box>, i: nat)
    requires i < |bs| && bs[i].kind == MOOV
    ensures TracksAhead(src, bs, i + 1) == match ReadTracks(BodyOf(src, bs[i])) case Read(tracks) => tracks case _ => map[]
    ensures EndOfLast(bs, MOOV, i + 1) == bs[i].offset + bs[i].size
    ensures RefAhead(src, bs, i + 1) == RefAhead(src, bs, i) && LastKind(bs, PRFT, i + 1) == LastKind(bs, PRFT, i)
  {
    hide ReadTracks, ReadProducerReference;
  }

  /** The decode times behind a box that neither opens nor closes a fragment. */
  lemma SameDecodedNext(src: bytes, bs: seq<Box>, i: nat, previous: map<u32, int>)
    requires i < |bs| && bs[i].kind != MOOF && bs[i].kind != MDAT && DecodedAt(src, bs, Closed(bs, i), previous)
    ensures DecodedAt(src, bs, Closed(bs, i + 1), previous) && (Open(bs, i + 1) <==> Open(bs, i))
    ensures RunsOfFragment(src, bs, i + 1) == RunsOfFragment(src, bs, i) && SequenceAhead(src, bs, i + 1) == SequenceAhead(src, bs, i)
  {
    hide RunsIn, DecodedAt;
    if !Open(bs, i) { SameDecoded(src, bs, i, i + 1, previous); }
  }

  lemma PrftStep(src: bytes, bs: seq<Box>, i: nat, s: State)
    requires i < |bs| && IsBox(src, bs[i]) && StateAt(src, bs, i, s) && bs[i].kind == PRFT
    ensures OnBox(src, s, bs[i]).Next? <==> Taken(src, bs, i)
    ensures OnBox(src, s, bs[i]).Fail? ==> (OnBox(src, s, bs[i]).error == NotFragmentedMedia <==> Unfragmented(src, bs, i))
    ensures OnBox(src, s, bs[i]).Next? ==> StateAt(src, bs, i + 1, OnBox(src, s, bs[i]).s)
  {
    hide RunsIn, ReadTracks, ReadProducerReference, OnMoof, OnMdat, OnMoov, VideoIndex, FragmentsAhead, OriginOf, RunsAhead, Payload, TracksAhead, RunsOfFragment, SequenceAhead, OtherClock;
    BodyIs(src, bs[i]);
    SameMedia(src, bs, i, s.originMs);
    SameDecodedNext(src, bs, i, s.previousDecode);
    OtherClockIs(BodyOf(src, bs[i]));
    SameHeader(src, bs, i);
  }

  lemma OtherClockIs(p: bytes)
    ensures ReadProducerReference(p).NoRef? ==> (ReadProducerReference(p).error == NotFragmentedMedia <==> OtherClock(p))
  {
    hide U32;
  }

  lemma SameHeader(src: bytes, bs: seq<Box>, i: nat)
    requires i < |bs| && bs[i].kind != MOOV
    ensures TracksAhead(src, bs, i + 1) == TracksAhead(src, bs, i) && EndOfLast(bs, MOOV, i + 1) == EndOfLast(bs, MOOV, i)
  {
    hide ReadTracks;
  }

  lemma MoofStep(src: bytes, bs: seq<Box>, i: nat, s: State)
    requires i < |bs| && IsBox(src, bs[i]) && NoneEmpty(bs) && StateAt(src, bs, i, s) && bs[i].kind == MOOF
    ensures OnBox(src, s, bs[i]).Next? <==> Taken(src, bs, i)
    ensures OnBox(src, s, bs[i]).Fail? ==> (OnBox(src, s, bs[i]).error == NotFragmentedMedia <==> Unfragmented(src, bs, i))
    ensures OnBox(src, s, bs[i]).Next? ==> StateAt(src, bs, i + 1, OnBox(src, s, bs[i]).s)
  {
    hide RunsMoof, ChildrenFrom, ReadTracks, ReadProducerReference, OnPrft, OnMdat, OnMoov, VideoIndex, FragmentsAhead, OriginOf, RunsAhead, Payload, TracksAhead, EndOfLast;
    BodyIs(src, bs[i]);
    SameMedia(src, bs, i, s.originMs);
    SameHeader(src, bs, i);
    NoHeaderNoTracks(src, bs, i);
    if OnBox(src, s, bs[i]).Next? { OpenedState(src, bs, i); }
  }

  predicate NoneEmpty(bs: seq<Box>) { forall j | 0 <= j < |bs| :: bs[j].size > 0 }

  lemma NoHeaderNoTracks(src: bytes, bs: seq<Box>, i: nat)
    requires i < |bs| && NoneEmpty(bs)
    ensures EndOfLast(bs, MOOV, i) == 0 ==> TracksAhead(src, bs, i) == map[]
  {
    hide ReadTracks;
  }

  lemma OpenedState(src: bytes, bs: seq<Box>, i: nat)
    requires i < |bs| && bs[i].kind == MOOF && RunsIn(src, bs, i).Some? && !Open(bs, i)
    ensures Open(bs, i + 1) && RunsOfFragment(src, bs, i + 1) == RunsIn(src, bs, i).value.runs && SequenceAhead(src, bs, i + 1) == RunsIn(src, bs, i).value.sequence
    ensures RefAhead(src, bs, i + 1) == RefAhead(src, bs, i) && LastKind(bs, PRFT, i + 1) == LastKind(bs, PRFT, i)
    ensures Closed(bs, i + 1) == i == Closed(bs, i)
  {
    hide RunsIn, ReadProducerReference;
  }

  // ---------- the mdat step ----------

  lemma RunsFollow(src: bytes, bs: seq<Box>, i: nat, s: State)
    requires i < |bs| && StateAt(src, bs, i, s) && s.pending
    ensures (exists rr | rr in s.runs :: !RunFollows(rr, s.previousDecode, bs[i])) <==> !MediaFits(src, bs, i)
  {
    hide RunsIn, ReadTracks, ReadProducerReference, VideoIndex, FragmentsAhead, OriginOf, RunsAhead, TracksAhead, EndOfLast, RunsOfFragment, RefAhead;
    var k := LastKind(bs, MOOF, i);
    assert Closed(bs, i) == k;
    forall rr | rr in s.runs
      ensures RunFollows(rr, s.previousDecode, bs[i])
              <==> InsideBox(rr, bs[i]) && (RunsAhead(src, bs, k, rr.track) != [] ==> rr.first == EndAfter(0, RunsAhead(src, bs, k, rr.track)))
    {
    }
  }

  /** The video run, and whether it is a keyframe run. */
  lemma VideoKey(src: bytes, bs: seq<Box>, i: nat)
    requires i < |bs| && Open(bs, i) && RunsIn(src, bs, LastKind(bs, MOOF, i)).Some? && VideoIndex(src, bs, i) >= 0
    ensures var v, k := VideoIndex(src, bs, i), LastKind(bs, MOOF, i);
            RunsOfFragment(src, bs, i)[v].key <==> KeyframeRun(BodyOf(src, bs[k]), TracksAhead(src, bs, k), v)
  {
    hide ReadTracks, ReadProducerReference, KeyframeRun, TracksAhead, RunsMoof;
    var v, k := VideoIndex(src, bs, i), LastKind(bs, MOOF, i);
    KeysAreSync(BodyOf(src, bs[k]), TracksAhead(src, bs, k), bs[k].offset, v);
  }

  /** The lead of the producer clock is what the index keeps of it, less the origin. */
  lemma LeadIs(src: bytes, bs: seq<Box>, i: nat, origin: int)
    requires i < |bs| && VideoIndex(src, bs, i) >= 0
    ensures ClockOffset(FragmentOfBox(src, bs, i, origin)) == Lead(src, bs, i) + origin
  {
    ReferenceThere(src, bs, i);
    hide TicksMs, RunsOfFragment, ReadProducerReference, TracksAhead, VideoIndex, RefAhead, VideoScale, LastKind, SequenceAhead, ScaleOf;
  }

  lemma ReferenceThere(src: bytes, bs: seq<Box>, i: nat)
    requires i <= |bs| && VideoIndex(src, bs, i) >= 0
    ensures RefAhead(src, bs, i).Some? && LastKind(bs, PRFT, i) >= 0
  {
    hide RunsOfFragment, ReadProducerReference;
  }

  /** A fragment that is open was read. */
  ghost predicate OpenRead(src: bytes, bs: seq<Box>, i: nat)
    requires i <= |bs|
  {
    Open(bs, i) ==> RunsIn(src, bs, LastKind(bs, MOOF, i)).Some?
  }

  lemma VideoIs(src: bytes, bs: seq<Box>, i: nat, s: State)
    requires i < |bs| && StateAt(src, bs, i, s) && s.pending
    ensures s.ref.Some? && RunOf(s.runs, s.ref.value.track) == if VideoIndex(src, bs, i) < 0 then None else Some(RunsOfFragment(src, bs, i)[VideoIndex(src, bs, i)])
    ensures VideoScale(src, bs, i) == ScaleOf(s.tracks, s.ref.value.track)
    ensures VideoIndex(src, bs, i) >= 0 ==> RunsOfFragment(src, bs, i)[VideoIndex(src, bs, i)].track == s.ref.value.track
  {
    hide RunsIn, ReadTracks, ReadProducerReference, FragmentsAhead, OriginOf, RunsAhead, TracksAhead, EndOfLast, RunsOfFragment, RefAhead, ScaleOf, DecodedAt;
    RunOfIsLast(s.runs, s.ref.value.track);
  }

  lemma FragmentIs(src: bytes, bs: seq<Box>, i: nat, s: State, origin: int)
    requires i < |bs| && StateAt(src, bs, i, s) && s.pending && s.ref.Some? && VideoIndex(src, bs, i) >= 0
    ensures NewFragment(s, bs[i], RunsOfFragment(src, bs, i)[VideoIndex(src, bs, i)], origin) == FragmentOfBox(src, bs, i, origin)
  {
    hide RunsIn, ReadTracks, ReadProducerReference, FragmentsAhead, OriginOf, RunsAhead, TracksAhead, EndOfLast, RunsOfFragment, TicksMs, ScaleOf, DecodedAt;
    VideoIs(src, bs, i, s);
  }

  lemma MdatTakenIff(src: bytes, bs: seq<Box>, i: nat, s: State)
    requires i < |bs| && StateAt(src, bs, i, s) && bs[i].kind == MDAT && OpenRead(src, bs, i)
    ensures OnMdat(s, bs[i]).Next? <==> MdatTaken(src, bs, i)
    ensures OnMdat(s, bs[i]).Fail? ==> (OnMdat(s, bs[i]).error == NotFragmentedMedia <==> !Open(bs, i))
    ensures OnMdat(s, bs[i]).Next? ==>
              var origin := if FirstMdat(bs, i) < 0 then EarliestMs(RunsOfFragment(src, bs, i), TracksAhead(src, bs, i)) else s.originMs;
              OnMdat(s, bs[i]).s == s.(index := s.index.(fragments := s.index.fragments + [FragmentOfBox(src, bs, i, origin)], committedOffset := bs[i].offset + bs[i].size),
                                       originMs := origin, previousDecode := Decoded(s.previousDecode, s.runs), pending := false, ref := None, runs := [])
  {
    hide *;
    PendingIs(src, bs, i, s);
    NotPending(s, bs[i]);
    if s.pending {
      RunsFollow(src, bs, i, s);
      VideoIs(src, bs, i, s);
      NoMdatYet(src, bs, i, s.originMs);
      var v := VideoIndex(src, bs, i);
      if v < 0 {
        NoVideo(s, bs[i]);
        NoVideoNoFit(src, bs, i);
      } else {
        var video := RunsOfFragment(src, bs, i)[v];
        var origin := if FirstMdat(bs, i) < 0 then EarliestMs(RunsOfFragment(src, bs, i), TracksAhead(src, bs, i)) else s.originMs;
        FragmentIs(src, bs, i, s, origin);
        OnMdatIs(s, bs[i], video, origin);
        VideoKey(src, bs, i);
        LastsIs(src, bs, i, origin);
        LeadIs(src, bs, i, origin);
        if FirstMdat(bs, i) >= 0 { LeadIs(src, bs, FirstMdat(bs, i), origin); }
        MdatTakenIs(src, bs, i);
      }
    } else {
      ClosedNotTaken(src, bs, i);
    }
  }

  lemma PendingIs(src: bytes, bs: seq<Box>, i: nat, s: State)
    requires i < |bs| && StateAt(src, bs, i, s) && OpenRead(src, bs, i)
    ensures s.pending == Open(bs, i) && (s.pending ==> s.ref.Some? && s.runs == RunsOfFragment(src, bs, i) && RunsIn(src, bs, LastKind(bs, MOOF, i)).Some?)
    ensures s.tracks == TracksAhead(src, bs, i) && s.index.fragments == FragmentsAhead(src, bs, i, s.originMs)
    ensures FirstMdat(bs, i) >= 0 ==> VideoIndex(src, bs, FirstMdat(bs, i)) >= 0
  {
    hide RunsIn, FragmentsAhead, TracksAhead, VideoIndex, DecodedAt, RunsOfFragment, RefAhead, OriginOf;
  }

  lemma NotPending(s: State, b: Box)
    ensures !s.pending ==> OnMdat(s, b) == Fail(NotFragmentedMedia)
  {
  }

  lemma NoVideo(s: State, b: Box)
    requires s.pending && s.ref.Some? && RunOf(s.runs, s.ref.value.track).None?
    ensures OnMdat(s, b) == Fail(InvalidMedia)
  {
    hide RunFollows;
  }

  lemma NoVideoNoFit(src: bytes, bs: seq<Box>, i: nat)
    requires i < |bs| && VideoIndex(src, bs, i) < 0
    ensures !MdatTaken(src, bs, i)
  {
    hide KeyframeRun, TicksMs, MediaFits, Lead;
  }

  lemma ClosedNotTaken(src: bytes, bs: seq<Box>, i: nat)
    requires i < |bs| && !Open(bs, i)
    ensures !MdatTaken(src, bs, i)
  {
  }

  lemma OnMdatIs(s: State, b: Box, video: Run, origin: int)
    requires s.pending && s.ref.Some? && RunOf(s.runs, s.ref.value.track) == Some(video)
    requires origin == if s.index.fragments == [] then EarliestMs(s.runs, s.tracks) else s.originMs
    ensures var f, fs := NewFragment(s, b, video, origin), s.index.fragments;
            && (OnMdat(s, b).Next? <==> !(exists rr | rr in s.runs :: !RunFollows(rr, s.previousDecode, b)) && video.key && f.endMs > f.startMs
                                        && (fs != [] ==> -2 <= ClockOffset(f) - ClockOffset(fs[0]) <= 2))
            && (OnMdat(s, b).Fail? ==> OnMdat(s, b).error == InvalidMedia)
            && (OnMdat(s, b).Next? ==>
                  OnMdat(s, b).s == s.(index := s.index.(fragments := fs + [f], committedOffset := b.offset + b.size),
                                       originMs := origin, previousDecode := Decoded(s.previousDecode, s.runs), pending := false, ref := None, runs := []))
  {
    hide RunFollows, NewFragment, EarliestMs, Decoded, RunOf, ClockOffset;
  }

  lemma MdatTakenIs(src: bytes, bs: seq<Box>, i: nat)
    requires i < |bs| && Open(bs, i) && VideoIndex(src, bs, i) >= 0
    ensures var v, k, scale := VideoIndex(src, bs, i), LastKind(bs, MOOF, i), VideoScale(src, bs, i);
            MdatTaken(src, bs, i)
            <==> MediaFits(src, bs, i) && KeyframeRun(BodyOf(src, bs[k]), TracksAhead(src, bs, k), v)
                 && TicksMs(RunsOfFragment(src, bs, i)[v].end, scale) > TicksMs(RunsOfFragment(src, bs, i)[v].start, scale)
                 && (FirstMdat(bs, i) >= 0 ==> -2 <= Lead(src, bs, i) - Lead(src, bs, FirstMdat(bs, i)) <= 2)
  {
    hide KeyframeRun, TicksMs, MediaFits, Lead, VideoIndex, RunsOfFragment, TracksAhead, LastKind, VideoScale;
  }

  lemma LastsIs(src: bytes, bs: seq<Box>, i: nat, origin: int)
    requires i < |bs| && VideoIndex(src, bs, i) >= 0
    ensures var f, v, scale := FragmentOfBox(src, bs, i, origin), VideoIndex(src, bs, i), VideoScale(src, bs, i);
            f.endMs > f.startMs <==> TicksMs(RunsOfFragment(src, bs, i)[v].end, scale) > TicksMs(RunsOfFragment(src, bs, i)[v].start, scale)
  {
    ReferenceThere(src, bs, i);
    hide TicksMs, RunsOfFragment, ReadProducerReference, TracksAhead, VideoIndex, RefAhead, VideoScale, LastKind, SequenceAhead, ScaleOf;
  }

  lemma MdatStep(src: bytes, bs: seq<Box>, i: nat, s: State)
    requires i < |bs| && IsBox(src, bs[i]) && StateAt(src, bs, i, s) && bs[i].kind == MDAT && OpenRead(src, bs, i)
    ensures OnBox(src, s, bs[i]).Next? <==> Taken(src, bs, i)
    ensures OnBox(src, s, bs[i]).Fail? ==> (OnBox(src, s, bs[i]).error == NotFragmentedMedia <==> Unfragmented(src, bs, i))
    ensures OnBox(src, s, bs[i]).Next? ==> StateAt(src, bs, i + 1, OnBox(src, s, bs[i]).s)
  {
    MdatTakenIff(src, bs, i, s);
    MdatOnly(src, s, bs, i);
    if MdatTaken(src, bs, i) { ClosedState(src, bs, i, s); }
    hide *;
  }

  lemma MdatOnly(src: bytes, s: State, bs: seq<Box>, i: nat)
    requires i < |bs| && IsBox(src, bs[i]) && bs[i].kind == MDAT
    ensures OnBox(src, s, bs[i]) == OnMdat(s, bs[i]) && Taken(src, bs, i) == MdatTaken(src, bs, i) && Unfragmented(src, bs, i) == !Open(bs, i)
  {
    hide OnMdat, MdatTaken, Open;
  }

  lemma ClosedState(src: bytes, bs: seq<Box>, i: nat, s: State)
    requires i < |bs| && StateAt(src, bs, i, s) && bs[i].kind == MDAT && MdatTaken(src, bs, i) && s.pending
    ensures var origin := if FirstMdat(bs, i) < 0 then EarliestMs(RunsOfFragment(src, bs, i), TracksAhead(src, bs, i)) else s.originMs;
            StateAt(src, bs, i + 1, s.(index := s.index.(fragments := s.index.fragments + [FragmentOfBox(src, bs, i, origin)], committedOffset := bs[i].offset + bs[i].size),
                                       originMs := origin, previousDecode := Decoded(s.previousDecode, s.runs), pending := false, ref := None, runs := []))
  {
    hide *;
    NotHeader(bs[i]);
    StateParts(src, bs, i, s);
    DecodedClosed(src, bs, i, s);
    FirstMdatFits(src, bs, i);
    SameHeader(src, bs, i);
    ClosedLists(src, bs, i);
    ClosedFragments(src, bs, i, s.originMs);
    var origin := if FirstMdat(bs, i) < 0 then EarliestMs(RunsOfFragment(src, bs, i), TracksAhead(src, bs, i)) else s.originMs;
    ClosedFrom(src, bs, i + 1, s.(index := s.index.(fragments := s.index.fragments + [FragmentOfBox(src, bs, i, origin)], committedOffset := bs[i].offset + bs[i].size),
                                  originMs := origin, previousDecode := Decoded(s.previousDecode, s.runs), pending := false, ref := None, runs := []));
  }

  lemma NotHeader(b: Box)
    ensures b.kind == MDAT ==> b.kind != MOOV
  {
  }

  lemma StateParts(src: bytes, bs: seq<Box>, i: nat, s: State)
    requires i < |bs| && StateAt(src, bs, i, s)
    ensures s.originMs == OriginOf(src, bs, i) && s.index.fragments == FragmentsAhead(src, bs, i, s.originMs)
    ensures s.tracks == TracksAhead(src, bs, i) && s.index.initLength == EndOfLast(bs, MOOV, i) && s.previousSequence == SequenceAhead(src, bs, i)
    ensures FirstMdat(bs, i) >= 0 ==> VideoIndex(src, bs, FirstMdat(bs, i)) >= 0
  {
    hide FragmentsAhead, OriginOf, VideoIndex, TracksAhead, DecodedAt, RunsOfFragment, EndOfLast, SequenceAhead, RefAhead;
  }

  lemma ClosedFrom(src: bytes, bs: seq<Box>, i: nat, s: State)
    requires i <= |bs| && s.tracks == TracksAhead(src, bs, i) && s.ref.None? && RefAhead(src, bs, i).None? && !s.pending && !Open(bs, i)
    requires s.index.initLength == EndOfLast(bs, MOOV, i) && s.index.committedOffset == EndOfLast(bs, MDAT, i)
    requires s.previousSequence == SequenceAhead(src, bs, i) && Closed(bs, i) == i && DecodedAt(src, bs, i, s.previousDecode)
    requires s.originMs == OriginOf(src, bs, i) && s.index.fragments == FragmentsAhead(src, bs, i, s.originMs)
    requires FirstMdat(bs, i) >= 0 ==> VideoIndex(src, bs, FirstMdat(bs, i)) >= 0
    ensures StateAt(src, bs, i, s)
  {
    hide FragmentsAhead, OriginOf, VideoIndex, TracksAhead, DecodedAt, RunsOfFragment, EndOfLast, SequenceAhead, RefAhead, Open, Closed;
  }

  /** Behind a media data box no fragment is open and no reference waits. */
  lemma ClosedLists(src: bytes, bs: seq<Box>, i: nat)
    requires i < |bs| && bs[i].kind == MDAT
    ensures !Open(bs, i + 1) && RefAhead(src, bs, i + 1).None? && SequenceAhead(src, bs, i + 1) == SequenceAhead(src, bs, i)
    ensures EndOfLast(bs, MDAT, i + 1) == bs[i].offset + bs[i].size
    ensures FirstMdat(bs, i + 1) == if FirstMdat(bs, i) < 0 then i else FirstMdat(bs, i)
  {
    hide RunsIn, ReadProducerReference;
  }

  lemma ClosedFragments(src: bytes, bs: seq<Box>, i: nat, was: int)
    requires i < |bs| && bs[i].kind == MDAT && was == OriginOf(src, bs, i)
    ensures var origin := if FirstMdat(bs, i) < 0 then EarliestMs(RunsOfFragment(src, bs, i), TracksAhead(src, bs, i)) else was;
            && OriginOf(src, bs, i + 1) == origin
            && FragmentsAhead(src, bs, i + 1, origin) == FragmentsAhead(src, bs, i, was) + [FragmentOfBox(src, bs, i, origin)]
  {
    hide RunsIn, TracksAhead, EarliestMs, FragmentOfBox, RunsOfFragment;
    NoMdatYet(src, bs, i, was);
    ClosedLists(src, bs, i);
    NoMdatYet(src, bs, i, if FirstMdat(bs, i) < 0 then EarliestMs(RunsOfFragment(src, bs, i), TracksAhead(src, bs, i)) else was);
  }

  lemma FirstMdatFits(src: bytes, bs: seq<Box>, i: nat)
    requires i < |bs| && MdatTaken(src, bs, i)
    ensures VideoIndex(src, bs, i) >= 0
  {
    hide KeyframeRun, TicksMs, MediaFits, Lead, VideoIndex;
  }

  lemma DecodedClosed(src: bytes, bs: seq<Box>, i: nat, s: State)
    requires i < |bs| && StateAt(src, bs, i, s) && bs[i].kind == MDAT && s.pending
    ensures DecodedAt(src, bs, i + 1, Decoded(s.previousDecode, s.runs)) && Closed(bs, i + 1) == i + 1
  {
    hide RunsIn, ReadTracks, ReadProducerReference, FragmentsAhead, DecodedAt, Decoded, VideoIndex, TracksAhead, OriginOf, RefAhead, EndOfLast;
    var k := LastKind(bs, MOOF, i);
    DecodedMore(src, bs, k, s.previousDecode);
    SameDecoded(src, bs, k + 1, i + 1, Decoded(s.previousDecode, s.runs));
  }

  lemma PlainStep(src: bytes, bs: seq<Box>, i: nat, s: State)
    requires i < |bs| && IsBox(src, bs[i]) && StateAt(src, bs, i, s)
    requires bs[i].kind != MOOV && bs[i].kind != PRFT && bs[i].kind != MOOF && bs[i].kind != MDAT
    ensures OnBox(src, s, bs[i]) == Next(s) && Taken(src, bs, i) && StateAt(src, bs, i + 1, s)
  {
    hide RunsIn, ReadTracks, ReadProducerReference, VideoIndex, FragmentsAhead, OriginOf, RunsAhead, TracksAhead, RunsOfFragment, SequenceAhead, DecodedAt, Closed;
    SameMedia(src, bs, i, s.originMs);
    SameDecodedNext(src, bs, i, s.previousDecode);
    SameHeader(src, bs, i);
  }

  // ---------- the whole walk ----------

  /** All fragments ahead that are open were read. */
  lemma OpenStays(src: bytes, bs: seq<Box>, i: nat)
    requires i < |bs| && OpenRead(src, bs, i) && Taken(src, bs, i)
    ensures OpenRead(src, bs, i + 1)
  {
    hide RunsIn, MdatTaken, MoovTaken, PrftTaken, RefAhead, TracksAhead;
  }

  lemma TakeStep(src: bytes, bs: seq<Box>, i: nat, s: State)
    requires i < |bs| && IsBox(src, bs[i]) && NoneEmpty(bs) && StateAt(src, bs, i, s) && OpenRead(src, bs, i)
    ensures OnBox(src, s, bs[i]).Next? <==> Taken(src, bs, i)
    ensures OnBox(src, s, bs[i]).Fail? ==> (OnBox(src, s, bs[i]).error == NotFragmentedMedia <==> Unfragmented(src, bs, i))
    ensures OnBox(src, s, bs[i]).Next? ==> StateAt(src, bs, i + 1, OnBox(src, s, bs[i]).s) && OpenRead(src, bs, i + 1)
  {
    hide *;
    if bs[i].kind == MOOV {
      MoovStep(src, bs, i, s);
    } else if bs[i].kind == PRFT {
      PrftStep(src, bs, i, s);
    } else if bs[i].kind == MOOF {
      MoofStep(src, bs, i, s);
    } else if bs[i].kind == MDAT {
      MdatStep(src, bs, i, s);
    } else {
      PlainStep(src, bs, i, s);
    }
    if Taken(src, bs, i) { OpenStays(src, bs, i); }
  }

  predicate TakenFrom(src: bytes, bs: seq<Box>, i: nat, n: nat)
    requires n <= |bs|
  {
    forall k | i <= k < n :: Taken(src, bs, k)
  }

  /** Behind boxes that are taken comes one that is not, and that tells of no fragmented recording. */
  predicate UnfragmentedFrom(src: bytes, bs: seq<Box>, i: nat)
    requires i <= |bs|
  {
    exists k | i <= k < |bs| :: !Taken(src, bs, k) && Unfragmented(src, bs, k) && TakenFrom(src, bs, i, k)
  }

  lemma TakenFirst(src: bytes, bs: seq<Box>, i: nat)
    requires i < |bs|
    ensures TakenFrom(src, bs, i, |bs|) <==> Taken(src, bs, i) && TakenFrom(src, bs, i + 1, |bs|)
    ensures UnfragmentedFrom(src, bs, i) <==> (!Taken(src, bs, i) && Unfragmented(src, bs, i)) || (Taken(src, bs, i) && UnfragmentedFrom(src, bs, i + 1))
  {
    hide Taken, Unfragmented;
    if UnfragmentedFrom(src, bs, i) { UnfragmentedHere(src, bs, i); }
    if !Taken(src, bs, i) && Unfragmented(src, bs, i) { assert TakenFrom(src, bs, i, i); }
    if Taken(src, bs, i) && UnfragmentedFrom(src, bs, i + 1) { UnfragmentedSooner(src, bs, i); }
  }

  lemma UnfragmentedHere(src: bytes, bs: seq<Box>, i: nat)
    requires i < |bs| && UnfragmentedFrom(src, bs, i)
    ensures (!Taken(src, bs, i) && Unfragmented(src, bs, i)) || (Taken(src, bs, i) && UnfragmentedFrom(src, bs, i + 1))
  {
    hide Taken, Unfragmented;
    var k :| i <= k < |bs| && !Taken(src, bs, k) && Unfragmented(src, bs, k) && TakenFrom(src, bs, i, k);
    if k > i {
      assert Taken(src, bs, i);
      assert TakenFrom(src, bs, i + 1, k);
    }
  }

  lemma UnfragmentedSooner(src: bytes, bs: seq<Box>, i: nat)
    requires i < |bs| && Taken(src, bs, i) && UnfragmentedFrom(src, bs, i + 1)
    ensures UnfragmentedFrom(src, bs, i)
  {
    hide Taken, Unfragmented;
    var k :| i + 1 <= k < |bs| && !Taken(src, bs, k) && Unfragmented(src, bs, k) && TakenFrom(src, bs, i + 1, k);
    assert TakenFrom(src, bs, i, k);
  }

  /** The bytes behind the whole boxes are the start of one, or nothing. */
  predicate EndsClean(src: bytes, size: nat, pos: nat)
    requires pos <= size <= |src|
  {
    StopAt(src, size, pos) == size || ReadBox(src, StopAt(src, size, pos), size).Partial?
  }

  lemma {:induction false} BoxesSized(src: bytes, size: nat, pos: nat)
    requires pos <= size <= |src|
    ensures NoneEmpty(BoxesFrom(src, size, pos))
    ensures forall j | 0 <= j < |BoxesFrom(src, size, pos)| :: IsBox(src, BoxesFrom(src, size, pos)[j])
    decreases size - pos
  {
    hide ReadBox;
    if pos < size && ReadBox(src, pos, size).Found? {
      ReadBoxAt(src, pos, size);
      BoxesSized(src, size, pos + ReadBox(src, pos, size).box.size);
    }
  }

  lemma {:induction false} WalkTakes(src: bytes, size: nat, pos: nat, s: State, bs: seq<Box>, i: nat)
    requires pos <= size <= |src| && i <= |bs| && bs[i..] == BoxesFrom(src, size, pos) && StateAt(src, bs, i, s) && OpenRead(src, bs, i) && NoneEmpty(bs)
    ensures WalkFrom(src, size, pos, s).Stopped? <==> EndsClean(src, size, pos) && TakenFrom(src, bs, i, |bs|)
    ensures WalkFrom(src, size, pos, s).Broken? ==> (WalkFrom(src, size, pos, s).error == NotFragmentedMedia <==> UnfragmentedFrom(src, bs, i))
    ensures WalkFrom(src, size, pos, s).Stopped? ==>
              StateAt(src, bs, |bs|, WalkFrom(src, size, pos, s).s) && WalkFrom(src, size, pos, s).pos == StopAt(src, size, pos)
    decreases size - pos
  {
    hide ReadBox, OnBox, StateAt, Taken, Unfragmented, TakenFrom, UnfragmentedFrom, BoxesFrom, OpenRead, NoneEmpty;
    BoxesHead(src, size, pos, bs, i);
    if i < |bs| {
      TakeStep(src, bs, i, s);
      TakenFirst(src, bs, i);
      if OnBox(src, s, bs[i]).Next? { WalkTakes(src, size, pos + bs[i].size, OnBox(src, s, bs[i]).s, bs, i + 1); }
    } else {
      NoneLeft(src, bs);
    }
  }

  lemma NoneLeft(src: bytes, bs: seq<Box>)
    ensures TakenFrom(src, bs, |bs|, |bs|) && !UnfragmentedFrom(src, bs, |bs|)
  {
    hide Taken, Unfragmented;
  }

  /** The first n bytes are a recording, as far as whole boxes go. */
  predicate Indexable(src: bytes, n: nat)
    requires n <= |src|
  {
    var bs := BoxesFrom(src, n, 0);
    EndsClean(src, n, 0) && TakenFrom(src, bs, 0, |bs|) && (LastKind(bs, MOOV, |bs|) >= 0 ==> TracksAhead(src, bs, |bs|) != map[])
  }

  /** The index of these boxes: one fragment for each mdat box, with media times from the earliest decode time of the first. */
  function IndexOf(src: bytes, bs: seq<Box>): Index {
    Index(EndOfLast(bs, MOOV, |bs|), EndOfLast(bs, MDAT, |bs|), FragmentsAhead(src, bs, |bs|, OriginOf(src, bs, |bs|)))
  }

  /** The file is no fragmented recording: a box tells so, or a movie header without tracks. */
  predicate NoRecording(src: bytes, n: nat)
    requires n <= |src|
  {
    var bs := BoxesFrom(src, n, 0);
    || UnfragmentedFrom(src, bs, 0)
    || (EndsClean(src, n, 0) && TakenFrom(src, bs, 0, |bs|) && LastKind(bs, MOOV, |bs|) >= 0 && TracksAhead(src, bs, |bs|) == map[])
  }

  /**
   ReadIndex indexes the first n bytes of a file exactly when each whole box is one that
   may follow those ahead of it and nothing corrupt is behind them.  The index then has
   one fragment for each mdat box, and nothing else.
   */
  lemma IndexedExactly(src: bytes, n: nat)
    requires n <= |src|
    ensures ReadIndex(src, n).Indexed? <==> Indexable(src, n)
    ensures ReadIndex(src, n).Indexed? ==> ReadIndex(src, n).index == IndexOf(src, BoxesFrom(src, n, 0))
    ensures ReadIndex(src, n) == Failed(NotFragmentedMedia) <==> NoRecording(src, n)
  {
    hide WalkFrom, TakenFrom, UnfragmentedFrom, BoxesFrom, EndsClean, FragmentsAhead, OriginOf, RefAhead, VideoIndex, DecodedAt, TracksAhead;
    var bs := BoxesFrom(src, n, 0);
    BeginState(src, bs);
    BoxesSized(src, n, 0);
    assert bs[0..] == bs;
    WalkTakes(src, n, 0, BEGIN, bs, 0);
    HeaderEnd(bs);
    BrokenNotStopped(src, bs);
  }

  lemma HeaderEnd(bs: seq<Box>)
    requires NoneEmpty(bs)
    ensures EndOfLast(bs, MOOV, |bs|) > 0 <==> LastKind(bs, MOOV, |bs|) >= 0
  {
  }

  lemma BrokenNotStopped(src: bytes, bs: seq<Box>)
    ensures !(TakenFrom(src, bs, 0, |bs|) && UnfragmentedFrom(src, bs, 0))
  {
    hide Taken, Unfragmented;
  }
}
