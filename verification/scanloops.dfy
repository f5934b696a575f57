/** The loop of readFlatMovie (internal/recordingmedia/flat.go) with the work it does in each box. */
module ScanLoops {
  import opened Bytes
  import opened Options
  import opened Boxes
  import opened Tracks
  import opened Samples
  import opened Fragments
  import opened Walks
  import opened FlatScan
  import opened ScanLemmas
  import BoxOrder
  import Acceptance

  /** The moov case. */
  method TakeMoov(src: bytes, s: Scan, b: Box) returns (r: ScanResult)
    requires b.header <= b.size && b.offset + b.size <= |src|
    ensures r == StepMoov(src, s, b)
  {
    hide ReadTracks, Payload;
    if s.moov.Some? { return Refused; }
    var data := Payload(src, b);
    if data.None? { return Refused; }
    var read := WalkTracks(data.value);
    match read
    case NotFragmented => return PassThrough;
    case Invalid => return Refused;
    case Read(defaults) =>
      return Going(s.(moov := Some(b), metadata := data.value, defaults := defaults, tracks := map id | id in defaults :: NewTrack(defaults[id])));
  }

  /** The check of the clock versions of one traf box. */
  method CheckVersions(cs: seq<Child>) returns (ok: bool)
    ensures ok == KnownVersions(cs)
  {
    for i := 0 to |cs|
      invariant forall k | 0 <= k < i && (cs[k].kind == TFDT || cs[k].kind == TRUN) :: |cs[k].body| >= 4 && cs[k].body[0] <= 1
    {
      if (cs[i].kind == TFDT || cs[i].kind == TRUN) && (|cs[i].body| < 4 || cs[i].body[0] > 1) {
        assert cs[i] in cs;
        return false;
      }
    }
    return true;
  }

  method CheckClocks(cs: seq<Child>) returns (ok: bool)
    ensures ok == KnownClocks(cs)
  {
    hide KnownVersions;
    for i := 0 to |cs|
      invariant forall k | 0 <= k < i && cs[k].kind == TRAF :: Children(cs[k].body).Some? && KnownVersions(Children(cs[k].body).value)
    {
      if cs[i].kind == TRAF {
        assert cs[i] in cs;
        var inner := WalkChildren(cs[i].body);
        if inner.None? { return false; }
        var known := CheckVersions(inner.value);
        if !known { return false; }
      }
    }
    return true;
  }

  /** Number and clock of one traf box: each matching child overwrites what was there. */
  method ClockOfTraf(body: bytes, defaults: map<u32, Track>) returns (r: Option<real>)
    ensures r == TrafStart(body, defaults)
  {
    hide U32, ReadClock;
    var walked := WalkChildren(body);
    if walked.None? { return None; }
    var cs := walked.value;
    var id: u32, clock: bytes := 0, [];
    for i := 0 to |cs|
      invariant id == TrafTrack(cs[..i]) && clock == TrafClock(cs[..i])
    {
      assert cs[..i + 1][..i] == cs[..i];
      if cs[i].kind == TFHD && |cs[i].body| >= 8 { id := U32(cs[i].body, 4); }
      if cs[i].kind == TFDT { clock := cs[i].body; }
    }
    assert cs[..|cs|] == cs;
    if id !in defaults || defaults[id].scale == 0 { return None; }
    var n := ReadClock(clock, 4);
    return if n.None? then None else Some(n.value as real / defaults[id].scale as real);
  }

  lemma StartBroken(cs: seq<Child>, defaults: map<u32, Track>, n: nat)
    requires n <= |cs| && MoofStart(cs[..n], defaults).None?
    ensures MoofStart(cs, defaults).None?
    decreases |cs|
  {
    hide TrafStart;
    if n < |cs| {
      assert cs[..|cs| - 1][..n] == cs[..n];
      StartBroken(cs[..|cs| - 1], defaults, n);
    } else {
      assert cs[..n] == cs;
    }
  }

  method EarliestStart(cs: seq<Child>, defaults: map<u32, Track>) returns (r: Option<Start>)
    ensures r == MoofStart(cs, defaults)
  {
    hide TrafStart;
    var origin := NoStart;
    for i := 0 to |cs|
      invariant MoofStart(cs[..i], defaults) == Some(origin)
    {
      assert cs[..i + 1][..i] == cs[..i];
      if cs[i].kind == TRAF {
        var at := ClockOfTraf(cs[i].body, defaults);
        if at.None? { StartBroken(cs, defaults, i + 1); return None; }
        if origin == NoStart || at.value < origin.seconds { origin := At(at.value); }
      }
    }
    assert cs[..|cs|] == cs;
    return Some(origin);
  }

  lemma RunsBroken(tracks: map<u32, FlatTrack>, runs: seq<Run>, n: nat)
    requires n <= |runs| && ApplyRuns(tracks, runs[..n]).None?
    ensures ApplyRuns(tracks, runs).None?
    decreases |runs|
  {
    hide ApplyRun;
    if n < |runs| {
      assert runs[..|runs| - 1][..n] == runs[..n];
      RunsBroken(tracks, runs[..|runs| - 1], n);
    } else {
      assert runs[..n] == runs;
    }
  }

  /** Each run moves the clock of its track. */
  method MoveClocks(before: map<u32, FlatTrack>, runs: seq<Run>) returns (r: Option<map<u32, FlatTrack>>)
    ensures r == ApplyRuns(before, runs)
  {
    var tracks: map<u32, FlatTrack> := before;
    for i := 0 to |runs|
      invariant ApplyRuns(before, runs[..i]) == Some(tracks)
    {
      assert runs[..i + 1][..i] == runs[..i];
      var rr := runs[i];
      if rr.track !in tracks || (tracks[rr.track].pieces != [] && rr.first != tracks[rr.track].nextDTS) {
        RunsBroken(before, runs, i + 1);
        return None;
      }
      var t := tracks[rr.track];
      if t.pieces == [] { t := t.(firstDTS := rr.first, minPTS := rr.start, maxPTS := rr.end); }
      tracks := tracks[rr.track := t.(minPTS := Min(t.minPTS, rr.start), maxPTS := Max(t.maxPTS, rr.end), nextDTS := rr.decodeEnd)];
    }
    assert runs[..|runs|] == runs;
    return Some(tracks);
  }

  /** readRuns and readSamples on one fragment. */
  method TakeRuns(s: Scan, data: bytes, offset: nat) returns (r: ScanResult)
    ensures r == StepRuns(s, data, offset)
  {
    hide RunsMoof, PiecesMoof, ApplyRun, Children;
    var m := WalkRuns(data, s.defaults, offset);
    if m.None? || m.value.sequence <= s.sequence { return Refused; }
    var tracks := MoveClocks(s.tracks, m.value.runs);
    if tracks.None? { return Refused; }
    var pss := WalkSamples(data, s.defaults, offset);
    if pss.None? { return Refused; }
    return Going(s.(tracks := ApplyPieces(tracks.value, Flatten(pss.value)), pending := m.value.runs, sequence := m.value.sequence, haveFragment := true));
  }

  /** The moof case. */
  method TakeMoof(src: bytes, s: Scan, b: Box) returns (r: ScanResult)
    requires b.header <= b.size && b.offset + b.size <= |src|
    ensures r == StepMoof(src, s, b)
  {
    hide Payload, KnownClocks, MoofStart, StepRuns;
    var data := Payload(src, b);
    if |s.pending| != 0 || data.None? { return Refused; }
    var walked := WalkChildren(data.value);
    if walked.None? { return Refused; }
    var known := CheckClocks(walked.value);
    if !known { return Refused; }
    if !s.haveFragment {
      var start := EarliestStart(walked.value, s.defaults);
      if start.None? { return Refused; }
      if start.value == NoStart { return PassThrough; }
      if start.value.seconds < EPOCH_2000 as real { return PassThrough; }
    }
    r := TakeRuns(s, data.value, b.offset);
  }

  /** The mdat case. */
  method TakeMdat(s: Scan, b: Box) returns (r: ScanResult)
    ensures r == StepMdat(s, b)
  {
    if s.moov.None? { return Going(s); }
    if |s.pending| == 0 { return Refused; }
    for i := 0 to |s.pending|
      invariant forall k | 0 <= k < i :: forall e | e in s.pending[k].ranges :: b.offset + b.header <= e.start && e.end <= b.offset + b.size
    {
      if exists e | e in s.pending[i].ranges :: e.start < b.offset + b.header || e.end > b.offset + b.size {
        assert s.pending[i] in s.pending;
        return Refused;
      }
    }
    return Going(s.(pending := []));
  }

  method TakeBox(src: bytes, s: Scan, b: Box) returns (r: ScanResult)
    requires b.header <= b.size && b.offset + b.size <= |src|
    ensures r == StepBox(src, s, b)
  {
    hide StepMoov, StepMoof, StepMdat;
    if b.kind == MOOV {
      r := TakeMoov(src, s, b);
    } else if b.kind == MOOF {
      r := TakeMoof(src, s, b);
    } else if b.kind == MDAT {
      r := TakeMdat(s, b);
    } else {
      r := Going(if b.kind == PRFT then s.(references := s.references + [b]) else s);
    }
  }

  lemma EmptyScan(src: bytes)
    ensures ScanInv(src, START, 0) && TracksInRange(START.tracks)
  {
  }

  /**
   One pass over the boxes.  It gets to the end exactly for files whose boxes fit each
   other, and leaves a file alone exactly when a box tells that it is of another kind.
   At the end, the data of every run lies
   behind the movie header and inside the file or belongs to a fragment still
   pending, each track is one of the header, and all clocks are int64 numbers.
   */
  method ScanBoxes(src: bytes) returns (r: ScanResult)
    ensures r == ScanFrom(src, 0, START)
    ensures r.Going? <==> Acceptance.Accepted(src)
    ensures r.PassThrough? <==> Acceptance.AloneFrom(src, BoxOrder.BoxesOf(src), 0)
    ensures r.Going? ==> ScanInv(src, r.s, |src|)
    ensures r.Going? && |src| <= MAX_I64 ==> TracksInRange(r.s.tracks)
  {
    hide ReadBox, StepBox, ScanInv, TracksInRange, Acceptance.Accepted, Acceptance.AloneFrom;
    Acceptance.ScanAccepts(src);
    EmptyScan(src);
    var s, pos := START, 0;
    while pos < |src|
      invariant 0 <= pos <= |src|
      invariant ScanFrom(src, 0, START) == ScanFrom(src, pos, s)
      invariant ScanInv(src, s, pos) && (|src| <= MAX_I64 ==> TracksInRange(s.tracks))
    {
      var b := ReadBox(src, pos, |src|);
      if !b.Found? { return Refused; }
      var next := TakeBox(src, s, b.box);
      if !next.Going? { return next; }
      StepKeeps(src, s, b.box, pos);
      if |src| <= MAX_I64 { StepKeepsRange(src, s, b.box, pos); }
      s, pos := next.s, pos + b.box.size;
    }
    return Going(s);
  }
}
