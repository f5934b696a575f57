/** The loop of ReadIndex (internal/recordingmedia/index.go) with the work it does in each box. */
module IndexLoops {
  import opened Bytes
  import opened Options
  import opened Boxes
  import opened Tracks
  import opened Samples
  import opened Fragments
  import opened Walks
  import opened RecordingIndex
  import BoxOrder
  import IndexAcceptance

  method TakeMoov(src: bytes, s: State, b: Box) returns (r: StepResult)
    requires b.header <= b.size && b.offset + b.size <= |src|
    ensures r == OnMoov(src, s, b)
  {
    hide ReadTracks, Payload;
    var data := Payload(src, b);
    if data.None? { return Fail(InvalidMedia); }
    var read := WalkTracks(data.value);
    match read
    case NotFragmented => return Fail(NotFragmentedMedia);
    case Invalid => return Fail(InvalidMedia);
    case Read(tracks) => return Next(s.(tracks := tracks, index := s.index.(initLength := b.offset + b.size)));
  }

  method TakeMoof(src: bytes, s: State, b: Box) returns (r: StepResult)
    requires b.header <= b.size && b.offset + b.size <= |src|
    ensures r == OnMoof(src, s, b)
  {
    hide RunsMoof, Children, Payload;
    if s.pending { return Fail(InvalidMedia); }
    if s.index.initLength == 0 || s.tracks == map[] || s.ref.None? { return Fail(NotFragmentedMedia); }
    if s.ref.value.track !in s.tracks || !s.tracks[s.ref.value.track].video { return Fail(InvalidMedia); }
    var data := Payload(src, b);
    if data.None? { return Fail(InvalidMedia); }
    var m := WalkRuns(data.value, s.tracks, b.offset);
    if m.None? || m.value.sequence <= s.previousSequence { return Fail(InvalidMedia); }
    return Next(s.(runs := m.value.runs, previousSequence := m.value.sequence, pending := true));
  }

  /** Every run of the fragment fits its box and goes on where its track stopped; the last one of the reference track is the video run. */
  method CheckRuns(s: State, b: Box, track: u32) returns (ok: bool, video: Option<Run>)
    ensures ok <==> forall rr | rr in s.runs :: RunFollows(rr, s.previousDecode, b)
    ensures ok ==> video == RunOf(s.runs, track)
  {
    hide RunFollows;
    video := None;
    for i := 0 to |s.runs|
      invariant forall k | 0 <= k < i :: RunFollows(s.runs[k], s.previousDecode, b)
      invariant video == RunOf(s.runs[..i], track)
    {
      var rr := s.runs[i];
      assert s.runs[..i + 1][..i] == s.runs[..i];
      if !RunFollows(rr, s.previousDecode, b) {
        assert rr in s.runs;
        return false, None;
      }
      if rr.track == track { video := Some(rr); }
    }
    assert s.runs[..|s.runs|] == s.runs;
    ok := true;
  }

  /** The earliest decode time of the fragment, in milliseconds. */
  method FindEarliest(runs: seq<Run>, tracks: map<u32, Track>) returns (ms: int)
    ensures ms == EarliestMs(runs, tracks)
  {
    hide TicksMs;
    ms := MAX_I64;
    for i := 0 to |runs|
      invariant ms == EarliestMs(runs[..i], tracks)
    {
      assert runs[..i + 1][..i] == runs[..i];
      ms := Min(ms, TicksMs(runs[i].first, ScaleOf(tracks, runs[i].track)));
    }
    assert runs[..|runs|] == runs;
  }

  method RememberDecode(previous: map<u32, int>, runs: seq<Run>) returns (decoded: map<u32, int>)
    ensures decoded == Decoded(previous, runs)
  {
    decoded := previous;
    for i := 0 to |runs|
      invariant decoded == Decoded(previous, runs[..i])
    {
      assert runs[..i + 1][..i] == runs[..i];
      decoded := decoded[runs[i].track := runs[i].decodeEnd];
    }
    assert runs[..|runs|] == runs;
  }

  method TakeMdat(s: State, b: Box) returns (r: StepResult)
    ensures r == OnMdat(s, b)
  {
    hide RunFollows, RunOf, EarliestMs, Decoded, TicksMs;
    if !s.pending || s.ref.None? { return Fail(NotFragmentedMedia); }
    var ok, video := CheckRuns(s, b, s.ref.value.track);
    if !ok || video.None? { return Fail(InvalidMedia); }
    if !video.value.key { return Fail(InvalidMedia); }
    var fs, origin := s.index.fragments, s.originMs;
    if |fs| == 0 { origin := FindEarliest(s.runs, s.tracks); }
    var f := NewFragment(s, b, video.value, origin);
    if f.endMs <= f.startMs { return Fail(InvalidMedia); }
    if |fs| != 0 && !(-2 <= ClockOffset(f) - ClockOffset(fs[0]) <= 2) { return Fail(InvalidMedia); }
    var decoded := RememberDecode(s.previousDecode, s.runs);
    return Next(s.(index := s.index.(fragments := fs + [f], committedOffset := b.offset + b.size),
                originMs := origin, previousDecode := decoded, pending := false, ref := None, runs := []));
  }

  method TakeBox(src: bytes, s: State, b: Box) returns (r: StepResult)
    requires b.header <= b.size && b.offset + b.size <= |src|
    ensures r == OnBox(src, s, b)
  {
    hide OnMoov, OnMoof, OnMdat, OnPrft;
    if b.kind == MOOV {
      r := TakeMoov(src, s, b);
    } else if b.kind == PRFT {
      r := OnPrft(src, s, b);
    } else if b.kind == MOOF {
      r := TakeMoof(src, s, b);
    } else if b.kind == MDAT {
      r := TakeMdat(s, b);
    } else {
      r := Next(s);
    }
  }

  /**
   One pass over what is there of a file.  It indexes exactly the files whose boxes may
   follow each other, with one fragment for each mdat box.  The fragments it reports are disjoint
   stretches of the committed bytes, in sequence order, on one producer clock, and
   the committed bytes are inside the file.
   */
  method IndexLoop(src: bytes, size: nat) returns (r: IndexResult)
    requires size <= |src|
    ensures r == ReadIndex(src, size)
    ensures r.Indexed? <==> IndexAcceptance.Indexable(src, size)
    ensures r.Indexed? ==> r.index == IndexAcceptance.IndexOf(src, BoxOrder.BoxesFrom(src, size, 0))
    ensures r == Failed(NotFragmentedMedia) <==> IndexAcceptance.NoRecording(src, size)
    ensures r.Indexed? ==> 0 <= r.index.committedOffset <= size && Laid(r.index.fragments, r.index.committedOffset)
  {
    hide ReadBox, OnBox, Laid, IndexAcceptance.Indexable, IndexAcceptance.IndexOf, IndexAcceptance.NoRecording;
    IndexAcceptance.IndexedExactly(src, size);
    BeginOk();
    var s, pos := BEGIN, 0;
    while pos < size
      invariant 0 <= pos <= size
      invariant WalkFrom(src, size, 0, BEGIN) == WalkFrom(src, size, pos, s)
      invariant FragmentsOk(s, pos)
    {
      var read := ReadBox(src, pos, size);
      if read == Partial { break; }
      if read == Corrupt { return Failed(InvalidMedia); }
      var next := TakeBox(src, s, read.box);
      if next.Fail? { return Failed(next.error); }
      BoxKeeps(src, s, read.box, pos);
      s, pos := next.s, pos + read.box.size;
    }
    if s.index.initLength > 0 && s.tracks == map[] { return Failed(NotFragmentedMedia); }
    return Indexed(s.index);
  }
}
