/**
 ReadIndex of internal/recordingmedia/index.go: the fragments that are complete
 in the first `size` bytes of a file that is still growing.
 */
module RecordingIndex {
  import opened Bytes
  import opened Options
  import opened Boxes
  import opened Tracks
  import opened Samples
  import opened Fragments

  datatype Fragment = Fragment(
    sequence: int,
    offset: int,
    length: int,
    mediaStartMs: int,
    mediaEndMs: int,
    startMs: int,
    endMs: int)

  datatype Index = Index(initLength: int, committedOffset: int, fragments: seq<Fragment>)

  datatype IndexError = NotFragmentedMedia | InvalidMedia

  datatype IndexResult = Indexed(index: Index) | Failed(error: IndexError)

  datatype Ref = Ref(track: u32, epochMs: int)

  datatype State = State(
    index: Index,
    tracks: map<u32, Track>,
    ref: Option<Ref>,
    pending: bool,
    pendingOffset: int,
    runs: seq<Run>,
    previousDecode: map<u32, int>,
    previousSequence: int,
    originMs: int)

  datatype StepResult = Next(s: State) | Fail(error: IndexError)

  const BEGIN: State := State(Index(0, 0, []), map[], None, false, 0, [], map[], 0, 0)
  const NTP_TO_UNIX: int := 2208988800
  const FIRST_SECOND: int := 946684800
  const LAST_SECOND: int := 4102444800

  /** The nearest integer to n / d, halves away from zero. */
  function RoundDiv(n: int, d: int): int
    requires d > 0
  {
    if n >= 0 then (2 * n + d) / (2 * d) else -((2 * -n + d) / (2 * d))
  }

  /** Media ticks in milliseconds; a track without timescale has none. */
  function TicksMs(n: int, scale: u32): int {
    if scale == 0 then 0 else RoundDiv(n * 1000, scale)
  }

  function ScaleOf(tracks: map<u32, Track>, id: u32): u32 {
    if id in tracks then tracks[id].scale else 0
  }

  function ReadProducerReference(p: bytes): StepRef {
    if |p| < 24 || p[0] != 1 then NoRef(InvalidMedia)
    else
      var seconds := U32(p, 8) - NTP_TO_UNIX;
      if seconds < FIRST_SECOND || seconds > LAST_SECOND then NoRef(NotFragmentedMedia)
      else SomeRef(Ref(U32(p, 4), seconds * 1000 + RoundDiv(U32(p, 12) * 1000, 0x1_0000_0000)))
  }

  datatype StepRef = SomeRef(ref: Ref) | NoRef(error: IndexError)

  function OnMoov(src: bytes, s: State, b: Box): StepResult
    requires b.header <= b.size && b.offset + b.size <= |src|
  {
    match Payload(src, b)
    case None => Fail(InvalidMedia)
    case Some(data) =>
      match ReadTracks(data)
      case NotFragmented => Fail(NotFragmentedMedia)
      case Invalid => Fail(InvalidMedia)
      case Read(tracks) => Next(s.(tracks := tracks, index := s.index.(initLength := b.offset + b.size)))
  }

  function OnPrft(src: bytes, s: State, b: Box): StepResult
    requires b.header <= b.size && b.offset + b.size <= |src|
  {
    if s.pending then Fail(InvalidMedia)
    else match Payload(src, b)
      case None => Fail(InvalidMedia)
      case Some(p) =>
        match ReadProducerReference(p)
        case NoRef(e) => Fail(e)
        case SomeRef(ref) => Next(s.(ref := Some(ref), pendingOffset := b.offset))
  }

  function OnMoof(src: bytes, s: State, b: Box): StepResult
    requires b.header <= b.size && b.offset + b.size <= |src|
  {
    if s.pending then Fail(InvalidMedia)
    else if s.index.initLength == 0 || s.tracks == map[] || s.ref.None? then Fail(NotFragmentedMedia)
    else if s.ref.value.track !in s.tracks || !s.tracks[s.ref.value.track].video then Fail(InvalidMedia)
    else match Payload(src, b)
      case None => Fail(InvalidMedia)
      case Some(data) =>
        match ReadRuns(data, s.tracks, b.offset)
        case None => Fail(InvalidMedia)
        case Some(m) =>
          if m.sequence <= s.previousSequence then Fail(InvalidMedia)
          else Next(s.(runs := m.runs, previousSequence := m.sequence, pending := true))
  }

  predicate RunFollows(rr: Run, previous: map<u32, int>, b: Box) {
    && (forall k | k in rr.ranges :: b.offset + b.header <= k.start && k.end <= b.offset + b.size)
    && (rr.track in previous ==> rr.first == previous[rr.track])
  }

  /** The last run of a track. */
  function RunOf(runs: seq<Run>, track: u32): Option<Run> {
    if runs == [] then None
    else if runs[|runs| - 1].track == track then Some(runs[|runs| - 1])
    else RunOf(runs[..|runs| - 1], track)
  }

  function EarliestMs(runs: seq<Run>, tracks: map<u32, Track>): int {
    if runs == [] then MAX_I64
    else Min(EarliestMs(runs[..|runs| - 1], tracks), TicksMs(runs[|runs| - 1].first, ScaleOf(tracks, runs[|runs| - 1].track)))
  }

  function Decoded(previous: map<u32, int>, runs: seq<Run>): map<u32, int> {
    if runs == [] then previous
    else Decoded(previous, runs[..|runs| - 1])[runs[|runs| - 1].track := runs[|runs| - 1].decodeEnd]
  }

  /** How far the producer clock of a fragment is ahead of its media clock. */
  function ClockOffset(f: Fragment): int { f.startMs - f.mediaStartMs }

  function NewFragment(s: State, b: Box, video: Run, origin: int): Fragment
    requires s.ref.Some?
  {
    var scale := ScaleOf(s.tracks, video.track);
    var start, end, anchor := TicksMs(video.start, scale), TicksMs(video.end, scale), TicksMs(video.firstPTS, scale);
    Fragment(s.previousSequence, s.pendingOffset, b.offset + b.size - s.pendingOffset,
             start - origin, end - origin, s.ref.value.epochMs + start - anchor, s.ref.value.epochMs + end - anchor)
  }

  function OnMdat(s: State, b: Box): StepResult {
    if !s.pending || s.ref.None? then Fail(NotFragmentedMedia)
    else if exists rr | rr in s.runs :: !RunFollows(rr, s.previousDecode, b) then Fail(InvalidMedia)
    else match RunOf(s.runs, s.ref.value.track)
      case None => Fail(InvalidMedia)
      case Some(video) =>
        if !video.key then Fail(InvalidMedia)
        else
          var fs := s.index.fragments;
          var origin := if fs == [] then EarliestMs(s.runs, s.tracks) else s.originMs;
          var f := NewFragment(s, b, video, origin);
          if f.endMs <= f.startMs then Fail(InvalidMedia)
          else if fs != [] && !(-2 <= ClockOffset(f) - ClockOffset(fs[0]) <= 2) then Fail(InvalidMedia)
          else Next(s.(index := s.index.(fragments := fs + [f], committedOffset := b.offset + b.size),
                    originMs := origin, previousDecode := Decoded(s.previousDecode, s.runs),
                    pending := false, ref := None, runs := []))
  }

  function OnBox(src: bytes, s: State, b: Box): StepResult
    requires b.header <= b.size && b.offset + b.size <= |src|
  {
    if b.kind == MOOV then OnMoov(src, s, b)
    else if b.kind == PRFT then OnPrft(src, s, b)
    else if b.kind == MOOF then OnMoof(src, s, b)
    else if b.kind == MDAT then OnMdat(s, b)
    else Next(s)
  }

  /** Where the walk stops: at a box that is not complete yet, or with an error. */
  datatype Walk = Stopped(pos: nat, s: State) | Broken(error: IndexError)

  function WalkFrom(src: bytes, size: nat, pos: nat, s: State): Walk
    requires size <= |src| && pos <= size
    decreases size - pos
  {
    if pos == size then Stopped(pos, s)
    else match ReadBox(src, pos, size)
      case Partial => Stopped(pos, s)
      case Corrupt => Broken(InvalidMedia)
      case Found(b) =>
        match OnBox(src, s, b)
        case Fail(e) => Broken(e)
        case Next(s') => WalkFrom(src, size, pos + b.size, s')
  }

  function Conclude(w: Walk): IndexResult {
    match w
    case Broken(e) => Failed(e)
    case Stopped(_, s) => if s.index.initLength > 0 && s.tracks == map[] then Failed(NotFragmentedMedia) else Indexed(s.index)
  }

  function ReadIndex(src: bytes, size: nat): IndexResult
    requires size <= |src|
  {
    Conclude(WalkFrom(src, size, 0, BEGIN))
  }

  // ---------- growing files ----------

  /** A longer file shows the same box wherever a shorter one shows a whole or a corrupt one. */
  lemma GrownBox(src: bytes, pos: nat, n: nat, m: nat)
    requires n <= m <= |src| && !ReadBox(src, pos, n).Partial?
    ensures ReadBox(src, pos, m) == ReadBox(src, pos, n)
  {
    hide U32, U64;
  }

  /** A longer file continues the walk where the shorter one stopped, and repeats its errors. */
  lemma {:induction false} WalkResumes(src: bytes, n: nat, m: nat, pos: nat, s: State)
    requires pos <= n <= m <= |src|
    ensures match WalkFrom(src, n, pos, s)
            case Broken(e) => WalkFrom(src, m, pos, s) == Broken(e)
            case Stopped(p, t) => p <= n && WalkFrom(src, m, pos, s) == WalkFrom(src, m, p, t)
    decreases n - pos
  {
    hide ReadBox, OnBox;
    if pos < n && !ReadBox(src, pos, n).Partial? {
      GrownBox(src, pos, n, m);
      if ReadBox(src, pos, n).Found? {
        var b := ReadBox(src, pos, n).box;
        if OnBox(src, s, b).Next? { WalkResumes(src, n, m, pos + b.size, OnBox(src, s, b).s); }
      }
    }
  }

  /** What the walk has indexed lies before its position, in order, on one clock. */
  predicate FragmentsOk(s: State, pos: int) {
    var fs, c := s.index.fragments, s.index.committedOffset;
    && 0 <= c <= pos
    && (s.ref.Some? ==> c <= s.pendingOffset <= pos)
    && (s.pending ==> s.ref.Some? && forall f | f in fs :: f.sequence < s.previousSequence)
    && (forall f | f in fs :: f.sequence <= s.previousSequence)
    && Laid(fs, c)
  }

  /** Fragments are disjoint stretches of the first `c` bytes, in sequence order, and agree on the producer clock within 2 ms. */
  predicate Laid(fs: seq<Fragment>, c: int) {
    && (forall f | f in fs :: 0 <= f.offset && f.length > 0 && f.offset + f.length <= c && f.startMs < f.endMs && f.mediaStartMs < f.mediaEndMs)
    && (forall i, j | 0 <= i < j < |fs| :: fs[i].offset + fs[i].length <= fs[j].offset && fs[i].sequence < fs[j].sequence)
    && (forall f | f in fs :: -2 <= ClockOffset(f) - ClockOffset(fs[0]) <= 2)
  }

  lemma LaidMore(fs: seq<Fragment>, c: int, f: Fragment, d: int)
    requires Laid(fs, c) && c <= f.offset && 0 <= f.offset && f.length > 0 && f.offset + f.length <= d && c <= d
    requires f.startMs < f.endMs && f.mediaStartMs < f.mediaEndMs
    requires forall g | g in fs :: g.sequence < f.sequence
    requires fs != [] ==> -2 <= ClockOffset(f) - ClockOffset(fs[0]) <= 2
    ensures Laid(fs + [f], d)
  {
    var r := fs + [f];
    forall i, j | 0 <= i < j < |r|
      ensures r[i].offset + r[i].length <= r[j].offset && r[i].sequence < r[j].sequence
    {
      assert r[i] in fs;
    }
  }

  lemma BoxKeeps(src: bytes, s: State, b: Box, pos: nat)
    requires b.header <= b.size && b.offset + b.size <= |src| && b.offset == pos && b.size > 0
    requires FragmentsOk(s, pos) && OnBox(src, s, b).Next?
    ensures var s' := OnBox(src, s, b).s;
            && FragmentsOk(s', pos + b.size)
            && s.index.fragments <= s'.index.fragments
            && s.index.committedOffset <= s'.index.committedOffset
            && (s'.index.committedOffset == s.index.committedOffset ==> s'.index.fragments == s.index.fragments)
            && (s'.index.committedOffset == s.index.committedOffset || s'.index.committedOffset == pos + b.size)
  {
    hide ReadTracks, ReadRuns, Payload, Laid, RunFollows, EarliestMs, Decoded, TicksMs;
    if b.kind == MDAT {
      var fs := s.index.fragments;
      var f := OnBox(src, s, b).s.index.fragments[|fs|];
      LaidMore(fs, s.index.committedOffset, f, pos + b.size);
    }
  }

  lemma {:induction false} WalkKeeps(src: bytes, size: nat, pos: nat, s: State)
    requires pos <= size <= |src| && FragmentsOk(s, pos)
    ensures match WalkFrom(src, size, pos, s)
            case Broken(_) => true
            case Stopped(p, t) =>
              && FragmentsOk(t, p) && p <= size
              && s.index.fragments <= t.index.fragments && s.index.committedOffset <= t.index.committedOffset
    decreases size - pos
  {
    hide ReadBox, OnBox, FragmentsOk;
    if pos < size && ReadBox(src, pos, size).Found? {
      var b := ReadBox(src, pos, size).box;
      if OnBox(src, s, b).Next? {
        BoxKeeps(src, s, b, pos);
        WalkKeeps(src, size, pos + b.size, OnBox(src, s, b).s);
      }
    }
  }

  lemma BeginOk()
    ensures FragmentsOk(BEGIN, 0)
  {
  }

  /** Indexing more of an append-only file only adds fragments and never takes back committed bytes. */
  lemma PrefixMonotone(src: bytes, n: nat, m: nat)
    requires n <= m <= |src| && ReadIndex(src, n).Indexed? && ReadIndex(src, m).Indexed?
    ensures var a, b := ReadIndex(src, n).index, ReadIndex(src, m).index;
            a.fragments <= b.fragments && a.committedOffset <= b.committedOffset
  {
    hide FragmentsOk, WalkFrom;
    BeginOk();
    WalkResumes(src, n, m, 0, BEGIN);
    WalkKeeps(src, n, 0, BEGIN);
    var w := WalkFrom(src, n, 0, BEGIN);
    WalkKeeps(src, m, w.pos, w.s);
  }

  /** An error met inside the first n bytes does not go away as the file grows. */
  lemma ErrorsStay(src: bytes, n: nat, m: nat)
    requires n <= m <= |src| && WalkFrom(src, n, 0, BEGIN).Broken?
    ensures ReadIndex(src, m) == ReadIndex(src, n) == Failed(WalkFrom(src, n, 0, BEGIN).error)
  {
    WalkResumes(src, n, m, 0, BEGIN);
  }

  /** Every fragment lies whole inside the committed bytes, and those inside the file: partial boxes contribute nothing. */
  lemma CommittedWhole(src: bytes, n: nat)
    requires n <= |src| && ReadIndex(src, n).Indexed?
    ensures var x := ReadIndex(src, n).index;
            0 <= x.committedOffset <= n && Laid(x.fragments, x.committedOffset)
  {
    hide WalkFrom, Laid;
    BeginOk();
    WalkKeeps(src, n, 0, BEGIN);
  }

  lemma {:induction false} CommittedWalk(src: bytes, n: nat, pos: nat, s: State)
    requires pos <= n <= |src| && FragmentsOk(s, pos) && WalkFrom(src, n, pos, s).Stopped?
    requires WalkFrom(src, n, pos, s).s.index.committedOffset > s.index.committedOffset
    ensures var t := WalkFrom(src, n, pos, s).s;
            && pos <= t.index.committedOffset <= n
            && WalkFrom(src, t.index.committedOffset, pos, s).Stopped?
            && WalkFrom(src, t.index.committedOffset, pos, s).s.index.fragments == t.index.fragments
            && WalkFrom(src, t.index.committedOffset, pos, s).s.index.committedOffset == t.index.committedOffset
    decreases n - pos
  {
    hide ReadBox, OnBox, FragmentsOk;
    var b := ReadBox(src, pos, n).box;
    var s' := OnBox(src, s, b).s;
    var t := WalkFrom(src, n, pos, s).s;
    var c := t.index.committedOffset;
    BoxKeeps(src, s, b, pos);
    WalkKeeps(src, n, pos + b.size, s');
    if s'.index.committedOffset < c {
      CommittedWalk(src, n, pos + b.size, s');
      ReadBoxLocal(src, src, pos, n, c);
    } else {
      WalkKeepsEnd(src, n, pos + b.size, s');
      ReadBoxLocal(src, src, pos, n, c);
    }
  }

  /** Without a further commit the fragments stay. */
  lemma {:induction false} WalkKeepsEnd(src: bytes, n: nat, pos: nat, s: State)
    requires pos <= n <= |src| && FragmentsOk(s, pos) && WalkFrom(src, n, pos, s).Stopped?
    requires WalkFrom(src, n, pos, s).s.index.committedOffset == s.index.committedOffset
    ensures WalkFrom(src, n, pos, s).s.index.fragments == s.index.fragments
    decreases n - pos
  {
    hide ReadBox, OnBox, FragmentsOk;
    if pos < n && ReadBox(src, pos, n).Found? {
      var b := ReadBox(src, pos, n).box;
      BoxKeeps(src, s, b, pos);
      WalkKeeps(src, n, pos + b.size, OnBox(src, s, b).s);
      WalkKeepsEnd(src, n, pos + b.size, OnBox(src, s, b).s);
    }
  }

  /** The committed bytes alone yield the same fragments: what is served needs nothing behind them. */
  lemma CommittedSuffices(src: bytes, n: nat)
    requires n <= |src| && WalkFrom(src, n, 0, BEGIN).Stopped? && WalkFrom(src, n, 0, BEGIN).s.index.fragments != []
    ensures var x := WalkFrom(src, n, 0, BEGIN).s.index;
            && 0 <= x.committedOffset <= n
            && WalkFrom(src, x.committedOffset, 0, BEGIN).Stopped?
            && WalkFrom(src, x.committedOffset, 0, BEGIN).s.index.fragments == x.fragments
  {
    hide ReadBox, OnBox, WalkFrom;
    BeginOk();
    WalkKeeps(src, n, 0, BEGIN);
    var x := WalkFrom(src, n, 0, BEGIN).s.index;
    assert x.fragments[0] in x.fragments;
    CommittedWalk(src, n, 0, BEGIN);
  }
}
