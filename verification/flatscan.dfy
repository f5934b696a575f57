/**
 The scan of internal/recordingmedia/flat.go: one walk over the top-level boxes
 of a finished recording that collects the samples of every track.

 The source keeps, for each track, one list of samples and one list of chunks
 (offset and number of samples), both appended to at each trun box.  Here a
 track keeps the list of those trun boxes; Samples() and Chunks() are the two lists.
 */
module FlatScan {
  import opened Bytes
  import opened Options
  import opened Boxes
  import opened Tracks
  import opened Samples
  import opened Fragments
  import opened SampleTables

  datatype FlatTrack = FlatTrack(info: Track, pieces: seq<Piece>, firstDTS: int, nextDTS: int, minPTS: int, maxPTS: int) {
    function Samples(): seq<Sample> { AllSamples(pieces) }
    function Chunks(): seq<Chunk> { ChunksOf(pieces) }
  }

  function ChunksOf(ps: seq<Piece>): (r: seq<Chunk>)
    ensures |r| == |ps|
    ensures forall i | 0 <= i < |ps| :: r[i] == Chunk(ps[i].offset, Wrap32(|ps[i].samples|))
  {
    seq(|ps|, i requires 0 <= i < |ps| => Chunk(ps[i].offset, Wrap32(|ps[i].samples|)))
  }

  datatype Scan = Scan(
    moov: Option<Box>,
    metadata: bytes,
    defaults: map<u32, Track>,
    tracks: map<u32, FlatTrack>,
    pending: seq<Run>,
    references: seq<Box>,
    sequence: int,
    haveFragment: bool)

  const START: Scan := Scan(None, [], map[], map[], [], [], 0, false)

  /** PassThrough: the file is left as it is.  Refused: the source returns an error. */
  datatype ScanResult = Going(s: Scan) | PassThrough | Refused

  const EPOCH_2000: int := 946684800

  function NewTrack(t: Track): FlatTrack { FlatTrack(t, [], 0, 0, 0, 0) }

  function StepMoov(src: bytes, s: Scan, b: Box): ScanResult
    requires b.header <= b.size && b.offset + b.size <= |src|
  {
    if s.moov.Some? then Refused
    else match Payload(src, b)
      case None => Refused
      case Some(data) =>
        match ReadTracks(data)
        case NotFragmented => PassThrough
        case Invalid => Refused
        case Read(tracks) =>
          Going(s.(moov := Some(b), metadata := data, defaults := tracks,
                tracks := map id | id in tracks :: NewTrack(tracks[id])))
  }

  /** Fragment clocks of an unknown version must not be taken for small ones. */
  predicate KnownVersions(cs: seq<Child>) {
    forall c | c in cs && (c.kind == TFDT || c.kind == TRUN) :: |c.body| >= 4 && c.body[0] <= 1
  }

  predicate KnownClocks(cs: seq<Child>) {
    forall c | c in cs && c.kind == TRAF :: Children(c.body).Some? && KnownVersions(Children(c.body).value)
  }

  function ReadClock(p: bytes, at: nat): Option<u64> {
    if |p| < 1 || p[0] > 1 then None
    else if p[0] == 1 then (if at + 8 > |p| then None else Some(U64(p, at)))
    else if at + 4 > |p| then None
    else Some(U32(p, at))
  }

  /** The track number of the last long enough tfhd, zero without one. */
  function TrafTrack(cs: seq<Child>): u32 {
    if cs == [] then 0
    else
      var c := cs[|cs| - 1];
      if c.kind == TFHD && |c.body| >= 8 then U32(c.body, 4) else TrafTrack(cs[..|cs| - 1])
  }

  function TrafClock(cs: seq<Child>): bytes {
    if cs == [] then []
    else if cs[|cs| - 1].kind == TFDT then cs[|cs| - 1].body
    else TrafClock(cs[..|cs| - 1])
  }

  /** Start of a traf box on the recording clock, in seconds. */
  function TrafStart(body: bytes, defaults: map<u32, Track>): Option<real> {
    var cs :- Children(body);
    var id := TrafTrack(cs);
    if id !in defaults || defaults[id].scale == 0 then None
    else
      var n :- ReadClock(TrafClock(cs), 4);
      Some(n as real / defaults[id].scale as real)
  }

  datatype Start = NoStart | At(seconds: real)

  /** The earliest traf start of a moof; None when some traf has no readable one. */
  function MoofStart(cs: seq<Child>, defaults: map<u32, Track>): Option<Start> {
    if cs == [] then Some(NoStart)
    else
      var rest :- MoofStart(cs[..|cs| - 1], defaults);
      var c := cs[|cs| - 1];
      if c.kind != TRAF then Some(rest)
      else
        var at :- TrafStart(c.body, defaults);
        if rest == NoStart || at < rest.seconds then Some(At(at)) else Some(rest)
  }

  function ApplyRun(tracks: map<u32, FlatTrack>, rr: Run): Option<map<u32, FlatTrack>> {
    if rr.track !in tracks then None
    else
      var t := tracks[rr.track];
      if t.pieces != [] && rr.first != t.nextDTS then None
      else
        var u := if t.pieces == [] then t.(firstDTS := rr.first, minPTS := rr.start, maxPTS := rr.end) else t;
        Some(tracks[rr.track := u.(minPTS := Min(u.minPTS, rr.start), maxPTS := Max(u.maxPTS, rr.end), nextDTS := rr.decodeEnd)])
  }

  function ApplyRuns(tracks: map<u32, FlatTrack>, runs: seq<Run>): Option<map<u32, FlatTrack>> {
    if runs == [] then Some(tracks)
    else
      var before :- ApplyRuns(tracks, runs[..|runs| - 1]);
      ApplyRun(before, runs[|runs| - 1])
  }

  function PiecesFor(ps: seq<Piece>, id: u32): (r: seq<Piece>)
    ensures forall p | p in r :: p in ps && p.track == id
  {
    if ps == [] then []
    else if ps[|ps| - 1].track == id then PiecesFor(ps[..|ps| - 1], id) + [ps[|ps| - 1]]
    else PiecesFor(ps[..|ps| - 1], id)
  }

  function Flatten(pss: seq<seq<Piece>>): seq<Piece> {
    if pss == [] then [] else Flatten(pss[..|pss| - 1]) + pss[|pss| - 1]
  }

  function ApplyPieces(tracks: map<u32, FlatTrack>, ps: seq<Piece>): map<u32, FlatTrack> {
    map id | id in tracks :: tracks[id].(pieces := tracks[id].pieces + PiecesFor(ps, id))
  }

  function StepMoof(src: bytes, s: Scan, b: Box): ScanResult
    requires b.header <= b.size && b.offset + b.size <= |src|
  {
    if s.pending != [] || Payload(src, b).None? then Refused
    else
      var data := Payload(src, b).value;
      match Children(data)
      case None => Refused
      case Some(cs) =>
        if !KnownClocks(cs) then Refused
        else if s.haveFragment then StepRuns(s, data, b.offset)
        else
          match MoofStart(cs, s.defaults)
          case None => Refused
          case Some(NoStart) => PassThrough
          case Some(At(seconds)) => if seconds < EPOCH_2000 as real then PassThrough else StepRuns(s, data, b.offset)
  }

  function StepRuns(s: Scan, data: bytes, offset: nat): ScanResult {
    match ReadRuns(data, s.defaults, offset)
    case None => Refused
    case Some(m) =>
      if m.sequence <= s.sequence then Refused
      else match ApplyRuns(s.tracks, m.runs)
        case None => Refused
        case Some(tracks) =>
          match ReadSamples(data, s.defaults, offset)
          case None => Refused
          case Some(pss) =>
            Going(s.(tracks := ApplyPieces(tracks, Flatten(pss)), pending := m.runs, sequence := m.sequence, haveFragment := true))
  }

  predicate RangesInside(runs: seq<Run>, b: Box) {
    forall rr | rr in runs :: forall k | k in rr.ranges :: b.offset + b.header <= k.start && k.end <= b.offset + b.size
  }

  function StepMdat(s: Scan, b: Box): ScanResult {
    if s.moov.None? then Going(s)
    else if s.pending == [] || !RangesInside(s.pending, b) then Refused
    else Going(s.(pending := []))
  }

  function StepBox(src: bytes, s: Scan, b: Box): ScanResult
    requires b.header <= b.size && b.offset + b.size <= |src|
  {
    if b.kind == MOOV then StepMoov(src, s, b)
    else if b.kind == MOOF then StepMoof(src, s, b)
    else if b.kind == MDAT then StepMdat(s, b)
    else if b.kind == PRFT then Going(s.(references := s.references + [b]))
    else Going(s)
  }

  function ScanFrom(src: bytes, pos: nat, s: Scan): ScanResult
    requires pos <= |src|
    decreases |src| - pos
  {
    if pos == |src| then Going(s)
    else match ReadBox(src, pos, |src|)
      case Found(b) =>
        (match StepBox(src, s, b)
         case Going(s') => ScanFrom(src, pos + b.size, s')
         case r => r)
      case _ => Refused
  }

  // ---------- what every scan keeps ----------

  function End(p: Piece): int { p.offset + Sizes(p.samples) }

  predicate PendingCovers(pending: seq<Run>, p: Piece) {
    exists rr | rr in pending :: Range(p.offset, End(p)) in rr.ranges
  }

  /** A piece has its data behind the movie header and before `pos`, or is still waiting for its media data box. */
  predicate Placed(s: Scan, pos: int, p: Piece) {
    && 0 < |p.samples| <= MAX_RUN
    && ((s.moov.Some? && s.moov.value.offset + s.moov.value.size <= p.offset && End(p) <= pos) || PendingCovers(s.pending, p))
  }

  predicate MoovSeen(src: bytes, s: Scan, pos: int) {
    s.moov.Some? ==>
      var b := s.moov.value;
      && b.offset + b.size <= pos <= |src|
      && ReadBox(src, b.offset, |src|) == Found(b)
      && b.kind == MOOV
      && Payload(src, b) == Some(s.metadata)
      && ReadTracks(s.metadata) == Read(s.defaults)
  }

  predicate TracksMatch(s: Scan) {
    && s.tracks.Keys == s.defaults.Keys
    && Numbered(s.defaults)
    && (forall id | id in s.tracks :: s.tracks[id].info == s.defaults[id])
    && (s.moov.None? ==> s.tracks == map[] && !s.haveFragment && s.pending == [])
  }

  predicate AllPlaced(s: Scan, pos: int) {
    forall id | id in s.tracks :: forall p | p in s.tracks[id].pieces :: Placed(s, pos, p)
  }

  predicate ScanInv(src: bytes, s: Scan, pos: int) {
    && MoovSeen(src, s, pos) && TracksMatch(s) && AllPlaced(s, pos)
  }
}
