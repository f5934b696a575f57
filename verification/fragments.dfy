/**
 The two fragment parsers: readRuns of internal/recordingmedia/index.go, which
 follows the decode clock and the byte ranges under int64 guards, and
 readSamples of internal/recordingmedia/flat.go, which collects the samples.
 */
module Fragments {
  import opened Bytes
  import opened Options
  import opened Boxes
  import opened Tracks
  import opened Samples

  datatype Range = Range(start: int, end: int)

  datatype Run = Run(track: u32, first: int, firstPTS: int, start: int, end: int, decodeEnd: int, key: bool, ranges: seq<Range>)

  /** One trun box as readSamples sees it: its track, the file offset of its data, its samples. */
  datatype Piece = Piece(track: u32, offset: int, samples: seq<Sample>)

  // ---------- readRuns ----------

  datatype Clock = Clock(rr: Run, decode: int, dataEnd: int, haveSample: bool)

  datatype TrafState = TrafState(t: Track, rr: Run, decode: int, haveHeader: bool, haveDecode: bool, haveSample: bool)

  const NO_RUN: Run := Run(0, 0, 0, 0, 0, 0, false, [])
  const TRAF_START: TrafState := TrafState(BLANK, NO_RUN, 0, false, false, false)

  predicate ClockFits(c: Clock) {
    && 0 <= c.decode <= MAX_I64 && 0 <= c.dataEnd <= MAX_I64
    && RunFits(c.rr)
  }

  predicate RunFits(r: Run) {
    && 0 <= r.first <= MAX_I64 && 0 <= r.firstPTS <= MAX_I64 && 0 <= r.start <= MAX_I64
    && 0 <= r.end <= MAX_I64 && 0 <= r.decodeEnd <= MAX_I64
    && forall k | k in r.ranges :: 0 <= k.start <= k.end <= MAX_I64
  }

  /** An audio sample of no duration is a packet that shares its decode time. */
  predicate MayLackDuration(t: Track) {
    !t.video && t.codec == MP4A
  }

  function AddSample(c: Clock, s: Sample, t: Track): (r: Option<Clock>)
    ensures ClockFits(c) && r.Some? ==> ClockFits(r.value)
  {
    if s.size == 0 || (s.duration == 0 && !MayLackDuration(t)) then None
    else if c.decode > MAX_I64 - s.duration || c.dataEnd > MAX_I64 - s.size || s.cts > MAX_I64 - c.decode then None
    else
      var pts := c.decode + s.cts;
      if pts < 0 || pts > MAX_I64 - s.duration then None
      else
        var rr := if c.haveSample then c.rr
                  else c.rr.(firstPTS := pts, start := pts, end := pts + s.duration, key := IsSync(s.flags));
        Some(Clock(rr.(start := Min(pts, rr.start), end := Max(pts + s.duration, rr.end)),
                   c.decode + s.duration, c.dataEnd + s.size, true))
  }

  function AddSamples(c: Clock, ss: seq<Sample>, t: Track): (r: Option<Clock>)
    ensures ClockFits(c) && r.Some? ==> ClockFits(r.value)
  {
    if ss == [] then Some(c)
    else
      var p :- AddSamples(c, ss[..|ss| - 1], t);
      AddSample(p, ss[|ss| - 1], t)
  }

  function RunsHeader(v: bytes, st: TrafState, tracks: map<u32, Track>): Option<TrafState>
    requires |v| >= 4
  {
    if |v| < 8 || U32(v, 4) !in tracks then None
    else if !Bit(FlagBits(v), 0x2_0000) || Bit(FlagBits(v), 1) then None
    else
      var t :- TfhdDefaults(v, tracks[U32(v, 4)]);
      Some(st.(t := t, rr := st.rr.(track := t.id), haveHeader := true))
  }

  /** The decode time of a tfdt box. */
  function BaseDecode(v: bytes): (r: Option<int>)
    ensures r.Some? ==> 0 <= r.value <= MAX_I64
  {
    if |v| < 8 then None
    else if v[0] != 1 then Some(U32(v, 4))
    else if |v| < 12 || U64(v, 4) > MAX_I64 then None
    else Some(U64(v, 4))
  }

  function RunsTrun(v: bytes, st: TrafState, moofOffset: int): Option<TrafState> {
    if !st.haveHeader || !st.haveDecode then None
    else
      var ss :- TrunSamples(v, st.t);
      var delta := TrunOffset(v);
      if delta < 0 || delta > MAX_I64 - moofOffset then None
      else
        var c :- AddSamples(Clock(st.rr, st.decode, moofOffset + delta, st.haveSample), ss, st.t);
        Some(st.(rr := c.rr.(ranges := c.rr.ranges + [Range(moofOffset + delta, c.dataEnd)], decodeEnd := c.decode),
             decode := c.decode, haveSample := true))
  }

  function RunsStep(c: Child, st: TrafState, tracks: map<u32, Track>, moofOffset: int): Option<TrafState> {
    if |c.body| < 4 then None
    else if c.kind == TFHD then RunsHeader(c.body, st, tracks)
    else if c.kind == TFDT then
      var n :- BaseDecode(c.body);
      Some(st.(decode := n, rr := st.rr.(first := n), haveDecode := true))
    else if c.kind == TRUN then RunsTrun(c.body, st, moofOffset)
    else Some(st)
  }

  function RunsTraf(cs: seq<Child>, tracks: map<u32, Track>, moofOffset: int): Option<TrafState> {
    if cs == [] then Some(TRAF_START)
    else
      var st :- RunsTraf(cs[..|cs| - 1], tracks, moofOffset);
      RunsStep(cs[|cs| - 1], st, tracks, moofOffset)
  }

  /** The run of one traf box. */
  function TrafRun(body: bytes, tracks: map<u32, Track>, moofOffset: int): Option<Run> {
    var cs :- Children(body);
    var st :- RunsTraf(cs, tracks, moofOffset);
    if st.haveSample then Some(st.rr) else None
  }

  datatype MoofRuns = MoofRuns(runs: seq<Run>, sequence: u32)

  function RunsMoof(cs: seq<Child>, tracks: map<u32, Track>, moofOffset: int): Option<MoofRuns> {
    if cs == [] then Some(MoofRuns([], 0))
    else
      var m :- RunsMoof(cs[..|cs| - 1], tracks, moofOffset);
      var c := cs[|cs| - 1];
      if c.kind == MFHD then
        if |c.body| < 8 then None else Some(m.(sequence := U32(c.body, 4)))
      else if c.kind == TRAF then
        var rr :- TrafRun(c.body, tracks, moofOffset);
        Some(m.(runs := m.runs + [rr]))
      else Some(m)
  }

  function ReadRuns(data: bytes, tracks: map<u32, Track>, moofOffset: int): Option<MoofRuns> {
    var cs :- Children(data);
    RunsMoof(cs, tracks, moofOffset)
  }

  // ---------- readSamples ----------

  datatype PieceState = PieceState(t: Option<Track>, pieces: seq<Piece>)

  function PiecesHeader(v: bytes, st: PieceState, tracks: map<u32, Track>): Option<PieceState>
    requires |v| >= 4
  {
    if |v| < 8 || U32(v, 4) !in tracks then None
    else if Bit(FlagBits(v), 1) || !Bit(FlagBits(v), 0x2_0000) then None
    else
      var t :- TfhdDefaults(v, tracks[U32(v, 4)]);
      if Bit(FlagBits(v), 2) && (|v| < 12 || U32(v, 8) != 1) then None
      else Some(st.(t := Some(t)))
  }

  function PiecesTrun(v: bytes, st: PieceState, moofOffset: int): Option<PieceState> {
    if st.t.None? then None
    else
      var ss :- TrunSamples(v, st.t.value);
      if Bit(FlagBits(v), 0x800) && v[0] > 1 then None
      else Some(st.(pieces := st.pieces + [Piece(st.t.value.id, moofOffset + TrunOffset(v), ss)]))
  }

  function PiecesStep(c: Child, st: PieceState, tracks: map<u32, Track>, moofOffset: int): Option<PieceState> {
    if |c.body| < 4 then None
    else if c.kind == TFHD then PiecesHeader(c.body, st, tracks)
    else if c.kind == TRUN then PiecesTrun(c.body, st, moofOffset)
    else if c.kind == TFDT || c.kind == FREE then Some(st)
    else None
  }

  function PiecesTraf(cs: seq<Child>, tracks: map<u32, Track>, moofOffset: int): Option<PieceState> {
    if cs == [] then Some(PieceState(None, []))
    else
      var st :- PiecesTraf(cs[..|cs| - 1], tracks, moofOffset);
      PiecesStep(cs[|cs| - 1], st, tracks, moofOffset)
  }

  function TrafPieces(body: bytes, tracks: map<u32, Track>, moofOffset: int): Option<seq<Piece>> {
    var cs :- Children(body);
    var st :- PiecesTraf(cs, tracks, moofOffset);
    Some(st.pieces)
  }

  /** The pieces of a moof box, one list for each traf box. */
  function PiecesMoof(cs: seq<Child>, tracks: map<u32, Track>, moofOffset: int): Option<seq<seq<Piece>>> {
    if cs == [] then Some([])
    else
      var m :- PiecesMoof(cs[..|cs| - 1], tracks, moofOffset);
      var c := cs[|cs| - 1];
      if c.kind == MFHD || c.kind == FREE then Some(m)
      else if c.kind == TRAF then
        var pieces :- TrafPieces(c.body, tracks, moofOffset);
        Some(m + [pieces])
      else None
  }

  function ReadSamples(data: bytes, tracks: map<u32, Track>, moofOffset: int): Option<seq<seq<Piece>>> {
    var cs :- Children(data);
    PiecesMoof(cs, tracks, moofOffset)
  }

  // ---------- agreement ----------

  /** ISO/IEC 14496-12 section 8.8.12: the header and the decode time of a fragment come before its runs. */
  predicate ClocksFirst(cs: seq<Child>) {
    forall i, j | 0 <= i < j < |cs| :: cs[i].kind == TRUN ==> cs[j].kind != TFHD && cs[j].kind != TFDT
  }

  function AllSamples(ps: seq<Piece>): seq<Sample> {
    if ps == [] then [] else AllSamples(ps[..|ps| - 1]) + ps[|ps| - 1].samples
  }

  predicate SameRanges(rr: Run, ps: seq<Piece>) {
    && |rr.ranges| == |ps|
    && forall i | 0 <= i < |ps| ::
      && ps[i].samples != []
      && rr.ranges[i] == Range(ps[i].offset, ps[i].offset + Sizes(ps[i].samples))
  }

  /** A run carries the clock of its samples. */
  predicate SameClock(rr: Run, ss: seq<Sample>) {
    && ss != []
    && rr.decodeEnd == rr.first + Durations(ss)
    && rr.firstPTS == Pts(ss, rr.first, 0)
    && rr.start == MinPts(ss, rr.first)
    && rr.end == MaxEnd(ss, rr.first)
    && rr.key == IsSync(ss[0].flags)
  }

  predicate RunOfPieces(rr: Run, ps: seq<Piece>) {
    && SameRanges(rr, ps)
    && (forall p | p in ps :: p.track == rr.track)
    && SameClock(rr, AllSamples(ps))
  }
}
