/** From scanned tracks to a movie: origin, delays and producer references of internal/recordingmedia/flat.go. */
module FlatMovie {
  import opened Bytes
  import opened Options
  import opened Boxes
  import opened Tracks
  import opened Samples
  import opened Fragments
  import opened FlatScan

  const MOVIE_SCALE: u32 := 1000000

  /** `shift` makes composition offsets start at zero; `delay` and `duration` are in movie ticks. */
  datatype Plan = Plan(shift: int, delay: u64, duration: u64)

  datatype Movie = Movie(
    moov: Box,
    metadata: bytes,
    tracks: map<u32, FlatTrack>,
    plans: map<u32, Plan>,
    references: seq<Child>,
    duration: u64)

  datatype FlatRead = Flat(movie: Movie) | NotFlat | FlatError

  function Ceil(x: real): int { -((-x).Floor) }

  /** ceilMovieTime: rounded up to movie ticks, and cut to 64 bits. */
  function CeilMovieTime(seconds: real): u64 { Wrap64(Ceil(seconds * MOVIE_SCALE as real)) }

  function Seconds(ticks: int, scale: u32): real
    requires scale > 0
  {
    ticks as real / scale as real
  }

  predicate Scaled(tracks: map<u32, FlatTrack>) {
    forall id | id in tracks :: tracks[id].info.scale > 0
  }

  function StartOf(t: FlatTrack): real
    requires t.info.scale > 0
  {
    Seconds(t.minPTS, t.info.scale)
  }

  /** The earliest presentation of any track, on the recording clock. */
  ghost predicate IsOrigin(tracks: map<u32, FlatTrack>, o: real)
    requires Scaled(tracks)
  {
    && (exists id | id in tracks :: tracks[id].pieces != [] && StartOf(tracks[id]) == o)
    && (forall id | id in tracks && tracks[id].pieces != [] :: o <= StartOf(tracks[id]))
  }

  function PlanOf(t: FlatTrack, origin: real): Plan
    requires t.info.scale > 0
  {
    Plan(if t.minPTS < t.firstDTS then t.firstDTS - t.minPTS else 0,
         CeilMovieTime(StartOf(t) - origin),
         CeilMovieTime(Seconds(t.maxPTS - t.minPTS, t.info.scale)))
  }

  ghost predicate IsLongest(plans: map<u32, Plan>, duration: int) {
    && (plans == map[] ==> duration == 0)
    && (plans != map[] ==> exists id | id in plans :: plans[id].delay + plans[id].duration == duration)
    && (forall id | id in plans :: plans[id].delay + plans[id].duration <= duration)
  }

  datatype Reference = Reference(track: u32, value: u64, payload: bytes)

  const NTP_EPOCH: int := 2208988800
  const YEAR_2100: int := 4102444800

  /** A prft box (ISO/IEC 14496-12 section 8.16.5) of a known track, with a plausible wall clock. */
  function ReadReference(p: bytes, defaults: map<u32, Track>): Option<Reference> {
    if |p| < 24 || p[0] != 1 then None
    else
      var seconds := U32(p, 8) - NTP_EPOCH;
      if seconds < EPOCH_2000 || seconds > YEAR_2100 || U32(p, 4) !in defaults then None
      else Some(Reference(U32(p, 4), U64(p, 16), p))
  }

  function ReadReferences(src: bytes, boxes: seq<Box>, defaults: map<u32, Track>): Option<seq<Reference>> {
    if boxes == [] then Some([])
    else
      var before :- ReadReferences(src, boxes[..|boxes| - 1], defaults);
      var b := boxes[|boxes| - 1];
      if b.header > b.size || b.offset + b.size > |src| then None
      else
        var p :- Payload(src, b);
        var ref :- ReadReference(p, defaults);
        Some(before + [ref])
  }

  /** The same wall clock, with the media time moved to the new clock of the track. */
  function RewriteReference(r: Reference, tracks: map<u32, FlatTrack>, plans: map<u32, Plan>): Option<Child> {
    if r.track !in tracks || r.track !in plans || |r.payload| < 24 then None
    else
      var v := r.value - tracks[r.track].firstDTS + plans[r.track].shift;
      if v < 0 || v > MAX_U64 then None
      else Some(Child(PRFT, r.payload[..16] + Enc64(v) + r.payload[24..]))
  }

  function RewriteReferences(rs: seq<Reference>, tracks: map<u32, FlatTrack>, plans: map<u32, Plan>): (r: Option<seq<Child>>)
    ensures r.Some? ==> TotalSize(r.value) <= MAX_METADATA && forall c | c in r.value :: c.kind == PRFT
  {
    if rs == [] then Some([])
    else
      var before :- RewriteReferences(rs[..|rs| - 1], tracks, plans);
      var c :- RewriteReference(rs[|rs| - 1], tracks, plans);
      if TotalSize(before + [c]) > MAX_METADATA then None else Some(before + [c])
  }

  /** The tracks of the new movie: those with samples. */
  function PlansFrom(tracks: map<u32, FlatTrack>, origin: real): map<u32, Plan>
    requires Scaled(tracks)
  {
    map id | id in tracks && tracks[id].pieces != [] :: PlanOf(tracks[id], origin)
  }

  predicate PlansFit(plans: map<u32, Plan>) {
    forall id | id in plans :: plans[id].duration <= MAX_U64 - plans[id].delay
  }

  lemma OriginExists(tracks: map<u32, FlatTrack>, ids: set<u32>) returns (o: real)
    requires Scaled(tracks) && ids <= tracks.Keys && exists id | id in ids :: tracks[id].pieces != []
    ensures exists id | id in ids :: tracks[id].pieces != [] && StartOf(tracks[id]) == o
    ensures forall id | id in ids && tracks[id].pieces != [] :: o <= StartOf(tracks[id])
    decreases |ids|
  {
    var id :| id in ids && tracks[id].pieces != [];
    var rest := ids - {id};
    o := StartOf(tracks[id]);
    if exists j | j in rest :: tracks[j].pieces != [] {
      var p := OriginExists(tracks, rest);
      var k :| k in rest && tracks[k].pieces != [] && StartOf(tracks[k]) == p;
      if p < o { o := p; }
    }
  }

  ghost function Origin(tracks: map<u32, FlatTrack>): (o: real)
    requires Scaled(tracks) && exists id | id in tracks :: tracks[id].pieces != []
    ensures IsOrigin(tracks, o)
  {
    assert exists o :: IsOrigin(tracks, o) by {
      var o := OriginExists(tracks, tracks.Keys);
      assert IsOrigin(tracks, o);
    }
    var o :| IsOrigin(tracks, o);
    o
  }

  lemma LongestExists(plans: map<u32, Plan>, ids: set<u32>) returns (d: int)
    requires ids <= plans.Keys && ids != {}
    ensures exists id | id in ids :: plans[id].delay + plans[id].duration == d
    ensures forall id | id in ids :: plans[id].delay + plans[id].duration <= d
    decreases |ids|
  {
    var id :| id in ids;
    var rest := ids - {id};
    assert forall j | j in ids :: j == id || j in rest;
    d := plans[id].delay + plans[id].duration;
    if rest != {} {
      var e := LongestExists(plans, rest);
      var j :| j in rest && plans[j].delay + plans[j].duration == e;
      if e > d { d := e; }
    }
  }

  ghost function Longest(plans: map<u32, Plan>): (d: u64)
    requires PlansFit(plans)
    ensures IsLongest(plans, d)
  {
    assert exists d: u64 :: IsLongest(plans, d) by {
      if plans == map[] {
        assert IsLongest(plans, 0);
      } else {
        var d := LongestExists(plans, plans.Keys);
        assert IsLongest(plans, d);
      }
    }
    var d: u64 :| IsLongest(plans, d);
    d
  }

  /** readFlatMovie after its loop. */
  ghost function FinishMovie(src: bytes, s: Scan): FlatRead
  {
    if !s.haveFragment then NotFlat
    else if s.pending != [] || s.moov.None? || !Scaled(s.tracks) then FlatError
    else match ReadReferences(src, s.references, s.defaults)
      case None => FlatError
      case Some(rs) =>
        if rs == [] || !(exists id | id in s.tracks :: s.tracks[id].pieces != []) then FlatError
        else
          var plans := PlansFrom(s.tracks, Origin(s.tracks));
          if !PlansFit(plans) then FlatError
          else match RewriteReferences(rs, s.tracks, plans)
            case None => FlatError
            case Some(refs) => Flat(Movie(s.moov.value, s.metadata, s.tracks, plans, refs, Longest(plans)))
  }

  lemma FinishFacts(src: bytes, s: Scan)
    requires FinishMovie(src, s).Flat?
    ensures s.haveFragment && s.pending == [] && s.moov.Some? && Scaled(s.tracks)
    ensures exists id | id in s.tracks :: s.tracks[id].pieces != []
    ensures var m := FinishMovie(src, s).movie;
            && m.moov == s.moov.value && m.metadata == s.metadata && m.tracks == s.tracks
            && m.plans == PlansFrom(s.tracks, Origin(s.tracks)) && PlansFit(m.plans)
            && m.duration == Longest(m.plans)
            && ReadReferences(src, s.references, s.defaults).Some?
            && RewriteReferences(ReadReferences(src, s.references, s.defaults).value, s.tracks, m.plans) == Some(m.references)
  {
  }

  ghost function ReadFlatMovie(src: bytes): FlatRead {
    match ScanFrom(src, 0, START)
    case PassThrough => NotFlat
    case Refused => FlatError
    case Going(s) => FinishMovie(src, s)
  }

  // ---------- the loops over the tracks ----------

  lemma OriginUnique(tracks: map<u32, FlatTrack>, a: real, b: real)
    requires Scaled(tracks) && IsOrigin(tracks, a) && IsOrigin(tracks, b)
    ensures a == b
  {
  }

  /** The loop that finds the origin, in whatever order the map yields its tracks. */
  method FindOrigin(tracks: map<u32, FlatTrack>) returns (o: real)
    requires Scaled(tracks) && exists id | id in tracks :: tracks[id].pieces != []
    ensures o == Origin(tracks)
  {
    var ids, found := tracks.Keys, false;
    o := 0.0;
    while ids != {}
      invariant ids <= tracks.Keys
      invariant found ==> exists id | id in tracks && id !in ids :: tracks[id].pieces != [] && StartOf(tracks[id]) == o
      invariant forall id | id in tracks && id !in ids && tracks[id].pieces != [] :: found && o <= StartOf(tracks[id])
      decreases |ids|
    {
      var id :| id in ids;
      ids := ids - {id};
      if tracks[id].pieces != [] {
        var at := StartOf(tracks[id]);
        if !found || at < o { o := at; }
        found := true;
      }
    }
    OriginUnique(tracks, o, Origin(tracks));
  }

  function PlansBut(tracks: map<u32, FlatTrack>, origin: real, ids: set<u32>): map<u32, Plan>
    requires Scaled(tracks)
  {
    map id | id in tracks && id !in ids && tracks[id].pieces != [] :: PlanOf(tracks[id], origin)
  }

  lemma LongestOfNone()
    ensures IsLongest(map[], 0)
  {
  }

  lemma LongestGrows(plans: map<u32, Plan>, d: int, id: u32, p: Plan)
    requires IsLongest(plans, d) && d >= 0 && id !in plans
    ensures IsLongest(plans[id := p], Max(d, p.delay + p.duration))
  {
    var after := plans[id := p];
    assert after[id] == p;
    if d > p.delay + p.duration {
      var j :| j in plans && plans[j].delay + plans[j].duration == d;
      assert after[j] == plans[j];
    }
  }

  /** The loop that plans every track and measures the movie. */
  method PlanTracks(tracks: map<u32, FlatTrack>, origin: real) returns (plans: map<u32, Plan>, duration: int, ok: bool)
    requires Scaled(tracks)
    ensures ok == PlansFit(PlansFrom(tracks, origin))
    ensures ok ==> plans == PlansFrom(tracks, origin) && duration == Longest(plans)
  {
    hide PlanOf, IsLongest;
    var ids := tracks.Keys;
    LongestOfNone();
    plans, duration, ok := map[], 0, true;
    while ids != {}
      invariant ids <= tracks.Keys
      invariant plans == PlansBut(tracks, origin, ids)
      invariant IsLongest(plans, duration) && duration >= 0
      invariant PlansFit(plans)
      decreases |ids|
    {
      var id :| id in ids;
      ids := ids - {id};
      if tracks[id].pieces != [] {
        var p := PlanOf(tracks[id], origin);
        if p.duration > MAX_U64 - p.delay {
          assert PlansFrom(tracks, origin)[id] == p;
          return map[], 0, false;
        }
        LongestGrows(plans, duration, id, p);
        plans, duration := plans[id := p], Max(duration, p.delay + p.duration);
      }
    }
    LongestUnique(plans, duration, Longest(plans));
  }

  lemma LongestUnique(plans: map<u32, Plan>, a: int, b: int)
    requires IsLongest(plans, a) && IsLongest(plans, b)
    ensures a == b
  {
  }

  // ---------- the loops over the references ----------

  lemma ReferencesBroken(src: bytes, boxes: seq<Box>, defaults: map<u32, Track>, n: nat)
    requires n <= |boxes| && ReadReferences(src, boxes[..n], defaults).None?
    ensures ReadReferences(src, boxes, defaults).None?
    decreases |boxes|
  {
    hide ReadReference;
    if n < |boxes| {
      assert boxes[..|boxes| - 1][..n] == boxes[..n];
      ReferencesBroken(src, boxes[..|boxes| - 1], defaults, n);
    } else {
      assert boxes[..n] == boxes;
    }
  }

  method CollectReferences(src: bytes, boxes: seq<Box>, defaults: map<u32, Track>) returns (r: Option<seq<Reference>>)
    ensures r == ReadReferences(src, boxes, defaults)
  {
    hide ReadReference;
    var out: seq<Reference> := [];
    for i := 0 to |boxes|
      invariant ReadReferences(src, boxes[..i], defaults) == Some(out)
    {
      var b := boxes[i];
      assert boxes[..i + 1][..i] == boxes[..i];
      var p := if b.header > b.size || b.offset + b.size > |src| then None else Payload(src, b);
      var ref := if p.None? then None else ReadReference(p.value, defaults);
      if ref.None? { ReferencesBroken(src, boxes, defaults, i + 1); return None; }
      out := out + [ref.value];
    }
    assert boxes[..|boxes|] == boxes;
    return Some(out);
  }

  lemma RewriteBroken(rs: seq<Reference>, tracks: map<u32, FlatTrack>, plans: map<u32, Plan>, n: nat)
    requires n <= |rs| && RewriteReferences(rs[..n], tracks, plans).None?
    ensures RewriteReferences(rs, tracks, plans).None?
    decreases |rs|
  {
    hide RewriteReference;
    if n < |rs| {
      assert rs[..|rs| - 1][..n] == rs[..n];
      RewriteBroken(rs[..|rs| - 1], tracks, plans, n);
    } else {
      assert rs[..n] == rs;
    }
  }

  /** Appends each rewritten reference box and gives up when they outgrow the limit. */
  method RewriteAll(rs: seq<Reference>, tracks: map<u32, FlatTrack>, plans: map<u32, Plan>) returns (done: Option<seq<Child>>, out: bytes)
    ensures done == RewriteReferences(rs, tracks, plans)
    ensures done.Some? ==> out == Emit(done.value)
  {
    hide RewriteReference, EmitBox;
    out := [];
    done := Some([]);
    for i := 0 to |rs|
      invariant done.Some? && RewriteReferences(rs[..i], tracks, plans) == done && out == Emit(done.value)
    {
      assert rs[..i + 1][..i] == rs[..i];
      var c := RewriteReference(rs[i], tracks, plans);
      if c.None? { RewriteBroken(rs, tracks, plans, i + 1); return None, []; }
      EmitConcat(done.value, [c.value]);
      assert [c.value][1..] == [] && Emit([c.value]) == EmitBox(c.value.kind, c.value.body) + Emit([]);
      out := out + EmitBox(c.value.kind, c.value.body);
      if |out| > MAX_METADATA { RewriteBroken(rs, tracks, plans, i + 1); return None, []; }
      done := Some(done.value + [c.value]);
    }
    assert rs[..|rs|] == rs;
  }
}
