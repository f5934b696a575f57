/** The movie header as internal/recordingmedia/index.go reads it: one Track per trak box, with the mvex defaults. */
module Tracks {
  import opened Bytes
  import opened Options
  import opened Boxes

  /** `codec` is empty until a sample description names it. */
  datatype Track = Track(id: u32, scale: u32, duration: u32, size: u32, flags: u32, video: bool, codec: bytes)

  datatype Defaults = Defaults(duration: u32, size: u32, flags: u32)

  datatype TracksRead = Read(tracks: map<u32, Track>) | NotFragmented | Invalid

  const BLANK: Track := Track(0, 0, 0, 0, 0, false, [])

  /** Where a tkhd keeps its track number and an mdhd its timescale. */
  function HeaderField(v: bytes): nat {
    if |v| > 0 && v[0] == 1 then 20 else 12
  }

  function StblFields(cs: seq<Child>, t: Track): Option<Track> {
    if cs == [] then Some(t)
    else if cs[0].kind == STSD then
      if |cs[0].body| < 16 then None
      else StblFields(cs[1..], t.(codec := cs[0].body[12..16]))
    else StblFields(cs[1..], t)
  }

  function MinfFields(cs: seq<Child>, t: Track): Option<Track> {
    if cs == [] then Some(t)
    else if cs[0].kind == STBL then
      var inner :- Children(cs[0].body);
      var t' :- StblFields(inner, t);
      MinfFields(cs[1..], t')
    else MinfFields(cs[1..], t)
  }

  function MdiaField(c: Child, t: Track): Option<Track> {
    var v := c.body;
    if c.kind == MDHD then
      if |v| < HeaderField(v) + 4 then None else Some(t.(scale := U32(v, HeaderField(v))))
    else if c.kind == HDLR then
      if |v| < 12 then None else Some(t.(video := U32(v, 8) == VIDE))
    else if c.kind == MINF then
      var inner :- Children(v);
      MinfFields(inner, t)
    else Some(t)
  }

  function MdiaFields(cs: seq<Child>, t: Track): Option<Track> {
    if cs == [] then Some(t)
    else
      var t' :- MdiaField(cs[0], t);
      MdiaFields(cs[1..], t')
  }

  function TrakField(c: Child, t: Track): Option<Track> {
    if c.kind == TKHD then
      if |c.body| < HeaderField(c.body) + 4 then None
      else Some(t.(id := U32(c.body, HeaderField(c.body))))
    else if c.kind == MDIA then
      var inner :- Children(c.body);
      MdiaFields(inner, t)
    else Some(t)
  }

  function TrakFields(cs: seq<Child>, t: Track): Option<Track> {
    if cs == [] then Some(t)
    else
      var t' :- TrakField(cs[0], t);
      TrakFields(cs[1..], t')
  }

  function ReadTrak(body: bytes): (r: Option<Track>)
    ensures r.Some? ==> r.value.id > 0 && r.value.scale > 0
  {
    var cs :- Children(body);
    var t :- TrakFields(cs, BLANK);
    if t.id == 0 || t.scale == 0 then None else Some(t)
  }

  function MvexFields(cs: seq<Child>, d: map<u32, Defaults>): Option<map<u32, Defaults>> {
    if cs == [] then Some(d)
    else if cs[0].kind == TREX then
      var v := cs[0].body;
      if |v| < 24 then None
      else MvexFields(cs[1..], d[U32(v, 4) := Defaults(U32(v, 12), U32(v, 16), U32(v, 20))])
    else MvexFields(cs[1..], d)
  }

  predicate Numbered(tracks: map<u32, Track>) {
    forall id | id in tracks :: tracks[id].id == id && id > 0 && tracks[id].scale > 0
  }

  function MoovFields(cs: seq<Child>, tracks: map<u32, Track>, d: map<u32, Defaults>): (r: TracksRead)
    ensures Numbered(tracks) && r.Read? ==> Numbered(r.tracks)
  {
    if cs == [] then
      if d == map[] then NotFragmented
      else Read(map id | id in tracks :: Inherit(tracks[id], d))
    else if cs[0].kind == TRAK then
      match ReadTrak(cs[0].body)
      case None => Invalid
      case Some(t) => MoovFields(cs[1..], tracks[t.id := t], d)
    else if cs[0].kind == MVEX then
      match Children(cs[0].body)
      case None => Invalid
      case Some(inner) =>
        match MvexFields(inner, d)
        case None => Invalid
        case Some(d') => MoovFields(cs[1..], tracks, d')
    else MoovFields(cs[1..], tracks, d)
  }

  function Inherit(t: Track, d: map<u32, Defaults>): Track {
    if t.id in d then t.(duration := d[t.id].duration, size := d[t.id].size, flags := d[t.id].flags)
    else t.(duration := 0, size := 0, flags := 0)
  }

  function ReadTracks(data: bytes): (r: TracksRead)
    ensures r.Read? ==> Numbered(r.tracks)
  {
    match Children(data)
    case None => Invalid
    case Some(cs) => MoovFields(cs, map[], map[])
  }
}
