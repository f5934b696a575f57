/**
 The walks over movie and fragment boxes in internal/recordingmedia/index.go and
 flat.go, as loops over the children that update what they have read so far.
 */
module Walks {
  import opened Bytes
  import opened Options
  import opened Boxes
  import opened Tracks
  import opened Samples
  import opened Fragments
  import opened FragmentLoops

  // ---------- readRuns ----------

  /** The trun case of readRuns. */
  method RunOfTrun(v: bytes, st: TrafState, moofOffset: int) returns (r: Option<TrafState>)
    requires |v| >= 4
    ensures r == RunsTrun(v, st, moofOffset)
  {
    hide AddSamples, TrunSamples;
    if !st.haveHeader || !st.haveDecode || |v| < 12 {
      ShortTrun(v, st.t);
      return None;
    }
    var delta := TrunOffset(v);
    var start := moofOffset + delta;
    var c := ReadRun(v, st.t, Clock(st.rr, st.decode, start, st.haveSample));
    if c.None? || delta < 0 || delta > MAX_I64 - moofOffset { return None; }
    return Some(st.(rr := c.value.rr.(ranges := c.value.rr.ranges + [Range(start, c.value.dataEnd)], decodeEnd := c.value.decode),
                    decode := c.value.decode, haveSample := true));
  }

  lemma ShortTrun(v: bytes, t: Track)
    ensures |v| < 12 ==> TrunSamples(v, t).None?
  {
  }

  lemma TrafBroken(cs: seq<Child>, tracks: map<u32, Track>, moofOffset: int, n: nat)
    requires n <= |cs| && RunsTraf(cs[..n], tracks, moofOffset).None?
    ensures RunsTraf(cs, tracks, moofOffset).None?
    decreases |cs|
  {
    hide RunsStep;
    if n < |cs| {
      assert cs[..|cs| - 1][..n] == cs[..n];
      TrafBroken(cs[..|cs| - 1], tracks, moofOffset, n);
    } else {
      assert cs[..n] == cs;
    }
  }

  /** The walk over one traf box. */
  method WalkTraf(body: bytes, tracks: map<u32, Track>, moofOffset: int) returns (r: Option<Run>)
    ensures r == TrafRun(body, tracks, moofOffset)
  {
    hide RunsTrun, RunsHeader, BaseDecode;
    var walked := WalkChildren(body);
    if walked.None? { return None; }
    var cs := walked.value;
    var st := TRAF_START;
    for i := 0 to |cs|
      invariant RunsTraf(cs[..i], tracks, moofOffset) == Some(st)
    {
      var v := cs[i].body;
      assert cs[..i + 1][..i] == cs[..i];
      var next: Option<TrafState>;
      if |v| < 4 {
        next := None;
      } else if cs[i].kind == TFHD {
        next := RunsHeader(v, st, tracks);
      } else if cs[i].kind == TFDT {
        var n := BaseDecode(v);
        next := if n.None? then None else Some(st.(decode := n.value, rr := st.rr.(first := n.value), haveDecode := true));
      } else if cs[i].kind == TRUN {
        next := RunOfTrun(v, st, moofOffset);
      } else {
        next := Some(st);
      }
      if next.None? { TrafBroken(cs, tracks, moofOffset, i + 1); return None; }
      st := next.value;
    }
    assert cs[..|cs|] == cs;
    return if st.haveSample then Some(st.rr) else None;
  }

  lemma MoofBroken(cs: seq<Child>, tracks: map<u32, Track>, moofOffset: int, n: nat)
    requires n <= |cs| && RunsMoof(cs[..n], tracks, moofOffset).None?
    ensures RunsMoof(cs, tracks, moofOffset).None?
    decreases |cs|
  {
    hide TrafRun;
    if n < |cs| {
      assert cs[..|cs| - 1][..n] == cs[..n];
      MoofBroken(cs[..|cs| - 1], tracks, moofOffset, n);
    } else {
      assert cs[..n] == cs;
    }
  }

  /** readRuns. */
  method WalkRuns(data: bytes, tracks: map<u32, Track>, moofOffset: int) returns (r: Option<MoofRuns>)
    ensures r == Fragments.ReadRuns(data, tracks, moofOffset)
  {
    hide TrafRun, U32;
    var walked := WalkChildren(data);
    if walked.None? { return None; }
    var cs := walked.value;
    var runs: seq<Run>, sequence: u32 := [], 0;
    for i := 0 to |cs|
      invariant RunsMoof(cs[..i], tracks, moofOffset) == Some(MoofRuns(runs, sequence))
    {
      assert cs[..i + 1][..i] == cs[..i];
      if cs[i].kind == MFHD {
        if |cs[i].body| < 8 { MoofBroken(cs, tracks, moofOffset, i + 1); return None; }
        sequence := U32(cs[i].body, 4);
      } else if cs[i].kind == TRAF {
        var rr := WalkTraf(cs[i].body, tracks, moofOffset);
        if rr.None? { MoofBroken(cs, tracks, moofOffset, i + 1); return None; }
        runs := runs + [rr.value];
      }
    }
    assert cs[..|cs|] == cs;
    return Some(MoofRuns(runs, sequence));
  }

  // ---------- readSamples ----------

  /** The trun case of readSamples. */
  method PieceOfTrun(v: bytes, st: PieceState, moofOffset: int) returns (r: Option<PieceState>)
    requires |v| >= 4
    ensures r == PiecesTrun(v, st, moofOffset)
  {
    hide TrunSamples;
    if st.t.None? { return None; }
    var ss := ReadPiece(v, st.t.value, []);
    if ss.None? { return None; }
    assert [] + TrunSamples(v, st.t.value).value == TrunSamples(v, st.t.value).value;
    return Some(st.(pieces := st.pieces + [Piece(st.t.value.id, moofOffset + TrunOffset(v), ss.value)]));
  }

  lemma PiecesBroken(cs: seq<Child>, tracks: map<u32, Track>, moofOffset: int, n: nat)
    requires n <= |cs| && PiecesTraf(cs[..n], tracks, moofOffset).None?
    ensures PiecesTraf(cs, tracks, moofOffset).None?
    decreases |cs|
  {
    hide PiecesStep;
    if n < |cs| {
      assert cs[..|cs| - 1][..n] == cs[..n];
      PiecesBroken(cs[..|cs| - 1], tracks, moofOffset, n);
    } else {
      assert cs[..n] == cs;
    }
  }

  method WalkPieces(body: bytes, tracks: map<u32, Track>, moofOffset: int) returns (r: Option<seq<Piece>>)
    ensures r == TrafPieces(body, tracks, moofOffset)
  {
    hide PiecesTrun, PiecesHeader;
    var walked := WalkChildren(body);
    if walked.None? { return None; }
    var cs := walked.value;
    var st := PieceState(None, []);
    for i := 0 to |cs|
      invariant PiecesTraf(cs[..i], tracks, moofOffset) == Some(st)
    {
      var v := cs[i].body;
      assert cs[..i + 1][..i] == cs[..i];
      var next: Option<PieceState>;
      if |v| < 4 {
        next := None;
      } else if cs[i].kind == TFHD {
        next := PiecesHeader(v, st, tracks);
      } else if cs[i].kind == TRUN {
        next := PieceOfTrun(v, st, moofOffset);
      } else {
        next := if cs[i].kind == TFDT || cs[i].kind == FREE then Some(st) else None;
      }
      if next.None? { PiecesBroken(cs, tracks, moofOffset, i + 1); return None; }
      st := next.value;
    }
    assert cs[..|cs|] == cs;
    return Some(st.pieces);
  }

  lemma SamplesBroken(cs: seq<Child>, tracks: map<u32, Track>, moofOffset: int, n: nat)
    requires n <= |cs| && PiecesMoof(cs[..n], tracks, moofOffset).None?
    ensures PiecesMoof(cs, tracks, moofOffset).None?
    decreases |cs|
  {
    hide TrafPieces;
    if n < |cs| {
      assert cs[..|cs| - 1][..n] == cs[..n];
      SamplesBroken(cs[..|cs| - 1], tracks, moofOffset, n);
    } else {
      assert cs[..n] == cs;
    }
  }

  /** readSamples. */
  method WalkSamples(data: bytes, tracks: map<u32, Track>, moofOffset: int) returns (r: Option<seq<seq<Piece>>>)
    ensures r == ReadSamples(data, tracks, moofOffset)
  {
    hide TrafPieces;
    var walked := WalkChildren(data);
    if walked.None? { return None; }
    var cs := walked.value;
    var out: seq<seq<Piece>> := [];
    for i := 0 to |cs|
      invariant PiecesMoof(cs[..i], tracks, moofOffset) == Some(out)
    {
      assert cs[..i + 1][..i] == cs[..i];
      if cs[i].kind != MFHD && cs[i].kind != FREE {
        if cs[i].kind != TRAF { SamplesBroken(cs, tracks, moofOffset, i + 1); return None; }
        var pieces := WalkPieces(cs[i].body, tracks, moofOffset);
        if pieces.None? { SamplesBroken(cs, tracks, moofOffset, i + 1); return None; }
        out := out + [pieces.value];
      }
    }
    assert cs[..|cs|] == cs;
    return Some(out);
  }

  // ---------- readTracks ----------

  method WalkMinf(data: bytes, t0: Track) returns (r: Option<Track>)
    ensures r == match Children(data) case None => None case Some(cs) => MinfFields(cs, t0)
  {
    hide StblFields;
    var walked := WalkChildren(data);
    if walked.None? { return None; }
    var cs, t := walked.value, t0;
    assert cs[0..] == cs;
    for i := 0 to |cs|
      invariant MinfFields(cs, t0) == MinfFields(cs[i..], t)
    {
      assert cs[i..][1..] == cs[i + 1..] && cs[i..][0] == cs[i];
      if cs[i].kind == STBL {
        var inner := WalkStbl(cs[i].body, t);
        if inner.None? { return None; }
        t := inner.value;
      }
    }
    return Some(t);
  }

  method WalkStbl(data: bytes, t0: Track) returns (r: Option<Track>)
    ensures r == match Children(data) case None => None case Some(cs) => StblFields(cs, t0)
  {
    var walked := WalkChildren(data);
    if walked.None? { return None; }
    var cs, t := walked.value, t0;
    assert cs[0..] == cs;
    for i := 0 to |cs|
      invariant StblFields(cs, t0) == StblFields(cs[i..], t)
    {
      assert cs[i..][1..] == cs[i + 1..] && cs[i..][0] == cs[i];
      if cs[i].kind == STSD {
        if |cs[i].body| < 16 { return None; }
        t := t.(codec := cs[i].body[12..16]);
      }
    }
    return Some(t);
  }

  method WalkMdia(data: bytes, t0: Track) returns (r: Option<Track>)
    ensures r == match Children(data) case None => None case Some(cs) => MdiaFields(cs, t0)
  {
    hide U32, MinfFields;
    var walked := WalkChildren(data);
    if walked.None? { return None; }
    var cs, t := walked.value, t0;
    assert cs[0..] == cs;
    for i := 0 to |cs|
      invariant MdiaFields(cs, t0) == MdiaFields(cs[i..], t)
    {
      var v := cs[i].body;
      assert cs[i..][1..] == cs[i + 1..] && cs[i..][0] == cs[i];
      if cs[i].kind == MDHD {
        if |v| < HeaderField(v) + 4 { return None; }
        t := t.(scale := U32(v, HeaderField(v)));
      } else if cs[i].kind == HDLR {
        if |v| < 12 { return None; }
        t := t.(video := U32(v, 8) == VIDE);
      } else if cs[i].kind == MINF {
        var inner := WalkMinf(v, t);
        if inner.None? { return None; }
        t := inner.value;
      }
    }
    return Some(t);
  }

  method WalkTrak(body: bytes) returns (r: Option<Track>)
    ensures r == ReadTrak(body)
  {
    hide U32, MdiaFields;
    var walked := WalkChildren(body);
    if walked.None? { return None; }
    var cs, t := walked.value, BLANK;
    assert cs[0..] == cs;
    for i := 0 to |cs|
      invariant TrakFields(cs, BLANK) == TrakFields(cs[i..], t)
    {
      var v := cs[i].body;
      assert cs[i..][1..] == cs[i + 1..] && cs[i..][0] == cs[i];
      if cs[i].kind == TKHD {
        if |v| < HeaderField(v) + 4 { return None; }
        t := t.(id := U32(v, HeaderField(v)));
      } else if cs[i].kind == MDIA {
        var inner := WalkMdia(v, t);
        if inner.None? { return None; }
        t := inner.value;
      }
    }
    return if t.id == 0 || t.scale == 0 then None else Some(t);
  }

  method WalkMvex(data: bytes, d0: map<u32, Defaults>) returns (r: Option<map<u32, Defaults>>)
    ensures r == match Children(data) case None => None case Some(cs) => MvexFields(cs, d0)
  {
    hide U32;
    var walked := WalkChildren(data);
    if walked.None? { return None; }
    var cs := walked.value;
    var d: map<u32, Defaults> := d0;
    assert cs[0..] == cs;
    for i := 0 to |cs|
      invariant MvexFields(cs, d0) == MvexFields(cs[i..], d)
    {
      var v := cs[i].body;
      assert cs[i..][1..] == cs[i + 1..] && cs[i..][0] == cs[i];
      if cs[i].kind == TREX {
        if |v| < 24 { return None; }
        d := d[U32(v, 4) := Defaults(U32(v, 12), U32(v, 16), U32(v, 20))];
      }
    }
    return Some(d);
  }

  /** readTracks. */
  method WalkTracks(data: bytes) returns (r: TracksRead)
    ensures r == ReadTracks(data)
  {
    hide ReadTrak, MvexFields, Inherit, Numbered;
    var walked := WalkChildren(data);
    if walked.None? { return Invalid; }
    var cs := walked.value;
    var tracks: map<u32, Track>, defaults: map<u32, Defaults> := map[], map[];
    assert cs[0..] == cs;
    for i := 0 to |cs|
      invariant MoovFields(cs, map[], map[]) == MoovFields(cs[i..], tracks, defaults)
    {
      assert cs[i..][1..] == cs[i + 1..] && cs[i..][0] == cs[i];
      if cs[i].kind == TRAK {
        var t := WalkTrak(cs[i].body);
        if t.None? { return Invalid; }
        tracks := tracks[t.value.id := t.value];
      } else if cs[i].kind == MVEX {
        var d := WalkMvex(cs[i].body, defaults);
        if d.None? { return Invalid; }
        defaults := d.value;
      }
    }
    if defaults == map[] { return NotFragmented; }
    var todo, out := tracks.Keys, tracks;
    while todo != {}
      invariant todo <= tracks.Keys == out.Keys
      invariant forall id | id in tracks :: out[id] == if id in todo then tracks[id] else Inherit(tracks[id], defaults)
      decreases |todo|
    {
      var id :| id in todo;
      out := out[id := Inherit(out[id], defaults)];
      todo := todo - {id};
    }
    assert out == map id | id in tracks :: Inherit(tracks[id], defaults);
    return Read(out);
  }
}
