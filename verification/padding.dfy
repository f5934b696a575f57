/** Boxes the parsers of internal/recordingmedia pass over: what they read is what they would read without them. */
module Padding {
  import opened Bytes
  import opened Options
  import opened Boxes
  import opened Tracks
  import opened Samples
  import opened Fragments

  /** The children of certain kinds, in order. */
  function Kept(cs: seq<Child>, kinds: set<u32>): seq<Child> {
    if cs == [] then []
    else Kept(cs[..|cs| - 1], kinds) + if cs[|cs| - 1].kind in kinds then [cs[|cs| - 1]] else []
  }

  predicate AnyShort(cs: seq<Child>) { exists c | c in cs :: |c.body| < 4 }

  predicate AnyOther(cs: seq<Child>, kinds: set<u32>) { exists c | c in cs :: c.kind !in kinds }

  lemma LastAmong(cs: seq<Child>, kinds: set<u32>)
    requires cs != []
    ensures AnyShort(cs) <==> AnyShort(cs[..|cs| - 1]) || |cs[|cs| - 1].body| < 4
    ensures AnyOther(cs, kinds) <==> AnyOther(cs[..|cs| - 1], kinds) || cs[|cs| - 1].kind !in kinds
  {
    assert cs == cs[..|cs| - 1] + [cs[|cs| - 1]];
  }

  const RUN_KINDS: set<u32> := {TFHD, TFDT, TRUN}
  const TRAF_KINDS: set<u32> := {TFHD, TFDT, TRUN, FREE}
  const MOOF_KINDS: set<u32> := {MFHD, TRAF, FREE}

  lemma RunsTrafLast(cs: seq<Child>, c: Child, tracks: map<u32, Track>, at: int)
    ensures RunsTraf(cs + [c], tracks, at)
            == if RunsTraf(cs, tracks, at).None? then None else RunsStep(c, RunsTraf(cs, tracks, at).value, tracks, at)
    ensures PiecesTraf(cs + [c], tracks, at)
            == if PiecesTraf(cs, tracks, at).None? then None else PiecesStep(c, PiecesTraf(cs, tracks, at).value, tracks, at)
  {
    hide RunsStep, PiecesStep;
    assert (cs + [c])[..|cs|] == cs;
  }

  /** readRuns sees only headers, clocks and runs, but no box of a track fragment may be shorter than four bytes. */
  lemma {:induction false} RunsSkip(cs: seq<Child>, tracks: map<u32, Track>, at: int)
    ensures RunsTraf(cs, tracks, at) == if AnyShort(cs) then None else RunsTraf(Kept(cs, RUN_KINDS), tracks, at)
    decreases |cs|
  {
    hide RunsHeader, BaseDecode, RunsTrun;
    if cs != [] {
      var n := |cs| - 1;
      RunsSkip(cs[..n], tracks, at);
      LastAmong(cs, RUN_KINDS);
      RunsTrafLast(cs[..n], cs[n], tracks, at);
      assert cs == cs[..n] + [cs[n]];
      RunsTrafLast(Kept(cs[..n], RUN_KINDS), cs[n], tracks, at);
      assert Kept(cs[..n], RUN_KINDS) + [] == Kept(cs[..n], RUN_KINDS);
      hide RunsTraf;
    }
  }

  /** readSamples passes over free boxes and clocks, and refuses every other kind. */
  lemma {:induction false} PiecesSkip(cs: seq<Child>, tracks: map<u32, Track>, at: int)
    ensures PiecesTraf(cs, tracks, at) == if AnyShort(cs) || AnyOther(cs, TRAF_KINDS) then None else PiecesTraf(Kept(cs, {TFHD, TRUN}), tracks, at)
    decreases |cs|
  {
    hide PiecesHeader, PiecesTrun;
    if cs != [] {
      var n, kinds := |cs| - 1, {TFHD, TRUN};
      PiecesSkip(cs[..n], tracks, at);
      LastAmong(cs, TRAF_KINDS);
      RunsTrafLast(cs[..n], cs[n], tracks, at);
      assert cs == cs[..n] + [cs[n]];
      RunsTrafLast(Kept(cs[..n], kinds), cs[n], tracks, at);
      assert Kept(cs[..n], kinds) + [] == Kept(cs[..n], kinds);
      hide PiecesTraf;
    }
  }

  function HeaderOrTraf(m: MoofRuns, c: Child, tracks: map<u32, Track>, at: int): Option<MoofRuns> {
    if c.kind == MFHD then (if |c.body| < 8 then None else Some(m.(sequence := U32(c.body, 4))))
    else if c.kind == TRAF then (match TrafRun(c.body, tracks, at) case None => None case Some(rr) => Some(m.(runs := m.runs + [rr])))
    else Some(m)
  }

  lemma MoofLast(cs: seq<Child>, c: Child, tracks: map<u32, Track>, at: int)
    ensures RunsMoof(cs + [c], tracks, at)
            == if RunsMoof(cs, tracks, at).None? then None else HeaderOrTraf(RunsMoof(cs, tracks, at).value, c, tracks, at)
    ensures PiecesMoof(cs + [c], tracks, at)
            == if PiecesMoof(cs, tracks, at).None? then None
               else if c.kind == MFHD || c.kind == FREE then PiecesMoof(cs, tracks, at)
               else if c.kind != TRAF || TrafPieces(c.body, tracks, at).None? then None
               else Some(PiecesMoof(cs, tracks, at).value + [TrafPieces(c.body, tracks, at).value])
  {
    hide TrafRun, TrafPieces, U32;
    assert (cs + [c])[..|cs|] == cs;
  }

  /** readRuns sees only the headers and track fragments of a moof box. */
  lemma {:induction false} RunsMoofSkip(cs: seq<Child>, tracks: map<u32, Track>, at: int)
    ensures RunsMoof(cs, tracks, at) == RunsMoof(Kept(cs, {MFHD, TRAF}), tracks, at)
    decreases |cs|
  {
    hide RunsMoof, TrafRun, U32;
    if cs == [] {
      assert Kept(cs, {MFHD, TRAF}) == cs;
    } else {
      var n := |cs| - 1;
      RunsMoofSkip(cs[..n], tracks, at);
      var k := Kept(cs[..n], {MFHD, TRAF});
      assert cs == cs[..n] + [cs[n]] && k + [] == k;
      MoofLast(cs[..n], cs[n], tracks, at);
      MoofLast(k, cs[n], tracks, at);
    }
  }

  /** readSamples passes over the header and free boxes of a moof box, and refuses everything but track fragments. */
  lemma {:induction false} PiecesMoofSkip(cs: seq<Child>, tracks: map<u32, Track>, at: int)
    ensures PiecesMoof(cs, tracks, at) == if AnyOther(cs, MOOF_KINDS) then None else PiecesMoof(Kept(cs, {TRAF}), tracks, at)
    decreases |cs|
  {
    hide TrafPieces, PiecesMoof;
    if cs == [] {
      assert Kept(cs, {TRAF}) == cs;
    } else {
      var n := |cs| - 1;
      PiecesMoofSkip(cs[..n], tracks, at);
      LastAmong(cs, MOOF_KINDS);
      var k := Kept(cs[..n], {TRAF});
      assert cs == cs[..n] + [cs[n]] && k + [] == k;
      MoofLast(cs[..n], cs[n], tracks, at);
      MoofLast(k, cs[n], tracks, at);
      hide AnyOther;
    }
  }

  // ---------- movie headers ----------

  /** The same for walks that take the first child first. */
  function Only(cs: seq<Child>, kinds: set<u32>): seq<Child> {
    if cs == [] then [] else if cs[0].kind in kinds then [cs[0]] + Only(cs[1..], kinds) else Only(cs[1..], kinds)
  }

  lemma OnlyHead(cs: seq<Child>, kinds: set<u32>)
    requires cs != [] && cs[0].kind in kinds
    ensures Only(cs, kinds) != [] && Only(cs, kinds)[0] == cs[0] && Only(cs, kinds)[1..] == Only(cs[1..], kinds)
  {
  }

  lemma {:induction false} StblSkip(cs: seq<Child>, t: Track)
    ensures StblFields(cs, t) == StblFields(Only(cs, {STSD}), t)
    decreases |cs|
  {
    if cs != [] {
      if cs[0].kind == STSD {
        OnlyHead(cs, {STSD});
        if |cs[0].body| >= 16 { StblSkip(cs[1..], t.(codec := cs[0].body[12..16])); }
      } else {
        StblSkip(cs[1..], t);
      }
    }
  }

  lemma {:induction false} MinfSkip(cs: seq<Child>, t: Track)
    ensures MinfFields(cs, t) == MinfFields(Only(cs, {STBL}), t)
    decreases |cs|
  {
    hide StblFields, ChildrenFrom;
    if cs != [] {
      if cs[0].kind == STBL {
        OnlyHead(cs, {STBL});
        if Children(cs[0].body).Some? && StblFields(Children(cs[0].body).value, t).Some? { MinfSkip(cs[1..], StblFields(Children(cs[0].body).value, t).value); }
      } else {
        MinfSkip(cs[1..], t);
      }
    }
  }

  const MDIA_KINDS: set<u32> := {MDHD, HDLR, MINF}

  lemma {:induction false} MdiaSkip(cs: seq<Child>, t: Track)
    ensures MdiaFields(cs, t) == MdiaFields(Only(cs, MDIA_KINDS), t)
    decreases |cs|
  {
    if cs != [] {
      MdiaFieldSkips(cs[0], t);
      hide MdiaField;
      if cs[0].kind in MDIA_KINDS {
        OnlyHead(cs, MDIA_KINDS);
        if MdiaField(cs[0], t).Some? { MdiaSkip(cs[1..], MdiaField(cs[0], t).value); }
      } else {
        MdiaSkip(cs[1..], t);
      }
    }
  }

  lemma MdiaFieldSkips(c: Child, t: Track)
    ensures c.kind !in MDIA_KINDS ==> MdiaField(c, t) == Some(t)
  {
  }

  const TRAK_KINDS: set<u32> := {TKHD, MDIA}

  lemma {:induction false} TrakSkip(cs: seq<Child>, t: Track)
    ensures TrakFields(cs, t) == TrakFields(Only(cs, TRAK_KINDS), t)
    decreases |cs|
  {
    if cs != [] {
      TrakFieldSkips(cs[0], t);
      hide TrakField;
      if cs[0].kind in TRAK_KINDS {
        OnlyHead(cs, TRAK_KINDS);
        if TrakField(cs[0], t).Some? { TrakSkip(cs[1..], TrakField(cs[0], t).value); }
      } else {
        TrakSkip(cs[1..], t);
      }
    }
  }

  lemma TrakFieldSkips(c: Child, t: Track)
    ensures c.kind !in TRAK_KINDS ==> TrakField(c, t) == Some(t)
  {
  }

  lemma {:induction false} MvexSkip(cs: seq<Child>, d: map<u32, Defaults>)
    ensures MvexFields(cs, d) == MvexFields(Only(cs, {TREX}), d)
    decreases |cs|
  {
    hide U32;
    if cs != [] {
      if cs[0].kind == TREX {
        OnlyHead(cs, {TREX});
        var v := cs[0].body;
        if |v| >= 24 { MvexSkip(cs[1..], d[U32(v, 4) := Defaults(U32(v, 12), U32(v, 16), U32(v, 20))]); }
      } else {
        MvexSkip(cs[1..], d);
      }
    }
  }

  /** readTracks sees only the track, handler, clock and description boxes of a movie header and its trex boxes. */
  lemma {:induction false} MoovSkip(cs: seq<Child>, tracks: map<u32, Track>, d: map<u32, Defaults>)
    ensures MoovFields(cs, tracks, d) == MoovFields(Only(cs, {TRAK, MVEX}), tracks, d)
    decreases |cs|
  {
    hide ReadTrak, MvexFields, ChildrenFrom, Numbered, Inherit;
    var kinds := {TRAK, MVEX};
    if cs != [] {
      if cs[0].kind == TRAK {
        OnlyHead(cs, kinds);
        if ReadTrak(cs[0].body).Some? { MoovSkip(cs[1..], tracks[ReadTrak(cs[0].body).value.id := ReadTrak(cs[0].body).value], d); }
      } else if cs[0].kind == MVEX {
        OnlyHead(cs, kinds);
        if Children(cs[0].body).Some? && MvexFields(Children(cs[0].body).value, d).Some? { MoovSkip(cs[1..], tracks, MvexFields(Children(cs[0].body).value, d).value); }
      } else {
        MoovSkip(cs[1..], tracks, d);
      }
    }
  }
}
