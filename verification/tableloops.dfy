/**
 sampleTable of internal/recordingmedia/flat_boxes.go as the program runs it: one
 pass over the samples and one over the chunks, appending to every table at once,
 with the entry count of stsc patched in afterwards.
 */
module TableLoops {
  import opened Bytes
  import opened Options
  import opened Boxes
  import opened Samples
  import opened SampleTables

  method EncodeTable(kind: u32, entries: seq<Entry>, version: byte) returns (b: bytes)
    ensures b == EmitBox(kind, EntryTable(version, entries))
  {
    hide Enc32;
    var p: bytes := [version, 0, 0, 0] + Enc32(Wrap32(|entries|));
    for i := 0 to |entries|
      invariant p == [version, 0, 0, 0] + Enc32(Wrap32(|entries|)) + EncEntries(entries[..i])
    {
      assert entries[..i + 1][..i] == entries[..i];
      p := p + (Enc32(entries[i].count) + Enc32(entries[i].value));
    }
    assert entries[..|entries|] == entries;
    return EmitBox(kind, p);
  }

  /** The walk over the initial stbl. */
  method KeepDescriptions(initial: seq<Child>) returns (out: Option<bytes>)
    ensures out == match Descriptions(initial)
                   case None => None
                   case Some(ds) => if ds == [] then None else Some(Emit(ds))
  {
    hide EmitBox, U32;
    ghost var kept: seq<Child> := [];
    var o, haveDescription := [], false;
    Front([], Descriptions(initial));
    assert initial[0..] == initial;
    for i := 0 to |initial|
      invariant Descriptions(initial) == Joined(kept, Descriptions(initial[i..]))
      invariant o == Emit(kept) && haveDescription == (kept != [])
    {
      var kind, p := initial[i].kind, initial[i].body;
      assert initial[i..][1..] == initial[i + 1..] && initial[i..][0] == initial[i];
      if kind == STSD {
        if |p| < 8 || U32(p, 4) != 1 { return None; }
        haveDescription := true;
        o := o + EmitBox(kind, p);
        EmitMore(kept, initial[i]);
        FrontMore(kept, initial[i], Descriptions(initial[i + 1..]));
        kept := kept + [initial[i]];
      } else if kind == STTS || kind == CTTS || kind == STSC || kind == STCO || kind == CO64 || kind == STSS {
        if |p| < 8 || U32(p, 4) != 0 { return None; }
      } else if kind == STSZ {
        if |p| < 12 || U32(p, 8) != 0 { return None; }
      } else if kind != FREE {
        return None;
      }
    }
    Front(kept, Some([]));
    if !haveDescription { return None; }
    return Some(o);
  }

  function Joined(a: seq<Child>, rest: Option<seq<Child>>): Option<seq<Child>> {
    if rest.None? then None else Some(a + rest.value)
  }

  lemma Front(a: seq<Child>, rest: Option<seq<Child>>)
    ensures Joined([], rest) == rest && Joined(a, Some([])) == Some(a)
  {
    if rest.Some? { assert [] + rest.value == rest.value; }
    assert a + [] == a;
  }

  lemma FrontMore(a: seq<Child>, c: Child, rest: Option<seq<Child>>)
    ensures rest.Some? ==> Joined(a, Some([c] + rest.value)) == Joined(a + [c], rest)
    ensures rest.None? ==> Joined(a + [c], rest) == None
  {
    if rest.Some? { assert a + ([c] + rest.value) == a + [c] + rest.value; }
  }

  lemma EmitMore(a: seq<Child>, c: Child)
    ensures Emit(a + [c]) == Emit(a) + EmitBox(c.kind, c.body)
  {
    hide EmitBox;
    EmitConcat(a, [c]);
    assert [c][1..] == [] && Emit([c]) == EmitBox(c.kind, c.body) + Emit([]);
  }

  /** The tables that take one pass over the samples. */
  datatype Encoded = Encoded(times: seq<Entry>, compositions: seq<Entry>, sync: seq<u32>, sizes: bytes, negative: bool, have: bool)

  method EncodeSamples(ss: seq<Sample>, shift: int) returns (r: Option<Encoded>)
    ensures var cs := CompositionsOf(ss, shift);
            if !CompositionsFit(cs) then r == None
            else r == Some(Encoded(RunLengths(DurationsOf(ss)), RunLengths(Unsigned(cs)), SyncNumbers(ss), StszBody(ss),
                                   AnyNegative(cs), AnyNonzero(cs)))
  {
    hide AppendEntry, Enc32, IsSync, RunLengths, EncWords, SyncNumbers;
    ghost var cs := CompositionsOf(ss, shift);
    var negative, have := FindSigns(ss, shift);
    var times, compositions, sync := [], [], [];
    var sizes := ZERO4 + ZERO4 + Enc32(Wrap32(|ss|));
    NothingListed();
    for i := 0 to |ss|
      invariant times == RunLengths(DurationsOf(ss)[..i])
      invariant compositions == RunLengths(Unsigned(cs)[..i])
      invariant sync == SyncNumbers(ss[..i])
      invariant sizes == ZERO4 + ZERO4 + Enc32(Wrap32(|ss|)) + EncWords(SizesOf(ss)[..i])
      invariant forall j | 0 <= j < i :: if negative then -0x8000_0000 <= cs[j] <= 0x7fff_ffff else 0 <= cs[j] <= MAX_U32
    {
      var s := ss[i];
      var c := s.cts + shift;
      OneMore(DurationsOf(ss), i);
      OneMore(Unsigned(cs), i);
      OneMore(SizesOf(ss), i);
      OneMoreSync(ss, i);
      times := AppendEntry(times, s.duration);
      sizes := sizes + Enc32(s.size);
      if (negative && (c < -0x8000_0000 || c > 0x7fff_ffff)) || (!negative && (c < 0 || c > MAX_U32)) {
        assert cs[i] in cs && cs[i] == c;
        return None;
      }
      compositions := AppendEntry(compositions, Wrap32(c));
      if IsSync(s.flags) { sync := sync + [Wrap32(i + 1)]; }
    }
    assert ss[..|ss|] == ss && DurationsOf(ss)[..|ss|] == DurationsOf(ss);
    assert Unsigned(cs)[..|ss|] == Unsigned(cs) && SizesOf(ss)[..|ss|] == SizesOf(ss);
    return Some(Encoded(times, compositions, sync, sizes, negative, have));
  }

  lemma NothingListed()
    ensures RunLengths([]) == [] && EncWords([]) == [] && SyncNumbers([]) == []
  {
  }

  lemma OneMore(vs: seq<u32>, i: nat)
    requires i < |vs|
    ensures RunLengths(vs[..i + 1]) == AppendEntry(RunLengths(vs[..i]), vs[i])
    ensures EncWords(vs[..i + 1]) == EncWords(vs[..i]) + Enc32(vs[i])
  {
    hide AppendEntry, Enc32;
    assert vs[..i + 1][..i] == vs[..i];
  }

  lemma OneMoreSync(ss: seq<Sample>, i: nat)
    requires i < |ss|
    ensures SyncNumbers(ss[..i + 1]) == if IsSync(ss[i].flags) then SyncNumbers(ss[..i]) + [Wrap32(i + 1)] else SyncNumbers(ss[..i])
  {
    hide IsSync;
    assert ss[..i + 1][..i] == ss[..i];
  }

  lemma SignsMore(cs: seq<int>, c: int)
    ensures AnyNegative(cs + [c]) == (AnyNegative(cs) || c < 0)
    ensures AnyNonzero(cs + [c]) == (AnyNonzero(cs) || c != 0)
  {
    assert c in cs + [c];
    if x :| x in cs && x < 0 { assert x in cs + [c]; }
    if x :| x in cs && x != 0 { assert x in cs + [c]; }
    if x :| x in cs + [c] && x < 0 { assert x in cs || x == c; }
    if x :| x in cs + [c] && x != 0 { assert x in cs || x == c; }
  }

  method FindSigns(ss: seq<Sample>, shift: int) returns (negative: bool, have: bool)
    ensures negative == AnyNegative(CompositionsOf(ss, shift)) && have == AnyNonzero(CompositionsOf(ss, shift))
  {
    ghost var cs := CompositionsOf(ss, shift);
    negative, have := false, false;
    for i := 0 to |ss|
      invariant negative == AnyNegative(cs[..i]) && have == AnyNonzero(cs[..i])
    {
      var c := ss[i].cts + shift;
      assert cs[..i + 1] == cs[..i] + [c];
      SignsMore(cs[..i], c);
      negative := negative || c < 0;
      have := have || c != 0;
    }
    assert cs[..|ss|] == cs;
  }

  /** The chunk tables: stsc with its entry count patched in, and co64. */
  method EncodeChunks(cs: seq<Chunk>, delta: int) returns (r: Option<(bytes, bytes)>)
    ensures if exists c | c in cs :: !OffsetFits(c.offset, delta) then r == None
            else |Groups(cs)| <= |cs| && r == Some((StscBody(cs), Co64Body(cs, delta)))
  {
    hide Enc32, Enc64, Groups, OffsetFits, EncGroups, EncWide;
    var chunks: bytes := ZERO4 + ZERO4;
    var offsets: bytes := ZERO4 + Enc32(Wrap32(|cs|));
    var entries := 0;
    var previous: u32 := 0;
    NoGroups();
    for i := 0 to |cs|
      invariant chunks == ZERO4 + ZERO4 + EncGroups(Groups(cs[..i]))
      invariant offsets == ZERO4 + Enc32(Wrap32(|cs|)) + EncWide(OffsetsOf(cs, delta)[..i])
      invariant entries == |Groups(cs[..i])| <= i
      invariant i > 0 ==> entries > 0 && previous == Groups(cs[..i])[entries - 1].samples
      invariant i == 0 ==> entries == 0
      invariant forall j | 0 <= j < i :: OffsetFits(cs[j].offset, delta)
    {
      var c := cs[i];
      OneMoreGroup(cs, i);
      OneMoreOffset(cs, delta, i);
      if i == 0 || c.samples != previous {
        chunks := chunks + (Enc32(Wrap32(i + 1)) + Enc32(c.samples) + Enc32(1));
        entries := entries + 1;
        previous := c.samples;
      }
      if !OffsetFits(c.offset, delta) {
        assert c in cs;
        return None;
      }
      offsets := offsets + Enc64(Wrap64(c.offset + delta));
    }
    assert cs[..|cs|] == cs && OffsetsOf(cs, delta)[..|cs|] == OffsetsOf(cs, delta);
    chunks := chunks[..4] + Enc32(Wrap32(entries)) + chunks[8..];
    assert chunks == StscBody(cs);
    return Some((chunks, offsets));
  }

  lemma NoGroups()
    ensures Groups([]) == [] && EncGroups([]) == [] && EncWide([]) == []
  {
  }

  lemma OneMoreGroup(cs: seq<Chunk>, i: nat)
    requires i < |cs|
    ensures Groups(cs[..i + 1]) == AppendGroup(Groups(cs[..i]), Wrap32(i + 1), cs[i].samples)
    ensures var g := Group(Wrap32(i + 1), cs[i].samples, 1);
            EncGroups(Groups(cs[..i]) + [g]) == EncGroups(Groups(cs[..i])) + (Enc32(g.first) + Enc32(g.samples) + Enc32(1))
  {
    hide Enc32;
    assert cs[..i + 1][..i] == cs[..i];
    var gs, g := Groups(cs[..i]), Group(Wrap32(i + 1), cs[i].samples, 1);
    assert (gs + [g])[..|gs|] == gs;
  }

  lemma OneMoreOffset(cs: seq<Chunk>, delta: int, i: nat)
    requires i < |cs|
    ensures EncWide(OffsetsOf(cs, delta)[..i + 1]) == EncWide(OffsetsOf(cs, delta)[..i]) + Enc64(Wrap64(cs[i].offset + delta))
  {
    hide Enc64;
    assert OffsetsOf(cs, delta)[..i + 1][..i] == OffsetsOf(cs, delta)[..i];
  }

  method EncodeSync(sync: seq<u32>) returns (p: bytes)
    ensures p == ZERO4 + Enc32(Wrap32(|sync|)) + EncWords(sync)
  {
    hide Enc32;
    p := ZERO4 + Enc32(Wrap32(|sync|));
    for i := 0 to |sync|
      invariant p == ZERO4 + Enc32(Wrap32(|sync|)) + EncWords(sync[..i])
    {
      OneMore(sync, i);
      p := p + Enc32(sync[i]);
    }
    assert sync[..|sync|] == sync;
  }

  /** The contents of the new stbl box; None is the source's error. */
  method EncodeStbl(initial: seq<Child>, video: bool, ss: seq<Sample>, cs: seq<Chunk>, shift: int, delta: int) returns (r: Option<bytes>)
    ensures r == match StblChildren(initial, video, ss, cs, shift, delta)
                 case None => None
                 case Some(children) => Some(Emit(children))
  {
    hide EmitBox, EntryTable, RunLengths, SyncNumbers, StszBody, StscBody, Co64Body, CompositionsFit, AnyNegative, AnyNonzero, OffsetFits;
    hide Descriptions, EncWords, Enc32, Emit;
    var head := KeepDescriptions(initial);
    if head.None? { return None; }
    var e := EncodeSamples(ss, shift);
    if e.None? { return None; }
    ghost var comps := CompositionsOf(ss, shift);
    var stts := EncodeTable(STTS, e.value.times, 0);
    var out := head.value + stts;
    ghost var kids := Descriptions(initial).value + [Child(STTS, SttsBody(ss))];
    EmitMore(Descriptions(initial).value, Child(STTS, SttsBody(ss)));
    if e.value.have {
      var ctts := EncodeTable(CTTS, e.value.compositions, if e.value.negative then 1 else 0);
      out := out + ctts;
      EmitMore(kids, Child(CTTS, CttsBody(comps)));
      kids := kids + [Child(CTTS, CttsBody(comps))];
    }
    if video {
      var p := EncodeSync(e.value.sync);
      out := out + EmitBox(STSS, p);
      EmitMore(kids, Child(STSS, StssBody(ss)));
      kids := kids + [Child(STSS, StssBody(ss))];
    }
    var tables := EncodeChunks(cs, delta);
    if tables.None? { return None; }
    out := out + EmitBox(STSZ, e.value.sizes) + EmitBox(STSC, tables.value.0) + EmitBox(CO64, tables.value.1);
    EmitMore(kids, Child(STSZ, StszBody(ss)));
    EmitMore(kids + [Child(STSZ, StszBody(ss))], Child(STSC, StscBody(cs)));
    EmitMore(kids + [Child(STSZ, StszBody(ss))] + [Child(STSC, StscBody(cs))], Child(CO64, Co64Body(cs, delta)));
    assert kids + [Child(STSZ, StszBody(ss))] + [Child(STSC, StscBody(cs))] + [Child(CO64, Co64Body(cs, delta))]
        == Descriptions(initial).value + Tables(video, ss, cs, shift, delta);
    return Some(out);
  }
}
