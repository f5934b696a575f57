/**
 A recording as the list of its top-level boxes: what is ahead of each of them, by
 number, and the runs their fragments hold.
 */
module BoxOrder {
  import opened Bytes
  import opened Options
  import opened Boxes
  import opened Tracks
  import opened Samples
  import opened Fragments
  import opened LateClocks

  /** The whole boxes of the first `size` bytes, from `pos` on. */
  function BoxesFrom(src: bytes, size: nat, pos: nat): seq<Box>
    requires pos <= size <= |src|
    decreases size - pos
  {
    if pos < size && ReadBox(src, pos, size).Found? then
      var b := ReadBox(src, pos, size).box;
      [b] + BoxesFrom(src, size, pos + b.size)
    else []
  }

  /** Where they end. */
  function StopAt(src: bytes, size: nat, pos: nat): (r: nat)
    requires pos <= size <= |src|
    ensures pos <= r <= size
    decreases size - pos
  {
    if pos < size && ReadBox(src, pos, size).Found? then StopAt(src, size, pos + ReadBox(src, pos, size).box.size) else pos
  }

  function BoxesOf(src: bytes): seq<Box> { BoxesFrom(src, |src|, 0) }

  /** The file is made of whole boxes. */
  predicate Whole(src: bytes) { StopAt(src, |src|, 0) == |src| }

  /** The last box of a kind ahead of number i; -1 without one. */
  function LastKind(bs: seq<Box>, kind: u32, i: nat): (k: int)
    requires i <= |bs|
    ensures -1 <= k < i && (k >= 0 ==> bs[k].kind == kind)
    ensures forall j | k < j < i :: bs[j].kind != kind
  {
    if i == 0 then -1 else if bs[i - 1].kind == kind then i - 1 else LastKind(bs, kind, i - 1)
  }

  function OfKind(bs: seq<Box>, kind: u32): seq<Box> {
    if bs == [] then []
    else OfKind(bs[..|bs| - 1], kind) + if bs[|bs| - 1].kind == kind then [bs[|bs| - 1]] else []
  }

  function BodyOf(src: bytes, b: Box): bytes {
    if b.header <= b.size && b.offset + b.size <= |src| then Body(src, b) else []
  }

  predicate IsBox(src: bytes, b: Box) { b.header <= b.size && b.offset + b.size <= |src| }

  /** A box the program is willing to load. */
  predicate SmallEnough(b: Box) { b.size - b.header <= 16777216 }

  lemma BodyIs(src: bytes, b: Box)
    requires IsBox(src, b)
    ensures Payload(src, b) == if SmallEnough(b) then Some(BodyOf(src, b)) else None
  {
  }

  /** The tracks of the last movie header ahead of number i. */
  function TracksAhead(src: bytes, bs: seq<Box>, i: nat): (r: map<u32, Track>)
    requires i <= |bs|
    ensures Numbered(r)
  {
    var h := LastKind(bs, MOOV, i);
    if h < 0 then map[] else match ReadTracks(BodyOf(src, bs[h])) case Read(tracks) => tracks case _ => map[]
  }

  /** What the two parsers find in box k. */
  function RunsIn(src: bytes, bs: seq<Box>, k: nat): Option<MoofRuns>
    requires k < |bs|
  {
    Fragments.ReadRuns(BodyOf(src, bs[k]), TracksAhead(src, bs, k), bs[k].offset)
  }

  function SamplesOfBox(src: bytes, bs: seq<Box>, k: nat): Option<seq<seq<Piece>>>
    requires k < |bs|
  {
    ReadSamples(BodyOf(src, bs[k]), TracksAhead(src, bs, k), bs[k].offset)
  }

  /** Its runs, when it is a fragment that can be read. */
  function RunListIn(src: bytes, bs: seq<Box>, k: nat): seq<Run>
    requires k < |bs|
  {
    if bs[k].kind == MOOF && RunsIn(src, bs, k).Some? then RunsIn(src, bs, k).value.runs else []
  }

  /** All runs of a track ahead of number i, in file order. */
  function RunsAhead(src: bytes, bs: seq<Box>, i: nat, id: u32): seq<Run>
    requires i <= |bs|
  {
    if i == 0 then [] else RunsAhead(src, bs, i - 1, id) + RunsFor(RunListIn(src, bs, i - 1), id)
  }

  /** Where a track has come that started at `start` and had these runs since. */
  function EndAfter(start: int, rs: seq<Run>): int { if rs == [] then start else rs[|rs| - 1].decodeEnd }

  /** The sequence number of the last fragment ahead of number i; zero without one. */
  function SequenceAhead(src: bytes, bs: seq<Box>, i: nat): int
    requires i <= |bs|
  {
    var k := LastKind(bs, MOOF, i);
    if k < 0 || RunsIn(src, bs, k).None? then 0 else RunsIn(src, bs, k).value.sequence
  }

  /** The runs of a fragment ahead of number i whose media data box has not come. */
  function OpenRuns(src: bytes, bs: seq<Box>, i: nat): seq<Run>
    requires i <= |bs|
  {
    var k := LastKind(bs, MOOF, i);
    if k < 0 || LastKind(bs, MDAT, i) > k then [] else RunListIn(src, bs, k)
  }

  predicate InsideBox(rr: Run, b: Box) {
    forall k | k in rr.ranges :: b.offset + b.header <= k.start && k.end <= b.offset + b.size
  }

  // ---------- lists of boxes ----------

  lemma BoxesHead(src: bytes, size: nat, pos: nat, bs: seq<Box>, i: nat)
    requires pos <= size <= |src| && i <= |bs| && bs[i..] == BoxesFrom(src, size, pos)
    ensures i == |bs| <==> pos == size || !ReadBox(src, pos, size).Found?
    ensures i < |bs| ==> ReadBox(src, pos, size) == Found(bs[i]) && bs[i].offset == pos && bs[i].header <= bs[i].size && pos + bs[i].size <= size
    ensures i < |bs| ==> bs[i + 1..] == BoxesFrom(src, size, pos + bs[i].size) && StopAt(src, size, pos) == StopAt(src, size, pos + bs[i].size)
  {
    if pos < size && ReadBox(src, pos, size).Found? {
      ReadBoxAt(src, pos, size);
      assert bs[i..][0] == bs[i] && bs[i..][1..] == bs[i + 1..];
    }
  }

  lemma ReadBoxAt(src: bytes, pos: nat, size: nat)
    requires size <= |src| && ReadBox(src, pos, size).Found?
    ensures var b := ReadBox(src, pos, size).box; b.offset == pos && 8 <= b.header <= b.size && pos + b.size <= size
  {
  }

  lemma {:induction false} NoKindNoRuns(src: bytes, bs: seq<Box>, i: nat, id: u32)
    requires i <= |bs| && LastKind(bs, MOOF, i) < 0
    ensures RunsAhead(src, bs, i, id) == []
    decreases i
  {
    hide RunsIn, RunListIn, LastKind;
    if i > 0 {
      EarlierKind(bs, i);
      NoKindNoRuns(src, bs, i - 1, id);
      NoRunsHere(src, bs, i - 1, id);
    }
  }

  lemma EarlierKind(bs: seq<Box>, i: nat)
    requires 0 < i <= |bs| && LastKind(bs, MOOF, i) < 0
    ensures bs[i - 1].kind != MOOF && LastKind(bs, MOOF, i - 1) < 0
  {
  }

  lemma OfKindNext(bs: seq<Box>, kind: u32, i: nat)
    requires i < |bs|
    ensures OfKind(bs[..i + 1], kind) == OfKind(bs[..i], kind) + if bs[i].kind == kind then [bs[i]] else []
  {
    assert bs[..i + 1][..i] == bs[..i];
  }

  /** Boxes behind number i do not matter to what is ahead of it. */
  lemma {:induction false} LastKindLocal(bs: seq<Box>, cs: seq<Box>, kind: u32, i: nat)
    requires i <= |bs| && i <= |cs| && bs[..i] == cs[..i]
    ensures LastKind(bs, kind, i) == LastKind(cs, kind, i)
    decreases i
  {
    if i > 0 {
      assert bs[i - 1] == bs[..i][i - 1] == cs[..i][i - 1] == cs[i - 1];
      assert bs[..i - 1] == bs[..i][..i - 1] == cs[..i][..i - 1] == cs[..i - 1];
      LastKindLocal(bs, cs, kind, i - 1);
    }
  }

  // ---------- what is ahead of a box is not changed by what is added ----------

  predicate Grows(src: bytes, all: bytes) { |src| <= |all| && all[..|src|] == src }

  /** The boxes of the longer file begin with those of the shorter, and their contents are the same. */
  predicate Agree(src: bytes, all: bytes, bs: seq<Box>, cs: seq<Box>) {
    |bs| <= |cs| && cs[..|bs|] == bs && forall k | 0 <= k < |bs| :: BodyOf(all, bs[k]) == BodyOf(src, bs[k])
  }

  lemma {:induction false} BoxesGrow(src: bytes, all: bytes, pos: nat)
    requires Grows(src, all) && pos <= |src| && StopAt(src, |src|, pos) == |src|
    ensures BoxesFrom(all, |all|, pos) == BoxesFrom(src, |src|, pos) + BoxesFrom(all, |all|, |src|)
    ensures StopAt(all, |all|, pos) == StopAt(all, |all|, |src|)
    ensures forall b | b in BoxesFrom(src, |src|, pos) :: BodyOf(all, b) == BodyOf(src, b)
    decreases |src| - pos
  {
    hide ReadBox;
    if pos < |src| {
      var b := ReadBox(src, pos, |src|).box;
      ReadBoxAt(src, pos, |src|);
      SamePrefix(src, all, |src|, 0, pos + b.size);
      ReadBoxLocal(src, all, pos, |src|, |all|);
      BoxesGrow(src, all, pos + b.size);
    }
  }

  lemma GrownAgrees(src: bytes, all: bytes)
    requires Grows(src, all) && Whole(src)
    ensures Agree(src, all, BoxesOf(src), BoxesOf(all)) && BoxesOf(all) == BoxesOf(src) + BoxesFrom(all, |all|, |src|)
    ensures Whole(all) <==> StopAt(all, |all|, |src|) == |all|
  {
    BoxesGrow(src, all, 0);
    var bs := BoxesOf(src);
    forall k | 0 <= k < |bs|
      ensures BodyOf(all, bs[k]) == BodyOf(src, bs[k])
    {
      assert bs[k] in bs;
    }
  }

  lemma SameKinds(bs: seq<Box>, cs: seq<Box>, i: nat)
    requires i <= |bs| <= |cs| && cs[..|bs|] == bs
    ensures forall kind: u32 :: LastKind(cs, kind, i) == LastKind(bs, kind, i)
    ensures i < |bs| ==> cs[i] == bs[i]
  {
    assert cs[..i] == cs[..|bs|][..i] == bs[..i];
    forall kind: u32
      ensures LastKind(cs, kind, i) == LastKind(bs, kind, i)
    {
      LastKindLocal(bs, cs, kind, i);
    }
    if i < |bs| { assert cs[..|bs|][i] == bs[i]; }
  }

  lemma SameTracksAhead(src: bytes, all: bytes, bs: seq<Box>, cs: seq<Box>, i: nat)
    requires Agree(src, all, bs, cs) && i <= |bs|
    ensures TracksAhead(all, cs, i) == TracksAhead(src, bs, i)
  {
    hide ReadTracks, LastKind;
    SameKinds(bs, cs, i);
    var h := LastKind(bs, MOOV, i);
    if h >= 0 { SameKinds(bs, cs, h); }
  }

  lemma SameIn(src: bytes, all: bytes, bs: seq<Box>, cs: seq<Box>, k: nat)
    requires Agree(src, all, bs, cs) && k < |bs|
    ensures cs[k] == bs[k] && BodyOf(all, bs[k]) == BodyOf(src, bs[k])
    ensures RunsIn(all, cs, k) == RunsIn(src, bs, k) && SamplesOfBox(all, cs, k) == SamplesOfBox(src, bs, k)
    ensures RunListIn(all, cs, k) == RunListIn(src, bs, k)
  {
    hide Fragments.ReadRuns, ReadSamples, TracksAhead;
    SameTracksAhead(src, all, bs, cs, k);
    SameKinds(bs, cs, k);
  }

  lemma {:induction false} SameRunsAhead(src: bytes, all: bytes, bs: seq<Box>, cs: seq<Box>, i: nat, id: u32)
    requires Agree(src, all, bs, cs) && i <= |bs|
    ensures RunsAhead(all, cs, i, id) == RunsAhead(src, bs, i, id)
    decreases i
  {
    hide RunListIn;
    if i > 0 {
      SameRunsAhead(src, all, bs, cs, i - 1, id);
      SameIn(src, all, bs, cs, i - 1);
    }
  }

  lemma SameAhead(src: bytes, all: bytes, bs: seq<Box>, cs: seq<Box>, i: nat)
    requires Agree(src, all, bs, cs) && i <= |bs|
    ensures OpenRuns(all, cs, i) == OpenRuns(src, bs, i) && SequenceAhead(all, cs, i) == SequenceAhead(src, bs, i)
  {
    hide RunsIn, RunListIn, LastKind;
    SameKinds(bs, cs, i);
    var k := LastKind(bs, MOOF, i);
    if k >= 0 { SameIn(src, all, bs, cs, k); }
  }

  // ---------- a producer reference, a fragment and its media data ----------

  lemma NoRunsHere(src: bytes, bs: seq<Box>, n: nat, id: u32)
    requires n < |bs| && bs[n].kind != MOOF
    ensures RunsAhead(src, bs, n + 1, id) == RunsAhead(src, bs, n, id)
  {
    hide RunsIn;
    assert RunsFor(RunListIn(src, bs, n), id) == [];
  }

  lemma LastOfEach(bs: seq<Box>, cs: seq<Box>, p: Box, f: Box, d: Box)
    requires cs == bs + [p, f, d] && p.kind == PRFT && f.kind == MOOF && d.kind == MDAT
    ensures var n := |bs|;
            && LastKind(cs, MOOF, n + 1) == LastKind(bs, MOOF, n) && LastKind(cs, MDAT, n + 1) == LastKind(bs, MDAT, n)
            && LastKind(cs, MOOV, n + 1) == LastKind(cs, MOOV, n + 2) == LastKind(cs, MOOV, n + 3) == LastKind(bs, MOOV, n)
            && LastKind(cs, MOOF, n + 2) == LastKind(cs, MOOF, n + 3) == n + 1
            && LastKind(cs, MDAT, n + 2) == LastKind(bs, MDAT, n) && LastKind(cs, MDAT, n + 3) == n + 2
  {
    var n := |bs|;
    assert cs[..n] == bs && cs[n] == p && cs[n + 1] == f && cs[n + 2] == d;
    SameKinds(bs, cs, n);
  }

  lemma PrftBetween(all: bytes, bs: seq<Box>, cs: seq<Box>, p: Box, f: Box, d: Box)
    requires cs == bs + [p, f, d] && p.kind == PRFT && f.kind == MOOF && d.kind == MDAT
    ensures var n := |bs|;
            && TracksAhead(all, cs, n + 1) == TracksAhead(all, cs, n) && OpenRuns(all, cs, n + 1) == OpenRuns(all, cs, n)
            && SequenceAhead(all, cs, n + 1) == SequenceAhead(all, cs, n)
  {
    hide ReadTracks, RunsIn, RunListIn, LastKind;
    LastOfEach(bs, cs, p, f, d);
    assert cs[..|bs|] == bs;
    SameKinds(bs, cs, |bs|);
  }

  lemma TracksBehind(all: bytes, bs: seq<Box>, cs: seq<Box>, p: Box, f: Box, d: Box)
    requires cs == bs + [p, f, d] && p.kind == PRFT && f.kind == MOOF && d.kind == MDAT
    ensures TracksAhead(all, cs, |bs| + 3) == TracksAhead(all, cs, |bs| + 1)
  {
    hide ReadTracks, LastKind;
    LastOfEach(bs, cs, p, f, d);
  }

  lemma RunsBehind(all: bytes, bs: seq<Box>, cs: seq<Box>, p: Box, f: Box, d: Box, m: MoofRuns, id: u32)
    requires cs == bs + [p, f, d] && p.kind == PRFT && f.kind == MOOF && d.kind == MDAT && RunsIn(all, cs, |bs| + 1) == Some(m)
    ensures RunsAhead(all, cs, |bs| + 3, id) == RunsAhead(all, cs, |bs| + 1, id) + RunsFor(m.runs, id)
  {
    hide RunsIn, SamplesOfBox, RunsFor;
    assert cs[|bs| + 1] == f && cs[|bs| + 2] == d;
    NoRunsHere(all, cs, |bs| + 2, id);
  }
}
