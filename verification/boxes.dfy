/**
 Boxes (ISO/IEC 14496-12 section 4.2): the parser of internal/recordingmedia/index.go
 and the emitter of internal/recordingmedia/flat_boxes.go.  Box kinds are the
 big-endian value of their four characters.
 */
module Boxes {
  import opened Bytes
  import opened Options

  const FTYP: u32 := 0x66747970
  const MOOV: u32 := 0x6d6f6f76
  const MOOF: u32 := 0x6d6f6f66
  const MDAT: u32 := 0x6d646174
  const PRFT: u32 := 0x70726674
  const MVHD: u32 := 0x6d766864
  const MVEX: u32 := 0x6d766578
  const TREX: u32 := 0x74726578
  const TRAK: u32 := 0x7472616b
  const TKHD: u32 := 0x746b6864
  const EDTS: u32 := 0x65647473
  const ELST: u32 := 0x656c7374
  const MDIA: u32 := 0x6d646961
  const MDHD: u32 := 0x6d646864
  const HDLR: u32 := 0x68646c72
  const MINF: u32 := 0x6d696e66
  const STBL: u32 := 0x7374626c
  const STSD: u32 := 0x73747364
  const STTS: u32 := 0x73747473
  const CTTS: u32 := 0x63747473
  const STSC: u32 := 0x73747363
  const STCO: u32 := 0x7374636f
  const CO64: u32 := 0x636f3634
  const STSS: u32 := 0x73747373
  const STSZ: u32 := 0x7374737a
  const FREE: u32 := 0x66726565
  const MFHD: u32 := 0x6d666864
  const TRAF: u32 := 0x74726166
  const TFHD: u32 := 0x74666864
  const TFDT: u32 := 0x74666474
  const TRUN: u32 := 0x7472756e
  const VIDE: u32 := 0x76696465
  const MP4A: bytes := [0x6d, 0x70, 0x34, 0x61]

  const MAX_METADATA: int := 0x100_0000

  datatype Box = Box(offset: nat, size: nat, header: nat, kind: u32)

  /** Partial is io.ErrUnexpectedEOF: a box that is not (yet) complete. */
  datatype BoxRead = Found(box: Box) | Partial | Corrupt

  datatype Child = Child(kind: u32, body: bytes)

  function ReadBox(data: bytes, pos: nat, end: nat): (r: BoxRead)
    requires end <= |data|
    ensures r.Found? ==>
              && r.box.offset == pos
              && 8 <= r.box.header <= r.box.size
              && r.box.header <= 16
              && pos + r.box.size <= end
  {
    if end - pos < 8 then Partial
    else if U32(data, pos) == 1 then
      if end - pos < 16 then Partial
      else if U64(data, pos + 8) > MAX_I64 then Corrupt
      else SizedBox(Box(pos, U64(data, pos + 8), 16, U32(data, pos + 4)), end)
    else SizedBox(Box(pos, U32(data, pos), 8, U32(data, pos + 4)), end)
  }

  /** A box that runs to the end of the file is no committed boundary. */
  function SizedBox(b: Box, end: nat): BoxRead {
    if b.size == 0 then Partial
    else if b.size < b.header then Corrupt
    else if b.size > end - b.offset then Partial
    else Found(b)
  }

  function Body(data: bytes, b: Box): bytes
    requires b.header <= b.size && b.offset + b.size <= |data|
  {
    data[b.offset + b.header..b.offset + b.size]
  }

  /** The box payloads the program is willing to load. */
  function Payload(data: bytes, b: Box): (r: Option<bytes>)
    requires b.header <= b.size && b.offset + b.size <= |data|
  {
    if b.size - b.header > MAX_METADATA then None else Some(Body(data, b))
  }

  function TotalSize(cs: seq<Child>): nat {
    if cs == [] then 0 else 8 + |cs[0].body| + TotalSize(cs[1..])
  }

  /** What a walk over the child boxes of `data` visits, from `pos` to the end. */
  function ChildrenFrom(data: bytes, pos: nat): (r: Option<seq<Child>>)
    requires pos <= |data|
    decreases |data| - pos
  {
    if pos == |data| then Some([])
    else match ReadBox(data, pos, |data|)
      case Found(b) =>
        Prepend([Child(b.kind, Body(data, b))], ChildrenFrom(data, pos + b.size))
      case _ => None
  }

  function Children(data: bytes): Option<seq<Child>> {
    ChildrenFrom(data, 0)
  }

  lemma {:induction false} ChildrenFit(data: bytes, pos: nat)
    requires pos <= |data|
    ensures ChildrenFrom(data, pos).Some? ==> TotalSize(ChildrenFrom(data, pos).value) <= |data| - pos
    decreases |data| - pos
  {
    if pos < |data| && ReadBox(data, pos, |data|).Found? {
      ChildrenFit(data, pos + ReadBox(data, pos, |data|).box.size);
    }
  }

  lemma ChildFits(cs: seq<Child>, i: nat)
    requires i < |cs|
    ensures 8 + |cs[i].body| <= TotalSize(cs)
  {
    if i > 0 { ChildFits(cs[1..], i - 1); }
  }

  function EmitBox(kind: u32, p: bytes): (r: bytes)
    ensures |r| == 8 + |p|
  {
    Enc32(Wrap32(8 + |p|)) + Enc32(kind) + p
  }

  function Emit(cs: seq<Child>): (r: bytes)
    ensures |r| == TotalSize(cs)
  {
    if cs == [] then [] else EmitBox(cs[0].kind, cs[0].body) + Emit(cs[1..])
  }

  /** The walk of the source, as a loop collecting what its callback is given. */
  method WalkChildren(data: bytes) returns (r: Option<seq<Child>>)
    ensures r == Children(data)
  {
    hide ReadBox;
    var out: seq<Child> := [];
    var pos := 0;
    PrependMore([], Child(0, []), Children(data));
    while pos < |data|
      invariant 0 <= pos <= |data|
      invariant Children(data) == Prepend(out, ChildrenFrom(data, pos))
    {
      var b := ReadBox(data, pos, |data|);
      if !b.Found? {
        return None;
      }
      WalkStep(data, pos, out);
      out := out + [Child(b.box.kind, Body(data, b.box))];
      pos := pos + b.box.size;
    }
    PrependMore(out, Child(0, []), None);
    return Some(out);
  }

  lemma WalkStep(data: bytes, pos: nat, out: seq<Child>)
    requires pos < |data| && ReadBox(data, pos, |data|).Found?
    ensures var b := ReadBox(data, pos, |data|).box;
            Prepend(out, ChildrenFrom(data, pos)) == Prepend(out + [Child(b.kind, Body(data, b))], ChildrenFrom(data, pos + b.size))
  {
    var b := ReadBox(data, pos, |data|).box;
    PrependMore(out, Child(b.kind, Body(data, b)), ChildrenFrom(data, pos + b.size));
  }

  function Prepend(out: seq<Child>, rest: Option<seq<Child>>): Option<seq<Child>> {
    if rest.None? then None else Some(out + rest.value)
  }

  lemma PrependMore(out: seq<Child>, c: Child, rest: Option<seq<Child>>)
    ensures Prepend(out, Prepend([c], rest)) == Prepend(out + [c], rest)
    ensures Prepend([], rest) == rest && Prepend(out, Some([])) == Some(out)
  {
    if rest.Some? {
      assert out + ([c] + rest.value) == out + [c] + rest.value;
      assert [] + rest.value == rest.value;
    }
    assert out + [] == out;
  }

  /** An emitted box is read back whole, at any place in a file. */
  lemma ReadEmitted(data: bytes, pos: nat, end: nat, kind: u32, p: bytes)
    requires pos + 8 + |p| <= end <= |data| && 8 + |p| <= MAX_U32
    requires data[pos..pos + 8 + |p|] == EmitBox(kind, p)
    ensures ReadBox(data, pos, end) == Found(Box(pos, 8 + |p|, 8, kind))
    ensures data[pos + 8..pos + 8 + |p|] == p
  {
    hide U32, Enc32;
    var e := EmitBox(kind, p);
    assert e[0..4] == Enc32(8 + |p|) && e[4..8] == Enc32(kind) && e[8..] == p;
    SliceSlice(data, pos, pos + |e|, 0, 4);
    SliceSlice(data, pos, pos + |e|, 4, 8);
    SliceSlice(data, pos, pos + |e|, 8, |e|);
    Field32(data, pos, Enc32(8 + |p|));
    Field32(data, pos + 4, Enc32(kind));
  }

  lemma EmitHead(data: bytes, pos: nat, cs: seq<Child>)
    requires pos <= |data| && cs != [] && data[pos..] == Emit(cs)
    ensures var n := 8 + |cs[0].body|;
            && pos + n <= |data|
            && data[pos..pos + n] == EmitBox(cs[0].kind, cs[0].body)
            && data[pos + n..] == Emit(cs[1..])
  {
    var n := 8 + |cs[0].body|;
    assert Emit(cs)[..n] == EmitBox(cs[0].kind, cs[0].body) && Emit(cs)[n..] == Emit(cs[1..]);
    SliceSlice(data, pos, |data|, 0, n);
    SliceSlice(data, pos, |data|, n, |data| - pos);
  }

  /** Emitting children and walking the result visits exactly those children. */
  lemma {:induction false} EmittedFrom(data: bytes, pos: nat, cs: seq<Child>)
    requires pos <= |data| && data[pos..] == Emit(cs) && TotalSize(cs) <= MAX_U32
    ensures ChildrenFrom(data, pos) == Some(cs)
    decreases |cs|
  {
    hide U32;
    if cs != [] {
      EmitHead(data, pos, cs);
      EmittedFrom(data, pos + 8 + |cs[0].body|, cs[1..]);
      ReadEmitted(data, pos, |data|, cs[0].kind, cs[0].body);
      assert cs == [cs[0]] + cs[1..];
    }
  }

  lemma EmitThenWalk(cs: seq<Child>)
    requires TotalSize(cs) <= MAX_U32
    ensures Children(Emit(cs)) == Some(cs)
  {
    assert Emit(cs)[0..] == Emit(cs);
    EmittedFrom(Emit(cs), 0, cs);
  }

  lemma {:induction false} EmitConcat(a: seq<Child>, b: seq<Child>)
    ensures Emit(a + b) == Emit(a) + Emit(b) && TotalSize(a + b) == TotalSize(a) + TotalSize(b)
    decreases |a|
  {
    if a == [] {
      assert a + b == b;
    } else {
      EmitConcat(a[1..], b);
      assert (a + b)[1..] == a[1..] + b;
    }
  }

  /** The first child of a kind. */
  function First(cs: seq<Child>, kind: u32): (r: Option<bytes>)
    ensures r.Some? <==> exists i | 0 <= i < |cs| :: cs[i].kind == kind
    ensures r.Some? ==> 8 + |r.value| <= TotalSize(cs)
  {
    if cs == [] then None
    else if cs[0].kind == kind then Some(cs[0].body)
    else First(cs[1..], kind)
  }

  lemma FirstConcat(a: seq<Child>, b: seq<Child>, kind: u32)
    ensures First(a + b, kind) == if First(a, kind).Some? then First(a, kind) else First(b, kind)
  {
    if a == [] {
      assert a + b == b;
    } else {
      assert (a + b)[1..] == a[1..] + b;
    }
  }

  lemma SamePrefix(a: bytes, b: bytes, n: nat, k: nat, l: nat)
    requires k <= l <= n <= |a| && n <= |b| && a[..n] == b[..n]
    ensures a[k..l] == b[k..l]
  {
    SliceSlice(a, 0, n, k, l);
    SliceSlice(b, 0, n, k, l);
  }

  /** Reading a box does not depend on bytes outside it, nor on how far the file goes on. */
  lemma ReadBoxLocal(a: bytes, b: bytes, pos: nat, i: nat, j: nat)
    requires i <= |a| && j <= |b| && ReadBox(a, pos, i).Found?
    requires pos + ReadBox(a, pos, i).box.size <= j
    requires a[..pos + ReadBox(a, pos, i).box.size] == b[..pos + ReadBox(a, pos, i).box.size]
    ensures ReadBox(b, pos, j) == ReadBox(a, pos, i)
    ensures Body(b, ReadBox(a, pos, i).box) == Body(a, ReadBox(a, pos, i).box)
  {
    var x := ReadBox(a, pos, i).box;
    var n := pos + x.size;
    SamePrefix(a, b, n, pos, pos + 4);
    SameField32(a, pos, b, pos);
    SamePrefix(a, b, n, pos + 4, pos + 8);
    SameField32(a, pos + 4, b, pos + 4);
    if x.header == 16 {
      SamePrefix(a, b, n, pos + 8, pos + 16);
      SameField64(a, pos + 8, b, pos + 8);
    }
    SamePrefix(a, b, n, pos + x.header, n);
  }
}
