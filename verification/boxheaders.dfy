/** Which bytes are a box (ISO/IEC 14496-12 section 4.2), and which are a list of boxes. */
module BoxHeaders {
  import opened Bytes
  import opened Options
  import opened Boxes
  import opened BoxOrder
  import opened FragmentWriter

  /** The box starts here with a 32-bit size, or with a 64-bit one. */
  predicate Starts(data: bytes, pos: nat, b: Box) {
    && b.offset == pos
    && (if b.header == 8 then
          8 <= b.size <= MAX_U32 && pos + 8 <= |data| && data[pos..pos + 8] == Enc32(b.size) + Enc32(b.kind)
        else
          b.header == 16 && 16 <= b.size <= MAX_I64 && pos + 16 <= |data| && data[pos..pos + 16] == Enc32(1) + (Enc32(b.kind) + Enc64(b.size)))
  }

  /** A size that is too small for the header it stands in, or too large for an int64 number. */
  predicate Impossible(data: bytes, pos: nat, end: nat)
    requires end <= |data|
  {
    && pos + 8 <= end
    && (1 < U32(data, pos) < 8 || (U32(data, pos) == 1 && pos + 16 <= end && (0 < U64(data, pos + 8) < 16 || U64(data, pos + 8) > MAX_I64)))
  }

  lemma ShortRead(data: bytes, pos: nat, size: u32, kind: u32)
    requires pos + 8 <= |data|
    ensures data[pos..pos + 8] == Enc32(size) + Enc32(kind) <==> U32(data, pos) == size && U32(data, pos + 4) == kind
  {
    hide U32, Enc32;
    WordWritten(data, pos);
    WordWritten(data, pos + 4);
    Cut(data, pos, pos + 4, pos + 8);
    if data[pos..pos + 8] == Enc32(size) + Enc32(kind) {
      TwoParts(data, pos, pos + 4, pos + 8, Enc32(size), Enc32(kind));
      Field32(data, pos, Enc32(size));
      Field32(data, pos + 4, Enc32(kind));
    }
  }

  lemma WideRead(data: bytes, pos: nat, kind: u32, size: u64)
    requires pos + 16 <= |data|
    ensures data[pos..pos + 16] == Enc32(1) + (Enc32(kind) + Enc64(size))
            <==> U32(data, pos) == 1 && U32(data, pos + 4) == kind && U64(data, pos + 8) == size
  {
    hide U32, Enc32, U64, Enc64;
    WideWritten(data, pos + 8);
    ShortRead(data, pos, 1, kind);
    Cut(data, pos, pos + 8, pos + 16);
    var head := Enc32(1) + Enc32(kind);
    assert head + Enc64(size) == Enc32(1) + (Enc32(kind) + Enc64(size));
    if data[pos..pos + 16] == head + Enc64(size) {
      TwoParts(data, pos, pos + 8, pos + 16, head, Enc64(size));
      Field64(data, pos + 8, Enc64(size));
    }
  }

  lemma FoundStarts(data: bytes, pos: nat, end: nat)
    requires end <= |data| && ReadBox(data, pos, end).Found?
    ensures Starts(data, pos, ReadBox(data, pos, end).box)
  {
    hide U32, U64, Enc32, Enc64;
    var b := ReadBox(data, pos, end).box;
    if b.header == 8 { ShortRead(data, pos, b.size, b.kind); } else { WideRead(data, pos, b.kind, b.size); }
  }

  lemma StartsFound(data: bytes, pos: nat, end: nat, b: Box)
    requires end <= |data| && Starts(data, pos, b) && pos + b.size <= end
    ensures ReadBox(data, pos, end) == Found(b)
  {
    hide U32, U64, Enc32, Enc64;
    if b.header == 8 { ShortRead(data, pos, b.size, b.kind); } else { WideRead(data, pos, b.kind, b.size); }
  }

  /** A box is found exactly where it starts and ends within bounds; bytes are corrupt exactly when their size is impossible; everything else may become a box as the file grows. */
  lemma BoxMeans(data: bytes, pos: nat, end: nat)
    requires end <= |data|
    ensures forall b :: ReadBox(data, pos, end) == Found(b) <==> Starts(data, pos, b) && pos + b.size <= end
    ensures ReadBox(data, pos, end) == Corrupt <==> Impossible(data, pos, end)
  {
    forall b
      ensures ReadBox(data, pos, end) == Found(b) <==> Starts(data, pos, b) && pos + b.size <= end
    {
      if ReadBox(data, pos, end) == Found(b) {
        FoundStarts(data, pos, end);
        ReadBoxAt(data, pos, end);
      }
      if Starts(data, pos, b) && pos + b.size <= end { StartsFound(data, pos, end, b); }
      hide ReadBox, Starts;
    }
    hide U32, U64, Starts;
  }

  /** Kinds and contents of boxes. */
  function ChildrenIn(data: bytes, bs: seq<Box>): (r: seq<Child>)
    ensures |r| == |bs|
  {
    seq(|bs|, i requires 0 <= i < |bs| => Child(bs[i].kind, BodyOf(data, bs[i])))
  }

  lemma {:induction false} ChildrenTileFrom(data: bytes, pos: nat)
    requires pos <= |data|
    ensures ChildrenFrom(data, pos) == if StopAt(data, |data|, pos) == |data| then Some(ChildrenIn(data, BoxesFrom(data, |data|, pos))) else None
    decreases |data| - pos
  {
    hide ReadBox;
    if pos < |data| && ReadBox(data, pos, |data|).Found? {
      var b := ReadBox(data, pos, |data|).box;
      ReadBoxAt(data, pos, |data|);
      ChildrenTileFrom(data, pos + b.size);
      var rest := BoxesFrom(data, |data|, pos + b.size);
      assert ChildrenIn(data, [b] + rest) == [Child(b.kind, BodyOf(data, b))] + ChildrenIn(data, rest);
    }
  }

  /** A payload has children exactly when boxes tile it, and then those boxes. */
  lemma ChildrenTile(data: bytes)
    ensures Children(data) == if Whole(data) then Some(ChildrenIn(data, BoxesOf(data))) else None
  {
    ChildrenTileFrom(data, 0);
  }
}
