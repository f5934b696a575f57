/** movieReader.ReadAt of internal/recordingmedia/normalized.go: reads through the seams of the virtual file. */
module MovieReaders {
  import opened Bytes
  import opened Options
  import opened Normalized

  datatype ReadError = NoError | EndOfFile | NegativeOffset | NoProgress

  /** The view fits the source it was made for. */
  predicate Fits(src: bytes, v: View) {
    v.start + v.removed <= |src| && v.size == |src| - v.removed + |v.metadata|
  }

  /** `copy`, and a full read of the source: fills p from position `at` with `data`. */
  method Fill(p: array<byte>, at: nat, data: bytes)
    requires at + |data| <= p.Length
    modifies p
    ensures forall i | 0 <= i < p.Length :: p[i] == if at <= i < at + |data| then data[i - at] else old(p[i])
  {
    forall i | 0 <= i < |data| {
      p[at + i] := data[i];
    }
  }

  lemma ContentsBefore(src: bytes, v: View, off: nat, n: nat)
    requires Fits(src, v) && off + n <= v.start
    ensures off + n <= |Contents(src, v)| && Contents(src, v)[off..off + n] == src[off..off + n]
  {
  }

  lemma ContentsMetadata(src: bytes, v: View, off: nat, n: nat)
    requires Fits(src, v) && v.start <= off && off + n <= v.start + |v.metadata|
    ensures off + n <= |Contents(src, v)|
    ensures Contents(src, v)[off..off + n] == v.metadata[off - v.start..off - v.start + n]
  {
  }

  lemma ContentsAfter(src: bytes, v: View, off: nat, n: nat)
    requires Fits(src, v) && v.start + |v.metadata| <= off && off + n <= v.size
    ensures off + n <= |Contents(src, v)| && off - |v.metadata| + v.removed + n <= |src|
    ensures Contents(src, v)[off..off + n] == src[off - |v.metadata| + v.removed..off - |v.metadata| + v.removed + n]
  {
    var pre, tail := src[..v.start] + v.metadata, src[v.start + v.removed..];
    var x := off - |pre|;
    assert (pre + tail)[|pre| + x..|pre| + x + n] == tail[x..x + n];
    assert tail == src[v.start + v.removed..|src|];
    SliceSlice(src, v.start + v.removed, |src|, x, x + n);
  }

  /** The switch of ReadAt: what one pass of its loop copies, never across a seam. */
  method NextStretch(src: bytes, v: View, off: nat, room: nat) returns (data: bytes)
    requires Fits(src, v) && off < v.size && room > 0
    ensures 0 < |data| <= room && off + |data| <= v.size == |Contents(src, v)|
    ensures data == Contents(src, v)[off..off + |data|]
  {
    if off < v.start {
      var count := if room <= v.start - off then room else v.start - off;
      ContentsBefore(src, v, off, count);
      data := src[off..off + count];
    } else if off < v.start + |v.metadata| {
      var left := |v.metadata| - (off - v.start);
      var count := if room <= left then room else left;
      ContentsMetadata(src, v, off, count);
      data := v.metadata[off - v.start..off - v.start + count];
    } else {
      var count := if room <= v.size - off then room else v.size - off;
      ContentsAfter(src, v, off, count);
      data := src[off - |v.metadata| + v.removed..off - |v.metadata| + v.removed + count];
    }
  }

  /**
   Reads exactly the bytes of the virtual file, whatever seams they cross, and
   reports the end of the file exactly when the buffer was not filled.
   */
  method ReadAt(src: bytes, v: View, p: array<byte>, offset: int) returns (n: nat, err: ReadError)
    requires Fits(src, v)
    modifies p
    ensures |Contents(src, v)| == v.size
    ensures offset < 0 <==> err == NegativeOffset
    ensures offset < 0 || offset >= v.size ==> n == 0 && p[..] == old(p[..])
    ensures 0 <= offset < v.size ==>
              && n == (if p.Length <= v.size - offset then p.Length else v.size - offset)
              && p[..n] == Contents(src, v)[offset..offset + n] && p[n..] == old(p[n..])
    ensures err == EndOfFile <==> offset >= v.size || (0 <= offset && n < p.Length)
    ensures err != NoProgress
  {
    ghost var c := Contents(src, v);
    assert |c| == v.size;
    if offset < 0 { return 0, NegativeOffset; }
    if offset >= v.size { return 0, EndOfFile; }
    hide Contents, Fits;
    var off: nat := offset;
    n := 0;
    while n < p.Length && off < v.size
      invariant 0 <= n <= p.Length && off == offset + n <= v.size
      invariant forall i | 0 <= i < n :: p[i] == c[offset + i]
      invariant forall i | n <= i < p.Length :: p[i] == old(p[i])
      decreases p.Length - n
    {
      var data := NextStretch(src, v, off, p.Length - n);
      var got := |data|;
      if got == 0 { return n, NoProgress; }
      Fill(p, n, data);
      assert forall i | 0 <= i < got :: data[i] == c[off + i];
      n, off := n + got, off + got;
    }
    err := if n < p.Length then EndOfFile else NoError;
  }
}
