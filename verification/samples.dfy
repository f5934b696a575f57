/**
 Track fragment runs (ISO/IEC 14496-12 section 8.8.8) by position: sample i of a
 trun box is the i-th record of a table with a fixed stride.  Both fragment
 parsers of the program read the same table by taking words one after another;
 this module is what they are measured against.
 */
module Samples {
  import opened Bytes
  import opened Options
  import opened Boxes
  import opened Tracks

  datatype Sample = Sample(duration: u32, size: u32, flags: u32, cts: int)

  const MAX_RUN: int := 1_000_000

  function FlagBits(v: bytes): u32
    requires |v| >= 4
  {
    U32(v, 0) % 0x100_0000
  }

  /** Four bytes when the flag is set. */
  function Word(bits: u32, mask: int): nat
    requires mask > 0
  {
    if Bit(bits, mask) then 4 else 0
  }

  predicate IsSync(flags: u32) {
    !Bit(flags, 0x1_0000) && flags / 0x100_0000 % 4 != 1
  }

  function Stride(bits: u32): nat {
    Word(bits, 0x100) + Word(bits, 0x200) + Word(bits, 0x400) + Word(bits, 0x800)
  }

  /** Where the record of sample i starts. */
  function RecordAt(bits: u32, i: nat): nat {
    if i == 0 then 12 + Word(bits, 4) else RecordAt(bits, i - 1) + Stride(bits)
  }

  lemma {:induction false} RecordsAscend(bits: u32, i: nat, j: nat)
    requires i <= j
    ensures 12 + Word(bits, 4) <= RecordAt(bits, i) <= RecordAt(bits, j)
    decreases i + j
  {
    if i < j {
      RecordsAscend(bits, i, j - 1);
    } else if i > 0 {
      RecordsAscend(bits, i - 1, j - 1);
    }
  }

  function SampleOf(v: bytes, bits: u32, d: Track, i: nat): Sample
    requires |v| >= 12 && RecordAt(bits, 0) <= |v| && RecordAt(bits, i) + Stride(bits) <= |v|
  {
    var at := RecordAt(bits, i);
    var sizeAt := at + Word(bits, 0x100);
    var flagsAt := sizeAt + Word(bits, 0x200);
    var ctsAt := flagsAt + Word(bits, 0x400);
    Sample(
      if Bit(bits, 0x100) then U32(v, at) else d.duration,
      if Bit(bits, 0x200) then U32(v, sizeAt) else d.size,
      if Bit(bits, 0x400) then U32(v, flagsAt) else if i == 0 && Bit(bits, 4) then U32(v, 12) else d.flags,
      if Bit(bits, 0x800) then (if v[0] == 1 then Signed32(U32(v, ctsAt)) else U32(v, ctsAt)) else 0)
  }

  function FirstSamples(v: bytes, bits: u32, d: Track, n: nat): (r: seq<Sample>)
    requires |v| >= 12 && RecordAt(bits, 0) <= |v| && RecordAt(bits, n) <= |v|
    ensures |r| == n
  {
    if n == 0 then []
    else
      RecordsAscend(bits, n - 1, n);
      FirstSamples(v, bits, d, n - 1) + [SampleOf(v, bits, d, n - 1)]
  }

  /** The table of a trun box, or None when the box is too short for it, empty, oversized or without a data offset. */
  function TrunSamples(v: bytes, d: Track): (r: Option<seq<Sample>>)
    ensures r.Some? ==> |v| >= 12 && 0 < |r.value| <= MAX_RUN
  {
    if |v| < 12 then None
    else
      var bits := FlagBits(v);
      var count := U32(v, 4);
      if count == 0 || count > MAX_RUN || !Bit(bits, 1) || RecordAt(bits, count) > |v| then None
      else
        RecordsAscend(bits, 0, count);
        Some(FirstSamples(v, bits, d, count))
  }

  /** The data offset of a trun box, relative to its moof. */
  function TrunOffset(v: bytes): int
    requires |v| >= 12
  {
    Signed32(U32(v, 8))
  }

  /** The defaults a tfhd box leaves for its runs; None when it is too short for its flags. */
  function TfhdDefaults(v: bytes, t: Track): Option<Track>
    requires |v| >= 8
  {
    var bits := FlagBits(v);
    var durationAt := 8 + Word(bits, 2);
    var sizeAt := durationAt + Word(bits, 8);
    var flagsAt := sizeAt + Word(bits, 16);
    if flagsAt + Word(bits, 32) > |v| then None
    else Some(t.(
              duration := if Bit(bits, 8) then U32(v, durationAt) else t.duration,
              size := if Bit(bits, 16) then U32(v, sizeAt) else t.size,
              flags := if Bit(bits, 32) then U32(v, flagsAt) else t.flags))
  }

  function Durations(ss: seq<Sample>): nat {
    if ss == [] then 0 else Durations(ss[..|ss| - 1]) + ss[|ss| - 1].duration
  }

  function Sizes(ss: seq<Sample>): nat {
    if ss == [] then 0 else Sizes(ss[..|ss| - 1]) + ss[|ss| - 1].size
  }

  /** Presentation time of sample i of a run that starts decoding at d. */
  function Pts(ss: seq<Sample>, d: int, i: nat): int
    requires i < |ss|
  {
    d + Durations(ss[..i]) + ss[i].cts
  }

  function Min(a: int, b: int): int { if a <= b then a else b }

  function Max(a: int, b: int): int { if a >= b then a else b }

  function MinPts(ss: seq<Sample>, d: int): int
    requires ss != []
  {
    var n := |ss| - 1;
    if n == 0 then Pts(ss, d, 0) else Min(MinPts(ss[..n], d), Pts(ss, d, n))
  }

  function MaxEnd(ss: seq<Sample>, d: int): int
    requires ss != []
  {
    var n := |ss| - 1;
    var end := Pts(ss, d, n) + ss[n].duration;
    if n == 0 then end else Max(MaxEnd(ss[..n], d), end)
  }

  lemma {:induction false} SumsConcat(a: seq<Sample>, b: seq<Sample>)
    ensures Durations(a + b) == Durations(a) + Durations(b)
    ensures Sizes(a + b) == Sizes(a) + Sizes(b)
    decreases |b|
  {
    if b == [] {
      assert a + b == a;
    } else {
      var n := |b| - 1;
      assert (a + b)[..|a| + n] == a + b[..n];
      SumsConcat(a, b[..n]);
    }
  }

  /** Extrema of consecutive runs combine: the second run starts where the first stopped decoding. */
  lemma {:induction false} ExtremaConcat(a: seq<Sample>, b: seq<Sample>, d: int)
    requires a != [] && b != []
    ensures MinPts(a + b, d) == Min(MinPts(a, d), MinPts(b, d + Durations(a)))
    ensures MaxEnd(a + b, d) == Max(MaxEnd(a, d), MaxEnd(b, d + Durations(a)))
    decreases |b|
  {
    var n := |b| - 1;
    assert (a + b)[..|a| + n] == a + b[..n];
    SumsConcat(a, b[..n]);
    assert Pts(a + b, d, |a| + n) == Pts(b, d + Durations(a), n);
    if n == 0 {
      assert a + b[..n] == a;
    } else {
      ExtremaConcat(a, b[..n], d);
    }
  }

  lemma {:induction false} ExtremaBoundOne(ss: seq<Sample>, d: int, i: nat)
    requires i < |ss|
    ensures MinPts(ss, d) <= Pts(ss, d, i) && Pts(ss, d, i) + ss[i].duration <= MaxEnd(ss, d)
    decreases |ss|
  {
    var n := |ss| - 1;
    if i < n {
      ExtremaBoundOne(ss[..n], d, i);
      assert ss[..n][..i] == ss[..i];
    }
  }

  lemma {:induction false} MinPtsAttained(ss: seq<Sample>, d: int) returns (k: nat)
    requires ss != []
    ensures k < |ss| && MinPts(ss, d) == Pts(ss, d, k)
    decreases |ss|
  {
    k := |ss| - 1;
    if k > 0 && MinPts(ss, d) != Pts(ss, d, k) {
      var n := k;
      k := MinPtsAttained(ss[..n], d);
      assert ss[..n][..k] == ss[..k];
    }
  }

  lemma {:induction false} MaxEndAttained(ss: seq<Sample>, d: int) returns (k: nat)
    requires ss != []
    ensures k < |ss| && MaxEnd(ss, d) == Pts(ss, d, k) + ss[k].duration
    decreases |ss|
  {
    k := |ss| - 1;
    if k > 0 && MaxEnd(ss, d) != Pts(ss, d, k) + ss[k].duration {
      var n := k;
      k := MaxEndAttained(ss[..n], d);
      assert ss[..n][..k] == ss[..k];
    }
  }

  /** MinPts and MaxEnd bound every sample, and each is attained. */
  lemma ExtremaBound(ss: seq<Sample>, d: int)
    requires ss != []
    ensures forall i | 0 <= i < |ss| :: MinPts(ss, d) <= Pts(ss, d, i) && Pts(ss, d, i) + ss[i].duration <= MaxEnd(ss, d)
    ensures exists i | 0 <= i < |ss| :: MinPts(ss, d) == Pts(ss, d, i)
    ensures exists i | 0 <= i < |ss| :: MaxEnd(ss, d) == Pts(ss, d, i) + ss[i].duration
  {
    forall i | 0 <= i < |ss|
      ensures MinPts(ss, d) <= Pts(ss, d, i) && Pts(ss, d, i) + ss[i].duration <= MaxEnd(ss, d)
    {
      ExtremaBoundOne(ss, d, i);
    }
    var k := MinPtsAttained(ss, d);
    var l := MaxEndAttained(ss, d);
  }
}
