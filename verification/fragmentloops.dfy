/** The sample loops of the two parsers, taking words one after another, refine the table of Samples. */
module FragmentLoops {
  import opened Bytes
  import opened Options
  import opened Boxes
  import opened Tracks
  import opened Samples
  import opened Fragments

  lemma {:induction false} PrefixOfSamples(v: bytes, bits: u32, d: Track, i: nat, n: nat)
    requires |v| >= 12 && RecordAt(bits, 0) <= |v| && i <= n && RecordAt(bits, n) <= |v|
    ensures RecordAt(bits, i) <= |v| && FirstSamples(v, bits, d, n)[..i] == FirstSamples(v, bits, d, i)
    decreases n
  {
    RecordsAscend(bits, i, n);
    if i < n {
      RecordsAscend(bits, n - 1, n);
      PrefixOfSamples(v, bits, d, i, n - 1);
    }
  }

  lemma {:induction false} RefusedStaysRefused(c: Clock, ss: seq<Sample>, n: nat, t: Track)
    requires n <= |ss| && AddSamples(c, ss[..n], t).None?
    ensures AddSamples(c, ss, t).None?
    decreases |ss|
  {
    if n < |ss| {
      assert ss[..|ss| - 1][..n] == ss[..n];
      RefusedStaysRefused(c, ss[..|ss| - 1], n, t);
    } else {
      assert ss[..n] == ss;
    }
  }

  function RunOfTable(v: bytes, t: Track, c: Clock): Option<Clock> {
    match TrunSamples(v, t) case None => None case Some(ss) => AddSamples(c, ss, t)
  }

  lemma ShortTable(v: bytes, t: Track, c: Clock, i: nat)
    requires |v| >= 12 && i <= U32(v, 4) && RecordAt(FlagBits(v), i) > |v|
    ensures RunOfTable(v, t, c) == None && TrunSamples(v, t) == None
  {
    RecordsAscend(FlagBits(v), i, U32(v, 4));
  }

  lemma RefusedRun(v: bytes, t: Track, c: Clock, i: nat)
    requires |v| >= 12 && i <= U32(v, 4) && RecordAt(FlagBits(v), 0) <= |v| && RecordAt(FlagBits(v), i) <= |v|
    requires AddSamples(c, FirstSamples(v, FlagBits(v), t, i), t).None?
    ensures RunOfTable(v, t, c) == None
  {
    if TrunSamples(v, t).Some? {
      PrefixOfSamples(v, FlagBits(v), t, i, U32(v, 4));
      RefusedStaysRefused(c, TrunSamples(v, t).value, i, t);
    }
  }

  lemma TableStart(v: bytes, bits: u32, t: Track, c: Clock)
    ensures RecordAt(bits, 0) == 12 + Word(bits, 4)
    ensures |v| >= RecordAt(bits, 0) ==> FirstSamples(v, bits, t, 0) == [] && AddSamples(c, [], t) == Some(c)
  {
  }

  /** Record i + 1 starts where the words of record i end. */
  lemma NextRecord(bits: u32, i: nat)
    ensures RecordAt(bits, i + 1) == RecordAt(bits, i) + Word(bits, 0x100) + Word(bits, 0x200) + Word(bits, 0x400) + Word(bits, 0x800)
    ensures RecordAt(bits, 0) <= RecordAt(bits, i)
  {
    RecordsAscend(bits, 0, i);
  }

  /** The samples of the first i + 1 records, once record i is known to fit. */
  lemma NextSample(v: bytes, bits: u32, t: Track, i: nat, s: Sample, c0: Clock, c: Clock)
    requires |v| >= 12 && RecordAt(bits, 0) <= RecordAt(bits, i) <= RecordAt(bits, i + 1) == RecordAt(bits, i) + Stride(bits) <= |v|
    requires s == SampleOf(v, bits, t, i)
    ensures FirstSamples(v, bits, t, i + 1) == FirstSamples(v, bits, t, i) + [s]
    ensures AddSamples(c0, FirstSamples(v, bits, t, i), t) == Some(c) ==>
              AddSamples(c0, FirstSamples(v, bits, t, i + 1), t) == AddSample(c, s, t)
  {
    assert FirstSamples(v, bits, t, i + 1)[..i] == FirstSamples(v, bits, t, i);
  }

  /** The next word when its flag is set: the `next` and `take` closures of the source. */
  method Take(v: bytes, at: nat, on: bool, otherwise: u32) returns (ok: bool, n: u32, after: nat)
    requires at <= |v|
    ensures after == at + if on then 4 else 0
    ensures ok == (after <= |v|)
    ensures ok ==> n == if on then U32(v, at) else otherwise
  {
    if !on { return true, otherwise, at; }
    if |v| - at < 4 { return false, 0, at + 4; }
    return true, U32(v, at), at + 4;
  }

  /** The words of one sample; None when the box ends before the last of them. */
  method TakeSample(v: bytes, bits: u32, t: Track, firstFlags: u32, i: nat, at: nat) returns (r: Option<Sample>)
    requires |v| >= 12 && bits == FlagBits(v) && at == RecordAt(bits, i) && RecordAt(bits, 0) <= at <= |v|
    requires firstFlags == if Bit(bits, 4) then (if |v| >= 16 then U32(v, 12) else 0) else t.flags
    ensures r.Some? <==> RecordAt(bits, i + 1) <= |v|
    ensures r.Some? ==> at + Stride(bits) <= |v| && r.value == SampleOf(v, bits, t, i)
  {
    hide U32, Signed32;
    NextRecord(bits, i);
    var ok, duration, size, flags, cts;
    var at := at;
    ok, duration, at := Take(v, at, Bit(bits, 0x100), t.duration);
    if !ok { return None; }
    ok, size, at := Take(v, at, Bit(bits, 0x200), t.size);
    if !ok { return None; }
    ok, flags, at := Take(v, at, Bit(bits, 0x400), if i == 0 then firstFlags else t.flags);
    if !ok { return None; }
    ok, cts, at := Take(v, at, Bit(bits, 0x800), 0);
    if !ok { return None; }
    return Some(Sample(duration, size, flags, if Bit(bits, 0x800) && v[0] == 1 then Signed32(cts) else cts));
  }

  /** The trun case of readRuns: takes the words of each sample and advances clock and data end under the int64 guards. */
  method ReadRun(v: bytes, t: Track, c0: Clock) returns (r: Option<Clock>)
    requires |v| >= 4
    ensures r == RunOfTable(v, t, c0)
  {
    hide FirstSamples, AddSamples, RecordAt, U32, IsSync, ClockFits, Signed32, SampleOf, Bit, FlagBits, RunFits;
    if |v| < 12 { return None; }
    var bits, count := FlagBits(v), U32(v, 4);
    if count == 0 || count > MAX_RUN || !Bit(bits, 1) { return None; }
    TableStart(v, bits, t, c0);
    var ok, firstFlags, at := Take(v, 12, Bit(bits, 4), t.flags);
    if !ok { ShortTable(v, t, c0, 0); return None; }
    var c := c0;
    var i := 0;
    while i < count
      invariant 0 <= i <= count
      invariant at == RecordAt(bits, i) && RecordAt(bits, 0) <= at <= |v|
      invariant AddSamples(c0, FirstSamples(v, bits, t, i), t) == Some(c)
    {
      NextRecord(bits, i);
      var s := TakeSample(v, bits, t, firstFlags, i, at);
      if s.None? { ShortTable(v, t, c0, i + 1); return None; }
      NextSample(v, bits, t, i, s.value, c0, c);
      var next := Advance(c, s.value, t);
      if next.None? { RefusedRun(v, t, c0, i + 1); return None; }
      c, at, i := next.value, at + Stride(bits), i + 1;
    }
    return Some(c);
  }

  /** The body of the readRuns loop once the words of a sample are taken. */
  method Advance(c: Clock, s: Sample, t: Track) returns (r: Option<Clock>)
    ensures r == AddSample(c, s, t)
  {
    if s.size == 0 || (s.duration == 0 && (t.video || t.codec != MP4A)) { return None; }
    if c.decode > MAX_I64 - s.duration || c.dataEnd > MAX_I64 - s.size || s.cts > MAX_I64 - c.decode { return None; }
    var pts := c.decode + s.cts;
    if pts < 0 || pts > MAX_I64 - s.duration { return None; }
    var rr := c.rr;
    if !c.haveSample {
      rr := rr.(firstPTS := pts, start := pts, end := pts + s.duration, key := IsSync(s.flags));
    }
    if pts < rr.start { rr := rr.(start := pts); }
    if pts + s.duration > rr.end { rr := rr.(end := pts + s.duration); }
    return Some(Clock(rr, c.decode + s.duration, c.dataEnd + s.size, true));
  }

  /** The trun case of readSamples: the same words, appended to the track. */
  method ReadPiece(v: bytes, t: Track, before: seq<Sample>) returns (r: Option<seq<Sample>>)
    requires |v| >= 4
    ensures r == match TrunSamples(v, t)
                 case None => None
                 case Some(ss) => if Bit(FlagBits(v), 0x800) && v[0] > 1 then None else Some(before + ss)
  {
    hide FirstSamples, RecordAt, U32, Signed32, SampleOf, Bit, FlagBits;
    if |v| < 12 { return None; }
    var bits, count := FlagBits(v), U32(v, 4);
    if count == 0 || count > MAX_RUN || !Bit(bits, 1) { return None; }
    ghost var c0 := Clock(NO_RUN, 0, 0, false);
    TableStart(v, bits, t, c0);
    var ok, firstFlags, at := Take(v, 12, Bit(bits, 4), t.flags);
    if !ok { ShortTable(v, t, c0, 0); return None; }
    var out := before;
    var i := 0;
    assert before + FirstSamples(v, bits, t, 0) == before;
    while i < count
      invariant 0 <= i <= count
      invariant at == RecordAt(bits, i) && RecordAt(bits, 0) <= at <= |v|
      invariant i > 0 ==> !(Bit(bits, 0x800) && v[0] > 1)
      invariant out == before + FirstSamples(v, bits, t, i)
    {
      NextRecord(bits, i);
      var s := TakeSample(v, bits, t, firstFlags, i, at);
      if s.None? { ShortTable(v, t, c0, i + 1); return None; }
      if Bit(bits, 0x800) && v[0] > 1 { return None; }
      NextSample(v, bits, t, i, s.value, c0, c0);
      out, at, i := out + [s.value], at + Stride(bits), i + 1;
    }
    return Some(out);
  }
}
