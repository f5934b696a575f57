/**
 Track header, clock and run boxes of a fragment as a muxer writes them (ISO/IEC
 14496-12 sections 8.8.7, 8.8.12 and 8.8.8), for any choice of their optional
 fields.  The program reads a box as a set of defaults, a time or a list of
 samples exactly when it was written for them.
 */
module FragmentWriter {
  import opened Bytes
  import opened Options
  import opened Boxes
  import opened Tracks
  import opened Samples
  import opened Fragments
  import FlatScan

  // ---------- fields ----------

  type flags = x: int | 0 <= x < 0x100_0000

  /** Version and flags of a full box. */
  function FullHead(version: byte, bits: flags): bytes { Enc32(version * 0x100_0000 + bits) }

  /** A field that is written when it is there. */
  function Optional(x: Option<u32>): bytes { if x.Some? then Enc32(x.value) else [] }

  function Or(x: Option<u32>, otherwise: u32): u32 { if x.Some? then x.value else otherwise }

  /** Which of the fields a flag announces is there. */
  function Chosen(there: bool, n: u32): Option<u32> { if there then Some(n) else None }

  lemma HeadReads(v: bytes, version: byte, bits: flags, rest: bytes)
    requires v == FullHead(version, bits) + rest
    ensures |v| >= 4 && v[0] == version && FlagBits(v) == bits && v[4..] == rest
  {
    hide Bit;
    var n := version * 0x100_0000 + bits;
    assert v[0..4] == FullHead(version, bits);
    Field32(v, 0, Enc32(n));
    assert v[0] == Enc32(n)[0];
  }

  /** The head of a full box is that of its version and flags. */
  lemma HeadWritten(v: bytes)
    requires |v| >= 4
    ensures FullHead(v[0], FlagBits(v)) == v[..4]
  {
    WordWritten(v, 0);
    assert v[0] * 0x100_0000 + FlagBits(v) == U32(v, 0);
  }

  lemma WordReads(v: bytes, at: nat, n: u32, rest: bytes)
    requires at <= |v| && v[at..] == Enc32(n) + rest
    ensures at + 4 <= |v| && U32(v, at) == n && v[at + 4..] == rest
  {
    hide Enc32, U32;
    var tail := v[at..];
    assert tail[0..4] == Enc32(n) && tail[4..] == rest;
    SliceSlice(v, at, |v|, 0, 4);
    SliceSlice(v, at, |v|, 4, |v| - at);
    Field32(v, at, Enc32(n));
  }

  lemma WordWritten(v: bytes, at: nat)
    requires at + 4 <= |v|
    ensures v[at..at + 4] == Enc32(U32(v, at))
  {
    var a, b, c, d := v[at] as int, v[at + 1] as int, v[at + 2] as int, v[at + 3] as int;
    Digits(a, b, c, d);
  }

  lemma Digits(a: int, b: int, c: int, d: int)
    requires 0 <= a < 256 && 0 <= b < 256 && 0 <= c < 256 && 0 <= d < 256
    ensures var n := a * 0x100_0000 + b * 0x1_0000 + c * 0x100 + d;
            n / 0x100_0000 == a && n / 0x1_0000 % 256 == b && n / 0x100 % 256 == c && n % 256 == d
  {
    var n := a * 0x100_0000 + b * 0x1_0000 + c * 0x100 + d;
    assert n / 0x1_0000 == a * 256 + b;
    assert n / 0x100 == (a * 256 + b) * 256 + c;
  }

  lemma OptionalReads(v: bytes, at: nat, x: Option<u32>, rest: bytes)
    requires at <= |v| && v[at..] == Optional(x) + rest
    ensures at + |Optional(x)| <= |v| && v[at + |Optional(x)|..] == rest
    ensures x.Some? ==> at + 4 <= |v| && U32(v, at) == x.value
  {
    hide Enc32, U32;
    if x.Some? { WordReads(v, at, x.value, rest); } else { assert [] + rest == rest; }
  }

  /** What an optional field was, given whether it is there. */
  function FieldAt(v: bytes, at: nat, there: bool): Option<u32> {
    if there && at + 4 <= |v| then Some(U32(v, at)) else None
  }

  lemma FieldWritten(v: bytes, at: nat, there: bool)
    requires at + (if there then 4 else 0) <= |v|
    ensures v[at..at + if there then 4 else 0] == Optional(FieldAt(v, at, there)) && (FieldAt(v, at, there).Some? <==> there)
  {
    hide Enc32, U32;
    if there { WordWritten(v, at); }
  }

  lemma Cut(v: bytes, i: nat, j: nat, k: nat)
    requires i <= j <= k <= |v|
    ensures v[i..k] == v[i..j] + v[j..k]
  {
  }

  /** Both track headers and sample records end in up to four optional words. */
  datatype Words = Words(a: Option<u32>, b: Option<u32>, c: Option<u32>, d: Option<u32>) {
    function Written(): bytes { Optional(a) + (Optional(b) + (Optional(c) + Optional(d))) }
  }

  function Width(x: Option<u32>): nat { if x.Some? then 4 else 0 }

  predicate ReadsAt(v: bytes, at: nat, x: Option<u32>) { x.Some? ==> at + 4 <= |v| && U32(v, at) == x.value }

  lemma WordsRead(v: bytes, at: nat, ws: Words, rest: bytes)
    requires at <= |v| && v[at..] == ws.Written() + rest
    ensures ReadsAt(v, at, ws.a) && ReadsAt(v, at + Width(ws.a), ws.b) && ReadsAt(v, at + Width(ws.a) + Width(ws.b), ws.c)
    ensures ReadsAt(v, at + Width(ws.a) + Width(ws.b) + Width(ws.c), ws.d)
    ensures at + Width(ws.a) + Width(ws.b) + Width(ws.c) + Width(ws.d) <= |v|
  {
    hide U32, Optional;
    OptionalSize(ws.a);
    OptionalSize(ws.b);
    OptionalSize(ws.c);
    OptionalSize(ws.d);
    var c := Optional(ws.d) + rest;
    var b := Optional(ws.c) + c;
    var a := Optional(ws.b) + b;
    assert v[at..] == Optional(ws.a) + a;
    OptionalReads(v, at, ws.a, a);
    OptionalReads(v, at + Width(ws.a), ws.b, b);
    OptionalReads(v, at + Width(ws.a) + Width(ws.b), ws.c, c);
    OptionalReads(v, at + Width(ws.a) + Width(ws.b) + Width(ws.c), ws.d, rest);
  }

  lemma OptionalSize(x: Option<u32>)
    ensures |Optional(x)| == Width(x)
  {
  }

  /** The words found at a place, given which of them are there. */
  function WordsAt(v: bytes, at: nat, a: bool, b: bool, c: bool, d: bool): Words {
    var x := FieldAt(v, at, a);
    var y := FieldAt(v, at + Width(x), b);
    var z := FieldAt(v, at + Width(x) + Width(y), c);
    Words(x, y, z, FieldAt(v, at + Width(x) + Width(y) + Width(z), d))
  }

  lemma WordsWritten(v: bytes, at: nat, a: bool, b: bool, c: bool, d: bool)
    requires at + (if a then 4 else 0) + (if b then 4 else 0) + (if c then 4 else 0) + (if d then 4 else 0) <= |v|
    ensures var ws := WordsAt(v, at, a, b, c, d);
            && (ws.a.Some? <==> a) && (ws.b.Some? <==> b) && (ws.c.Some? <==> c) && (ws.d.Some? <==> d)
            && v[at..at + Width(ws.a) + Width(ws.b) + Width(ws.c) + Width(ws.d)] == ws.Written()
  {
    hide U32, Optional;
    var ws := WordsAt(v, at, a, b, c, d);
    FieldWritten(v, at, a);
    var i := at + Width(ws.a);
    FieldWritten(v, i, b);
    var j := i + Width(ws.b);
    FieldWritten(v, j, c);
    var k := j + Width(ws.c);
    FieldWritten(v, k, d);
    var end := k + Width(ws.d);
    Cut(v, at, i, end);
    Cut(v, i, j, end);
    Cut(v, j, k, end);
  }

  // ---------- tfhd ----------

  /** A track fragment header; a field that is absent leaves the default of the movie header. */
  datatype TrackHeader = TrackHeader(
    version: byte, bits: flags, track: u32,
    description: Option<u32>, duration: Option<u32>, size: Option<u32>, flagWord: Option<u32>)
  {
    /** The flags announce the optional fields. */
    predicate Announced() {
      && (Bit(bits, 2) <==> description.Some?) && (Bit(bits, 8) <==> duration.Some?)
      && (Bit(bits, 16) <==> size.Some?) && (Bit(bits, 32) <==> flagWord.Some?)
    }

    function Fields(): Words { Words(description, duration, size, flagWord) }

    function Written(): bytes { FullHead(version, bits) + (Enc32(track) + Fields().Written()) }

    /** What the runs behind it take for granted. */
    function Over(t: Track): Track {
      t.(duration := Or(duration, t.duration), size := Or(size, t.size), flags := Or(flagWord, t.flags))
    }
  }

  predicate WroteTfhd(v: bytes, h: TrackHeader, tail: bytes) { h.Announced() && v == h.Written() + tail }

  lemma TfhdReads(v: bytes, h: TrackHeader, tail: bytes, t: Track)
    requires WroteTfhd(v, h, tail)
    ensures |v| >= 8 && v[0] == h.version && FlagBits(v) == h.bits && U32(v, 4) == h.track
    ensures TfhdDefaults(v, t) == Some(h.Over(t))
    ensures h.description.Some? ==> |v| >= 12 && U32(v, 8) == h.description.value
  {
    hide Bit, U32, Enc32, FlagBits, Optional, Words.Written, FullHead;
    var fields := h.Fields().Written() + tail;
    assert v == FullHead(h.version, h.bits) + (Enc32(h.track) + fields);
    HeadReads(v, h.version, h.bits, Enc32(h.track) + fields);
    WordReads(v, 4, h.track, fields);
    WordsRead(v, 8, h.Fields(), tail);
  }

  /** The header a tfhd box was written from. */
  function HeaderIn(v: bytes): TrackHeader
    requires |v| >= 8
  {
    var bits := FlagBits(v);
    var ws := WordsAt(v, 8, Bit(bits, 2), Bit(bits, 8), Bit(bits, 16), Bit(bits, 32));
    TrackHeader(v[0], bits, U32(v, 4), ws.a, ws.b, ws.c, ws.d)
  }

  lemma TfhdWritten(v: bytes, t: Track) returns (tail: bytes)
    requires |v| >= 8 && TfhdDefaults(v, t).Some?
    ensures WroteTfhd(v, HeaderIn(v), tail)
  {
    hide Bit, U32, Enc32, FlagBits, FullHead, Words.Written, WordsAt;
    var bits, h := FlagBits(v), HeaderIn(v);
    HeadWritten(v);
    WordWritten(v, 4);
    WordsWritten(v, 8, Bit(bits, 2), Bit(bits, 8), Bit(bits, 16), Bit(bits, 32));
    var end := 8 + Width(h.description) + Width(h.duration) + Width(h.size) + Width(h.flagWord);
    tail := v[end..];
    Cut(v, 0, 8, end);
    Cut(v, 0, end, |v|);
    Cut(v, 0, 4, 8);
    assert v[0..8] + v[8..end] == v[..4] + (v[4..8] + v[8..end]) == h.Written();
  }

  /** A tfhd box is taken for defaults exactly when it was written for them over those of the movie header. */
  lemma TfhdMeans(v: bytes, t: Track, u: Track)
    requires |v| >= 8
    ensures TfhdDefaults(v, t) == Some(u) <==> exists h: TrackHeader, tail: bytes :: WroteTfhd(v, h, tail) && u == h.Over(t)
  {
    hide TfhdDefaults;
    if TfhdDefaults(v, t) == Some(u) {
      var tail := TfhdWritten(v, t);
      TfhdReads(v, HeaderIn(v), tail, t);
      assert WroteTfhd(v, HeaderIn(v), tail) && u == HeaderIn(v).Over(t);
    }
    if exists h: TrackHeader, tail: bytes :: WroteTfhd(v, h, tail) && u == h.Over(t) {
      var h: TrackHeader, tail: bytes :| WroteTfhd(v, h, tail) && u == h.Over(t);
      TfhdReads(v, h, tail, t);
    }
  }

  // ---------- tfdt ----------

  /** A decode time, in 64 bits by version 1 and in 32 by any other. */
  datatype FragmentClock = FragmentClock(version: byte, bits: flags, time: u64) {
    predicate Fits() { version == 1 || time <= MAX_U32 }

    function Written(): bytes { FullHead(version, bits) + if version == 1 then Enc64(time) else Enc32(Wrap32(time)) }
  }

  predicate WroteTfdt(v: bytes, c: FragmentClock, tail: bytes) { c.Fits() && v == c.Written() + tail }

  lemma WideReads(v: bytes, at: nat, n: u64, rest: bytes)
    requires at <= |v| && v[at..] == Enc64(n) + rest
    ensures at + 8 <= |v| && U64(v, at) == n && v[at + 8..] == rest
  {
    hide Enc64, U64;
    var tail := v[at..];
    assert tail[0..8] == Enc64(n) && tail[8..] == rest;
    SliceSlice(v, at, |v|, 0, 8);
    SliceSlice(v, at, |v|, 8, |v| - at);
    Field64(v, at, Enc64(n));
  }

  lemma WideWritten(v: bytes, at: nat)
    requires at + 8 <= |v|
    ensures v[at..at + 8] == Enc64(U64(v, at))
  {
    hide Enc32, U32;
    WordWritten(v, at);
    WordWritten(v, at + 4);
    assert v[at..at + 8] == v[at..at + 4] + v[at + 4..at + 8];
  }

  lemma TfdtReads(v: bytes, c: FragmentClock, tail: bytes)
    requires WroteTfdt(v, c, tail)
    ensures |v| >= 8 && v[0] == c.version && BaseDecode(v) == (if c.time <= MAX_I64 then Some(c.time) else None)
    ensures ReadClock(v) == if c.version <= 1 then Some(c.time) else None
  {
    hide U32, Enc32, Enc64, U64, FullHead;
    var rest := (if c.version == 1 then Enc64(c.time) else Enc32(c.time)) + tail;
    assert v == FullHead(c.version, c.bits) + rest;
    HeadReads(v, c.version, c.bits, rest);
    if c.version == 1 { WideReads(v, 4, c.time, tail); } else { WordReads(v, 4, c.time, tail); }
  }

  function ReadClock(v: bytes): Option<u64> { FlatScan.ReadClock(v, 4) }

  lemma TfdtWritten(v: bytes, n: int)
    requires BaseDecode(v) == Some(n) || ReadClock(v) == Some(n)
    ensures 0 <= n <= MAX_U64 && |v| >= 8 && (ReadClock(v) == Some(n) ==> v[0] <= 1)
    ensures exists tail: bytes :: WroteTfdt(v, FragmentClock(v[0], FlagBits(v), n), tail)
  {
    hide U32, Enc32, Enc64, U64;
    var c := FragmentClock(v[0], FlagBits(v), n);
    var end := if v[0] == 1 then 12 else 8;
    HeadWritten(v);
    if v[0] == 1 { WideWritten(v, 4); } else { WordWritten(v, 4); }
    Cut(v, 0, 4, end);
    Cut(v, 0, end, |v|);
    assert WroteTfdt(v, c, v[end..]);
  }

  /** A tfdt box is read as a time exactly when it was written for it, and that time is an int64 number. */
  lemma TfdtMeans(v: bytes, n: int)
    ensures BaseDecode(v) == Some(n) <==> 0 <= n <= MAX_I64 && exists c: FragmentClock, tail: bytes :: WroteTfdt(v, c, tail) && c.time == n
    ensures ReadClock(v) == Some(n) <==> 0 <= n <= MAX_U64 && exists c: FragmentClock, tail: bytes :: WroteTfdt(v, c, tail) && c.time == n && c.version <= 1
  {
    hide BaseDecode, ReadClock, WroteTfdt;
    if BaseDecode(v) == Some(n) || ReadClock(v) == Some(n) { TfdtWritten(v, n); }
    forall c: FragmentClock, tail: bytes | WroteTfdt(v, c, tail)
      ensures BaseDecode(v) == (if c.time <= MAX_I64 then Some(c.time) else None) && (c.version <= 1 ==> ReadClock(v) == Some(c.time))
    {
      TfdtReads(v, c, tail);
    }
  }

  // ---------- trun ----------

  /** A run of samples.  Its flags say which of their fields it writes. */
  datatype TrackRun = TrackRun(version: byte, bits: flags, offset: int, first: u32, samples: seq<Sample>) {
    function Written(): bytes {
      FullHead(version, bits) + (Enc32(Wrap32(|samples|)) + (Enc32(Wrap32(offset)) + (Optional(Chosen(Bit(bits, 4), first)) + Records(bits, samples))))
    }

    /** Fields that are not written are those the track fragment takes for granted. */
    predicate Holds(d: Track) {
      && 1 <= |samples| <= 1_000_000 && Bit(bits, 1) && -0x8000_0000 <= offset < 0x8000_0000
      && forall i | 0 <= i < |samples| :: HoldsSample(d, i)
    }

    predicate HoldsSample(d: Track, i: nat)
      requires i < |samples|
    {
      var s := samples[i];
      && (!Bit(bits, 0x100) ==> s.duration == d.duration)
      && (!Bit(bits, 0x200) ==> s.size == d.size)
      && (!Bit(bits, 0x400) ==> s.flags == if i == 0 && Bit(bits, 4) then first else d.flags)
      && (if !Bit(bits, 0x800) then s.cts == 0 else if version == 1 then -0x8000_0000 <= s.cts < 0x8000_0000 else 0 <= s.cts <= MAX_U32)
    }
  }

  function Record(bits: flags, s: Sample): Words {
    Words(Chosen(Bit(bits, 0x100), s.duration), Chosen(Bit(bits, 0x200), s.size), Chosen(Bit(bits, 0x400), s.flags), Chosen(Bit(bits, 0x800), Wrap32(s.cts)))
  }

  function Records(bits: flags, ss: seq<Sample>): bytes {
    if ss == [] then [] else Records(bits, ss[..|ss| - 1]) + Record(bits, ss[|ss| - 1]).Written()
  }

  predicate WroteTrun(v: bytes, w: TrackRun, tail: bytes) { v == w.Written() + tail }

  lemma RecordReads(v: bytes, at: nat, w: TrackRun, d: Track, i: nat)
    requires i < |w.samples| && w.HoldsSample(d, i)
    requires |v| >= 12 && v[0] == w.version && (Bit(w.bits, 4) ==> |v| >= 16 && U32(v, 12) == w.first)
    requires at == RecordAt(w.bits, i) && at + Stride(w.bits) <= |v| && RecordAt(w.bits, 0) <= |v|
    requires v[at..at + Stride(w.bits)] == Record(w.bits, w.samples[i]).Written()
    ensures SampleOf(v, w.bits, d, i) == w.samples[i]
  {
    hide Bit, U32, RecordAt, Words.Written;
    var end := at + Stride(w.bits);
    Cut(v, at, end, |v|);
    WordsRead(v, at, Record(w.bits, w.samples[i]), v[end..]);
    CtsReads(w.samples[i].cts);
  }

  lemma CtsReads(cts: int)
    ensures -0x8000_0000 <= cts < 0x8000_0000 ==> Signed32(Wrap32(cts)) == cts
    ensures 0 <= cts <= MAX_U32 ==> Wrap32(cts) == cts
  {
    if -0x8000_0000 <= cts < 0x8000_0000 { SignedRoundTrip(cts); }
  }

  lemma {:induction false} RecordsSize(bits: flags, ss: seq<Sample>)
    ensures |Records(bits, ss)| == RecordAt(bits, |ss|) - RecordAt(bits, 0)
    decreases |ss|
  {
    hide Bit, Enc32;
    if ss != [] { RecordsSize(bits, ss[..|ss| - 1]); }
  }

  lemma {:induction false} RecordsRead(v: bytes, w: TrackRun, d: Track, n: nat)
    requires n <= |w.samples| && forall i | 0 <= i < n :: w.HoldsSample(d, i)
    requires |v| >= 12 && v[0] == w.version && (Bit(w.bits, 4) ==> |v| >= 16 && U32(v, 12) == w.first)
    requires RecordAt(w.bits, 0) <= |v| && RecordAt(w.bits, n) <= |v| && RecordAt(w.bits, 0) <= RecordAt(w.bits, n)
    requires v[RecordAt(w.bits, 0)..RecordAt(w.bits, n)] == Records(w.bits, w.samples[..n])
    ensures FirstSamples(v, w.bits, d, n) == w.samples[..n]
    decreases n
  {
    hide Bit, U32, Enc32, SampleOf, Record, Stride, Records, FirstSamples, RecordAt, Words.Written, TrackRun.HoldsSample;
    var before := w.samples[..n];
    if n == 0 {
      NoRecords(v, w.bits, d);
    } else {
      var from, at, end := RecordAt(w.bits, 0), RecordAt(w.bits, n - 1), RecordAt(w.bits, n);
      RecordsAscend(w.bits, 0, n - 1);
      NextRecord(w.bits, n);
      assert before[..n - 1] == w.samples[..n - 1] && before[n - 1] == w.samples[n - 1];
      RecordsSize(w.bits, w.samples[..n - 1]);
      RecordsUnfold(w.bits, before);
      TwoParts(v, from, at, end, Records(w.bits, w.samples[..n - 1]), Record(w.bits, w.samples[n - 1]).Written());
      RecordsRead(v, w, d, n - 1);
      RecordReads(v, at, w, d, n - 1);
      SamplesUnfold(v, w.bits, d, n);
      assert before == w.samples[..n - 1] + [w.samples[n - 1]];
    }
  }

  lemma NoRecords(v: bytes, bits: flags, d: Track)
    requires |v| >= 12 && RecordAt(bits, 0) <= |v|
    ensures FirstSamples(v, bits, d, 0) == [] && Records(bits, []) == [] && v[RecordAt(bits, 0)..RecordAt(bits, 0)] == []
  {
    hide Bit;
  }

  lemma RecordsUnfold(bits: flags, ss: seq<Sample>)
    requires ss != []
    ensures Records(bits, ss) == Records(bits, ss[..|ss| - 1]) + Record(bits, ss[|ss| - 1]).Written()
  {
    hide Record;
  }

  lemma SamplesUnfold(v: bytes, bits: flags, d: Track, n: nat)
    requires |v| >= 12 && RecordAt(bits, 0) <= |v| && RecordAt(bits, n) <= |v| && n > 0
    ensures RecordAt(bits, n - 1) <= |v| && RecordAt(bits, n - 1) + Stride(bits) <= |v|
    ensures FirstSamples(v, bits, d, n) == FirstSamples(v, bits, d, n - 1) + [SampleOf(v, bits, d, n - 1)]
  {
    hide SampleOf;
    RecordsAscend(bits, n - 1, n);
  }

  lemma TwoParts(v: bytes, i: nat, j: nat, k: nat, a: bytes, b: bytes)
    requires i <= j <= k <= |v| && v[i..k] == a + b && |a| == j - i
    ensures v[i..j] == a && v[j..k] == b
  {
    SliceSlice(v, i, k, 0, j - i);
    SliceSlice(v, i, k, j - i, k - i);
  }

  lemma TrunReads(v: bytes, w: TrackRun, tail: bytes, d: Track)
    requires WroteTrun(v, w, tail) && w.Holds(d)
    ensures |v| >= 12 && v[0] == w.version && FlagBits(v) == w.bits
    ensures TrunSamples(v, d) == Some(w.samples) && TrunOffset(v) == w.offset
  {
    hide Bit, U32, Enc32, FullHead, FlagBits, FirstSamples, Records, RecordAt;
    var first := Chosen(Bit(w.bits, 4), w.first);
    var records := Records(w.bits, w.samples) + tail;
    var c := Optional(first) + records;
    var b := Enc32(Wrap32(w.offset)) + c;
    var a := Enc32(Wrap32(|w.samples|)) + b;
    assert v == FullHead(w.version, w.bits) + a;
    HeadReads(v, w.version, w.bits, a);
    WordReads(v, 4, |w.samples|, b);
    WordReads(v, 8, Wrap32(w.offset), c);
    OptionalReads(v, 12, first, records);
    CtsReads(w.offset);
    FirstRecordAt(w.bits);
    RecordsSize(w.bits, w.samples);
    RecordsAscend(w.bits, 0, |w.samples|);
    var from, end := RecordAt(w.bits, 0), RecordAt(w.bits, |w.samples|);
    assert v[from..] == records;
    assert v[from..end] == records[..end - from] == Records(w.bits, w.samples);
    assert w.samples[..|w.samples|] == w.samples;
    RecordsRead(v, w, d, |w.samples|);
  }

  lemma FirstRecordAt(bits: u32)
    ensures RecordAt(bits, 0) == 12 + Word(bits, 4)
  {
  }

  lemma RecordWritten(v: bytes, bits: flags, d: Track, i: nat)
    requires |v| >= 12 && RecordAt(bits, 0) <= |v| && RecordAt(bits, i) + Stride(bits) <= |v|
    ensures v[RecordAt(bits, i)..RecordAt(bits, i) + Stride(bits)] == Record(bits, SampleOf(v, bits, d, i)).Written()
  {
    hide Bit, U32, RecordAt, Words.Written, WordsAt;
    var at := RecordAt(bits, i);
    WordsWritten(v, at, Bit(bits, 0x100), Bit(bits, 0x200), Bit(bits, 0x400), Bit(bits, 0x800));
    RecordIn(v, bits, d, i);
  }

  lemma RecordIn(v: bytes, bits: flags, d: Track, i: nat)
    requires |v| >= 12 && RecordAt(bits, 0) <= |v| && RecordAt(bits, i) + Stride(bits) <= |v|
    ensures Record(bits, SampleOf(v, bits, d, i))
            == WordsAt(v, RecordAt(bits, i), Bit(bits, 0x100), Bit(bits, 0x200), Bit(bits, 0x400), Bit(bits, 0x800))
  {
    hide Bit, U32, RecordAt;
    if Bit(bits, 0x800) { SignedWraps(U32(v, RecordAt(bits, i) + Word(bits, 0x100) + Word(bits, 0x200) + Word(bits, 0x400))); }
  }

  lemma SignedWraps(n: u32)
    ensures Wrap32(Signed32(n)) == n && Wrap32(n) == n && -0x8000_0000 <= Signed32(n) < 0x8000_0000
  {
  }

  lemma {:induction false} RecordsWritten(v: bytes, bits: flags, d: Track, n: nat)
    requires |v| >= 12 && RecordAt(bits, 0) <= |v| && RecordAt(bits, n) <= |v|
    ensures RecordAt(bits, 0) <= RecordAt(bits, n) && v[RecordAt(bits, 0)..RecordAt(bits, n)] == Records(bits, FirstSamples(v, bits, d, n))
    decreases n
  {
    hide Bit, U32, SampleOf, Record, Stride, Words.Written, Records, FirstSamples, RecordAt;
    RecordsAscend(bits, 0, n);
    if n == 0 {
      NoRecords(v, bits, d);
    } else {
      RecordsAscend(bits, 0, n - 1);
      SamplesUnfold(v, bits, d, n);
      NextRecord(bits, n);
      RecordsWritten(v, bits, d, n - 1);
      RecordWritten(v, bits, d, n - 1);
      Cut(v, RecordAt(bits, 0), RecordAt(bits, n - 1), RecordAt(bits, n));
      var ss := FirstSamples(v, bits, d, n);
      assert ss[..n - 1] == FirstSamples(v, bits, d, n - 1) && ss[n - 1] == SampleOf(v, bits, d, n - 1);
      RecordsUnfold(bits, ss);
    }
  }

  lemma NextRecord(bits: u32, n: nat)
    requires n > 0
    ensures RecordAt(bits, n) == RecordAt(bits, n - 1) + Stride(bits)
  {
  }

  lemma {:induction false} SamplesAt(v: bytes, bits: u32, d: Track, n: nat, i: nat)
    requires |v| >= 12 && RecordAt(bits, 0) <= |v| && RecordAt(bits, n) <= |v| && i < n
    ensures RecordAt(bits, i) + Stride(bits) <= |v| && FirstSamples(v, bits, d, n)[i] == SampleOf(v, bits, d, i)
    decreases n
  {
    hide SampleOf, Stride;
    RecordsAscend(bits, n - 1, n);
    if i < n - 1 { SamplesAt(v, bits, d, n - 1, i); }
  }

  /** The run a trun box was written from. */
  function RunIn(v: bytes, ss: seq<Sample>): TrackRun
    requires |v| >= 12
  {
    TrackRun(v[0], FlagBits(v), TrunOffset(v), Or(FieldAt(v, 12, Bit(FlagBits(v), 4)), 0), ss)
  }

  lemma HeadOfTrun(v: bytes, d: Track)
    requires TrunSamples(v, d).Some?
    ensures var n, bits := |TrunSamples(v, d).value|, FlagBits(v);
            && 1 <= n <= 1_000_000 && Bit(bits, 1) && -0x8000_0000 <= TrunOffset(v) < 0x8000_0000
            && 12 + (if Bit(bits, 4) then 4 else 0) == RecordAt(bits, 0) <= RecordAt(bits, n) <= |v|
            && v[..RecordAt(bits, 0)]
               == FullHead(v[0], bits) + (Enc32(Wrap32(n)) + (Enc32(Wrap32(TrunOffset(v))) + Optional(FieldAt(v, 12, Bit(bits, 4)))))
            && TrunSamples(v, d).value == FirstSamples(v, bits, d, n)
  {
    hide Bit, U32, Enc32, FullHead, FlagBits, FirstSamples, RecordAt, SampleOf, Optional;
    var bits := FlagBits(v);
    var from := RecordAt(bits, 0);
    FirstRecordAt(bits);
    RecordsAscend(bits, 0, U32(v, 4));
    HeadWritten(v);
    WordWritten(v, 4);
    WordWritten(v, 8);
    SignedWraps(U32(v, 8));
    FieldWritten(v, 12, Bit(bits, 4));
    Cut(v, 0, 4, from);
    Cut(v, 4, 8, from);
    Cut(v, 8, 12, from);
  }

  lemma TrunWritten(v: bytes, d: Track) returns (tail: bytes)
    requires TrunSamples(v, d).Some?
    ensures var w := RunIn(v, TrunSamples(v, d).value); w.Holds(d) && WroteTrun(v, w, tail)
  {
    hide Bit, U32, Enc32, FullHead, FlagBits, FirstSamples, Records, RecordAt, SampleOf, TrunSamples, TrunOffset, Optional, TrackRun.HoldsSample;
    var ss := TrunSamples(v, d).value;
    var bits, w, n := FlagBits(v), RunIn(v, ss), |ss|;
    HeadOfTrun(v, d);
    RecordsWritten(v, bits, d, n);
    var from, end := RecordAt(bits, 0), RecordAt(bits, n);
    tail := v[end..];
    Cut(v, 0, from, end);
    Cut(v, 0, end, |v|);
    forall i | 0 <= i < n
      ensures w.HoldsSample(d, i)
    {
      SamplesAt(v, bits, d, n, i);
      SampleHeld(v, w, d, i);
    }
    FieldChosen(v, Bit(bits, 4));
  }

  lemma FieldChosen(v: bytes, there: bool)
    requires there ==> |v| >= 16
    ensures Chosen(there, Or(FieldAt(v, 12, there), 0)) == FieldAt(v, 12, there)
  {
  }

  lemma SampleHeld(v: bytes, w: TrackRun, d: Track, i: nat)
    requires |v| >= 12 && i < |w.samples| && w.version == v[0] && w.first == Or(FieldAt(v, 12, Bit(w.bits, 4)), 0)
    requires RecordAt(w.bits, 0) <= |v| && RecordAt(w.bits, i) + Stride(w.bits) <= |v| && w.samples[i] == SampleOf(v, w.bits, d, i)
    ensures w.HoldsSample(d, i)
  {
    hide Bit, U32;
    FirstRecordAt(w.bits);
    hide RecordAt;
    if Bit(w.bits, 0x800) { SignedWraps(U32(v, RecordAt(w.bits, i) + Word(w.bits, 0x100) + Word(w.bits, 0x200) + Word(w.bits, 0x400))); }
  }

  /** A trun box is read as a list of samples exactly when it was written for it over those defaults; and it has the data offset it was written with. */
  lemma TrunMeans(v: bytes, d: Track, ss: seq<Sample>)
    ensures TrunSamples(v, d) == Some(ss) <==> exists w: TrackRun, tail: bytes :: WroteTrun(v, w, tail) && w.Holds(d) && w.samples == ss
    ensures forall w: TrackRun, tail: bytes :: WroteTrun(v, w, tail) && w.Holds(d) ==> |v| >= 12 && TrunOffset(v) == w.offset
  {
    hide TrunSamples, TrunOffset, WroteTrun;
    if TrunSamples(v, d) == Some(ss) {
      var tail := TrunWritten(v, d);
      assert WroteTrun(v, RunIn(v, ss), tail);
    }
    forall w: TrackRun, tail: bytes | WroteTrun(v, w, tail) && w.Holds(d)
      ensures |v| >= 12 && TrunOffset(v) == w.offset && TrunSamples(v, d) == Some(w.samples)
    {
      TrunReads(v, w, tail, d);
    }
  }
}
