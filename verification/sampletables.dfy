/**
 The sample tables of internal/recordingmedia/flat_boxes.go and a reader of
 those tables written from ISO/IEC 14496-12 (stts 8.6.1.2, ctts 8.6.1.3,
 stss 8.6.2, stsz 8.7.3, stsc 8.7.4, co64 8.7.5).
 */
module SampleTables {
  import opened Bytes
  import opened Options
  import opened Boxes
  import opened Samples

  datatype Chunk = Chunk(offset: int, samples: u32)

  // ---------- run lengths ----------

  datatype Entry = Entry(count: u32, value: u32)

  function AppendEntry(es: seq<Entry>, n: u32): seq<Entry> {
    var k := |es| - 1;
    if es != [] && es[k].value == n then es[k := Entry(Wrap32(es[k].count + 1), n)]
    else es + [Entry(1, n)]
  }

  function RunLengths(vs: seq<u32>): seq<Entry> {
    if vs == [] then [] else AppendEntry(RunLengths(vs[..|vs| - 1]), vs[|vs| - 1])
  }

  function Repeat<T>(n: nat, x: T): (r: seq<T>)
    ensures |r| == n && forall i | 0 <= i < n :: r[i] == x
  {
    if n == 0 then [] else Repeat(n - 1, x) + [x]
  }

  /** What a run-length table means: each value as often as its count says. */
  function Expand(es: seq<Entry>): seq<u32> {
    if es == [] then [] else Expand(es[..|es| - 1]) + Repeat(es[|es| - 1].count, es[|es| - 1].value)
  }

  lemma AppendExpands(es: seq<Entry>, n: u32)
    requires forall e | e in es :: e.count < MAX_U32
    ensures Expand(AppendEntry(es, n)) == Expand(es) + [n]
  {
    var k := |es| - 1;
    if es != [] && es[k].value == n {
      assert AppendEntry(es, n)[..k] == es[..k];
      assert Repeat(es[k].count + 1, n) == Repeat(es[k].count, n) + [n];
    } else {
      assert (es + [Entry(1, n)])[..k + 1] == es;
      assert Repeat(1, n) == [n];
    }
  }

  predicate Alternating(es: seq<Entry>) {
    forall i | 0 < i < |es| :: es[i - 1].value != es[i].value
  }

  lemma AppendAlternates(es: seq<Entry>, n: u32, bound: u32)
    requires Alternating(es) && bound < MAX_U32 && Counted(es, bound)
    ensures Alternating(AppendEntry(es, n))
    ensures Counted(AppendEntry(es, n), bound + 1)
  {
    var r := AppendEntry(es, n);
    forall i | 0 <= i < |r|
      ensures 0 < r[i].count <= bound + 1
    {
      if i < |es| { assert es[i] in es; }
    }
  }

  predicate Counted(es: seq<Entry>, bound: int) {
    forall e | e in es :: 0 < e.count <= bound
  }

  lemma {:induction false} RunLengthsShape(vs: seq<u32>)
    requires |vs| <= MAX_U32
    ensures |RunLengths(vs)| <= |vs| && Alternating(RunLengths(vs)) && Counted(RunLengths(vs), |vs|)
    decreases |vs|
  {
    if vs != [] {
      var n := |vs| - 1;
      RunLengthsShape(vs[..n]);
      AppendAlternates(RunLengths(vs[..n]), vs[n], n);
    }
  }

  /** The run-length table means the values it was made from, and has one entry for each change of value. */
  lemma {:induction false} RunLengthsExpand(vs: seq<u32>)
    requires |vs| <= MAX_U32
    ensures Expand(RunLengths(vs)) == vs
    ensures |RunLengths(vs)| <= |vs| && Alternating(RunLengths(vs)) && Counted(RunLengths(vs), |vs|)
    decreases |vs|
  {
    hide AppendEntry, Expand, Alternating;
    RunLengthsShape(vs);
    if vs == [] {
      ExpandNothing();
    } else {
      var n := |vs| - 1;
      RunLengthsExpand(vs[..n]);
      AppendExpands(RunLengths(vs[..n]), vs[n]);
      assert vs == vs[..n] + [vs[n]];
    }
  }

  lemma ExpandNothing()
    ensures Expand([]) == []
  {
  }

  // ---------- words ----------

  function EncWords(ws: seq<u32>): (r: bytes)
    ensures |r| == 4 * |ws|
  {
    if ws == [] then [] else EncWords(ws[..|ws| - 1]) + Enc32(ws[|ws| - 1])
  }

  function DecWords(b: bytes, at: nat, n: nat): (r: seq<u32>)
    requires at + 4 * n <= |b|
    ensures |r| == n
  {
    if n == 0 then [] else DecWords(b, at, n - 1) + [U32(b, at + 4 * (n - 1))]
  }

  function EncEntries(es: seq<Entry>): (r: bytes)
    ensures |r| == 8 * |es|
  {
    if es == [] then []
    else EncEntries(es[..|es| - 1]) + (Enc32(es[|es| - 1].count) + Enc32(es[|es| - 1].value))
  }

  function DecEntries(b: bytes, at: nat, n: nat): (r: seq<Entry>)
    requires at + 8 * n <= |b|
    ensures |r| == n
  {
    if n == 0 then []
    else DecEntries(b, at, n - 1) + [Entry(U32(b, at + 8 * (n - 1)), U32(b, at + 8 * (n - 1) + 4))]
  }

  /** One entry of stsc: the chunks from `first` on, their number of samples, and which sample description they use. */
  datatype Group = Group(first: u32, samples: u32, description: u32)

  function EncGroups(gs: seq<Group>): (r: bytes)
    ensures |r| == 12 * |gs|
  {
    if gs == [] then []
    else EncGroups(gs[..|gs| - 1]) + (Enc32(gs[|gs| - 1].first) + Enc32(gs[|gs| - 1].samples) + Enc32(gs[|gs| - 1].description))
  }

  function DecGroups(b: bytes, at: nat, n: nat): (r: seq<Group>)
    requires at + 12 * n <= |b|
    ensures |r| == n
  {
    if n == 0 then []
    else DecGroups(b, at, n - 1) + [Group(U32(b, at + 12 * (n - 1)), U32(b, at + 12 * (n - 1) + 4), U32(b, at + 12 * (n - 1) + 8))]
  }

  function EncWide(ws: seq<u64>): (r: bytes)
    ensures |r| == 8 * |ws|
  {
    if ws == [] then [] else EncWide(ws[..|ws| - 1]) + Enc64(ws[|ws| - 1])
  }

  function DecWide(b: bytes, at: nat, n: nat): (r: seq<u64>)
    requires at + 8 * n <= |b|
    ensures |r| == n
  {
    if n == 0 then [] else DecWide(b, at, n - 1) + [U64(b, at + 8 * (n - 1))]
  }

  /** Splits the last `width` bytes off a run of bytes found in `b`. */
  lemma LastField(b: bytes, at: nat, init: bytes, last: bytes)
    requires at + |init| + |last| <= |b| && b[at..at + |init| + |last|] == init + last
    ensures b[at..at + |init|] == init
    ensures b[at + |init|..at + |init| + |last|] == last
  {
    var n := |init| + |last|;
    SliceSlice(b, at, at + n, 0, |init|);
    SliceSlice(b, at, at + n, |init|, n);
    assert (init + last)[0..|init|] == init && (init + last)[|init|..n] == last;
  }

  lemma {:induction false} WordsRoundTrip(b: bytes, at: nat, ws: seq<u32>)
    requires at + 4 * |ws| <= |b| && b[at..at + 4 * |ws|] == EncWords(ws)
    ensures DecWords(b, at, |ws|) == ws
    decreases |ws|
  {
    hide U32, U64, Enc32, Enc64;
    if ws != [] {
      var n := |ws| - 1;
      LastField(b, at, EncWords(ws[..n]), Enc32(ws[n]));
      WordsRoundTrip(b, at, ws[..n]);
      Field32(b, at + 4 * n, Enc32(ws[n]));
    }
  }

  lemma {:induction false} EntriesRoundTrip(b: bytes, at: nat, es: seq<Entry>)
    requires at + 8 * |es| <= |b| && b[at..at + 8 * |es|] == EncEntries(es)
    ensures DecEntries(b, at, |es|) == es
    decreases |es|
  {
    hide U32, U64, Enc32, Enc64;
    if es != [] {
      var n := |es| - 1;
      var c, v := Enc32(es[n].count), Enc32(es[n].value);
      LastField(b, at, EncEntries(es[..n]), c + v);
      EntriesRoundTrip(b, at, es[..n]);
      LastField(b, at + 8 * n, c, v);
      Field32(b, at + 8 * n, c);
      Field32(b, at + 8 * n + 4, v);
    }
  }

  lemma {:induction false} GroupsRoundTrip(b: bytes, at: nat, gs: seq<Group>)
    requires at + 12 * |gs| <= |b| && b[at..at + 12 * |gs|] == EncGroups(gs)
    ensures DecGroups(b, at, |gs|) == gs
    decreases |gs|
  {
    hide U32, U64, Enc32, Enc64;
    if gs != [] {
      var n := |gs| - 1;
      var f, s, d := Enc32(gs[n].first), Enc32(gs[n].samples), Enc32(gs[n].description);
      LastField(b, at, EncGroups(gs[..n]), f + s + d);
      GroupsRoundTrip(b, at, gs[..n]);
      LastField(b, at + 12 * n, f + s, d);
      LastField(b, at + 12 * n, f, s);
      Field32(b, at + 12 * n, f);
      Field32(b, at + 12 * n + 4, s);
      Field32(b, at + 12 * n + 8, d);
    }
  }

  lemma {:induction false} WideRoundTrip(b: bytes, at: nat, ws: seq<u64>)
    requires at + 8 * |ws| <= |b| && b[at..at + 8 * |ws|] == EncWide(ws)
    ensures DecWide(b, at, |ws|) == ws
    decreases |ws|
  {
    hide U32, U64, Enc32, Enc64;
    if ws != [] {
      var n := |ws| - 1;
      LastField(b, at, EncWide(ws[..n]), Enc64(ws[n]));
      WideRoundTrip(b, at, ws[..n]);
      Field64(b, at + 8 * n, Enc64(ws[n]));
    }
  }

  // ---------- chunks ----------

  /** Entries of stsc: a new one whenever the number of samples per chunk changes; chunks count from one. */
  function Groups(cs: seq<Chunk>): seq<Group> {
    if cs == [] then []
    else
      AppendGroup(Groups(cs[..|cs| - 1]), Wrap32(|cs|), cs[|cs| - 1].samples)
  }

  function AppendGroup(gs: seq<Group>, number: u32, samples: u32): seq<Group> {
    if gs == [] || samples != gs[|gs| - 1].samples then gs + [Group(number, samples, 1)] else gs
  }

  /** The samples of chunk number j: those of the last entry that starts at or before it. */
  function SamplesOfChunk(gs: seq<Group>, j: nat): u32 {
    if gs == [] then 0
    else if gs[|gs| - 1].first <= j then gs[|gs| - 1].samples
    else SamplesOfChunk(gs[..|gs| - 1], j)
  }

  lemma {:induction false} GroupsEnd(cs: seq<Chunk>)
    requires 0 < |cs| <= MAX_U32
    ensures var gs := Groups(cs);
            0 < |gs| <= |cs| && gs[|gs| - 1].first <= |cs| && gs[|gs| - 1].samples == cs[|cs| - 1].samples
    decreases |cs|
  {
    if |cs| > 1 { GroupsEnd(cs[..|cs| - 1]); }
  }

  lemma LookUpLast(gs: seq<Group>, g: Group, j: nat)
    ensures SamplesOfChunk(gs + [g], j) == if g.first <= j then g.samples else SamplesOfChunk(gs, j)
  {
    assert (gs + [g])[..|gs|] == gs;
  }

  lemma GroupsUnfold(cs: seq<Chunk>)
    requires cs != []
    ensures Groups(cs) == AppendGroup(Groups(cs[..|cs| - 1]), Wrap32(|cs|), cs[|cs| - 1].samples)
  {
  }

  lemma LookUpPastLast(gs: seq<Group>, j: nat)
    requires gs != [] && gs[|gs| - 1].first <= j
    ensures SamplesOfChunk(gs, j) == gs[|gs| - 1].samples
  {
  }

  /** Looking up a chunk number in the table gives that chunk's number of samples. */
  lemma {:induction false} GroupsNameEveryChunk(cs: seq<Chunk>, i: nat)
    requires |cs| <= MAX_U32 && i < |cs|
    ensures SamplesOfChunk(Groups(cs), i + 1) == cs[i].samples
    decreases |cs|
  {
    hide Groups, SamplesOfChunk;
    var n := |cs| - 1;
    GroupsEnd(cs);
    if i < n {
      GroupsUnfold(cs);
      LookUpLast(Groups(cs[..n]), Group(n + 1, cs[n].samples, 1), i + 1);
      GroupsNameEveryChunk(cs[..n], i);
    } else {
      LookUpPastLast(Groups(cs), i + 1);
    }
  }

  // ---------- the emitter ----------

  const ZERO4: bytes := [0, 0, 0, 0]

  function SyncNumbers(ss: seq<Sample>): seq<u32> {
    if ss == [] then []
    else if IsSync(ss[|ss| - 1].flags) then SyncNumbers(ss[..|ss| - 1]) + [Wrap32(|ss|)]
    else SyncNumbers(ss[..|ss| - 1])
  }

  function DurationsOf(ss: seq<Sample>): (r: seq<u32>)
    ensures |r| == |ss| && forall i | 0 <= i < |ss| :: r[i] == ss[i].duration
  {
    seq(|ss|, i requires 0 <= i < |ss| => ss[i].duration)
  }

  function SizesOf(ss: seq<Sample>): (r: seq<u32>)
    ensures |r| == |ss| && forall i | 0 <= i < |ss| :: r[i] == ss[i].size
  {
    seq(|ss|, i requires 0 <= i < |ss| => ss[i].size)
  }

  function CompositionsOf(ss: seq<Sample>, shift: int): (r: seq<int>)
    ensures |r| == |ss| && forall i | 0 <= i < |ss| :: r[i] == ss[i].cts + shift
  {
    seq(|ss|, i requires 0 <= i < |ss| => ss[i].cts + shift)
  }

  function Unsigned(cs: seq<int>): (r: seq<u32>)
    ensures |r| == |cs| && forall i | 0 <= i < |cs| :: r[i] == Wrap32(cs[i])
  {
    seq(|cs|, i requires 0 <= i < |cs| => Wrap32(cs[i]))
  }

  predicate AnyNegative(cs: seq<int>) { exists c | c in cs :: c < 0 }

  predicate AnyNonzero(cs: seq<int>) { exists c | c in cs :: c != 0 }

  predicate CompositionsFit(cs: seq<int>) {
    if AnyNegative(cs) then forall c | c in cs :: -0x8000_0000 <= c <= 0x7fff_ffff
    else forall c | c in cs :: c <= MAX_U32
  }

  predicate OffsetFits(offset: int, delta: int) {
    && !(delta > 0 && offset > MAX_I64 - delta)
    && !(delta < 0 && offset < -delta)
    && offset + delta >= 0
  }

  function CountsOf(cs: seq<Chunk>): (r: seq<u32>)
    ensures |r| == |cs| && forall i | 0 <= i < |cs| :: r[i] == cs[i].samples
  {
    seq(|cs|, i requires 0 <= i < |cs| => cs[i].samples)
  }

  function OffsetsOf(cs: seq<Chunk>, delta: int): (r: seq<u64>)
    ensures |r| == |cs|
    ensures forall i | 0 <= i < |cs| :: r[i] == Wrap64(cs[i].offset + delta)
  {
    seq(|cs|, i requires 0 <= i < |cs| => Wrap64(cs[i].offset + delta))
  }

  function EntryTable(version: byte, es: seq<Entry>): bytes {
    [version, 0, 0, 0] + Enc32(Wrap32(|es|)) + EncEntries(es)
  }

  function SttsBody(ss: seq<Sample>): bytes { EntryTable(0, RunLengths(DurationsOf(ss))) }

  function CttsBody(cs: seq<int>): bytes {
    EntryTable(if AnyNegative(cs) then 1 else 0, RunLengths(Unsigned(cs)))
  }

  function StssBody(ss: seq<Sample>): bytes {
    ZERO4 + Enc32(Wrap32(|SyncNumbers(ss)|)) + EncWords(SyncNumbers(ss))
  }

  function StszBody(ss: seq<Sample>): bytes {
    ZERO4 + ZERO4 + Enc32(Wrap32(|ss|)) + EncWords(SizesOf(ss))
  }

  function StscBody(cs: seq<Chunk>): bytes {
    ZERO4 + Enc32(Wrap32(|Groups(cs)|)) + EncGroups(Groups(cs))
  }

  function Co64Body(cs: seq<Chunk>, delta: int): bytes {
    ZERO4 + Enc32(Wrap32(|cs|)) + EncWide(OffsetsOf(cs, delta))
  }

  /** The sample descriptions of the initial stbl, which must describe one codec and no samples. */
  function Descriptions(initial: seq<Child>): (r: Option<seq<Child>>)
    ensures r.Some? ==> forall c | c in r.value :: c.kind == STSD
  {
    if initial == [] then Some([])
    else
      var kind, p := initial[0].kind, initial[0].body;
      if kind == STSD then
        if |p| < 8 || U32(p, 4) != 1 then None
        else
          var rest :- Descriptions(initial[1..]);
          Some([initial[0]] + rest)
      else if kind == STTS || kind == CTTS || kind == STSC || kind == STCO || kind == CO64 || kind == STSS then
        if |p| < 8 || U32(p, 4) != 0 then None else Descriptions(initial[1..])
      else if kind == STSZ then
        if |p| < 12 || U32(p, 8) != 0 then None else Descriptions(initial[1..])
      else if kind == FREE then Descriptions(initial[1..])
      else None
  }

  function Tables(video: bool, ss: seq<Sample>, cs: seq<Chunk>, shift: int, delta: int): seq<Child> {
    var comps := CompositionsOf(ss, shift);
    [Child(STTS, SttsBody(ss))]
    + (if AnyNonzero(comps) then [Child(CTTS, CttsBody(comps))] else [])
    + (if video then [Child(STSS, StssBody(ss))] else [])
    + [Child(STSZ, StszBody(ss)), Child(STSC, StscBody(cs)), Child(CO64, Co64Body(cs, delta))]
  }

  /** The children of the new stbl, or None where the source reports an error. */
  function StblChildren(initial: seq<Child>, video: bool, ss: seq<Sample>, cs: seq<Chunk>, shift: int, delta: int): Option<seq<Child>> {
    var ds :- Descriptions(initial);
    if ds == [] || !CompositionsFit(CompositionsOf(ss, shift)) then None
    else if exists c | c in cs :: !OffsetFits(c.offset, delta) then None
    else Some(ds + Tables(video, ss, cs, shift, delta))
  }

  // ---------- the reader ----------

  /** The tables of a track; `stsd` holds the sample descriptions its chunks refer to. */
  datatype Table = Table(
    stsd: bytes,
    durations: seq<u32>,
    compositions: seq<int>,
    sync: Option<seq<u32>>,
    sizes: seq<u32>,
    counts: seq<u32>,
    offsets: seq<u64>)

  function ReadEntries(p: bytes): Option<seq<Entry>> {
    if |p| < 8 || |p| < 8 + 8 * U32(p, 4) then None else Some(DecEntries(p, 8, U32(p, 4)))
  }

  function SignedAll(ws: seq<u32>): (r: seq<int>)
    ensures |r| == |ws| && forall i | 0 <= i < |ws| :: r[i] == Signed32(ws[i])
  {
    seq(|ws|, i requires 0 <= i < |ws| => Signed32(ws[i]))
  }

  function UnsignedAll(ws: seq<u32>): (r: seq<int>)
    ensures |r| == |ws| && forall i | 0 <= i < |ws| :: r[i] == ws[i]
  {
    seq(|ws|, i requires 0 <= i < |ws| => ws[i])
  }

  function ReadCompositions(cs: seq<Child>, n: nat): Option<seq<int>> {
    match First(cs, CTTS)
    case None => Some(Repeat(n, 0))
    case Some(p) =>
      var es :- ReadEntries(p);
      Some(if p[0] == 1 then SignedAll(Expand(es)) else UnsignedAll(Expand(es)))
  }

  function ReadSync(cs: seq<Child>): Option<Option<seq<u32>>> {
    match First(cs, STSS)
    case None => Some(None)
    case Some(p) =>
      if |p| < 8 || |p| < 8 + 4 * U32(p, 4) then None else Some(Some(DecWords(p, 8, U32(p, 4))))
  }

  function ReadSizes(p: bytes): Option<seq<u32>> {
    if |p| < 12 then None
    else if U32(p, 4) != 0 then Some(Repeat(U32(p, 8), U32(p, 4)))
    else if |p| < 12 + 4 * U32(p, 8) then None
    else Some(DecWords(p, 12, U32(p, 8)))
  }

  function ReadOffsets(p: bytes): Option<seq<u64>> {
    if |p| < 8 || |p| < 8 + 8 * U32(p, 4) then None else Some(DecWide(p, 8, U32(p, 4)))
  }

  function CountsFrom(gs: seq<Group>, chunks: nat): (r: seq<u32>)
    ensures |r| == chunks && forall i | 0 <= i < chunks :: r[i] == SamplesOfChunk(gs, i + 1)
  {
    seq(chunks, i requires 0 <= i < chunks => SamplesOfChunk(gs, i + 1))
  }

  /** Every entry refers to one of so many sample descriptions, which count from one. */
  predicate DescriptionsExist(gs: seq<Group>, descriptions: nat) {
    forall g | g in gs :: 1 <= g.description <= descriptions
  }

  function ReadCounts(p: bytes, chunks: nat, descriptions: nat): Option<seq<u32>> {
    if |p| < 8 || |p| < 8 + 12 * U32(p, 4) || !DescriptionsExist(DecGroups(p, 8, U32(p, 4)), descriptions) then None
    else
      Some(CountsFrom(DecGroups(p, 8, U32(p, 4)), chunks))
  }

  /** The number of sample descriptions an stsd box declares. */
  function DescriptionCount(stsd: bytes): nat { if |stsd| < 8 then 0 else U32(stsd, 4) }

  function ReadTable(cs: seq<Child>): Option<Table> {
    var stsd :- First(cs, STSD);
    var stts :- First(cs, STTS);
    var times :- ReadEntries(stts);
    var compositions :- ReadCompositions(cs, |Expand(times)|);
    var sync :- ReadSync(cs);
    var stsz :- First(cs, STSZ);
    var sizes :- ReadSizes(stsz);
    var co64 :- First(cs, CO64);
    var offsets :- ReadOffsets(co64);
    var stsc :- First(cs, STSC);
    var counts :- ReadCounts(stsc, |offsets|, DescriptionCount(stsd));
    Some(Table(stsd, Expand(times), compositions, sync, sizes, counts, offsets))
  }

  // ---------- round trip ----------

  /** What a reader of the new tables is meant to find. */
  function Meaning(stsd: bytes, video: bool, ss: seq<Sample>, cs: seq<Chunk>, shift: int, delta: int): Table {
    Table(stsd, DurationsOf(ss), CompositionsOf(ss, shift), if video then Some(SyncNumbers(ss)) else None, SizesOf(ss),
          CountsOf(cs), OffsetsOf(cs, delta))
  }

  lemma ZeroWord()
    ensures U32(ZERO4, 0) == 0
  {
  }

  lemma CountedBody(head: bytes, n: u32, payload: bytes)
    ensures var p := head + Enc32(n) + payload;
            && U32(p, |head|) == n
            && p[|head| + 4..|head| + 4 + |payload|] == payload
            && |p| == |head| + 4 + |payload|
  {
    var p := head + Enc32(n) + payload;
    assert p[|head|..|head| + 4] == Enc32(n);
    Field32(p, |head|, Enc32(n));
  }

  lemma EntryTableReads(version: byte, vs: seq<u32>)
    requires |vs| <= MAX_U32
    ensures var p := EntryTable(version, RunLengths(vs));
            ReadEntries(p) == Some(RunLengths(vs)) && Expand(RunLengths(vs)) == vs && p[0] == version
  {
    RunLengthsExpand(vs);
    EntryTableHolds(version, RunLengths(vs));
  }

  lemma EntryTableHolds(version: byte, es: seq<Entry>)
    requires |es| <= MAX_U32
    ensures ReadEntries(EntryTable(version, es)) == Some(es) && EntryTable(version, es)[0] == version
  {
    hide U32, Enc32, EncEntries, DecEntries;
    CountedBody([version, 0, 0, 0], |es|, EncEntries(es));
    EntriesRoundTrip(EntryTable(version, es), 8, es);
  }

  lemma SttsReads(ss: seq<Sample>)
    requires |ss| <= MAX_U32
    ensures ReadEntries(SttsBody(ss)).Some? && Expand(ReadEntries(SttsBody(ss)).value) == DurationsOf(ss)
  {
    EntryTableReads(0, DurationsOf(ss));
  }

  lemma CttsReads(comps: seq<int>)
    requires |comps| <= MAX_U32 && CompositionsFit(comps)
    ensures ReadEntries(CttsBody(comps)).Some?
    ensures var ws := Expand(ReadEntries(CttsBody(comps)).value);
            comps == if CttsBody(comps)[0] == 1 then SignedAll(ws) else UnsignedAll(ws)
  {
    hide EncEntries, DecEntries, Expand, RunLengths, U32, Enc32, ReadEntries;
    EntryTableReads(if AnyNegative(comps) then 1 else 0, Unsigned(comps));
    var ws := Unsigned(comps);
    forall i | 0 <= i < |comps|
      ensures comps[i] == if AnyNegative(comps) then Signed32(ws[i]) else ws[i]
    {
      assert comps[i] in comps;
      if AnyNegative(comps) { SignedRoundTrip(comps[i]); }
    }
  }

  lemma {:induction false} SyncNumbersAre(ss: seq<Sample>)
    requires |ss| <= MAX_U32
    ensures |SyncNumbers(ss)| <= |ss|
    ensures forall k: u32 :: k in SyncNumbers(ss) <==> 1 <= k <= |ss| && IsSync(ss[k - 1].flags)
    ensures forall i, j | 0 <= i < j < |SyncNumbers(ss)| :: SyncNumbers(ss)[i] < SyncNumbers(ss)[j]
    decreases |ss|
  {
    if ss != [] {
      var n := |ss| - 1;
      SyncNumbersAre(ss[..n]);
      var before := SyncNumbers(ss[..n]);
      forall i | 0 <= i < |before|
        ensures before[i] <= n
      {
        assert before[i] in before;
      }
    }
  }

  lemma StssReads(ss: seq<Sample>)
    requires |ss| <= MAX_U32
    ensures var p := StssBody(ss);
            |p| >= 8 && |p| >= 8 + 4 * U32(p, 4) && DecWords(p, 8, U32(p, 4)) == SyncNumbers(ss)
  {
    hide U32, Enc32, EncWords, DecWords, SyncNumbers;
    SyncNumbersAre(ss);
    CountedBody(ZERO4, |SyncNumbers(ss)|, EncWords(SyncNumbers(ss)));
    WordsRoundTrip(StssBody(ss), 8, SyncNumbers(ss));
  }

  lemma StszReads(ss: seq<Sample>)
    requires |ss| <= MAX_U32
    ensures ReadSizes(StszBody(ss)) == Some(SizesOf(ss))
  {
    hide U32, Enc32, EncWords, DecWords;
    var p := StszBody(ss);
    CountedBody(ZERO4 + ZERO4, |ss|, EncWords(SizesOf(ss)));
    assert p[4..8] == ZERO4;
    Field32(p, 4, ZERO4);
    ZeroWord();
    WordsRoundTrip(p, 12, SizesOf(ss));
  }

  lemma Co64Reads(cs: seq<Chunk>, delta: int)
    requires |cs| <= MAX_U32
    ensures ReadOffsets(Co64Body(cs, delta)) == Some(OffsetsOf(cs, delta))
  {
    hide U32, Enc32, EncWide, DecWide;
    CountedBody(ZERO4, |cs|, EncWide(OffsetsOf(cs, delta)));
    WideRoundTrip(Co64Body(cs, delta), 8, OffsetsOf(cs, delta));
  }

  lemma CountsAre(cs: seq<Chunk>)
    requires |cs| <= MAX_U32
    ensures CountsFrom(Groups(cs), |cs|) == CountsOf(cs)
  {
    hide Groups, SamplesOfChunk;
    forall i | 0 <= i < |cs|
      ensures SamplesOfChunk(Groups(cs), i + 1) == cs[i].samples
    {
      GroupsNameEveryChunk(cs, i);
    }
  }

  lemma FewGroups(cs: seq<Chunk>)
    requires |cs| <= MAX_U32
    ensures |Groups(cs)| <= |cs|
  {
    if cs != [] { GroupsEnd(cs); }
  }

  lemma {:induction false} OnlyDescription(cs: seq<Chunk>)
    ensures DescriptionsExist(Groups(cs), 1)
    decreases |cs|
  {
    if cs != [] { OnlyDescription(cs[..|cs| - 1]); }
  }

  lemma MoreDescriptions(gs: seq<Group>, n: nat)
    requires DescriptionsExist(gs, 1) && n >= 1
    ensures DescriptionsExist(gs, n)
  {
  }

  lemma StscReads(cs: seq<Chunk>, descriptions: nat)
    requires |cs| <= MAX_U32 && descriptions >= 1
    ensures ReadCounts(StscBody(cs), |cs|, descriptions) == Some(CountsOf(cs))
  {
    hide U32, Enc32, EncGroups, DecGroups, Groups, SamplesOfChunk, CountsFrom, DescriptionsExist;
    OnlyDescription(cs);
    MoreDescriptions(Groups(cs), descriptions);
    FewGroups(cs);
    CountedBody(ZERO4, |Groups(cs)|, EncGroups(Groups(cs)));
    GroupsRoundTrip(StscBody(cs), 8, Groups(cs));
    CountsAre(cs);
  }

  lemma NoneOfKind(cs: seq<Child>, kind: u32)
    requires forall c | c in cs :: c.kind != kind
    ensures First(cs, kind) == None
  {
  }

  lemma FirstOfFour(a: seq<Child>, b: seq<Child>, c: seq<Child>, d: seq<Child>, kind: u32)
    ensures First(a + b + c + d, kind) ==
            if First(a, kind).Some? then First(a, kind)
            else if First(b, kind).Some? then First(b, kind)
            else if First(c, kind).Some? then First(c, kind)
            else First(d, kind)
  {
    FirstConcat(a + b + c, d, kind);
    FirstConcat(a + b, c, kind);
    FirstConcat(a, b, kind);
  }

  lemma FirstOfThree(x: Child, y: Child, z: Child, kind: u32)
    ensures First([x, y, z], kind) ==
            if x.kind == kind then Some(x.body) else if y.kind == kind then Some(y.body) else if z.kind == kind then Some(z.body) else None
    ensures First([x], kind) == if x.kind == kind then Some(x.body) else None
  {
    assert [x, y, z][1..] == [y, z] && [y, z][1..] == [z] && [z][1..] == [];
    assert First([z], kind) == if z.kind == kind then Some(z.body) else None;
    assert First([y, z], kind) == if y.kind == kind then Some(y.body) else First([z], kind);
  }

  lemma FindTable(ds: seq<Child>, video: bool, ss: seq<Sample>, cs: seq<Chunk>, shift: int, delta: int, kind: u32)
    requires forall c | c in ds :: c.kind == STSD
    requires kind != STSD
    ensures var comps := CompositionsOf(ss, shift);
            First(ds + Tables(video, ss, cs, shift, delta), kind) ==
            if kind == STTS then Some(SttsBody(ss))
            else if kind == CTTS && AnyNonzero(comps) then Some(CttsBody(comps))
            else if kind == STSS && video then Some(StssBody(ss))
            else if kind == STSZ then Some(StszBody(ss))
            else if kind == STSC then Some(StscBody(cs))
            else if kind == CO64 then Some(Co64Body(cs, delta))
            else None
  {
    hide First, SttsBody, CttsBody, StssBody, StszBody, StscBody, Co64Body, CompositionsOf, AnyNonzero;
    var comps := CompositionsOf(ss, shift);
    FirstOfThree(Child(STSZ, StszBody(ss)), Child(STSC, StscBody(cs)), Child(CO64, Co64Body(cs, delta)), kind);
    FirstOfThree(Child(STTS, SttsBody(ss)), Child(0, []), Child(0, []), kind);
    FirstOfThree(Child(CTTS, CttsBody(comps)), Child(0, []), Child(0, []), kind);
    FirstOfThree(Child(STSS, StssBody(ss)), Child(0, []), Child(0, []), kind);
    NoneOfKind([], kind);
    NoneOfKind(ds, kind);
    FirstConcat(ds, Tables(video, ss, cs, shift, delta), kind);
    FirstOfFour([Child(STTS, SttsBody(ss))],
                if AnyNonzero(comps) then [Child(CTTS, CttsBody(comps))] else [],
                if video then [Child(STSS, StssBody(ss))] else [],
                [Child(STSZ, StszBody(ss)), Child(STSC, StscBody(cs)), Child(CO64, Co64Body(cs, delta))], kind);
  }

  lemma FindTables(ds: seq<Child>, video: bool, ss: seq<Sample>, cs: seq<Chunk>, shift: int, delta: int)
    requires forall c | c in ds :: c.kind == STSD
    ensures var r := ds + Tables(video, ss, cs, shift, delta);
            var comps := CompositionsOf(ss, shift);
            && First(r, STTS) == Some(SttsBody(ss))
            && First(r, CTTS) == (if AnyNonzero(comps) then Some(CttsBody(comps)) else None)
            && First(r, STSS) == (if video then Some(StssBody(ss)) else None)
            && First(r, STSZ) == Some(StszBody(ss))
            && First(r, STSC) == Some(StscBody(cs))
            && First(r, CO64) == Some(Co64Body(cs, delta))
  {
    hide Tables, First, SttsBody, CttsBody, StssBody, StszBody, StscBody, Co64Body;
    FindTable(ds, video, ss, cs, shift, delta, STTS);
    FindTable(ds, video, ss, cs, shift, delta, CTTS);
    FindTable(ds, video, ss, cs, shift, delta, STSS);
    FindTable(ds, video, ss, cs, shift, delta, STSZ);
    FindTable(ds, video, ss, cs, shift, delta, STSC);
    FindTable(ds, video, ss, cs, shift, delta, CO64);
  }

  /** The new stbl keeps the first sample description box of the old one, which declares one description. */
  lemma {:induction false} FirstDescription(initial: seq<Child>, tables: seq<Child>)
    requires Descriptions(initial).Some? && Descriptions(initial).value != []
    ensures First(initial, STSD).Some? && DescriptionCount(First(initial, STSD).value) == 1
    ensures First(Descriptions(initial).value + tables, STSD) == First(initial, STSD)
    decreases |initial|
  {
    hide U32;
    if initial[0].kind == STSD {
      assert (Descriptions(initial).value + tables)[0] == initial[0];
    } else {
      FirstDescription(initial[1..], tables);
    }
  }

  /** Reading the tables the emitter wrote gives back the sample description and every duration, composition offset, sync number, size, chunk count and shifted chunk offset. */
  lemma TablesRoundTrip(initial: seq<Child>, video: bool, ss: seq<Sample>, cs: seq<Chunk>, shift: int, delta: int)
    requires |ss| <= MAX_U32 && |cs| <= MAX_U32
    requires StblChildren(initial, video, ss, cs, shift, delta).Some?
    ensures First(initial, STSD).Some?
    ensures ReadTable(StblChildren(initial, video, ss, cs, shift, delta).value)
            == Some(Meaning(First(initial, STSD).value, video, ss, cs, shift, delta))
  {
    hide U32, EncWide, DecWide, EncWords, DecWords, EncEntries, DecEntries, SttsBody, CttsBody, StssBody, StszBody, StscBody, Co64Body;
    var comps := CompositionsOf(ss, shift);
    FindTables(Descriptions(initial).value, video, ss, cs, shift, delta);
    FirstDescription(initial, Tables(video, ss, cs, shift, delta));
    SttsReads(ss);
    StszReads(ss);
    StscReads(cs, 1);
    Co64Reads(cs, delta);
    if video { StssReads(ss); }
    if AnyNonzero(comps) {
      CttsReads(comps);
    } else {
      assert Repeat(|ss|, 0) == comps by {
        forall i | 0 <= i < |comps|
          ensures comps[i] == 0
        {
          assert comps[i] in comps;
        }
      }
    }
  }

  /** Nothing in the emitted tables but the values of co64 depends on the offset delta, so neither does their size. */
  lemma SizeIgnoresDelta(initial: seq<Child>, video: bool, ss: seq<Sample>, cs: seq<Chunk>, shift: int, d: int, e: int)
    requires StblChildren(initial, video, ss, cs, shift, d).Some? && StblChildren(initial, video, ss, cs, shift, e).Some?
    ensures TotalSize(StblChildren(initial, video, ss, cs, shift, d).value) == TotalSize(StblChildren(initial, video, ss, cs, shift, e).value)
  {
    hide U32, Enc32, EncWide, SttsBody, CttsBody, StssBody, StszBody, StscBody;
    var a, b := StblChildren(initial, video, ss, cs, shift, d).value, StblChildren(initial, video, ss, cs, shift, e).value;
    var n := |a| - 1;
    assert a[..n] == b[..n];
    assert a == a[..n] + [a[n]] && b == b[..n] + [b[n]];
    EmitConcat(a[..n], [a[n]]);
    EmitConcat(b[..n], [b[n]]);
  }
}
