/**
 The rotating log of internal/opslog/rotate.go.  File 0 is the log itself and
 file i its i-th predecessor; I/O is taken to succeed.
 */
module LogRotation {
  import opened Bytes
  import opened Options

  /** The file's size as counted by the writer, and None while it is closed. */
  datatype Log = Log(files: map<nat, bytes>, size: Option<int>)

  datatype Limits = Limits(maxBytes: int, retained: int)

  predicate Sensible(lim: Limits) { lim.maxBytes > 0 && lim.retained >= 1 }

  function Lookup(files: map<nat, bytes>, i: nat): Option<bytes> { if i in files then Some(files[i]) else None }

  /** The number a file gets: one more, except beyond the retained range. */
  function Up(i: nat, retained: int): nat { if i < retained then i + 1 else i }

  function ShiftedNumbers(files: map<nat, bytes>, retained: int): set<nat> {
    set i | i in files && i != retained - 1 :: Up(i, retained)
  }

  function Before(i: nat, retained: int): int { if i < retained then i - 1 else i }

  /** Every file one number up, the last retained one dropped; files beyond the range stay. */
  function Shifted(files: map<nat, bytes>, retained: int): map<nat, bytes> {
    map i: nat | i in ShiftedNumbers(files, retained) :: files[Before(i, retained)]
  }

  lemma ShiftedAt(files: map<nat, bytes>, retained: int, i: nat)
    ensures Lookup(Shifted(files, retained), i) == if i < retained then (if i == 0 then None else Lookup(files, i - 1)) else Lookup(files, i)
  {
    if Before(i, retained) in files {
      assert Up(Before(i, retained), retained) == i;
      assert i in ShiftedNumbers(files, retained);
    }
  }

  function Opened(files: map<nat, bytes>): (l: Log)
    ensures l.size.Some?
  {
    if 0 in files then Log(files, Some(|files[0]|)) else Log(files[0 := []], Some(0))
  }

  /** open() after a rotation finds no file and creates an empty one. */
  function Rotated(files: map<nat, bytes>, lim: Limits): Log {
    Opened(Shifted(files, lim.retained))
  }

  function Appended(l: Log, data: bytes): Log
    requires l.size.Some?
  {
    Log(l.files[0 := (if 0 in l.files then l.files[0] else []) + data], Some(l.size.value + |data|))
  }

  predicate Fits(l: Log, data: bytes, lim: Limits) {
    l.size.Some? && |data| <= lim.maxBytes
  }

  /** What Write leaves when it accepts the record. */
  function Written(l: Log, data: bytes, lim: Limits): Log
    requires Fits(l, data, lim)
  {
    if l.size.value + |data| > lim.maxBytes then Appended(Rotated(l.files, lim), data) else Appended(l, data)
  }

  /** newRotatingWriter on the files that are there. */
  function Started(files: map<nat, bytes>, lim: Limits): Log {
    var l := Opened(files);
    if l.size.Some? && l.size.value > lim.maxBytes then Rotated(l.files, lim) else l
  }

  /** What the rename loop has at number j once the files above `index` are renamed. */
  function MovedAt(was: map<nat, bytes>, j: nat, index: nat, retained: int): Option<bytes> {
    if index < j < retained then Lookup(was, j - 1)
    else if j == index && index < retained - 1 then None
    else Lookup(was, j)
  }

  ghost predicate Moved(files: map<nat, bytes>, was: map<nat, bytes>, index: nat, retained: int) {
    forall j: nat :: Lookup(files, j) == MovedAt(was, j, index, retained)
  }

  lemma MoveOne(files: map<nat, bytes>, before: map<nat, bytes>, was: map<nat, bytes>, index: nat, retained: int)
    requires 1 <= index <= retained - 1 && Moved(before, was, index, retained)
    requires files == if index - 1 in before then (before - {index} - {index - 1})[index := before[index - 1]] else before - {index}
    ensures Moved(files, was, index - 1, retained)
  {
    forall j: nat
      ensures Lookup(files, j) == MovedAt(was, j, index - 1, retained)
    {
      assert Lookup(before, j) == MovedAt(was, j, index, retained);
      assert Lookup(before, index - 1) == MovedAt(was, index - 1, index, retained);
    }
  }

  lemma SameFiles(a: map<nat, bytes>, b: map<nat, bytes>)
    requires forall j: nat :: Lookup(a, j) == Lookup(b, j)
    ensures a == b
  {
    forall j: nat
      ensures (j in a) == (j in b) && (j in a ==> a[j] == b[j])
    {
      assert Lookup(a, j) == Lookup(b, j);
    }
  }

  lemma AllMoved(files: map<nat, bytes>, was: map<nat, bytes>, retained: int)
    requires retained > 1 && Moved(files, was, 0, retained)
    ensures files == Shifted(was, retained)
  {
    hide Shifted;
    forall j: nat
      ensures Lookup(files, j) == Lookup(Shifted(was, retained), j)
    {
      ShiftedAt(was, retained, j);
      assert Lookup(files, j) == MovedAt(was, j, 0, retained);
    }
    SameFiles(files, Shifted(was, retained));
  }

  lemma OnlyOneKept(was: map<nat, bytes>)
    ensures was - {0} == Shifted(was, 1)
  {
    hide Shifted;
    forall j: nat
      ensures Lookup(was - {0}, j) == Lookup(Shifted(was, 1), j)
    {
      ShiftedAt(was, 1, j);
    }
    SameFiles(was - {0}, Shifted(was, 1));
  }

  class RotatingWriter {
    const lim: Limits
    var files: map<nat, bytes>
    var size: Option<int>

    constructor (files: map<nat, bytes>, lim: Limits)
      requires Sensible(lim)
      ensures this.lim == lim && Snapshot() == Started(files, lim) && Valid()
    {
      this.lim := lim;
      this.files := files;
      size := None;
      new;
      Open();
    }

    function Snapshot(): Log
      reads this
    {
      Log(files, size)
    }

    /** The writer counts the bytes of the file it has open. */
    predicate Valid()
      reads this
    {
      Sensible(lim) && (size.Some? ==> 0 in files && size.value == |files[0]|)
    }

    method Open()
      requires Sensible(lim)
      modifies this
      ensures Snapshot() == Started(old(files), lim)
      decreases if 0 in files then |files[0]| else 0, 1
    {
      if 0 !in files { files := files[0 := []]; }
      size := Some(|files[0]|);
      if size.value > lim.maxBytes { Rotate(); }
    }

    method Rotate()
      requires Sensible(lim) && 0 in files && |files[0]| > 0
      modifies this
      ensures Snapshot() == Rotated(old(files), lim)
      decreases |files[0]|, 0
    {
      ghost var was := files;
      size := None;
      if lim.retained == 1 {
        files := files - {0};
        OnlyOneKept(was);
      } else {
        var index := lim.retained - 1;
        while index >= 1
          invariant 0 <= index <= lim.retained - 1
          invariant Moved(files, was, index, lim.retained)
        {
          ghost var before := files;
          files := files - {index};
          if index - 1 in files {
            var moved := files[index - 1];
            files := (files - {index - 1})[index := moved];
          }
          MoveOne(files, before, was, index, lim.retained);
          index := index - 1;
        }
        AllMoved(files, was, lim.retained);
      }
      ShiftedAt(was, lim.retained, 0);
      hide Shifted;
      Open();
    }

    method Write(data: bytes) returns (written: Option<int>)
      requires Valid()
      modifies this
      ensures Valid()
      ensures if Fits(old(Snapshot()), data, lim)
              then Snapshot() == Written(old(Snapshot()), data, lim) && written == Some(|data|)
              else Snapshot() == old(Snapshot()) && written == None
    {
      hide Shifted;
      if size.None? || |data| > lim.maxBytes { return None; }
      if size.value + |data| > lim.maxBytes { Rotate(); }
      files := files[0 := files[0] + data];
      size := Some(size.value + |data|);
      return Some(|data|);
    }

    method Close()
      requires Valid()
      modifies this
      ensures Valid()
      ensures Snapshot() == Log(old(files), None)
    {
      size := None;
    }
  }

  // ---------- runs ----------

  /** Records arrive, and the process restarts now and then. */
  datatype Op = Write(data: bytes) | Restart

  function Apply(l: Log, op: Op, lim: Limits): Log {
    match op
    case Write(data) => if Fits(l, data, lim) then Written(l, data, lim) else l
    case Restart => Started(l.files, lim)
  }

  function After(ops: seq<Op>, lim: Limits): Log {
    if ops == [] then Started(map[], lim) else Apply(After(ops[..|ops| - 1], lim), ops[|ops| - 1], lim)
  }

  /** The records that were accepted. */
  function Records(ops: seq<Op>, lim: Limits): seq<bytes> {
    if ops == [] then []
    else
      var before, op := Records(ops[..|ops| - 1], lim), ops[|ops| - 1];
      Accepted(before, op, lim)
  }

  function Accepted(records: seq<bytes>, op: Op, lim: Limits): seq<bytes> {
    if op.Write? && |op.data| <= lim.maxBytes then records + [op.data] else records
  }

  function Flat(records: seq<bytes>): bytes {
    if records == [] then [] else Flat(records[..|records| - 1]) + records[|records| - 1]
  }

  /** Blocks of records, the newest file's first, in the order they were written. */
  function InOrder(blocks: seq<seq<bytes>>): seq<bytes> {
    if blocks == [] then [] else InOrder(blocks[1..]) + blocks[0]
  }

  predicate IsSuffix<T(==)>(s: seq<T>, t: seq<T>) {
    |s| <= |t| && t[|t| - |s|..] == s
  }

  /** File i holds block i, whole records only, and was left only when the next record did not fit. */
  predicate FileOk(files: map<nat, bytes>, blocks: seq<seq<bytes>>, lim: Limits, i: nat)
    requires i < |blocks|
  {
    && i in files && files[i] == Flat(blocks[i]) && |files[i]| <= lim.maxBytes
    && (i > 0 ==> blocks[i - 1] != [] && |files[i]| + |blocks[i - 1][0]| > lim.maxBytes)
  }

  ghost predicate Holds(files: map<nat, bytes>, blocks: seq<seq<bytes>>, lim: Limits) {
    && (forall i: nat :: i in files <==> i < |blocks|)
    && (forall i: nat | i < |blocks| :: FileOk(files, blocks, lim, i))
  }

  /** At most `retained` files, holding the latest records; all of them unless every retained file is in use. */
  ghost predicate KeptBy(l: Log, blocks: seq<seq<bytes>>, records: seq<bytes>, lim: Limits) {
    && 1 <= |blocks| <= lim.retained
    && Holds(l.files, blocks, lim)
    && l.size == Some(|l.files[0]|)
    && IsSuffix(InOrder(blocks), records)
    && (|blocks| < lim.retained ==> InOrder(blocks) == records)
  }

  lemma FlatMore(records: seq<bytes>, data: bytes)
    ensures Flat(records + [data]) == Flat(records) + data
  {
    assert (records + [data])[..|records|] == records;
  }

  function Extended(blocks: seq<seq<bytes>>, data: bytes): seq<seq<bytes>>
    requires blocks != []
  {
    [blocks[0] + [data]] + blocks[1..]
  }

  lemma AppendFile(files: map<nat, bytes>, blocks: seq<seq<bytes>>, data: bytes, lim: Limits, i: nat)
    requires i < |blocks| && FileOk(files, blocks, lim, 0) && FileOk(files, blocks, lim, i) && |files[0]| + |data| <= lim.maxBytes
    ensures FileOk(files[0 := files[0] + data], Extended(blocks, data), lim, i)
  {
    FlatMore(blocks[0], data);
    hide Flat;
    if i > 1 { assert Extended(blocks, data)[i] == blocks[i] && Extended(blocks, data)[i - 1] == blocks[i - 1]; }
  }

  lemma AppendHolds(files: map<nat, bytes>, blocks: seq<seq<bytes>>, data: bytes, lim: Limits)
    requires blocks != [] && Holds(files, blocks, lim) && 0 in files && |files[0]| + |data| <= lim.maxBytes
    ensures Holds(files[0 := files[0] + data], Extended(blocks, data), lim)
  {
    hide FileOk;
    var next, files' := Extended(blocks, data), files[0 := files[0] + data];
    forall i: nat
      ensures i < |next| ==> FileOk(files', next, lim, i)
    {
      if i < |blocks| { AppendFile(files, blocks, data, lim, i); }
    }
  }

  lemma AppendOrder(blocks: seq<seq<bytes>>, data: bytes)
    requires blocks != []
    ensures InOrder(Extended(blocks, data)) == InOrder(blocks) + [data]
  {
    assert Extended(blocks, data)[1..] == blocks[1..];
  }

  lemma AppendKept(l: Log, blocks: seq<seq<bytes>>, records: seq<bytes>, data: bytes, lim: Limits)
    requires KeptBy(l, blocks, records, lim) && |l.files[0]| + |data| <= lim.maxBytes
    ensures KeptBy(Appended(l, data), Extended(blocks, data), records + [data], lim)
  {
    AppendHolds(l.files, blocks, data, lim);
    AppendOrder(blocks, data);
    SuffixGrows(InOrder(blocks), records, data);
    assert 0 in l.files && |Extended(blocks, data)| == |blocks|;
    hide Holds, InOrder, IsSuffix, Extended;
  }

  lemma SuffixGrows(s: seq<bytes>, t: seq<bytes>, x: bytes)
    requires IsSuffix(s, t)
    ensures IsSuffix(s + [x], t + [x])
  {
  }

  lemma SuffixOfSuffix(s: seq<bytes>, t: seq<bytes>, u: seq<bytes>)
    requires IsSuffix(s, t) && IsSuffix(t, u)
    ensures IsSuffix(s, u)
  {
  }

  lemma {:induction false} FrontIsSuffix(blocks: seq<seq<bytes>>, m: nat)
    requires m <= |blocks|
    ensures IsSuffix(InOrder(blocks[..m]), InOrder(blocks))
    decreases m
  {
    if m > 0 {
      FrontIsSuffix(blocks[1..], m - 1);
      assert blocks[..m][1..] == blocks[1..][..m - 1];
    }
  }

  /** The block a rotation opens, in front of those it keeps. */
  function Turned(blocks: seq<seq<bytes>>, data: bytes, lim: Limits): seq<seq<bytes>>
    requires lim.retained >= 1
  {
    [[data]] + if |blocks| < lim.retained then blocks else blocks[..lim.retained - 1]
  }

  lemma TurnedFile(files: map<nat, bytes>, blocks: seq<seq<bytes>>, data: bytes, lim: Limits, i: nat)
    requires Sensible(lim) && 1 <= |blocks| && i < |Turned(blocks, data, lim)| && |data| <= lim.maxBytes
    requires 0 in files && |files[0]| + |data| > lim.maxBytes
    requires i > 0 ==> FileOk(files, blocks, lim, i - 1)
    ensures FileOk(Shifted(files, lim.retained)[0 := data], Turned(blocks, data, lim), lim, i)
  {
    FlatMore([], data);
    assert [] + [data] == [data] && [] + data == data;
    ShiftedAt(files, lim.retained, i);
    hide Shifted, Flat;
    var next := Turned(blocks, data, lim);
    if i > 0 {
      assert next[i] == blocks[i - 1];
      if i > 1 { assert next[i - 1] == blocks[i - 2]; }
    }
  }

  lemma RotateHolds(files: map<nat, bytes>, blocks: seq<seq<bytes>>, data: bytes, lim: Limits)
    requires Sensible(lim) && 1 <= |blocks| <= lim.retained && Holds(files, blocks, lim)
    requires |data| <= lim.maxBytes && 0 in files && |files[0]| + |data| > lim.maxBytes
    ensures Holds(Shifted(files, lim.retained)[0 := data], Turned(blocks, data, lim), lim)
  {
    hide Shifted, FileOk;
    var next, files' := Turned(blocks, data, lim), Shifted(files, lim.retained)[0 := data];
    forall i: nat
      ensures i in files' <==> i < |next|
      ensures i < |next| ==> FileOk(files', next, lim, i)
    {
      ShiftedAt(files, lim.retained, i);
      if i > 0 { assert i - 1 in files <==> i - 1 < |blocks|; }
      assert i in files <==> i < |blocks|;
      if i < |next| { TurnedFile(files, blocks, data, lim, i); }
    }
  }

  lemma TurnedRecords(blocks: seq<seq<bytes>>, records: seq<bytes>, data: bytes, lim: Limits)
    requires Sensible(lim) && 1 <= |blocks| <= lim.retained && IsSuffix(InOrder(blocks), records)
    requires |blocks| < lim.retained ==> InOrder(blocks) == records
    ensures IsSuffix(InOrder(Turned(blocks, data, lim)), records + [data])
    ensures |Turned(blocks, data, lim)| < lim.retained ==> InOrder(Turned(blocks, data, lim)) == records + [data]
  {
    var next := Turned(blocks, data, lim);
    var kept := next[1..];
    assert blocks[..|blocks|] == blocks && kept == blocks[..|kept|];
    FrontIsSuffix(blocks, |kept|);
    SuffixOfSuffix(InOrder(kept), InOrder(blocks), records);
    SuffixGrows(InOrder(kept), records, data);
    assert InOrder(next) == InOrder(kept) + [data];
    hide IsSuffix;
  }

  lemma TurnedFiles(files: map<nat, bytes>, data: bytes, lim: Limits)
    requires Sensible(lim)
    ensures Appended(Rotated(files, lim), data) == Log(Shifted(files, lim.retained)[0 := data], Some(|data|))
  {
    ShiftedAt(files, lim.retained, 0);
    hide Shifted;
    assert [] + data == data;
    assert Shifted(files, lim.retained)[0 := []][0 := data] == Shifted(files, lim.retained)[0 := data];
  }

  /** A rotation and the record that caused it. */
  lemma RotateKept(l: Log, blocks: seq<seq<bytes>>, records: seq<bytes>, data: bytes, lim: Limits)
    requires Sensible(lim) && KeptBy(l, blocks, records, lim) && |data| <= lim.maxBytes && |l.files[0]| + |data| > lim.maxBytes
    ensures KeptBy(Appended(Rotated(l.files, lim), data), Turned(blocks, data, lim), records + [data], lim)
  {
    RotateHolds(l.files, blocks, data, lim);
    TurnedRecords(blocks, records, data, lim);
    TurnedFiles(l.files, data, lim);
    hide Holds, Shifted, InOrder, IsSuffix, Appended, Rotated;
  }

  /**
   Starting without files, after any writes and restarts there are at most
   `retained` files of at most maxBytes each, every file holds whole records, and
   oldest to newest they hold the latest records in the order written.
   */
  lemma {:induction false} LogKeepsLatest(ops: seq<Op>, lim: Limits)
    requires Sensible(lim)
    ensures exists blocks :: KeptBy(After(ops, lim), blocks, Records(ops, lim), lim)
    decreases |ops|
  {
    hide KeptBy, Apply, Started;
    if ops == [] {
      FreshKept(lim);
      assert After(ops, lim) == Started(map[], lim) && Records(ops, lim) == [];
    } else {
      var n := |ops| - 1;
      LogKeepsLatest(ops[..n], lim);
      var blocks :| KeptBy(After(ops[..n], lim), blocks, Records(ops[..n], lim), lim);
      ApplyKept(After(ops[..n], lim), blocks, Records(ops[..n], lim), ops[n], lim);
      assert After(ops, lim) == Apply(After(ops[..n], lim), ops[n], lim);
      assert Records(ops, lim) == Accepted(Records(ops[..n], lim), ops[n], lim);
    }
  }

  lemma FreshKept(lim: Limits)
    requires Sensible(lim)
    ensures exists blocks :: KeptBy(Started(map[], lim), blocks, [], lim)
  {
    assert InOrder([[]]) == [];
    assert KeptBy(Started(map[], lim), [[]], [], lim);
  }

  lemma ApplyKept(l: Log, blocks: seq<seq<bytes>>, records: seq<bytes>, op: Op, lim: Limits)
    requires Sensible(lim) && KeptBy(l, blocks, records, lim)
    ensures exists next ::
              KeptBy(Apply(l, op, lim), next, Accepted(records, op, lim), lim)
  {
    hide Holds, IsSuffix, Shifted, InOrder;
    match op
    case Restart =>
      OpenKept(l, blocks, records, lim);
      assert KeptBy(Apply(l, op, lim), blocks, Accepted(records, op, lim), lim);
    case Write(data) =>
      if |data| <= lim.maxBytes {
        if l.size.value + |data| > lim.maxBytes {
          RotateKept(l, blocks, records, data, lim);
          assert KeptBy(Apply(l, op, lim), Turned(blocks, data, lim), Accepted(records, op, lim), lim);
        } else {
          AppendKept(l, blocks, records, data, lim);
          assert KeptBy(Apply(l, op, lim), Extended(blocks, data), Accepted(records, op, lim), lim);
        }
      } else {
        assert KeptBy(Apply(l, op, lim), blocks, Accepted(records, op, lim), lim);
      }
  }

  lemma OpenKept(l: Log, blocks: seq<seq<bytes>>, records: seq<bytes>, lim: Limits)
    requires KeptBy(l, blocks, records, lim)
    ensures Started(l.files, lim) == l
  {
    assert FileOk(l.files, blocks, lim, 0);
  }

  /** The bytes of the first n files, oldest first. */
  function Stream(files: map<nat, bytes>, n: nat): bytes
    requires forall i: nat | i < n :: i in files
  {
    if n == 0 then [] else files[n - 1] + Stream(files, n - 1)
  }

  lemma {:induction false} FlatJoined(a: seq<bytes>, b: seq<bytes>)
    ensures Flat(a + b) == Flat(a) + Flat(b)
    decreases |b|
  {
    if b == [] {
      assert a + b == a;
    } else {
      FlatJoined(a, b[..|b| - 1]);
      assert (a + b)[..|a + b| - 1] == a + b[..|b| - 1];
    }
  }

  lemma {:induction false} OldestFirst(blocks: seq<seq<bytes>>)
    requires blocks != []
    ensures InOrder(blocks) == blocks[|blocks| - 1] + InOrder(blocks[..|blocks| - 1])
    decreases |blocks|
  {
    if |blocks| > 1 {
      OldestFirst(blocks[1..]);
      assert blocks[1..][..|blocks| - 2] == blocks[..|blocks| - 1][1..];
    }
  }

  lemma {:induction false} StreamOf(files: map<nat, bytes>, blocks: seq<seq<bytes>>, lim: Limits, n: nat)
    requires n <= |blocks| && Holds(files, blocks, lim)
    ensures Stream(files, n) == Flat(InOrder(blocks[..n]))
    decreases n
  {
    if n > 0 {
      StreamOf(files, blocks, lim, n - 1);
      OldestFirst(blocks[..n]);
      assert blocks[..n][..n - 1] == blocks[..n - 1];
      FlatJoined(blocks[n - 1], InOrder(blocks[..n - 1]));
      assert FileOk(files, blocks, lim, n - 1);
    }
  }

  /** There are n files, and read in order they hold the records from number k on. */
  ghost predicate StreamCut(files: map<nat, bytes>, n: nat, records: seq<bytes>, k: nat) {
    && (forall i: nat :: i in files <==> i < n)
    && k <= |records| && Stream(files, n) == Flat(records[k..])
  }

  lemma KeptStream(l: Log, blocks: seq<seq<bytes>>, records: seq<bytes>, lim: Limits) returns (k: nat)
    requires KeptBy(l, blocks, records, lim)
    ensures |blocks| <= lim.retained && StreamCut(l.files, |blocks|, records, k)
  {
    k := |records| - |InOrder(blocks)|;
    hide FileOk, Flat, Stream, InOrder;
    assert blocks[..|blocks|] == blocks;
    StreamOf(l.files, blocks, lim, |blocks|);
  }

  /** Read oldest file first, the log is a suffix of the record stream, cut between two records. */
  lemma LogIsStreamSuffix(ops: seq<Op>, lim: Limits)
    requires Sensible(lim)
    ensures exists n: nat, k: nat :: n <= lim.retained && StreamCut(After(ops, lim).files, n, Records(ops, lim), k)
  {
    hide *;
    LogKeepsLatest(ops, lim);
    var blocks :| KeptBy(After(ops, lim), blocks, Records(ops, lim), lim);
    var k := KeptStream(After(ops, lim), blocks, Records(ops, lim), lim);
    assert StreamCut(After(ops, lim).files, |blocks|, Records(ops, lim), k);
  }
}
