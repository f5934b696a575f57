/** What the emitter makes of the header of a small recording: small enough to be accepted. */
module SpecimenHeader {
  import opened Bytes
  import opened Options
  import opened Boxes
  import opened Tracks
  import opened Samples
  import opened Fragments
  import opened SampleTables
  import opened FlatScan
  import opened FlatMovie
  import opened MovieBoxes
  import opened Normalized
  import opened SpecimenParts

  predicate SmallTrack(ss: seq<Sample>, cs: seq<Chunk>) {
    && 1 <= |ss| <= 2 && (forall s | s in ss :: s == ONE)
    && 1 <= |cs| <= 2 && (forall c | c in cs :: 200 <= c.offset <= 1000)
  }

  lemma TablesSmall(ss: seq<Sample>, cs: seq<Chunk>, d: int)
    requires SmallTrack(ss, cs)
    ensures TotalSize(Tables(true, ss, cs, 0, d)) <= 200
  {
    hide U32, EmitBox, Enc32, Enc64, EncWords, EncEntries, EncGroups, EncWide, Groups, RunLengths, SyncNumbers;
    NoOffsets(ss, cs);
    RunLengthsShape(DurationsOf(ss));
    GroupsEnd(cs);
    SyncNumbersAre(ss);
    var a, b, c := Child(STTS, SttsBody(ss)), Child(STSS, StssBody(ss)), Child(STSZ, StszBody(ss));
    var e, f := Child(STSC, StscBody(cs)), Child(CO64, Co64Body(cs, d));
    assert Tables(true, ss, cs, 0, d) == [a, b, c] + [e, f];
    Sized3(a, b, c);
    Sized2(e, f);
    EmitConcat([a, b, c], [e, f]);
  }

  lemma NoOffsets(ss: seq<Sample>, cs: seq<Chunk>)
    requires SmallTrack(ss, cs)
    ensures !AnyNonzero(CompositionsOf(ss, 0)) && CompositionsFit(CompositionsOf(ss, 0))
  {
    forall i | 0 <= i < |ss|
      ensures CompositionsOf(ss, 0)[i] == 0
    {
      assert ss[i] in ss;
    }
  }

  lemma NewTables(ss: seq<Sample>, cs: seq<Chunk>, d: int)
    requires SmallTrack(ss, cs) && -160 <= d <= MAX_I64 - 1000
    ensures var r := StblChildren(StblKids(), true, ss, cs, 0, d);
            r.Some? && TotalSize(r.value) <= 300
  {
    hide U32, Emit, Tables, TotalSize, CompositionsOf, CompositionsFit;
    Fields(1);
    NoOffsets(ss, cs);
    assert StblKids()[1..] == [] && Descriptions(StblKids()) == Some([StblKids()[0]] + []);
    assert [StblKids()[0]] + [] == StblKids();
    TablesSmall(ss, cs, d);
    EmitConcat(StblKids(), Tables(true, ss, cs, 0, d));
    TrakSizes(true, 1);
  }

  /** A track of a specimen, and its plan, ready to be written. */
  predicate Writable(t: FlatTrack, p: Plan) {
    SmallTrack(t.Samples(), t.Chunks()) && t.info.video && t.pieces != [] && p.shift == 0
  }

  lemma MinfRewritten(t: FlatTrack, p: Plan, d: int)
    requires Writable(t, p) && -160 <= d <= MAX_I64 - 1000
    ensures var b := MediaChildren(t, p, MinfKids(), d);
            b.Some? && TotalSize(b.value) <= 308
  {
    hide Emit, Children, StblChildren, SmallTrack;
    TrakWalks(true, 1);
    var c := MinfKids()[0];
    NewTables(t.Samples(), t.Chunks(), d);
    assert StblBody(t, p, c.body, d).Some? && |StblBody(t, p, c.body, d).value| <= 300;
    assert MinfKids()[1..] == [] && MediaChildren(t, p, [], d) == Some([]);
    var e := MediaChild(t, p, c, d).value;
    assert MediaChildren(t, p, MinfKids(), d) == Some([e] + []) && [e] + [] == [e];
    Sized1(e);
  }

  lemma HeadersWiden(id: byte, duration: u64)
    ensures DurationBody(MDHD, MDHD_BODY, duration, 0).Some? && |DurationBody(MDHD, MDHD_BODY, duration, 0).value| == 32
    ensures DurationBody(TKHD, TkhdBody(id), duration, 0).Some? && |DurationBody(TKHD, TkhdBody(id), duration, 0).value| == 36
    ensures DurationBody(MVHD, MVHD_BODY, duration, MOVIE_SCALE).Some? && |DurationBody(MVHD, MVHD_BODY, duration, MOVIE_SCALE).value| == 32
  {
    hide U32, U64, Enc32, Enc64;
  }

  lemma MdiaRewritten(t: FlatTrack, p: Plan, table: bool, d: int)
    requires Writable(t, p) && -160 <= d <= MAX_I64 - 1000
    ensures var b := MediaChildren(t, p, MdiaKids(table), d);
            b.Some? && TotalSize(b.value) <= 400
  {
    hide Emit, Children, StblChildren, DurationBody, Writable;
    TrakWalks(table, 1);
    MinfRewritten(t, p, d);
    var k := MdiaKids(table);
    HeadersWiden(1, Wrap64(t.nextDTS - t.firstDTS));
    assert k[1..][1..] == k[2..] && k[1..][0] == k[1];
    var a, b := MediaChild(t, p, k[0], d).value, MediaChild(t, p, k[1], d).value;
    var none: seq<Child> := [];
    assert MediaChildren(t, p, none, d) == Some(none);
    if table {
      assert k[2..][1..] == [] && k[2..][0] == k[2];
      var c := MediaChild(t, p, k[2], d).value;
      assert MediaChildren(t, p, k[2..], d) == Some([c] + []) && [c] + [] == [c];
      assert MediaChildren(t, p, k[1..], d) == Some([b] + [c]);
      assert MediaChildren(t, p, k, d) == Some([a] + ([b] + [c]));
      assert [a] + ([b] + [c]) == [a, b, c];
      Sized3(a, b, c);
    } else {
      assert k[2..] == none;
      assert MediaChildren(t, p, k[1..], d) == Some([b] + none) && [b] + none == [b];
      assert MediaChildren(t, p, k, d) == Some([a] + [b]) && [a] + [b] == [a, b];
      Sized2(a, b);
    }
  }

  lemma TrakRewritten(t: FlatTrack, p: Plan, table: bool, id: byte, d: int)
    requires Writable(t, p) && -160 <= d <= MAX_I64 - 1000
    ensures var b := TrackChildren(t, p, TrakKids(table, id), d);
            b.Some? && 88 <= TotalSize(b.value) <= 600
  {
    hide Emit, Children, MediaChildren, EditBytes, DurationBody, Writable;
    TrakWalks(table, id);
    MdiaRewritten(t, p, table, d);
    EditSize(t, p);
    var k := TrakKids(table, id);
    HeadersWiden(id, Wrap64(p.delay + p.duration));
    assert k[1..][1..] == [] && k[1..][0] == k[1];
    var a, b := TrackChild(t, p, k[0], d).value, TrackChild(t, p, k[1], d).value;
    assert |a| == 2 && |b| == 1 && |b[0].body| <= 400;
    assert TrackChildren(t, p, k[1..], d) == Some(b + []) && b + [] == b;
    assert TrackChildren(t, p, k, d) == Some(a + b);
    EmitConcat(a, b);
    assert a == [a[0], a[1]] && b == [b[0]];
    Sized2(a[0], a[1]);
    Sized1(b[0]);
  }

  lemma EditSize(t: FlatTrack, p: Plan)
    ensures 28 <= |EditBytes(t, p)| <= 48
  {
    hide Enc32, Enc64;
  }

  lemma NumberIs(table: bool, id: byte)
    ensures TrakNumber(TrakKids(table, id), 0) == Some(id)
  {
    hide Emit, U32;
    Fields(id);
    var k := TrakKids(table, id);
    assert k[1..][1..] == [] && k[1..][0] == k[1];
    assert TrakNumber(k[1..], id) == Some(id);
  }

  /** The new trak box of a specimen track. */
  lemma TrakBoxRewritten(m: Movie, table: bool, id: byte, d: int)
    requires id in m.tracks && id in m.plans && Writable(m.tracks[id], m.plans[id]) && -160 <= d <= MAX_I64 - 1000
    ensures var a := MovieChild(m, Child(TRAK, Emit(TrakKids(table, id))), d);
            a.Some? && |a.value| == 1 && 88 <= |a.value[0].body| <= 600
  {
    hide Emit, Children, TrackChildren, TrakNumber, DurationBody, TrakKids, SmallTrack;
    TrakWalks(table, id);
    NumberIs(table, id);
    TrakRewritten(m.tracks[id], m.plans[id], table, id, d);
  }
}
