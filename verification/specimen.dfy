/** The small recordings through NormalizedMP4: one for each case the theorems about the virtual file tell apart. */
module Specimen {
  import opened Bytes
  import opened Options
  import opened Boxes
  import opened Tracks
  import opened Samples
  import opened Fragments
  import opened Agreement
  import opened SampleTables
  import opened FlatScan
  import opened ScanLemmas
  import opened FlatMovie
  import opened Timing
  import opened MovieBoxes
  import opened Normalized
  import opened Demux
  import opened FlatFile
  import opened EndToEnd
  import opened SourceTruth
  import opened Stretches
  import opened FirstFragments
  import opened LateClocks
  import opened Presentation
  import opened ProducerClock
  import opened ProducerView
  import opened SpecimenParts
  import opened SpecimenHeader
  import opened SpecimenScan

  // ---------- the new header ----------

  lemma SeenSamples(r: Recipe)
    ensures Seen(r).Samples() == if r.shape == OneRun then [ONE] else [ONE, ONE]
    ensures SmallTrack(Seen(r).Samples(), Seen(r).Chunks())
  {
    hide Header, MoofAt, Emit, AllSamples;
    Places(r);
    SamplesIn(r);
    var cs := Seen(r).Chunks();
    forall c | c in cs
      ensures 200 <= c.offset <= 1000
    {
      var i :| 0 <= i < |cs| && cs[i] == c;
    }
  }

  lemma SamplesIn(r: Recipe)
    ensures AllSamples(PiecesIn(r)) == if r.shape == OneRun then [ONE] else [ONE, ONE]
  {
    hide MoofAt;
    var ps := PiecesIn(r);
    assert ps[..1][..0] == [] && AllSamples(ps[..1]) == [] + [ONE] && [] + [ONE] == [ONE];
    if r.shape == OneRun {
      assert ps[..1] == ps;
    } else {
      assert ps[..2] == ps && ps[..2][..1] == ps[..1] && [ONE] + [ONE] == [ONE, ONE];
    }
  }

  lemma TwoChildren(m: Movie, a: Child, b: Child, x: seq<Child>, d: int)
    requires MovieChild(m, a, d) == Some(x) && MovieChild(m, b, d) == Some([])
    ensures MovieChildren(m, [a, b], d) == Some(x)
  {
    hide MovieChild;
    var none: seq<Child> := [];
    assert [a, b][1..] == [b] && [b][1..] == [];
    assert MovieChildren(m, none, d) == Some(none) && none + none == none && x + none == x;
    assert MovieChildren(m, [b], d) == Some(none);
  }

  /** A movie with the header of a recipe and a small track. */
  predicate SmallMovie(m: Movie, r: Recipe) {
    m.metadata == Emit(MoovKids(r)) && 1 in m.tracks && 1 in m.plans && Writable(m.tracks[1], m.plans[1])
  }

  lemma TailRewritten(m: Movie, r: Recipe, d: int)
    requires SmallMovie(m, r) && -160 <= d <= MAX_I64 - 1000
    ensures var cs := MovieChildren(m, MoovKids(r.(clock := false)), d);
            cs.Some? && |cs.value| == 1 && |cs.value[0].body| <= 600
  {
    hide Emit, TrakKids, Writable, MovieChild, MovieChildren, MvexKids;
    var tail := MoovKids(r.(clock := false));
    TrakBoxRewritten(m, r.table, 1, d);
    ExtensionDropped(m, d);
    TwoChildren(m, tail[0], tail[1], MovieChild(m, tail[0], d).value, d);
  }

  lemma ExtensionDropped(m: Movie, d: int)
    ensures MovieChild(m, Child(MVEX, Emit(MvexKids())), d) == Some([])
  {
    hide Emit;
  }

  lemma MovieRewritten(m: Movie, r: Recipe, d: int)
    requires SmallMovie(m, r) && -160 <= d <= MAX_I64 - 1000
    ensures NewMovie(m, d).Some? && TotalSize(NewMovie(m, d).value) <= 700
  {
    hide Emit, Children, DurationBody, TrakKids, TrackChildren, TrakNumber, Writable;
    HeaderWalks(r);
    HeadersWiden(1, m.duration);
    TailRewritten(m, r, d);
    var k := MoovKids(r);
    var tail := MoovKids(r.(clock := false));
    var a := MovieChildren(m, tail, d).value;
    assert a == [a[0]];
    Sized1(a[0]);
    if r.clock {
      var h := MovieChild(m, k[0], d).value;
      assert |h| == 1 && |h[0].body| == 32 && k[1..] == tail;
      assert MovieChildren(m, k, d) == Some(h + a);
      assert h == [h[0]] && h + a == [h[0], a[0]];
      Sized2(h[0], a[0]);
    }
  }

  lemma TheMovieSmall(r: Recipe)
    ensures SmallMovie(TheMovie(r), r)
  {
    hide Emit, Seen, ThePlan, TheReference, MoovKids, SmallTrack;
    SeenSamples(r);
    SeenFacts(r);
  }

  // ---------- the virtual file ----------

  lemma SpecimenSpliced(r: Recipe)
    ensures Splice(Source(r), TheMovie(r)).Spliced?
  {
    hide Emit, NewMovie, ReadBox, Payload, Source, Seen, ThePlan, MoovKids, MoofKids, SmallMovie;
    KnownBoxes(r);
    Places(r);
    TheMovieSmall(r);
    MovieRewritten(TheMovie(r), r, 0);
    Sized1(TheMovie(r).references[0]);
    var delta := FinalDelta(TheMovie(r)).value;
    assert -160 <= delta <= 1000;
    MovieRewritten(TheMovie(r), r, delta);
  }

  function TheView(r: Recipe): View
    requires Splice(Source(r), TheMovie(r)).Spliced?
  {
    Splice(Source(r), TheMovie(r)).view
  }

  lemma SpecimenPresented(r: Recipe)
    ensures Splice(Source(r), TheMovie(r)).Spliced?
    ensures Presents(Source(r), TheMovie(r), TheView(r), HeaderMap(r.table))
  {
    hide Emit, ReadBox, Payload, Source, FinishMovie, Splice, U32, ReadTracks, ScanFrom, Seen, ThePlan, TheReference, MoovKids, MoofKids;
    KnownBoxes(r);
    Places(r);
    StartsWithType(r);
    SpecimenScanned(r, Source(r));
    Finished(r, Source(r));
    SpecimenSpliced(r);
    SpliceNames(Source(r), TheMovie(r));
    ReadMovieHeader(r);
  }

  lemma StartsWithType(r: Recipe)
    ensures |Source(r)| >= 8 && U32(Source(r), 4) == FTYP
  {
    hide Emit, Payload, Source, MoovKids, MoofKids;
    KnownBoxes(r);
    Places(r);
  }

  lemma KidsOfMoov(r: Recipe)
    ensures var m, k := TheMovie(r), MoovKids(r);
            && Children(m.metadata) == Some(k) && DistinctTraks(k)
            && (AllTabled(m, k) <==> r.table) && (First(k, MVHD).Some? <==> r.clock)
            && |PlayedTraks(m, k)| == 1 && ReadTrak(PlayedTraks(m, k)[0].body).Some? && ReadTrak(PlayedTraks(m, k)[0].body).value.id == 1
  {
    hide Emit, ChildrenFrom, ReadTrak, HasTable, Seen, ThePlan, TheReference, TrakKids;
    HeaderWalks(r);
    TrakWalks(r.table, 1);
    ReadHeader(r.table, 1);
    TableThere(r);
    SeenFacts(r);
    var m, k := TheMovie(r), MoovKids(r);
    var tail := MoovKids(r.(clock := false));
    var trak := tail[0];
    assert tail[1..][1..] == [] && tail[1..][0] == tail[1];
    assert ReadTrak(trak.body).value.id == 1;
    assert Played(m, trak) && (Tabled(trak) <==> r.table);
    assert trak in k && forall c | c in k && c.kind == TRAK :: c == trak;
    var none: seq<Child> := [];
    assert PlayedTraks(m, tail[1..]) == none;
    assert PlayedTraks(m, tail) == [trak] + PlayedTraks(m, tail[1..]) == [trak];
    if r.clock { assert k[1..] == tail; }
  }

  lemma TableThere(r: Recipe)
    ensures HasTable(TrakKids(r.table, 1)) <==> r.table
  {
    hide Emit, Children;
    TrakWalks(r.table, 1);
    var k, m := TrakKids(r.table, 1), MdiaKids(r.table);
    assert k[1..][0] == k[1] && First(k[1..], MDIA) == Some(k[1].body) && First(k, MDIA) == Some(k[1].body);
    assert Inside(k, MDIA) == Some(m);
    if r.table {
      assert m[1..][1..] == m[2..] && m[1..][0] == m[1] && m[2..][0] == m[2];
      assert First(m[2..], MINF) == Some(m[2].body) && First(m[1..], MINF) == Some(m[2].body) && First(m, MINF) == Some(m[2].body);
      assert Inside(m, MINF) == Some(MinfKids()) && Inside(MinfKids(), STBL) == Some(StblKids());
    } else {
      NoMinf();
    }
  }

  lemma NoMinf()
    ensures First(MdiaKids(false), MINF) == None
  {
    assert forall i | 0 <= i < |MdiaKids(false)| :: MdiaKids(false)[i].kind != MINF;
  }

  /** What holds of the specimen that a recipe makes. */
  lemma SpecimenRead(r: Recipe)
    ensures Splice(Source(r), TheMovie(r)).Spliced?
    ensures var src, m, v := Source(r), TheMovie(r), TheView(r);
            && Presents(src, m, v, HeaderMap(r.table)) && v.start + v.removed <= |src|
            && (ReadFile(Contents(src, v)).Some? <==> r.table)
            && (r.table ==>
                  var file := ReadFile(Contents(src, v)).value;
                  && |file.tracks| == 1 && file.tracks[0].header.id == 1 && (file.clock.Some? <==> r.clock))
  {
    hide Presents, Contents, ReadFile, Children, AllTabled, First, PlayedTraks, Source, TheMovie, Faithful, ClockCovers, DistinctTraks, Splice, Emit,
         MoovKids;
    SpecimenPresented(r);
    SamplesPreserved(Source(r), TheMovie(r), TheView(r), HeaderMap(r.table));
    KidsOfMoov(r);
  }

  // ---------- one recording for each case ----------

  /** A recording the reader of the virtual file can read. */
  ghost predicate Readable(src: bytes, m: Movie, v: View, defaults: map<u32, Track>) {
    Presents(src, m, v, defaults) && v.start + v.removed <= |src| && ReadFile(Contents(src, v)).Some?
  }

  /** With every condition the theorems about times and edits ask for. */
  ghost predicate Exemplary(src: bytes, m: Movie, v: View, defaults: map<u32, Track>) {
    && Readable(src, m, v, defaults) && Regular(src, m)
    && ReadFile(Contents(src, v)).value.clock.Some? && ReadFile(Contents(src, v)).value.tracks != []
    && Scaled(m.tracks) && (exists j | j in m.tracks :: m.tracks[j].pieces != [])
    && (forall id | id in m.tracks :: DelayFits(m.tracks[id], Origin(m.tracks)) && SpanFits(m.tracks[id]))
  }

  lemma PlainExemplary(r: Recipe)
    requires r.clock && r.table && r.shape == OneRun
    ensures Splice(Source(r), TheMovie(r)).Spliced? && Exemplary(Source(r), TheMovie(r), TheView(r), HeaderMap(r.table))
  {
    hide Presents, Contents, ReadFile, Source, TheMovie, Splice, OrderlyFrom, Children, DistinctTraks, AllTabled, First, PlayedTraks, ReadBox, Payload, Emit,
         MoovKids, MoofKids;
    SpecimenRead(r);
    KnownBoxes(r);
    SpecimenOrderly(r, Source(r));
    KidsOfMoov(r);
    PlanShort(r);
  }

  /** A regular recording with a movie clock exists, so the theorems about them speak of something. */
  lemma RegularRecordingExists()
    ensures exists src: bytes, m: Movie, v: View, defaults: map<u32, Track> :: Exemplary(src, m, v, defaults)
  {
    hide Source, TheMovie, Splice, Exemplary;
    PlainExemplary(Recipe(true, true, false, OneRun));
  }

  lemma PlanShort(r: Recipe)
    ensures var m := TheMovie(r);
            && Scaled(m.tracks) && (exists j | j in m.tracks :: m.tracks[j].pieces != [])
            && (forall id | id in m.tracks :: DelayFits(m.tracks[id], Origin(m.tracks)) && SpanFits(m.tracks[id]))
  {
    hide Origin, Emit, Seen, StartOf, PlansFrom, Longest, ThePlan, TheReference, MoovKids, DelayFits, SpanFits;
    SeenFacts(r);
    Planned(r);
    Short(r);
  }

  lemma Short(r: Recipe)
    ensures Seen(r).info.scale == 1000 && DelayFits(Seen(r), StartOf(Seen(r))) && SpanFits(Seen(r))
  {
    hide Header, PiecesIn, MoofAt;
    var t := Seen(r);
    SeenFacts(r);
    assert t.maxPTS - t.minPTS == 1000;
    assert StartOf(t) - StartOf(t) == 0.0;
    hide Seen, StartOf;
    SmallCeils();
  }

  lemma SmallCeils()
    ensures Ceil(Seconds(1000, 1000) * MOVIE_SCALE as real) == 1000000 && Ceil(0.0 * MOVIE_SCALE as real) == 0
  {
    assert Seconds(1000, 1000) == 1.0;
    assert Ceil(1000000.0) == 1000000 && Ceil(0.0) == 0;
  }

  /** A recording without mvhd box is accepted; its tracks can be read, but the virtual file has no movie clock to count edits in. */
  lemma ClocklessRecordingExists()
    ensures exists src: bytes, m: Movie, v: View, defaults: map<u32, Track> ::
              Readable(src, m, v, defaults) && ReadFile(Contents(src, v)).value.tracks != [] && ReadFile(Contents(src, v)).value.clock.None?
  {
    hide Presents, Contents, ReadFile, Source, TheMovie, Splice;
    var r := Recipe(false, true, false, OneRun);
    SpecimenRead(r);
    assert Readable(Source(r), TheMovie(r), TheView(r), HeaderMap(r.table));
  }

  /** A recording whose track has no sample table box is accepted, and the virtual file cannot be read. */
  lemma TablelessRecordingExists()
    ensures exists src: bytes, m: Movie, v: View, defaults: map<u32, Track> ::
              Presents(src, m, v, defaults) && v.start + v.removed <= |src| && ReadFile(Contents(src, v)).None?
  {
    hide Presents, Contents, ReadFile, Source, TheMovie, Splice;
    var r := Recipe(true, false, false, OneRun);
    SpecimenRead(r);
    assert Presents(Source(r), TheMovie(r), TheView(r), HeaderMap(r.table));
  }

  /** The prft boxes of the virtual file are not just the moved references of the source. */
  ghost predicate Unmoved(src: bytes, m: Movie, v: View) {
    && v.start + v.removed <= |src| && ReferencesIn(Contents(src, v)).Some?
    && !MovedEach(ReferencesIn(Contents(src, v)).value, SourceReferences(src, 0), m)
  }

  lemma EarlyBoxes(r: Recipe, src: bytes)
    requires BoxesRead(r, src) && r.early
    ensures 40 <= |src| && BoxesUntil(src, 0, 40) == Some([Child(FTYP, []), Child(PRFT, PRFT_BODY)])
  {
    hide Emit, ReadBox, MoovKids, MoofKids;
    Places(r);
    var a, b := Child(FTYP, []), Child(PRFT, PRFT_BODY);
    BodyRead(src, PrftBox(r));
    assert Body(src, Box(0, 8, 8, FTYP)) == [];
    assert BoxesUntil(src, 40, 40) == Some([]);
    assert BoxesUntil(src, 8, 40) == Prepend([b], Some([])) && [b] + [] == [b];
    assert [a] + [b] == [a, b];
  }

  lemma EarlyAhead()
    ensures BodiesOf([Child(FTYP, []), Child(PRFT, PRFT_BODY)], PRFT) != []
  {
    var cs := [Child(FTYP, []), Child(PRFT, PRFT_BODY)];
    assert cs[1..] == [Child(PRFT, PRFT_BODY)];
  }

  /** A recording with a producer reference ahead of its movie header is accepted, and its view has that reference unmoved as well. */
  lemma EarlyReferenceExists()
    ensures exists src: bytes, m: Movie, v: View, defaults: map<u32, Track> :: Exemplary(src, m, v, defaults) && Unmoved(src, m, v)
  {
    hide Presents, Contents, ReadFile, Source, Splice, ReadBox, Payload, Emit, MoovKids, MoofKids, BodiesOf, MovedEach, ReferencesIn, BoxesUntil, Exemplary,
         SourceReferences, Seen, ThePlan, TheReference;
    var r := Recipe(true, true, true, OneRun);
    PlainExemplary(r);
    SpecimenRead(r);
    KnownBoxes(r);
    EarlyBoxes(r, Source(r));
    EarlyAhead();
    ReferencesKept(Source(r), TheMovie(r), TheView(r), HeaderMap(r.table));
    assert Unmoved(Source(r), TheMovie(r), TheView(r));
  }

  /** Track k of the virtual file has samples at other times than in the source, and a media duration that is not the sum of its samples. */
  ghost predicate ClockLost(src: bytes, m: Movie, v: View, defaults: map<u32, Track>, k: nat)
    requires Readable(src, m, v, defaults)
  {
    k < |ReadFile(Contents(src, v)).value.tracks| &&
    var view := ReadFile(Contents(src, v)).value.tracks[k];
    && view.header.id in m.tracks && TrackTimes(m.tracks[view.header.id]) != SampleTimes(src, defaults, view.header.id)
    && view.mediaDuration != SumWords(view.table.durations)
  }

  lemma ShortClock(r: Recipe)
    requires r.shape != OneRun
    ensures Seen(r).nextDTS - Seen(r).firstDTS != Durations(Seen(r).Samples())
  {
    hide Header, PiecesIn, MoofAt, AllSamples, Durations, SmallTrack;
    SeenSamples(r);
    TwoSeconds();
  }

  lemma NotConserved(t: FlatTrack, src: bytes, defaults: map<u32, Track>, id: u32)
    requires Tallied(t, CountedRuns(src, defaults, id)) && t.Samples() == SourceSamples(src, defaults, id)
    requires t.nextDTS - t.firstDTS != Durations(t.Samples())
    ensures !SourceConserved(src, defaults, id)
  {
    hide CountedRuns, SourceSamples, Durations, AllSamples, LeastStart, LatestStop;
  }

  lemma TwoSeconds()
    ensures Durations([ONE]) == 1000 && Durations([ONE, ONE]) == 2000
  {
    assert [ONE][..0] == [] && Durations([ONE]) == 1000;
    assert [ONE, ONE][..1] == [ONE];
  }

  /** A recording whose first fragment has two traf boxes of the track, one after the other in time, is accepted and loses its clock. */
  lemma SplitStartExists()
    ensures exists src: bytes, m: Movie, v: View, defaults: map<u32, Track> ::
              Readable(src, m, v, defaults) && ClocksFirstFrom(src, 0) && ClockLost(src, m, v, defaults, 0)
  {
    hide Presents, Contents, ReadFile, Source, Seen, ThePlan, TheReference, Splice, ClocksFirstFrom, SampleTimes, StartTogether, EarlierEmpty, FirstStretches,
         ReadBox, Payload, Emit, MoovKids, MoofKids, Durations, AllSamples, SourcePieces, Children, OneSourceClock, SourceConserved, CountedRuns,
         SourceSamples, Tallied, DistinctTraks;
    var r := Recipe(true, true, false, TwoTrafs);
    SpecimenRead(r);
    var src, m, v, defaults := Source(r), TheMovie(r), TheView(r), HeaderMap(r.table);
    KnownBoxes(r);
    SpecimenClocksFirst(r, src);
    SeenFacts(r);
    ShortClock(r);
    TimesPreserved(src, m, v, defaults, 0);
    NotConserved(m.tracks[1], src, defaults, 1);
    FirstFragmentRules(src, m, v, defaults, 0);
    TogetherEmpty(FirstStretches(src, 0, defaults, 1));
    assert ClockLost(src, m, v, defaults, 0);
  }

  // ---------- the late clock ----------

  lemma LateTold(h: Track, at: nat)
    requires Ordinary(h) && h.id == 1 && at <= 1000
    ensures var x := Told(1, Stretch(START_TIME, [ONE]));
            TrafTold(LateKids(), map[1 := h], at) == [x, x]
  {
    hide U32, U64, TrunSamples, TfhdDefaults, BaseDecode, RunsTraf, TrunBody;
    OneSample(h, 1, 136);
    OneSample(h, 1, 140);
    LateOpens(h, at);
    var k, tracks := LateKids(), map[1 := h];
    var x := Told(1, Stretch(START_TIME, [ONE]));
    assert k[..5] == k && k[..5][..4] == k[..4] && k[..4][..3] == k[..3] && k[..3][..2] == k[..2] && k[..2][..1] == k[..1] && k[..1][..0] == [];
    assert k[..1][0] == k[0] && TrafTold(k[..1], tracks, at) == [];
    assert k[..2][1] == k[1] && TrafTold(k[..2], tracks, at) == [];
    assert TrafTold(k[..3], tracks, at) == [] + [x] && [] + [x] == [x];
    assert TrafTold(k[..4], tracks, at) == [x];
    assert TrafTold(k, tracks, at) == [x] + [x] && [x] + [x] == [x, x];
  }

  const LATE: seq<Stretch> := [Stretch(START_TIME, [ONE]), Stretch(START_TIME, [ONE])]

  lemma LateMoof(r: Recipe, at: nat)
    requires r.shape == LateClock && at <= 1000
    ensures Children(Emit(MoofKids(r.shape))) == Some(MoofKids(r.shape))
    ensures Only(MoofTold(MoofKids(r.shape), HeaderMap(r.table), at), 1) == LATE
    ensures StretchesIn(TrafTold(LateKids(), HeaderMap(r.table), at)) == LATE
  {
    hide Emit, Children, TrafTold, LateKids, Header;
    FragmentWalks(r.shape);
    HeaderSeen(r.table, 1);
    LateTold(Header(r.table), at);
    var k, tracks := MoofKids(r.shape), HeaderMap(r.table);
    var x := Told(1, Stretch(START_TIME, [ONE]));
    assert k[..2] == k && k[..2][..1] == k[..1] && k[..1][..0] == [];
    assert k[..1][0].kind == MFHD && MoofTold(k[..1][..0], tracks, at) == [];
    assert MoofTold(k[..1], tracks, at) == [];
    assert k[1] == Child(TRAF, Emit(LateKids())) && TrafTold(LateKids(), tracks, at) == [x, x];
    assert MoofTold(k, tracks, at) == MoofTold(k[..1], tracks, at) + TrafTold(LateKids(), tracks, at);
    assert [] + [x, x] == [x, x];
    TwoTold(x);
  }

  lemma TwoTold(x: Told)
    ensures StretchesIn([x, x]) == [x.stretch, x.stretch] && Only([x, x], x.track) == [x.stretch, x.stretch]
  {
    var one: seq<Stretch> := [x.stretch];
    assert [x, x][..1] == [x] && [x][..0] == [];
    assert StretchesIn([x]) == one && Only([x], x.track) == one;
    assert one + one == [x.stretch, x.stretch];
  }

  lemma StretchStep(src: bytes, pos: nat, b: Box, tracks: map<u32, Track>)
    requires pos < |src| && ReadBox(src, pos, |src|) == Found(b) && b.kind != MOOF
    ensures SourceStretches(src, pos, tracks, 1) == SourceStretches(src, pos + b.size, tracks, 1)
  {
    hide ReadBox, ChildrenFrom;
    assert [] + SourceStretches(src, pos + b.size, tracks, 1) == SourceStretches(src, pos + b.size, tracks, 1);
  }

  lemma LateStretches(r: Recipe, src: bytes)
    requires BoxesRead(r, src) && r.shape == LateClock && !r.early
    ensures SourceStretches(src, 0, HeaderMap(r.table), 1) == LATE
  {
    hide Emit, ReadBox, ChildrenFrom, MoovKids, MoofKids, Only, MoofTold, TrafTold, LateKids;
    var d := HeaderMap(r.table);
    Places(r);
    LateMoof(r, MoofAt(r));
    assert SourceStretches(src, |src|, d, 1) == [];
    hide Header;
    StretchStep(src, 0, Box(0, 8, 8, FTYP), d);
    StretchStep(src, 8, MoovBox(r), d);
    StretchStep(src, PrftAt(r), PrftBox(r), d);
    StretchStep(src, MdatAt(r), MdatBox(r), d);
    LateHere(r, src);
  }

  lemma LateHere(r: Recipe, src: bytes)
    requires BoxesRead(r, src) && r.shape == LateClock && MoofAt(r) <= 1000 && MoofAt(r) < |src|
    requires MdatAt(r) <= |src| && SourceStretches(src, MdatAt(r), HeaderMap(r.table), 1) == []
    ensures SourceStretches(src, MoofAt(r), HeaderMap(r.table), 1) == LATE
  {
    hide Emit, ReadBox, ChildrenFrom, MoovKids, MoofKids, Only, MoofTold, TrafTold, LateKids, Header;
    LateMoof(r, MoofAt(r));
    assert LATE + [] == LATE;
  }

  lemma LateApart(first: int)
    ensures !Continuous(LATE) && !OneClock(LATE, first) && |LATE| == 2
  {
    assert Durations([ONE]) == 1000 by { assert [ONE][..0] == []; }
    assert LATE[0 + 1].first != StopOf(LATE[0]);
  }

  /** A traf box both parsers accept, with clocks that differ. */
  ghost predicate ParsersDiffer(body: bytes, tracks: map<u32, Track>, moofOffset: int) {
    && TrafRun(body, tracks, moofOffset).Some? && TrafPieces(body, tracks, moofOffset).Some?
    && !SameClock(TrafRun(body, tracks, moofOffset).value, AllSamples(TrafPieces(body, tracks, moofOffset).value))
  }

  /** A recording whose traf box has a second tfdt behind its first run is accepted: the parsers give it different clocks, and the virtual file loses its own. */
  lemma LateClockExists()
    ensures exists src: bytes, m: Movie, v: View, defaults: map<u32, Track>, body: bytes, at: nat ::
              && Readable(src, m, v, defaults) && ClockLost(src, m, v, defaults, 0)
              && at < |src| && ReadBox(src, at, |src|).Found? && ReadBox(src, at, |src|).box.kind == MOOF
              && Children(Body(src, ReadBox(src, at, |src|).box)).Some?
              && Child(TRAF, body) in Children(Body(src, ReadBox(src, at, |src|).box)).value && ParsersDiffer(body, defaults, at)
  {
    hide Presents, Contents, ReadFile, Source, Seen, ThePlan, TheReference, Splice, SampleTimes, ReadBox, Payload, Emit, MoovKids, LateKids, Header, TrafTold,
         Durations, AllSamples, SourcePieces, Children, SourceStretches, TrafRun, TrafPieces, SameClock, CountedRuns, OneClock, Readable, ClockLost, TheMovie;
    var r := Recipe(true, true, false, LateClock);
    LateClockLost(r);
    var src, m, v, defaults := Source(r), TheMovie(r), TheView(r), HeaderMap(r.table);
    KnownBoxes(r);
    Places(r);
    FragmentWalks(r.shape);
    LateDiffers(r, MoofAt(r));
    var body := Emit(LateKids());
    BodyRead(src, MoofBox(r));
    assert MoofKids(r.shape)[1] == Child(TRAF, body);
    assert ParsersDiffer(body, defaults, MoofAt(r));
  }

  lemma BodyRead(src: bytes, b: Box)
    requires b.header <= b.size && b.offset + b.size <= |src| && Payload(src, b).Some?
    ensures Payload(src, b) == Some(Body(src, b))
  {
  }

  lemma LateDiffers(r: Recipe, at: nat)
    requires r.shape == LateClock && at <= 1000
    ensures ParsersDiffer(Emit(LateKids()), HeaderMap(r.table), at)
  {
    hide Emit, ChildrenFrom, TrafTold, LateKids, Header, AllSamples, SameClock, OneClock, Only, MoofTold, BaseDecode, RunsTraf, PiecesTraf;
    HeaderSeen(r.table, 1);
    LateTraf(Header(r.table), at);
    LateMoof(r, at);
    FragmentWalks(r.shape);
    TrafTimes(Emit(LateKids()), HeaderMap(r.table), at);
    LateApart(TrafRun(Emit(LateKids()), HeaderMap(r.table), at).value.first);
  }

  lemma LateClockLost(r: Recipe)
    requires r == Recipe(true, true, false, LateClock)
    ensures Splice(Source(r), TheMovie(r)).Spliced? && Readable(Source(r), TheMovie(r), TheView(r), HeaderMap(r.table))
    ensures ClockLost(Source(r), TheMovie(r), TheView(r), HeaderMap(r.table), 0)
  {
    hide Presents, Contents, ReadFile, Source, Seen, ThePlan, TheReference, Splice, SampleTimes, ReadBox, Payload, Emit, MoovKids, MoofKids,
         Durations, AllSamples, SourcePieces, Children, SourceStretches, CountedRuns, OneClock, SourceConserved, SourceSamples, Tallied, DistinctTraks;
    SpecimenRead(r);
    KnownBoxes(r);
    SeenFacts(r);
    ShortClock(r);
    LateStretches(r, Source(r));
    LateApart(CountedRuns(Source(r), HeaderMap(r.table), 1)[0].first);
    TimesPreserved(Source(r), TheMovie(r), TheView(r), HeaderMap(r.table), 0);
    NotConserved(TheMovie(r).tracks[1], Source(r), HeaderMap(r.table), 1);
  }
}
