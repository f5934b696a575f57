/** The movie header of the virtual file, as an independent reader of ordinary movies finds it. */
module FlatFile {
  import opened Bytes
  import opened Options
  import opened Boxes
  import opened Tracks
  import opened Samples
  import opened Fragments
  import opened SampleTables
  import opened FlatScan
  import opened ScanLemmas
  import opened SourceTruth
  import opened FlatMovie
  import opened Timing
  import opened MovieBoxes
  import opened Normalized
  import opened Reread
  import opened TopLevel
  import opened Demux

  // ---------- the tracks of the movie header ----------

  /** ISO/IEC 14496-12 section 8.3: track numbers are unique. */
  predicate DistinctTraks(cs: seq<Child>) {
    forall i, j | 0 <= i < j < |cs| && cs[i].kind == TRAK && cs[j].kind == TRAK :: !SameTrakNumber(cs[i].body, cs[j].body)
  }

  predicate SameTrakNumber(a: bytes, b: bytes) {
    ReadTrak(a).Some? && ReadTrak(b).Some? && ReadTrak(a).value.id == ReadTrak(b).value.id
  }

  /** The scanned track is the one this trak box describes. */
  predicate Describes(header: Track, t: Track) {
    header.id == t.id && header.scale == t.scale && header.video == t.video && header.codec == t.codec
  }

  lemma {:induction false} KnownTrackStays(cs: seq<Child>, tracks: map<u32, Track>, d: map<u32, Defaults>, id: u32)
    requires MoovFields(cs, tracks, d).Read? && id in tracks && tracks[id].id == id
    requires forall c | c in cs && c.kind == TRAK :: ReadTrak(c.body).Some? ==> ReadTrak(c.body).value.id != id
    ensures id in MoovFields(cs, tracks, d).tracks && Describes(tracks[id], MoovFields(cs, tracks, d).tracks[id])
    decreases |cs|
  {
    hide ReadTrak, MvexFields, Children;
    if cs != [] {
      if cs[0].kind == TRAK {
        var t := ReadTrak(cs[0].body).value;
        KnownTrackStays(cs[1..], tracks[t.id := t], d, id);
      } else if cs[0].kind == MVEX {
        KnownTrackStays(cs[1..], tracks, MvexFields(Children(cs[0].body).value, d).value, id);
      } else {
        KnownTrackStays(cs[1..], tracks, d, id);
      }
    }
  }

  /** Every trak box is in the parsed map under its number; under distinct numbers it is the one that is there. */
  lemma {:induction false} TraksKnown(cs: seq<Child>, tracks: map<u32, Track>, d: map<u32, Defaults>, i: nat)
    requires MoovFields(cs, tracks, d).Read? && i < |cs| && cs[i].kind == TRAK
    ensures ReadTrak(cs[i].body).Some?
    ensures var t := ReadTrak(cs[i].body).value;
            && t.id in MoovFields(cs, tracks, d).tracks
            && (DistinctTraks(cs) ==> Describes(t, MoovFields(cs, tracks, d).tracks[t.id]))
    decreases |cs|
  {
    hide ReadTrak, MvexFields, Children;
    assert DistinctTraks(cs) ==> DistinctTraks(cs[1..]);
    if i == 0 {
      var t := ReadTrak(cs[0].body).value;
      NumberStays(cs[1..], tracks[t.id := t], d, t.id);
      if DistinctTraks(cs) {
        forall c | c in cs[1..] && c.kind == TRAK && ReadTrak(c.body).Some?
          ensures ReadTrak(c.body).value.id != t.id
        {
          var j :| 0 < j < |cs| && cs[j] == c;
        }
        KnownTrackStays(cs[1..], tracks[t.id := t], d, t.id);
      }
    } else if cs[0].kind == TRAK {
      var t := ReadTrak(cs[0].body).value;
      TraksKnown(cs[1..], tracks[t.id := t], d, i - 1);
    } else if cs[0].kind == MVEX {
      TraksKnown(cs[1..], tracks, MvexFields(Children(cs[0].body).value, d).value, i - 1);
    } else {
      TraksKnown(cs[1..], tracks, d, i - 1);
    }
  }

  lemma {:induction false} NumberStays(cs: seq<Child>, tracks: map<u32, Track>, d: map<u32, Defaults>, id: u32)
    requires MoovFields(cs, tracks, d).Read? && id in tracks
    ensures id in MoovFields(cs, tracks, d).tracks
    decreases |cs|
  {
    hide ReadTrak, MvexFields, Children;
    if cs != [] {
      if cs[0].kind == TRAK {
        var t := ReadTrak(cs[0].body).value;
        NumberStays(cs[1..], tracks[t.id := t], d, id);
      } else if cs[0].kind == MVEX {
        NumberStays(cs[1..], tracks, MvexFields(Children(cs[0].body).value, d).value, id);
      } else {
        NumberStays(cs[1..], tracks, d, id);
      }
    }
  }

  /** And no other number is. */
  lemma {:induction false} NumberHasTrak(cs: seq<Child>, tracks: map<u32, Track>, d: map<u32, Defaults>, id: u32)
    requires MoovFields(cs, tracks, d).Read? && id in MoovFields(cs, tracks, d).tracks && id !in tracks
    ensures exists c | c in cs && c.kind == TRAK :: ReadTrak(c.body).Some? && ReadTrak(c.body).value.id == id
    decreases |cs|
  {
    hide ReadTrak, MvexFields, Children;
    if cs != [] {
      assert forall c | c in cs[1..] :: c in cs;
      if cs[0].kind == TRAK {
        var t := ReadTrak(cs[0].body).value;
        assert cs[0] in cs;
        if t.id != id { NumberHasTrak(cs[1..], tracks[t.id := t], d, id); }
      } else if cs[0].kind == MVEX {
        NumberHasTrak(cs[1..], tracks, MvexFields(Children(cs[0].body).value, d).value, id);
      } else {
        NumberHasTrak(cs[1..], tracks, d, id);
      }
    }
  }

  /** The trak boxes of tracks with samples, in file order. */
  predicate Played(m: Movie, c: Child) {
    && c.kind == TRAK && ReadTrak(c.body).Some?
    && ReadTrak(c.body).value.id in m.tracks
    && m.tracks[ReadTrak(c.body).value.id].pieces != []
  }

  predicate Playable(m: Movie, c: Child) {
    c.kind == TRAK ==>
      && ReadTrak(c.body).Some?
      && ReadTrak(c.body).value.id in m.tracks
      && (m.tracks[ReadTrak(c.body).value.id].pieces != [] ==> TrackReady(m, ReadTrak(c.body).value.id))
  }

  /** The box has a path to a sample table box. */
  predicate Tabled(c: Child) { Children(c.body).Some? && HasTable(Children(c.body).value) }

  predicate AllTabled(m: Movie, cs: seq<Child>) {
    forall c | c in cs && Played(m, c) :: Tabled(c)
  }

  predicate AllFew(m: Movie, cs: seq<Child>) {
    forall c | c in cs && Played(m, c) :: FewSamples(m.tracks[ReadTrak(c.body).value.id]) && HasStsd(c)
  }

  /** What a reader is meant to find in the new header. */
  function Expected(m: Movie, cs: seq<Child>, delta: int): seq<TrackView>
    requires forall c | c in cs :: Playable(m, c)
  {
    if cs == [] then []
    else if Played(m, cs[0]) then
      assert Playable(m, cs[0]);
      var header := ReadTrak(cs[0].body).value;
      [ViewOfTrack(header, StsdIn(cs[0]), m.tracks[header.id], m.plans[header.id], delta)] + Expected(m, cs[1..], delta)
    else Expected(m, cs[1..], delta)
  }

  lemma TrakWithoutSamples(m: Movie, c: Child, delta: int)
    requires MovieChild(m, c, delta).Some? && Playable(m, c)
    ensures c.kind == TRAK && !Played(m, c) ==> MovieChild(m, c, delta).value == []
    ensures c.kind != TRAK ==> forall x | x in MovieChild(m, c, delta).value :: x.kind != TRAK
  {
    hide TrakFields, TrackChildren, DurationBody, ChildrenFrom, Emit, TrakNumber;
    if c.kind == TRAK { SameNumber(Children(c.body).value, BLANK, 0); }
  }

  lemma ReadMovieSkips(x: Child, rest: seq<Child>)
    requires x.kind != TRAK
    ensures ReadMovie([x] + rest) == ReadMovie(rest)
  {
    assert ([x] + rest)[1..] == rest;
  }

  lemma ReadMovieTakes(x: Child, rest: seq<Child>)
    requires x.kind == TRAK
    ensures ReadMovie([x] + rest) ==
            match ReadTrackView(x.body)
            case None => None
            case Some(v) => match ReadMovie(rest) case None => None case Some(vs) => Some([v] + vs)
  {
    hide ReadTrackView;
    assert ([x] + rest)[1..] == rest;
  }

  /** The rewritten movie header reads as the tracks with samples, exactly when each of them has a table. */
  lemma {:induction false} MovieViews(m: Movie, cs: seq<Child>, delta: int)
    requires MovieChildren(m, cs, delta).Some? && TotalSize(MovieChildren(m, cs, delta).value) <= MAX_METADATA
    requires forall c | c in cs :: Playable(m, c)
    ensures ReadMovie(MovieChildren(m, cs, delta).value) == if AllTabled(m, cs) then Some(Expected(m, cs, delta)) else None
    ensures AllTabled(m, cs) ==> AllFew(m, cs)
    decreases |cs|
  {
    hide MovieChild, ReadMovie, Playable, Played, ViewOfTrack, Tabled, ReadTrak, FewSamples, HasStsd, StsdIn;
    if cs == [] {
      NoTracks();
    } else {
      var a, b := MovieChild(m, cs[0], delta).value, MovieChildren(m, cs[1..], delta).value;
      EmitConcat(a, b);
      MovieViews(m, cs[1..], delta);
      MovieChildShape(m, cs[0], delta);
      OneMovieView(m, cs[0], delta, b);
      assert AllTabled(m, cs) <==> (Played(m, cs[0]) ==> Tabled(cs[0])) && AllTabled(m, cs[1..]) by {
        assert forall c :: c in cs <==> c == cs[0] || c in cs[1..];
      }
    }
  }

  lemma NoTracks()
    ensures ReadMovie([]) == Some([])
  {
  }

  lemma OneMovieView(m: Movie, c: Child, delta: int, rest: seq<Child>)
    requires MovieChild(m, c, delta).Some? && TotalSize(MovieChild(m, c, delta).value) <= MAX_METADATA
    requires Playable(m, c)
    ensures ReadMovie(MovieChild(m, c, delta).value + rest) ==
            if !Played(m, c) then ReadMovie(rest)
            else if !Tabled(c) || ReadMovie(rest).None? then None
            else
              var header := ReadTrak(c.body).value;
              Some([ViewOfTrack(header, StsdIn(c), m.tracks[header.id], m.plans[header.id], delta)] + ReadMovie(rest).value)
    ensures Played(m, c) && Tabled(c) ==> FewSamples(m.tracks[ReadTrak(c.body).value.id]) && HasStsd(c)
  {
    hide MovieChild, ReadMovie, ReadTrak, ViewOfTrack, ReadTrackView, HasTable, FewSamples, HasStsd, StsdIn;
    TrakWithoutSamples(m, c, delta);
    MovieChildShape(m, c, delta);
    var a := MovieChild(m, c, delta).value;
    if Played(m, c) {
      NewTrakView(m, c, delta);
      ReadMovieTakes(a[0], rest);
      assert a == [a[0]];
    } else if a == [] {
      assert a + rest == rest;
    } else {
      assert a == [a[0]] && a[0] in a;
      ReadMovieSkips(a[0], rest);
    }
  }

  // ---------- the movie clock ----------

  lemma {:induction false} NewMovieClock(m: Movie, cs: seq<Child>, delta: int)
    requires MovieChildren(m, cs, delta).Some?
    ensures First(MovieChildren(m, cs, delta).value, MVHD).Some? <==> First(cs, MVHD).Some?
    ensures First(cs, MVHD).Some? ==>
              ReadHeaderClock(First(MovieChildren(m, cs, delta).value, MVHD).value) == Some(HeaderClock(MOVIE_SCALE, m.duration))
    decreases |cs|
  {
    hide MovieChild, ReadHeaderClock, First;
    if cs == [] {
      NoneOfKind(cs, MVHD);
    } else {
      var a, b := MovieChild(m, cs[0], delta).value, MovieChildren(m, cs[1..], delta).value;
      NewMovieClock(m, cs[1..], delta);
      FirstConcat(a, b, MVHD);
      FirstConcat([cs[0]], cs[1..], MVHD);
      assert cs == [cs[0]] + cs[1..];
      OneMovieClock(m, cs[0], delta);
    }
  }

  lemma OneMovieClock(m: Movie, c: Child, delta: int)
    requires MovieChild(m, c, delta).Some?
    ensures First(MovieChild(m, c, delta).value, MVHD).Some? <==> First([c], MVHD).Some?
    ensures First([c], MVHD).Some? ==>
              ReadHeaderClock(First(MovieChild(m, c, delta).value, MVHD).value) == Some(HeaderClock(MOVIE_SCALE, m.duration))
  {
    hide DurationBody, TrackChildren, TrakNumber, Emit, U32, U64, ChildrenFrom;
    MovieChildShape(m, c, delta);
    if c.kind == MVHD { DurationReads(MVHD, c.body, m.duration, MOVIE_SCALE); }
  }

  /** What a reader is meant to find of the movie clock. */
  function ExpectedClock(m: Movie, cs: seq<Child>): Option<HeaderClock> {
    if First(cs, MVHD).Some? then Some(HeaderClock(MOVIE_SCALE, m.duration)) else None
  }

  /** The header of the virtual file is found and read track by track, exactly when every played track has a table. */
  lemma ViewReads(src: bytes)
    requires |src| <= MAX_I64 && Normalize(src).Spliced?
    requires Children(Normalize(src).movie.metadata).Some?
    requires forall c | c in Children(Normalize(src).movie.metadata).value :: Playable(Normalize(src).movie, c)
    ensures var m, v := Normalize(src).movie, Normalize(src).view;
            var cs := Children(m.metadata).value;
            && v.start + v.removed <= |src| && FinalDelta(m).Some?
            && ReadFile(Contents(src, v))
               == (if AllTabled(m, cs) then Some(MovieView(ExpectedClock(m, cs), Expected(m, cs, FinalDelta(m).value))) else None)
            && (AllTabled(m, cs) ==> AllFew(m, cs))
  {
    hide ScanFrom, ReadMovie, Splice, FinishMovie, Normalize, Children, Contents, Emit, EmitBox, MovieChildren, BoxesUntil, Playable, Expected, ScanInv, AllTabled, AllFew, First, ReadHeaderClock;
    SplicedFacts(src);
    var m, v := Normalize(src).movie, Normalize(src).view;
    SpliceFacts(src, m);
    ViewTiles(src);
    var before := BoxesUntil(src, 0, m.moov.offset).value;
    var c := Child(MOOV, Emit(FinalMovie(m).value));
    var rest := m.references + [Child(MDAT, src[m.moov.offset + m.moov.size..])];
    assert Parts(before, m, src[m.moov.offset + m.moov.size..]) == before + ([c] + rest);
    NoneOfKind(before, MOOV);
    FirstConcat(before, [c] + rest, MOOV);
    FirstConcat([c], rest, MOOV);
    FirstOfThree(c, c, c, MOOV);
    EmitThenWalk(FinalMovie(m).value);
    MovieViews(m, Children(m.metadata).value, FinalDelta(m).value);
    NewMovieClock(m, Children(m.metadata).value, FinalDelta(m).value);
  }
}
