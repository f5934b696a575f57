/**
 What NormalizedMP4 (internal/recordingmedia/normalized.go) does with a file, told
 from the file: which ones it presents as a flat movie and which ones it leaves alone.
 */
module Presentable {
  import opened Bytes
  import opened Options
  import opened Boxes
  import opened Tracks
  import opened Samples
  import opened Fragments
  import opened FlatScan
  import opened ScanLemmas
  import opened FlatMovie
  import opened MovieBoxes
  import opened Normalized
  import opened BoxOrder
  import opened Acceptance
  import opened Layout

  // ---------- producer references ----------

  function ReferenceBytes(bs: seq<Box>): int {
    if bs == [] then 0 else ReferenceBytes(bs[..|bs| - 1]) + 8 + bs[|bs| - 1].size - bs[|bs| - 1].header
  }

  predicate ReferenceReads(src: bytes, b: Box, defaults: map<u32, Track>) {
    IsBox(src, b) && SmallEnough(b) && ReadReference(BodyOf(src, b), defaults).Some?
  }

  predicate ReferencesRead(src: bytes, bs: seq<Box>, defaults: map<u32, Track>) {
    forall b | b in bs :: ReferenceReads(src, b, defaults)
  }

  /** On the clock of the new track, which starts at its earliest presentation or decode time, the reference is an unsigned 64-bit time. */
  predicate Moves(e: Reference, tracks: map<u32, FlatTrack>) {
    && e.track in tracks && tracks[e.track].pieces != []
    && 0 <= e.value - Min(tracks[e.track].firstDTS, tracks[e.track].minPTS) <= MAX_U64
  }

  /** The references of these boxes, in order. */
  predicate AreReferences(src: bytes, bs: seq<Box>, defaults: map<u32, Track>, es: seq<Reference>) {
    |es| == |bs| && forall k | 0 <= k < |bs| :: ReadReference(BodyOf(src, bs[k]), defaults) == Some(es[k])
  }

  lemma {:induction false} ReferencesAre(src: bytes, bs: seq<Box>, defaults: map<u32, Track>)
    ensures ReadReferences(src, bs, defaults).Some? <==> ReferencesRead(src, bs, defaults)
    ensures ReadReferences(src, bs, defaults).Some? ==> AreReferences(src, bs, defaults, ReadReferences(src, bs, defaults).value)
    decreases |bs|
  {
    hide ReadReference, Payload, ReferencesRead, BodyOf;
    ReadsLast(src, bs, defaults);
    if bs != [] {
      var n := |bs| - 1;
      ReferencesAre(src, bs[..n], defaults);
      if IsBox(src, bs[n]) { BodyIs(src, bs[n]); }
      hide ReferenceReads;
      var before := ReadReferences(src, bs[..n], defaults);
      if before.Some? && ReadReferences(src, bs, defaults).Some? {
        OneMore(src, bs, defaults, before.value, ReadReference(BodyOf(src, bs[n]), defaults).value);
      }
    }
  }

  lemma OneMore(src: bytes, bs: seq<Box>, defaults: map<u32, Track>, es: seq<Reference>, e: Reference)
    requires bs != [] && AreReferences(src, bs[..|bs| - 1], defaults, es) && ReadReference(BodyOf(src, bs[|bs| - 1]), defaults) == Some(e)
    ensures AreReferences(src, bs, defaults, es + [e])
  {
    hide ReadReference, BodyOf;
  }

  lemma ReadsLast(src: bytes, bs: seq<Box>, defaults: map<u32, Track>)
    ensures ReferencesRead(src, bs, defaults)
            <==> bs == [] || (ReferencesRead(src, bs[..|bs| - 1], defaults) && ReferenceReads(src, bs[|bs| - 1], defaults))
  {
    hide ReferenceReads;
    if bs != [] { assert bs == bs[..|bs| - 1] + [bs[|bs| - 1]]; }
  }

  lemma PayloadOf(p: bytes, defaults: map<u32, Track>)
    ensures ReadReference(p, defaults).Some? ==> |p| >= 24 && ReadReference(p, defaults).value.payload == p
  {
    hide U32, U64;
  }

  lemma MovesIs(e: Reference, tracks: map<u32, FlatTrack>, origin: real)
    requires Scaled(tracks) && |e.payload| >= 24
    ensures var r := RewriteReference(e, tracks, PlansFrom(tracks, origin));
            (r.Some? <==> Moves(e, tracks)) && (r.Some? ==> |r.value.body| == |e.payload|)
  {
    hide Enc64, CeilMovieTime;
  }

  lemma TotalMore(cs: seq<Child>, c: Child)
    ensures TotalSize(cs + [c]) == TotalSize(cs) + 8 + |c.body|
  {
    EmitConcat(cs, [c]);
    assert [c][1..] == [];
  }

  /** All references can be moved exactly when each of them can and their boxes are at most 16 MiB together. */
  lemma {:induction false} ReferencesMove(src: bytes, bs: seq<Box>, defaults: map<u32, Track>, es: seq<Reference>, tracks: map<u32, FlatTrack>, origin: real)
    requires Scaled(tracks) && ReferencesRead(src, bs, defaults) && AreReferences(src, bs, defaults, es)
    ensures var r := RewriteReferences(es, tracks, PlansFrom(tracks, origin));
            && (r.Some? <==> (forall e | e in es :: Moves(e, tracks)) && ReferenceBytes(bs) <= 16777216)
            && (r.Some? ==> TotalSize(r.value) == ReferenceBytes(bs))
    ensures ReferenceBytes(bs) >= 0
    decreases |bs|
  {
    hide RewriteReference, ReadReference, Moves, PlansFrom, ReferenceReads, BodyOf;
    if bs != [] {
      var n := |bs| - 1;
      ReferencesMove(src, bs[..n], defaults, es[..n], tracks, origin);
      assert es == es[..n] + [es[n]];
      LastReads(src, bs, defaults, es);
      MovesIs(es[n], tracks, origin);
      var before, c := RewriteReferences(es[..n], tracks, PlansFrom(tracks, origin)), RewriteReference(es[n], tracks, PlansFrom(tracks, origin));
      if before.Some? && c.Some? { TotalMore(before.value, c.value); }
    }
  }

  lemma LastReads(src: bytes, bs: seq<Box>, defaults: map<u32, Track>, es: seq<Reference>)
    requires bs != [] && ReferencesRead(src, bs, defaults) && AreReferences(src, bs, defaults, es)
    ensures |es| == |bs| && |es[|bs| - 1].payload| >= 24 && |es[|bs| - 1].payload| == bs[|bs| - 1].size - bs[|bs| - 1].header
  {
    hide ReadReference;
    assert bs[|bs| - 1] in bs;
    PayloadOf(BodyOf(src, bs[|bs| - 1]), defaults);
  }

  // ---------- the movie ----------

  /** The references of the file, readable and movable. */
  ghost predicate WellReferenced(src: bytes, refs: seq<Box>, s: Scan) {
    && refs != [] && ReferencesRead(src, refs, s.defaults) && ReferenceBytes(refs) <= 16777216
    && forall b | b in refs :: Moves(ReadReference(BodyOf(src, b), s.defaults).value, s.tracks)
  }

  /** No track has samples whose end no 64-bit movie time can tell. */
  ghost predicate Spanned(tracks: map<u32, FlatTrack>) {
    && Scaled(tracks) && (exists id | id in tracks :: tracks[id].pieces != [])
    && forall id | id in tracks && tracks[id].pieces != [] ::
         PlanOf(tracks[id], Origin(tracks)).delay + PlanOf(tracks[id], Origin(tracks)).duration <= MAX_U64
  }

  lemma MovesAll(src: bytes, bs: seq<Box>, defaults: map<u32, Track>, es: seq<Reference>, tracks: map<u32, FlatTrack>)
    requires ReferencesRead(src, bs, defaults) && AreReferences(src, bs, defaults, es)
    ensures (forall e | e in es :: Moves(e, tracks)) <==> forall b | b in bs :: Moves(ReadReference(BodyOf(src, b), defaults).value, tracks)
  {
    hide ReadReference, Moves;
    if forall e | e in es :: Moves(e, tracks) {
      forall b | b in bs
        ensures Moves(ReadReference(BodyOf(src, b), defaults).value, tracks)
      {
        var k :| 0 <= k < |bs| && bs[k] == b;
        assert es[k] in es;
      }
    }
    if forall b | b in bs :: Moves(ReadReference(BodyOf(src, b), defaults).value, tracks) {
      forall e | e in es
        ensures Moves(e, tracks)
      {
        var k :| 0 <= k < |es| && es[k] == e;
        assert bs[k] in bs;
      }
    }
  }

  lemma SpansAre(tracks: map<u32, FlatTrack>)
    requires Scaled(tracks) && exists id | id in tracks :: tracks[id].pieces != []
    ensures PlansFit(PlansFrom(tracks, Origin(tracks))) <==> Spanned(tracks)
  {
    hide PlanOf, Origin;
    var plans := PlansFrom(tracks, Origin(tracks));
    assert forall id | id in plans :: plans[id] == PlanOf(tracks[id], Origin(tracks));
    assert forall id | id in tracks && tracks[id].pieces != [] :: id in plans;
    if PlansFit(plans) {
      forall id | id in tracks && tracks[id].pieces != []
        ensures PlanOf(tracks[id], Origin(tracks)).delay + PlanOf(tracks[id], Origin(tracks)).duration <= MAX_U64
      {
        assert plans[id].duration <= MAX_U64 - plans[id].delay;
      }
    }
  }

  /** readFlatMovie finishes what the scan has found exactly when a fragment was there and closed, its references can be moved, and its spans can be told. */
  lemma FinishIff(src: bytes, s: Scan)
    requires Scaled(s.tracks)
    ensures FinishMovie(src, s).Flat?
            <==> s.haveFragment && s.pending == [] && s.moov.Some? && WellReferenced(src, s.references, s) && Spanned(s.tracks)
    ensures FinishMovie(src, s).NotFlat? <==> !s.haveFragment
  {
    hide ReadReferences, RewriteReferences, PlansFrom, PlansFit, Longest, ReferencesRead, AreReferences, ReferenceBytes, Moves, ReadReference, Spanned, Origin;
    var refs := s.references;
    ReferencesAre(src, refs, s.defaults);
    if exists id | id in s.tracks :: s.tracks[id].pieces != [] { SpansAre(s.tracks); }
    NeedsSamples(s.tracks);
    if ReferencesRead(src, refs, s.defaults) {
      var es := ReadReferences(src, refs, s.defaults).value;
      MovesAll(src, refs, s.defaults, es, s.tracks);
      if exists id | id in s.tracks :: s.tracks[id].pieces != [] { ReferencesMove(src, refs, s.defaults, es, s.tracks, Origin(s.tracks)); }
      SameCount(src, refs, s.defaults, es);
    }
  }

  lemma NeedsSamples(tracks: map<u32, FlatTrack>)
    ensures Spanned(tracks) ==> exists id | id in tracks :: tracks[id].pieces != []
  {
    hide PlanOf, Origin;
  }

  lemma SameCount(src: bytes, bs: seq<Box>, defaults: map<u32, Track>, es: seq<Reference>)
    requires AreReferences(src, bs, defaults, es)
    ensures es == [] <==> bs == []
  {
  }

  // ---------- the layout ----------

  /** What the emitter needs to know of a recording: its header, its tracks and their place in the movie. */
  ghost function Draft(s: Scan): Movie
    requires s.moov.Some? && Spanned(s.tracks)
  {
    SpansAre(s.tracks);
    var plans := PlansFrom(s.tracks, Origin(s.tracks));
    Movie(s.moov.value, s.metadata, s.tracks, plans, [], Longest(plans))
  }

  /** Both passes write the header, and the view is no longer than an int64 number can tell. */
  ghost predicate LaidOut(m: Movie, referenceBytes: int, size: int) {
    && HeaderFits(m, 0) && NewSize(m) <= 16777216
    && var shift := 8 + NewSize(m) + referenceBytes + 16 - m.moov.size;
       HeaderFits(m, shift) && (shift > 0 ==> size + shift <= MAX_I64)
  }

  /** The size of the new header. */
  ghost function NewSize(m: Movie): int
    requires HeaderFits(m, 0)
  {
    HeaderWritable(m, 0);
    TotalSize(MovieChildren(m, Children(m.metadata).value, 0).value)
  }

  lemma SplicedIff(src: bytes, m: Movie)
    requires m.moov.offset + m.moov.size <= |src|
    ensures Splice(src, m).Spliced? <==> LaidOut(m, TotalSize(m.references), |src|)
  {
    hide MovieChildren, HeaderFits, Emit;
    HeaderWritable(m, 0);
    if NewMovie(m, 0).Some? {
      var d := FinalDelta(m).value;
      HeaderWritable(m, d);
      if HeaderFits(m, d) { MovieSizeIgnoresDelta(m, Children(m.metadata).value, 0, d); }
    }
  }

  /** The references of a movie do not matter to its header. */
  lemma {:induction false} SameChildren(m: Movie, d: Movie, cs: seq<Child>, delta: int)
    requires d == m.(references := [])
    ensures MovieChildren(m, cs, delta) == MovieChildren(d, cs, delta)
    decreases |cs|
  {
    hide DurationBody, TrackChildren, TrakNumber;
    if cs != [] { SameChildren(m, d, cs[1..], delta); }
  }

  lemma DraftLaysOut(m: Movie, d: Movie, referenceBytes: int, size: int)
    requires d == m.(references := [])
    ensures LaidOut(m, referenceBytes, size) <==> LaidOut(d, referenceBytes, size)
  {
    hide MovieChildren, TrackChildFits, TrakNumber, ChildrenFrom;
    DraftFits(m, d, 0);
    if HeaderFits(m, 0) {
      SameChildren(m, d, Children(m.metadata).value, 0);
      DraftFits(m, d, 8 + NewSize(m) + referenceBytes + 16 - m.moov.size);
    }
  }

  lemma DraftFits(m: Movie, d: Movie, delta: int)
    requires d == m.(references := [])
    ensures HeaderFits(m, delta) <==> HeaderFits(d, delta)
  {
    hide TrackChildFits, TrakNumber, ChildrenFrom, LongEnough;
    if Children(m.metadata).Some? {
      forall c | c in Children(m.metadata).value
        ensures MovieChildFits(m, c, delta) <==> MovieChildFits(d, c, delta)
      {
      }
    }
  }

  // ---------- the file ----------

  /** What the scan has found makes a flat movie that can be laid out. */
  ghost predicate Tellable(src: bytes, refs: seq<Box>, s: Scan) {
    && s.moov.Some? && WellReferenced(src, refs, s) && Spanned(s.tracks)
    && LaidOut(Draft(s), ReferenceBytes(refs), |src|)
  }

  /** The file is a recording of this program, with at least one fragment and none left open, that can be told as a flat movie. */
  ghost predicate Presentable(src: bytes) {
    && |src| >= 8 && U32(src, 4) == FTYP && Accepted(src)
    && LastKind(BoxesOf(src), MOOF, |BoxesOf(src)|) >= 0 && OpenRuns(src, BoxesOf(src), |BoxesOf(src)|) == []
    && ScanFrom(src, 0, START).Going? && Tellable(src, OfKind(BoxesOf(src), PRFT), ScanFrom(src, 0, START).s)
  }

  /** The file is of another kind: not MP4, or found to be no recording of this program, or without fragments. */
  ghost predicate Foreign(src: bytes) {
    || |src| < 8 || U32(src, 4) != FTYP || AloneFrom(src, BoxesOf(src), 0)
    || (Accepted(src) && LastKind(BoxesOf(src), MOOF, |BoxesOf(src)|) < 0)
  }

  lemma ScanEnd(src: bytes)
    requires Accepted(src)
    ensures ScanFrom(src, 0, START).Going?
    ensures var bs, s := BoxesOf(src), ScanFrom(src, 0, START).s;
            && s.haveFragment == (LastKind(bs, MOOF, |bs|) >= 0) && s.pending == OpenRuns(src, bs, |bs|) && s.references == OfKind(bs, PRFT)
            && (s.haveFragment ==> s.moov.Some?) && (s.moov.Some? ==> s.moov.value.offset + s.moov.value.size <= |src|) && Scaled(s.tracks)
  {
    hide ScanFrom, TracksAt, Accepted, OpenRuns, OfKind, ReadTracks, AllPlaced, TracksAhead;
    ScanAccepts(src);
    StartHolds(src);
    ScanKeeps(src, 0, START);
    assert BoxesOf(src)[..|BoxesOf(src)|] == BoxesOf(src);
  }

  lemma FlatIsTellable(src: bytes, s: Scan)
    requires Scaled(s.tracks) && s.haveFragment && s.pending == [] && s.moov.Some? && s.moov.value.offset + s.moov.value.size <= |src|
    ensures match FinishMovie(src, s)
            case Flat(m) => Splice(src, m).Spliced? <==> Tellable(src, s.references, s)
            case _ => !Tellable(src, s.references, s)
  {
    hide Splice, WellReferenced, Spanned, LaidOut, Longest, PlansFrom, PlansFit, RewriteReferences, ReadReferences, ReferenceBytes, Origin;
    FinishIff(src, s);
    if FinishMovie(src, s).Flat? {
      var m := FinishMovie(src, s).movie;
      FinishFacts(src, s);
      SplicedIff(src, m);
      DraftLaysOut(m, Draft(s), TotalSize(m.references), |src|);
      MovedBytes(src, s);
    }
  }

  lemma MovedBytes(src: bytes, s: Scan)
    requires Scaled(s.tracks) && FinishMovie(src, s).Flat?
    ensures TotalSize(FinishMovie(src, s).movie.references) == ReferenceBytes(s.references)
  {
    hide Longest, PlansFrom, PlansFit, RewriteReferences, ReadReferences, ReferenceBytes, Origin, ReferencesRead, AreReferences;
    FinishFacts(src, s);
    ReferencesAre(src, s.references, s.defaults);
    ReferencesMove(src, s.references, s.defaults, ReadReferences(src, s.references, s.defaults).value, s.tracks, Origin(s.tracks));
  }

  /** NormalizedMP4 presents a file exactly when it is presentable, leaves it alone exactly when it is foreign, and refuses every other. */
  lemma NormalizedExactly(src: bytes)
    ensures Normalize(src).Spliced? <==> Presentable(src)
    ensures Normalize(src).Plain? <==> Foreign(src)
  {
    hide ScanFrom, FinishMovie, Splice, Accepted, OpenRuns, OfKind, Tellable, AloneFrom, BoxesOf, U32;
    ScanAccepts(src);
    if Accepted(src) {
      ScanEnd(src);
      var s := ScanFrom(src, 0, START).s;
      NotFlatWithout(src, s);
      if s.haveFragment && s.pending == [] { FlatIsTellable(src, s); }
    }
    NeverPlain(src);
  }

  /** A recording with fragments, none of them left open, whose references and spans can be told. */
  ghost predicate Finished(src: bytes) {
    && Accepted(src) && LastKind(BoxesOf(src), MOOF, |BoxesOf(src)|) >= 0 && OpenRuns(src, BoxesOf(src), |BoxesOf(src)|) == []
    && ScanFrom(src, 0, START).Going?
    && WellReferenced(src, OfKind(BoxesOf(src), PRFT), ScanFrom(src, 0, START).s) && Spanned(ScanFrom(src, 0, START).s.tracks)
  }

  /** No recording of this program, or none with fragments. */
  ghost predicate NoFlatMovie(src: bytes) {
    AloneFrom(src, BoxesOf(src), 0) || (Accepted(src) && LastKind(BoxesOf(src), MOOF, |BoxesOf(src)|) < 0)
  }

  /** readFlatMovie makes a movie of exactly the finished recordings, and passes exactly the files that are none. */
  lemma FlatExactly(src: bytes)
    ensures ReadFlatMovie(src).Flat? <==> Finished(src)
    ensures ReadFlatMovie(src).NotFlat? <==> NoFlatMovie(src)
  {
    hide ScanFrom, FinishMovie, Accepted, OpenRuns, OfKind, WellReferenced, Spanned, AloneFrom, BoxesOf;
    ScanAccepts(src);
    if Accepted(src) {
      ScanEnd(src);
      FinishIff(src, ScanFrom(src, 0, START).s);
    }
    NeverPlain(src);
  }

  lemma NotFlatWithout(src: bytes, s: Scan)
    ensures FinishMovie(src, s).NotFlat? <==> !s.haveFragment
    ensures FinishMovie(src, s).Flat? ==> s.haveFragment && s.pending == []
  {
    hide ReadReferences, RewriteReferences, PlansFrom, PlansFit, Longest, Origin;
  }

  lemma NeverPlain(src: bytes)
    ensures forall m :: !Splice(src, m).Plain?
    ensures !(Accepted(src) && AloneFrom(src, BoxesOf(src), 0))
  {
    hide FinalMovie, FinalDelta, ViewOf, Accepted, AloneFrom, ScanFrom;
    ScanAccepts(src);
  }
}
