/** What the emitter of internal/recordingmedia/flat_boxes.go carries over: boxes it does not rewrite stay, byte for byte and in order. */
module Carried {
  import opened Bytes
  import opened Options
  import opened Boxes
  import opened Samples
  import opened SampleTables
  import opened FlatScan
  import opened FlatMovie
  import opened MovieBoxes
  import opened Padding

  /** The children of other kinds, in order. */
  function Others(cs: seq<Child>, kinds: set<u32>): seq<Child> {
    if cs == [] then [] else if cs[0].kind in kinds then Others(cs[1..], kinds) else [cs[0]] + Others(cs[1..], kinds)
  }

  lemma {:induction false} OthersConcat(a: seq<Child>, b: seq<Child>, kinds: set<u32>)
    ensures Others(a + b, kinds) == Others(a, kinds) + Others(b, kinds)
    decreases |a|
  {
    if a == [] {
      assert a + b == b;
    } else {
      assert (a + b)[1..] == a[1..] + b;
      OthersConcat(a[1..], b, kinds);
    }
  }

  const MOVIE_KINDS: set<u32> := {MVHD, MVEX, TRAK}
  const TRACK_KINDS: set<u32> := {TKHD, EDTS, MDIA}

  lemma OthersOfOne(c: Child, kinds: set<u32>)
    ensures Others([c], kinds) == if c.kind in kinds then [] else [c]
  {
    assert [c][1..] == [];
  }

  lemma MovieChildCarries(m: Movie, c: Child, delta: int)
    requires MovieChild(m, c, delta).Some?
    ensures var r := MovieChild(m, c, delta).value;
            && Others(r, MOVIE_KINDS) == Others([c], MOVIE_KINDS) && |r| <= 1
            && forall x | x in r :: x.kind == c.kind != MVEX
  {
    hide DurationBody, TrackChildren, TrakNumber, ChildrenFrom, Emit;
    var r := MovieChild(m, c, delta).value;
    OthersOfOne(c, MOVIE_KINDS);
    if r != [] {
      assert r == [r[0]];
      OthersOfOne(r[0], MOVIE_KINDS);
    }
  }

  /** A new movie header has the other boxes of the old one unchanged, and no mvex box. */
  lemma {:induction false} MovieCarries(m: Movie, cs: seq<Child>, delta: int)
    requires MovieChildren(m, cs, delta).Some?
    ensures Others(MovieChildren(m, cs, delta).value, MOVIE_KINDS) == Others(cs, MOVIE_KINDS)
    ensures forall c | c in MovieChildren(m, cs, delta).value :: c.kind != MVEX
    decreases |cs|
  {
    hide MovieChild, Others;
    if cs != [] {
      MovieChildCarries(m, cs[0], delta);
      MovieCarries(m, cs[1..], delta);
      OthersConcat(MovieChild(m, cs[0], delta).value, MovieChildren(m, cs[1..], delta).value, MOVIE_KINDS);
      OthersConcat([cs[0]], cs[1..], MOVIE_KINDS);
      assert [cs[0]] + cs[1..] == cs;
    }
  }

  lemma TrackChildCarries(t: FlatTrack, p: Plan, c: Child, delta: int)
    requires TrackChild(t, p, c, delta).Some?
    ensures Others(TrackChild(t, p, c, delta).value, TRACK_KINDS) == Others([c], TRACK_KINDS)
  {
    hide DurationBody, MediaChildren, ChildrenFrom, Emit, EditBytes;
    var r := TrackChild(t, p, c, delta).value;
    OthersOfOne(c, TRACK_KINDS);
    if |r| == 1 {
      assert r == [r[0]];
      OthersOfOne(r[0], TRACK_KINDS);
    } else {
      assert r == [r[0]] + [r[1]];
      OthersConcat([r[0]], [r[1]], TRACK_KINDS);
      OthersOfOne(r[0], TRACK_KINDS);
      OthersOfOne(r[1], TRACK_KINDS);
    }
  }

  /** A new trak box has the other boxes of the old one unchanged. */
  lemma {:induction false} TrackCarries(t: FlatTrack, p: Plan, cs: seq<Child>, delta: int)
    requires TrackChildren(t, p, cs, delta).Some?
    ensures Others(TrackChildren(t, p, cs, delta).value, TRACK_KINDS) == Others(cs, TRACK_KINDS)
    decreases |cs|
  {
    hide TrackChild, Others;
    if cs == [] {
      assert TrackChildren(t, p, cs, delta).value == cs;
    } else {
      TrackChildCarries(t, p, cs[0], delta);
      TrackCarries(t, p, cs[1..], delta);
      OthersConcat(TrackChild(t, p, cs[0], delta).value, TrackChildren(t, p, cs[1..], delta).value, TRACK_KINDS);
      OthersConcat([cs[0]], cs[1..], TRACK_KINDS);
      assert [cs[0]] + cs[1..] == cs;
    }
  }

  /** In an mdia or minf box every box keeps its place, and all but mdhd, minf and stbl boxes their contents. */
  lemma {:induction false} MediaCarries(t: FlatTrack, p: Plan, cs: seq<Child>, delta: int, i: nat)
    requires MediaChildren(t, p, cs, delta).Some? && i < |cs|
    ensures var r := MediaChildren(t, p, cs, delta).value;
            |r| == |cs| && r[i].kind == cs[i].kind && (cs[i].kind != MDHD && cs[i].kind != MINF && cs[i].kind != STBL ==> r[i] == cs[i])
    decreases |cs|
  {
    hide DurationBody, StblBody, ChildrenFrom;
    if i > 0 {
      MediaCarries(t, p, cs[1..], delta, i - 1);
      hide MediaChild;
    }
  }

  /** A new stbl box starts with the sample descriptions of the old one. */
  lemma {:induction false} DescriptionsCarried(cs: seq<Child>)
    requires Descriptions(cs).Some?
    ensures Descriptions(cs).value == Padding.Only(cs, {STSD})
    decreases |cs|
  {
    hide U32;
    if cs != [] {
      HeadDescribed(cs);
      DescriptionsCarried(cs[1..]);
      hide Descriptions;
    }
  }

  lemma HeadDescribed(cs: seq<Child>)
    requires cs != [] && Descriptions(cs).Some?
    ensures Descriptions(cs[1..]).Some?
    ensures Descriptions(cs).value == if cs[0].kind == STSD then [cs[0]] + Descriptions(cs[1..]).value else Descriptions(cs[1..]).value
  {
    hide U32;
  }

  lemma StblCarries(cs: seq<Child>, video: bool, ss: seq<Sample>, chunks: seq<Chunk>, shift: int, delta: int)
    requires StblChildren(cs, video, ss, chunks, shift, delta).Some?
    ensures StblChildren(cs, video, ss, chunks, shift, delta).value == Padding.Only(cs, {STSD}) + Tables(video, ss, chunks, shift, delta)
  {
    hide Tables, CompositionsFit, OffsetFits, Descriptions;
    DescriptionsCarried(cs);
  }
}
