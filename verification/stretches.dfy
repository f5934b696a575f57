/** Stretches of samples, each with a clock of its own, against one clock for all of them. */
module Stretches {
  import opened Samples
  import opened SourceTruth

  /** Samples that decode one after another from `first` on. */
  datatype Stretch = Stretch(first: int, samples: seq<Sample>)

  function Joined(xs: seq<Stretch>): seq<Sample> {
    if xs == [] then [] else Joined(xs[..|xs| - 1]) + xs[|xs| - 1].samples
  }

  /** Each stretch on its own clock. */
  function OwnTimes(xs: seq<Stretch>): seq<int> {
    if xs == [] then [] else OwnTimes(xs[..|xs| - 1]) + TimesFrom(xs[|xs| - 1].samples, xs[|xs| - 1].first)
  }

  /** Each stretch starts where one clock, started at `first`, has come by then. */
  predicate Steady(xs: seq<Stretch>, first: int) {
    forall k | 0 <= k < |xs| :: xs[k].first == first + Durations(Joined(xs[..k]))
  }

  predicate NonEmpty(xs: seq<Stretch>) { forall x | x in xs :: x.samples != [] }

  lemma TimesDiffer(ss: seq<Sample>, a: int, b: int)
    requires ss != []
    ensures TimesFrom(ss, a) == TimesFrom(ss, b) <==> a == b
  {
    assert TimesFrom(ss, a)[0] == a + Durations(ss[..0]) + ss[0].cts;
    assert TimesFrom(ss, b)[0] == b + Durations(ss[..0]) + ss[0].cts;
  }

  lemma SplitEqual(a: seq<int>, b: seq<int>, c: seq<int>, d: seq<int>)
    requires |a| == |c|
    ensures a + b == c + d <==> a == c && b == d
  {
    if a + b == c + d {
      assert a == (a + b)[..|a|] && c == (c + d)[..|a|];
      assert b == (a + b)[|a|..] && d == (c + d)[|a|..];
    }
  }

  lemma SteadySplit(xs: seq<Stretch>, first: int)
    requires xs != []
    ensures var n := |xs| - 1;
            Steady(xs, first) <==> Steady(xs[..n], first) && xs[n].first == first + Durations(Joined(xs[..n]))
  {
    hide Durations, Joined;
    var n := |xs| - 1;
    assert forall k | 0 <= k <= n :: xs[..n][..k] == xs[..k];
  }

  /** One clock gives every sample the time of its own stretch exactly when every stretch starts on that clock. */
  lemma {:induction false} SteadyTimes(xs: seq<Stretch>, first: int)
    requires NonEmpty(xs)
    ensures |OwnTimes(xs)| == |Joined(xs)|
    ensures OwnTimes(xs) == TimesFrom(Joined(xs), first) <==> Steady(xs, first)
    decreases |xs|
  {
    hide Durations, TimesFrom, Steady;
    if xs == [] {
      EmptySteady(first);
    } else {
      var n := |xs| - 1;
      SteadyTimes(xs[..n], first);
      SteadySplit(xs, first);
      var before, last := Joined(xs[..n]), xs[n];
      assert last in xs;
      TimesConcat(before, last.samples, first);
      SplitEqual(OwnTimes(xs[..n]), TimesFrom(last.samples, last.first), TimesFrom(before, first), TimesFrom(last.samples, first + Durations(before)));
      TimesDiffer(last.samples, last.first, first + Durations(before));
    }
  }

  lemma EmptySteady(first: int)
    ensures Steady([], first) && OwnTimes([]) == [] && TimesFrom(Joined([]), first) == []
  {
  }

  lemma JoinedLast(xs: seq<Stretch>)
    requires xs != []
    ensures Joined(xs) == Joined(xs[..|xs| - 1]) + xs[|xs| - 1].samples
    ensures Durations(Joined(xs)) == Durations(Joined(xs[..|xs| - 1])) + Durations(xs[|xs| - 1].samples)
  {
    SumsConcat(Joined(xs[..|xs| - 1]), xs[|xs| - 1].samples);
  }

  lemma JoinedNothing()
    ensures Joined([]) == [] && Durations([]) == 0
  {
  }
}
