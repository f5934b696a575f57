/**
 The window of continuous health a viewer has to show before its update may be
 committed (internal/store/viewer_update_validation.go).  Times are nanoseconds;
 0 is the zero time.  A freshly drawn token is a parameter.
 */
module CommitToken {
  import opened Options

  type Time = int

  datatype Observation = Observation(
    viewer: string,
    command: int,
    payload: string,
    transaction: string,
    generation: int,
    version: string,
    artifact: string,
    healthy: bool)

  datatype Row = Row(o: Observation, healthySince: Option<Time>, lastObserved: Time, token: string)

  datatype Limits = Limits(healthyFor: int, maxGap: int)

  type Table = map<string, Row>

  // ---------- normalisation and checks ----------

  predicate Blank(c: char) { c == ' ' || '\t' <= c <= '\r' }

  function TrimLeft(s: string): string {
    if s != [] && Blank(s[0]) then TrimLeft(s[1..]) else s
  }

  function TrimRight(s: string): string {
    if s != [] && Blank(s[|s| - 1]) then TrimRight(s[..|s| - 1]) else s
  }

  function Trim(s: string): string { TrimRight(TrimLeft(s)) }

  function LowerChar(c: char): char { if 'A' <= c <= 'Z' then c - 'A' + 'a' else c }

  function Lower(s: string): string { seq(|s|, i requires 0 <= i < |s| => LowerChar(s[i])) }

  predicate HexDigit(c: char) { '0' <= c <= '9' || 'a' <= c <= 'f' }

  function Normalized(o: Observation): Observation {
    Observation(Trim(o.viewer), o.command, Trim(o.payload), Trim(o.transaction), o.generation, Trim(o.version), Lower(Trim(o.artifact)), o.healthy)
  }

  /** The checks, on a normalised observation. */
  predicate Valid(o: Observation, now: Time, lim: Limits) {
    && o.viewer != "" && o.command > 0 && o.payload != "" && o.transaction != "" && o.generation > 0 && o.version != ""
    && |o.artifact| == 64 && (forall c | c in o.artifact :: HexDigit(c))
    && lim.healthyFor > 0 && lim.maxGap > 0 && now != 0
  }

  /** Everything but the health bit. */
  predicate SameUpdate(a: Observation, b: Observation) { a.(healthy := b.healthy) == b }

  // ---------- one observation ----------

  predicate Continues(row: Row, o: Observation, now: Time, lim: Limits) {
    SameUpdate(row.o, o) && row.healthySince.Some? && row.lastObserved <= now && now - row.lastObserved <= lim.maxGap
  }

  /** The row an observation leaves. */
  function NextRow(row: Option<Row>, o: Observation, now: Time, lim: Limits, drawn: string): Row {
    if !o.healthy then Row(o, None, now, "")
    else
      var goesOn := row.Some? && Continues(row.value, o, now, lim);
      var since := if goesOn then row.value.healthySince.value else now;
      var token := if goesOn then row.value.token else "";
      Row(o, Some(since), now, if token == "" && now - since >= lim.healthyFor then drawn else token)
  }

  function Lookup(t: Table, viewer: string): Option<Row> { if viewer in t then Some(t[viewer]) else None }

  datatype Event = Observe(o: Observation, at: Time, drawn: string) | Reset(viewer: string)

  predicate Accepted(e: Event, lim: Limits) {
    match e
    case Observe(o, at, _) => Valid(Normalized(o), at, lim)
    case Reset(_) => true
  }

  function ViewerOf(e: Event): string {
    match e
    case Observe(o, _, _) => Trim(o.viewer)
    case Reset(v) => Trim(v)
  }

  function Apply(t: Table, e: Event, lim: Limits): Table {
    if !Accepted(e, lim) then t
    else match e
      case Observe(o, at, drawn) => t[ViewerOf(e) := NextRow(Lookup(t, ViewerOf(e)), Normalized(o), at, lim, drawn)]
      case Reset(v) => t - {ViewerOf(e)}
  }

  function TokenOf(t: Table, viewer: string): string { if viewer in t then t[viewer].token else "" }

  /** The persisted rows. */
  class ValidationStore {
    var rows: Table

    constructor ()
      ensures rows == map[]
    {
      rows := map[];
    }

    /** ObserveViewerUpdateValidation: None is the validation error. */
    method ObserveValidation(o: Observation, now: Time, lim: Limits, drawn: string) returns (token: Option<string>)
      modifies this
      ensures rows == Apply(old(rows), Observe(o, now, drawn), lim)
      ensures token == if Accepted(Observe(o, now, drawn), lim) then Some(TokenOf(rows, Trim(o.viewer))) else None
    {
      var n := Normalized(o);
      if !Valid(n, now, lim) { return None; }
      var current := Lookup(rows, n.viewer);
      var goesOn := current.Some? && SameUpdate(current.value.o, n) && current.value.healthySince.Some?
                    && !(now < current.value.lastObserved) && now - current.value.lastObserved <= lim.maxGap;
      var since: Option<Time>, commitToken := None, "";
      if n.healthy {
        if goesOn {
          since, commitToken := current.value.healthySince, current.value.token;
        } else {
          since := Some(now);
        }
        if commitToken == "" && now - since.value >= lim.healthyFor { commitToken := drawn; }
      }
      rows := rows[n.viewer := Row(n, since, now, commitToken)];
      return Some(commitToken);
    }

    /** ResetViewerUpdateValidation. */
    method ResetValidation(viewer: string)
      modifies this
      ensures forall lim :: rows == Apply(old(rows), Reset(viewer), lim)
    {
      rows := rows - {Trim(viewer)};
    }
  }

  // ---------- histories ----------

  function TableAfter(h: seq<Event>, lim: Limits): Table {
    if h == [] then map[] else Apply(TableAfter(h[..|h| - 1], lim), h[|h| - 1], lim)
  }

  predicate Concerns(e: Event, v: string, lim: Limits) { Accepted(e, lim) && ViewerOf(e) == v }

  /** The accepted events of one viewer, in order. */
  function EventsOf(h: seq<Event>, v: string, lim: Limits): seq<Event> {
    if h == [] then []
    else
      var before := EventsOf(h[..|h| - 1], v, lim);
      if Concerns(h[|h| - 1], v, lim) then before + [h[|h| - 1]] else before
  }

  predicate Healthy(e: Event) { e.Observe? && e.o.healthy }

  /** Two healthy observations of one update, at most the gap apart and not back in time. */
  predicate Joined(a: Event, b: Event, lim: Limits) {
    Healthy(a) && Healthy(b) && SameUpdate(Normalized(a.o), Normalized(b.o)) && 0 <= b.at - a.at <= lim.maxGap
  }

  /** An unbroken run of healthy observations. */
  predicate Continuous(es: seq<Event>, lim: Limits) {
    es != [] && Healthy(es[0]) && forall i | 0 < i < |es| :: Joined(es[i - 1], es[i], lim)
  }

  function StreakStart(es: seq<Event>, lim: Limits): (k: nat)
    requires es != []
    ensures k <= |es|
  {
    var n := |es| - 1;
    if !Healthy(es[n]) then n + 1
    else if n > 0 && Joined(es[n - 1], es[n], lim) then StreakStart(es[..n], lim)
    else n
  }

  lemma OneMoreJoins(es: seq<Event>, e: Event, lim: Limits)
    requires es != []
    ensures Continuous(es + [e], lim) <==> Continuous(es, lim) && Joined(es[|es| - 1], e, lim)
  {
    hide Joined, Healthy;
    var all := es + [e];
    if Continuous(all, lim) {
      forall i | 0 < i < |es|
        ensures Joined(es[i - 1], es[i], lim)
      {
        assert Joined(all[i - 1], all[i], lim);
      }
      assert Joined(all[|es| - 1], all[|es|], lim);
    }
  }

  /** The continuous suffixes are those from the start of the streak on. */
  lemma {:induction false} StreakIsLongest(es: seq<Event>, lim: Limits, k: nat)
    requires k < |es|
    ensures StreakStart(es, lim) <= k <==> Continuous(es[k..], lim)
    decreases |es|
  {
    var n := |es| - 1;
    hide Joined, Continuous;
    if k < n {
      StreakIsLongest(es[..n], lim, k);
      OneMoreJoins(es[..n][k..], es[n], lim);
      assert es[k..] == es[..n][k..] + [es[n]];
      JoinedHealthy(es[n - 1], es[n], lim);
    } else {
      assert es[k..] == [es[n]];
      OnlyOne(es[n], lim);
      StreakBounds(es, lim);
    }
  }

  lemma OnlyOne(e: Event, lim: Limits)
    ensures Continuous([e], lim) <==> Healthy(e)
  {
  }

  lemma JoinedHealthy(a: Event, b: Event, lim: Limits)
    ensures Joined(a, b, lim) ==> Healthy(a) && Healthy(b)
  {
  }

  lemma {:induction false} StreakBounds(es: seq<Event>, lim: Limits)
    requires es != []
    ensures StreakStart(es, lim) < |es| <==> Healthy(es[|es| - 1])
    decreases |es|
  {
    if |es| > 1 { StreakBounds(es[..|es| - 1], lim); }
  }

  predicate FreshTokens(h: seq<Event>) {
    forall e | e in h :: e.Observe? ==> e.drawn != ""
  }

  /** A viewer's row, read off its events. */
  predicate RowTells(t: Table, v: string, es: seq<Event>, lim: Limits) {
    if es == [] || es[|es| - 1].Reset? then v !in t
    else
      var last, k := es[|es| - 1], StreakStart(es, lim);
      && v in t && t[v].o == Normalized(last.o) && t[v].lastObserved == last.at
      && (if k == |es| then t[v].healthySince == None && t[v].token == ""
          else
            && es[k].Observe? && t[v].healthySince == Some(es[k].at)
            && (t[v].token != "" <==> last.at - es[k].at >= lim.healthyFor))
  }

  lemma {:induction false} StreakStartHealthy(es: seq<Event>, lim: Limits)
    requires es != [] && StreakStart(es, lim) < |es|
    ensures Healthy(es[StreakStart(es, lim)])
    decreases |es|
  {
    var n := |es| - 1;
    if n > 0 && Joined(es[n - 1], es[n], lim) {
      StreakBounds(es[..n], lim);
      StreakStartHealthy(es[..n], lim);
    }
  }

  lemma NothingYet(v: string, lim: Limits)
    ensures RowTells(map[], v, [], lim)
  {
  }

  lemma RowStep(t: Table, v: string, es: seq<Event>, e: Event, lim: Limits)
    requires RowTells(t, v, es, lim) && Concerns(e, v, lim) && (e.Observe? ==> e.drawn != "")
    ensures RowTells(Apply(t, e, lim), v, es + [e], lim)
  {
    assert e.Observe? ==> Normalized(e.o).healthy == e.o.healthy;
    assert ViewerOf(e) == v;
    hide Normalized, Valid, ViewerOf, SameUpdate;
    var all := es + [e];
    var n := |es|;
    assert all[..n] == es;
    StreakBounds(all, lim);
    if n > 0 { StreakBounds(es, lim); }
    if e.Observe? && e.o.healthy && n > 0 && Joined(es[n - 1], e, lim) { StreakStartHealthy(es, lim); }
  }

  lemma {:induction false} RowFollowsEvents(h: seq<Event>, v: string, lim: Limits)
    requires FreshTokens(h)
    ensures RowTells(TableAfter(h, lim), v, EventsOf(h, v, lim), lim)
    decreases |h|
  {
    hide RowTells;
    if h == [] {
      NothingYet(v, lim);
    } else {
      var n := |h| - 1;
      RowFollowsEvents(h[..n], v, lim);
      if Concerns(h[n], v, lim) {
        RowStep(TableAfter(h[..n], lim), v, EventsOf(h[..n], v, lim), h[n], lim);
      } else {
        OthersKept(TableAfter(h[..n], lim), v, EventsOf(h[..n], v, lim), h[n], lim);
      }
    }
  }

  lemma OthersKept(t: Table, v: string, es: seq<Event>, e: Event, lim: Limits)
    requires RowTells(t, v, es, lim) && !Concerns(e, v, lim)
    ensures RowTells(Apply(t, e, lim), v, es, lim)
  {
    hide NextRow, StreakStart;
  }

  function Span(es: seq<Event>): int
    requires es != [] && es[0].Observe? && es[|es| - 1].Observe?
  {
    es[|es| - 1].at - es[0].at
  }

  ghost predicate LongEnough(es: seq<Event>, lim: Limits) {
    && Continuous(es, lim)
    && es[|es| - 1].Observe? && Span(es) >= lim.healthyFor
  }

  /**
   A commit token is out exactly when the viewer's latest events are an unbroken
   run of healthy observations of one update that spans the required time.
   */
  lemma TokenMeansHealth(h: seq<Event>, v: string, lim: Limits)
    requires FreshTokens(h)
    ensures var es := EventsOf(h, v, lim);
            TokenOf(TableAfter(h, lim), v) != "" <==> exists k :: 0 <= k < |es| && LongEnough(es[k..], lim)
  {
    RowFollowsEvents(h, v, lim);
    TokenMeansRun(TableAfter(h, lim), v, EventsOf(h, v, lim), lim);
  }

  lemma TokenMeansRun(t: Table, v: string, es: seq<Event>, lim: Limits)
    requires RowTells(t, v, es, lim)
    ensures TokenOf(t, v) != "" <==> exists k :: 0 <= k < |es| && LongEnough(es[k..], lim)
  {
    hide StreakStart, Joined, Normalized;
    if es != [] {
      var start := StreakStart(es, lim);
      StreakBounds(es, lim);
      if start < |es| { StreakIsLongest(es, lim, start); }
      if TokenOf(t, v) != "" { assert LongEnough(es[start..], lim); }
      forall k | 0 <= k < |es| && LongEnough(es[k..], lim)
        ensures TokenOf(t, v) != ""
      {
        StreakIsLongest(es, lim, k);
        TimesAscend(es[start..], lim, k - start);
      }
    }
  }

  lemma {:induction false} TimesAscend(es: seq<Event>, lim: Limits, k: nat)
    requires Continuous(es, lim) && k < |es|
    ensures es[0].Observe? && es[k].Observe? && 0 <= es[k].at - es[0].at <= k * lim.maxGap
    decreases k
  {
    if k > 0 {
      TimesAscend(es, lim, k - 1);
      assert Joined(es[k - 1], es[k], lim);
      assert k * lim.maxGap == (k - 1) * lim.maxGap + lim.maxGap;
    }
  }

  /** Such a run cannot be short: ceil(healthyFor / maxGap) steps, and one observation more. */
  lemma EnoughObservations(es: seq<Event>, lim: Limits)
    requires LongEnough(es, lim)
    ensures (|es| - 1) * lim.maxGap >= lim.healthyFor
  {
    hide Joined;
    TimesAscend(es, lim, |es| - 1);
  }

  lemma TokenStep(t: Table, v: string, es: seq<Event>, e: Event, lim: Limits)
    requires RowTells(t, v, es, lim) && lim.healthyFor > 0
    ensures var was, now := TokenOf(t, v), TokenOf(Apply(t, e, lim), v);
            if !Concerns(e, v, lim) then now == was
            else if es != [] && Joined(es[|es| - 1], e, lim) then was != "" ==> now == was
            else now == ""
  {
    assert e.Observe? ==> Normalized(e.o).healthy == e.o.healthy;
    if es != [] { StreakBounds(es, lim); }
    hide Normalized, Valid, StreakStart, SameUpdate;
  }

  /** What one more event does to a token that is out: it stays as it is until the run breaks, and is then gone at once. */
  lemma TokenLives(h: seq<Event>, e: Event, v: string, lim: Limits)
    requires FreshTokens(h) && lim.healthyFor > 0
    ensures var es := EventsOf(h, v, lim);
            var was, now := TokenOf(TableAfter(h, lim), v), TokenOf(TableAfter(h + [e], lim), v);
            if !Concerns(e, v, lim) then now == was
            else if es != [] && Joined(es[|es| - 1], e, lim) then was != "" ==> now == was
            else now == ""
  {
    hide Apply, TokenOf, RowTells, Concerns, Joined;
    assert (h + [e])[..|h|] == h;
    RowFollowsEvents(h, v, lim);
    TokenStep(TableAfter(h, lim), v, EventsOf(h, v, lim), e, lim);
  }
}
