/**
 What a heartbeat contributes to the window of health
 (viewerUpdateCommitToken in cmd/camstationd/routes_viewers.go), and what a
 commit token therefore says about the heartbeats before it.
 */
module UpdateGate {
  import opened Options
  import opened CommitToken

  const SECOND := 1_000_000_000
  const LIMITS := Limits(30 * SECOND, 15 * SECOND)

  datatype CommandState = Pending | Delivered | Acknowledged | Running | Over

  /** operationKey is what an accepted result recorded; expectedKey is the key an update of this version, digest and generation runs under. */
  datatype Command = Command(
    id: int,
    viewer: string,
    isUpdate: bool,
    payload: string,
    generation: int,
    version: string,
    artifact: string,
    state: CommandState,
    operationKey: string,
    expectedKey: string)

  datatype Heartbeat = Heartbeat(
    viewer: string,
    agentState: string, agentVersion: string, agentArtifact: string,
    controlState: string, controlAt: Option<Time>,
    viewerState: string, viewerAt: Option<Time>,
    rendererState: string, rendererAt: Option<Time>,
    updateState: string, updateCommand: int, updatePayload: string, updateGeneration: int,
    updateVersion: string, updateArtifact: string, transaction: string)

  /** Lost: the command a release asks for could not be read. */
  datatype Desired = NoRelease | Lost | Wanted(command: Command)

  datatype Beat = Beat(heartbeat: Heartbeat, desired: Desired, now: Time, drawn: string)

  predicate FreshSignal(at: Option<Time>, now: Time) {
    at.Some? && at.value <= now + 5 * SECOND && now - at.value <= LIMITS.maxGap
  }

  predicate EqualFold(a: string, b: string) { Lower(a) == Lower(b) }

  predicate IdentityMatches(b: Heartbeat, c: Command) {
    && c.isUpdate && b.viewer == c.viewer && b.updateState == "installer_launched" && b.updateCommand == c.id
    && b.updatePayload == c.payload && b.updateGeneration == c.generation && b.updateVersion == c.version
    && EqualFold(b.updateArtifact, c.artifact)
  }

  /** A command in progress starts running with the first matching heartbeat; a recorded key that differs is an error. */
  function Started(b: Heartbeat, c: Command): Option<Command> {
    if c.state != Running && c.state != Over && IdentityMatches(b, c) && b.transaction == c.expectedKey then
      var key := Trim(b.transaction);
      if c.operationKey == "" || key == "" || c.operationKey == key
      then Some(c.(state := Running, operationKey := if key == "" then c.operationKey else key))
      else None
    else Some(c)
  }

  predicate Exact(b: Heartbeat, c: Command) {
    && c.state == Running && c.operationKey != "" && IdentityMatches(b, c)
    && Trim(b.transaction) == c.operationKey && Lower(Trim(b.updateArtifact)) == c.artifact
  }

  predicate AllHealthy(b: Heartbeat, c: Command, now: Time) {
    && b.agentState == "online" && b.agentVersion == c.version && EqualFold(b.agentArtifact, c.artifact)
    && b.controlState == "online" && FreshSignal(b.controlAt, now)
    && b.viewerState == "running" && FreshSignal(b.viewerAt, now)
    && b.rendererState == "ready" && FreshSignal(b.rendererAt, now)
  }

  /** What the validator is told; None when the request fails before. */
  function EventOf(beat: Beat): Option<Event> {
    var b := beat.heartbeat;
    match beat.desired
    case NoRelease => Some(Reset(b.viewer))
    case Lost => None
    case Wanted(command) =>
      match Started(b, command)
      case None => None
      case Some(c) =>
        if !Exact(b, c) then Some(Reset(b.viewer))
        else Some(Observe(Observation(b.viewer, c.id, c.payload, Trim(b.transaction), c.generation, c.version, c.artifact,
                                      AllHealthy(b, c, beat.now)), beat.now, beat.drawn))
  }

  method TokenForHeartbeat(store: ValidationStore, beat: Beat) returns (token: Option<string>)
    modifies store
    ensures match EventOf(beat)
            case None => token == None && store.rows == old(store.rows)
            case Some(e) =>
              && store.rows == Apply(old(store.rows), e, LIMITS)
              && (if e.Reset? then token == Some("")
                  else token == if Accepted(e, LIMITS) then Some(TokenOf(store.rows, ViewerOf(e))) else None)
  {
    var b := beat.heartbeat;
    if beat.desired.NoRelease? {
      store.ResetValidation(b.viewer);
      return Some("");
    }
    if beat.desired.Lost? { return None; }
    var command := Started(b, beat.desired.command);
    if command.None? { return None; }
    var c := command.value;
    if !Exact(b, c) {
      store.ResetValidation(b.viewer);
      return Some("");
    }
    token := store.ObserveValidation(
      Observation(b.viewer, c.id, c.payload, Trim(b.transaction), c.generation, c.version, c.artifact, AllHealthy(b, c, beat.now)),
      beat.now, LIMITS, beat.drawn);
  }

  function Events(beats: seq<Beat>): seq<Event> {
    if beats == [] then []
    else
      var e := EventOf(beats[|beats| - 1]);
      Events(beats[..|beats| - 1]) + (if e.Some? then [e.value] else [])
  }

  lemma {:induction false} EventsComeFromBeats(beats: seq<Beat>, e: Event)
    requires e in Events(beats)
    ensures exists b | b in beats :: EventOf(b) == Some(e)
    decreases |beats|
  {
    hide EventOf;
    var n := |beats| - 1;
    if e in Events(beats[..n]) {
      EventsComeFromBeats(beats[..n], e);
      var b :| b in beats[..n] && EventOf(b) == Some(e);
      assert b in beats;
    } else {
      assert EventOf(beats[n]) == Some(e);
    }
  }

  lemma {:induction false} EventsOfAmong(h: seq<Event>, v: string, lim: Limits)
    ensures forall e | e in EventsOf(h, v, lim) :: e in h && Concerns(e, v, lim)
    decreases |h|
  {
    if h != [] { EventsOfAmong(h[..|h| - 1], v, lim); }
  }

  /** A heartbeat of this viewer that ran the update exactly as ordered, with all three signals fresh. */
  predicate FullyHealthy(beat: Beat, v: string) {
    && Trim(beat.heartbeat.viewer) == v && beat.desired.Wanted?
    && var c := Started(beat.heartbeat, beat.desired.command);
       c.Some? && Exact(beat.heartbeat, c.value) && AllHealthy(beat.heartbeat, c.value, beat.now)
  }

  lemma HealthyEvent(beat: Beat, e: Event, v: string)
    requires EventOf(beat) == Some(e) && Healthy(e) && Concerns(e, v, LIMITS)
    ensures FullyHealthy(beat, v) && e.at == beat.now
  {
    hide Started, Exact, AllHealthy, Valid, Normalized, Trim;
  }

  lemma ContinuousHealthy(es: seq<Event>, i: nat)
    requires Continuous(es, LIMITS) && i < |es|
    ensures Healthy(es[i])
  {
    if i > 0 { assert Joined(es[i - 1], es[i], LIMITS); }
  }

  /**
   While a viewer holds a commit token, its latest accepted reports are at least
   three, span thirty seconds with no gap over fifteen, and each comes from a
   heartbeat that was exact and healthy on all its signals.
   */
  lemma TokenNeedsHealthyBeats(beats: seq<Beat>, v: string)
    requires forall b | b in beats :: b.drawn != ""
    requires TokenOf(TableAfter(Events(beats), LIMITS), v) != ""
    ensures exists k :: 0 <= k < |EventsOf(Events(beats), v, LIMITS)| && Vouched(beats, v, EventsOf(Events(beats), v, LIMITS)[k..])
  {
    hide EventOf, FullyHealthy, TableAfter, TokenOf, EventsOf, Healthy, Concerns;
    var h := Events(beats);
    forall e | e in h
      ensures e.Observe? ==> e.drawn != ""
    {
      EventsComeFromBeats(beats, e);
      var b :| b in beats && EventOf(b) == Some(e);
      DrawnKept(b, e);
    }
    TokenMeansHealth(h, v, LIMITS);
    var es := EventsOf(h, v, LIMITS);
    var k :| 0 <= k < |es| && LongEnough(es[k..], LIMITS);
    EnoughObservations(es[k..], LIMITS);
    EventsOfAmong(h, v, LIMITS);
    forall i | 0 <= i < |es[k..]|
      ensures exists b | b in beats :: EventOf(b) == Some(es[k..][i]) && FullyHealthy(b, v)
    {
      var e := es[k..][i];
      assert e == es[k + i] && e in es;
      EventsComeFromBeats(beats, e);
      var b :| b in beats && EventOf(b) == Some(e);
      ContinuousHealthy(es[k..], i);
      HealthyEvent(b, e, v);
    }
    assert Vouched(beats, v, es[k..]);
  }

  lemma DrawnKept(b: Beat, e: Event)
    requires EventOf(b) == Some(e)
    ensures e.Observe? ==> e.drawn == b.drawn
  {
    hide Started, Exact, AllHealthy;
  }

  ghost predicate Vouched(beats: seq<Beat>, v: string, run: seq<Event>) {
    && |run| >= 3 && LongEnough(run, LIMITS)
    && forall i | 0 <= i < |run| :: exists b | b in beats :: EventOf(b) == Some(run[i]) && FullyHealthy(b, v)
  }
}
