/** What the command protocol of internal/cameracontrol/controller.go lets happen: whom it admits, why it cancels, and that it never gets stuck. */
module PtzProgress {
  import opened Options
  import opened PtzGate
  import Listings

  // ---------- admission ----------

  /** How many stops have raised the generation. */
  function Bumps(actions: seq<Action>): nat {
    if actions == [] then 0 else (if actions[0].Bump? then 1 else 0) + Bumps(actions[1..])
  }

  lemma {:induction false} GenerationCounts(s: State, actions: seq<Action>)
    requires CanRun(s, actions)
    ensures RunAll(s, actions).generation == s.generation + Bumps(actions)
    decreases |actions|
  {
    if actions != [] { GenerationCounts(Step(s, actions[0]), actions[1..]); }
  }

  lemma {:induction false} RunJoined(s: State, a: seq<Action>, b: seq<Action>)
    ensures CanRun(s, a + b) <==> CanRun(s, a) && CanRun(RunAll(s, a), b)
    ensures CanRun(s, a + b) ==> RunAll(s, a + b) == RunAll(RunAll(s, a), b)
    decreases |a|
  {
    hide Step, Enabled;
    if a == [] {
      assert a + b == b;
    } else {
      assert (a + b)[0] == a[0] && (a + b)[1..] == a[1..] + b;
      if Enabled(s, a[0]) { RunJoined(Step(s, a[0]), a[1..], b); }
    }
  }

  /**
   A command that has the gate is admitted to its call exactly when no stop has come
   since it read the generation; otherwise it leaves.
   */
  lemma AdmittedExactly(before: seq<Action>, c: int, since: seq<Action>)
    requires CanRun(IDLE, before + ([Sample(c)] + since)) && At(RunAll(IDLE, before + ([Sample(c)] + since)), c, Locked)
    ensures var s := RunAll(IDLE, before + ([Sample(c)] + since));
            && Enabled(s, Check(c))
            && (At(Step(s, Check(c)), c, Calling) <==> forall a | a in since :: !a.Bump?)
            && (!At(Step(s, Check(c)), c, Calling) ==> At(Step(s, Check(c)), c, Leaving))
  {
    RunJoined(IDLE, before, [Sample(c)] + since);
    var s0 := RunAll(IDLE, before);
    RunJoined(s0, [Sample(c)], since);
    assert [Sample(c)][1..] == [] && Enabled(s0, Sample(c));
    var s1 := Step(s0, Sample(c));
    assert RunAll(s0, [Sample(c)]) == s1;
    GenerationCounts(s1, since);
    SampledStays(s1, since, c);
    NoBumps(since);
  }

  lemma {:induction false} NoBumps(actions: seq<Action>)
    ensures Bumps(actions) == 0 <==> forall a | a in actions :: !a.Bump?
    decreases |actions|
  {
    if actions != [] {
      NoBumps(actions[1..]);
      assert actions == [actions[0]] + actions[1..];
    }
  }

  // ---------- cancellation ----------

  lemma {:induction false} StopStays(s: State, actions: seq<Action>, t: int)
    requires t in s.stops && CanRun(s, actions)
    ensures t in RunAll(s, actions).stops && RunAll(s, actions).stops[t].toCancel == s.stops[t].toCancel
    decreases |actions|
  {
    if actions != [] {
      StopsKept(s, actions[0], t);
      hide Step;
      StopStays(Step(s, actions[0]), actions[1..], t);
    }
  }

  ghost predicate Caused(s: State, actions: seq<Action>, c: int) {
    || TimeOut(c) in actions || CancelOwn(c) in actions
    || exists t :: CancelOther(t) in actions && t in s.stops && s.stops[t].toCancel == Some(c)
  }

  lemma {:induction false} CancelledFrom(s: State, actions: seq<Action>, c: int)
    requires CanRun(s, actions) && c in RunAll(s, actions).cancelled
    ensures c in s.cancelled || Caused(RunAll(s, actions), actions, c)
    decreases |actions|
  {
    if actions != [] && c !in s.cancelled {
      var a, s1 := actions[0], Step(s, actions[0]);
      assert actions == [a] + actions[1..];
      if c in s1.cancelled {
        if a.CancelOther? { StopStays(s1, actions[1..], a.id); }
      } else {
        CancelledFrom(s1, actions[1..], c);
      }
    }
  }

  /** A command's context is cancelled only by its own time limit, by its own cleanup, or by a stop that found it in the slot. */
  lemma CancelledHasCause(actions: seq<Action>, c: int)
    requires CanRun(IDLE, actions) && c in RunAll(IDLE, actions).cancelled
    ensures Caused(RunAll(IDLE, actions), actions, c)
  {
    CancelledFrom(IDLE, actions, c);
  }

  // ---------- progress ----------

  function Rank(p: Phase): nat {
    match p case Waiting => 6 case Locked => 5 case Calling => 4 case Returned => 3 case Released => 2 case Leaving => 1 case Finished => 0
  }

  function StopRank(p: StopPhase): nat {
    match p case Bumped => 5 case StopWaiting => 4 case StopLocked => 3 case StopCalling => 2 case StopReturned => 1 case StopFinished => 0
  }

  /** What a command does next. */
  function NextOf(c: int, p: Phase): Action {
    match p
    case Waiting => TakeGate(c)
    case Locked => Check(c)
    case Calling => Return(c)
    case Returned => CancelOwn(c)
    case Released => Clear(c)
    case _ => Unlock(c)
  }

  function NextOfStop(t: int, p: StopPhase): Action {
    match p
    case Bumped => CancelOther(t)
    case StopWaiting => StopTakeGate(t)
    case StopLocked => StopCall(t)
    case StopCalling => StopReturn(t)
    case _ => StopUnlock(t)
  }

  /** Everybody else is where they were. */
  predicate SameButCommand(s: State, s': State, c: int) {
    && s'.runs.Keys == s.runs.Keys && s'.stops == s.stops
    && forall d | d in s.runs && d != c :: s'.runs[d] == s.runs[d]
  }

  predicate SameButStop(s: State, s': State, t: int) {
    && s'.stops.Keys == s.stops.Keys && s'.runs == s.runs
    && forall u | u in s.stops && u != t :: s'.stops[u] == s.stops[u]
  }

  lemma CommandSteps(s: State, c: int)
    requires Inv(s) && c in s.runs && s.runs[c].phase != Finished && (s.runs[c].phase == Waiting ==> s.gate == Nobody)
    ensures var a := NextOf(c, s.runs[c].phase);
            && Enabled(s, a) && SameButCommand(s, Step(s, a), c)
            && Rank(Step(s, a).runs[c].phase) < Rank(s.runs[c].phase) && Step(s, a).runs[c].phase != Waiting
  {
  }

  lemma StopSteps(s: State, t: int)
    requires Inv(s) && t in s.stops && s.stops[t].phase != StopFinished
    requires s.stops[t].phase == StopWaiting || s.stops[t].phase == Bumped ==> s.gate == Nobody
    ensures var a := NextOfStop(t, s.stops[t].phase);
            && Enabled(s, a) && SameButStop(s, Step(s, a), t)
            && StopRank(Step(s, a).stops[t].phase) < StopRank(s.stops[t].phase)
            && (Step(s, a).stops[t].phase == StopWaiting ==> Step(s, a).gate == Nobody) && Step(s, a).stops[t].phase != Bumped
  {
  }

  lemma OneMore(s: State, a: Action, rest: seq<Action>)
    requires Enabled(s, a) && CanRun(Step(s, a), rest)
    ensures CanRun(s, [a] + rest) && RunAll(s, [a] + rest) == RunAll(Step(s, a), rest)
  {
    assert ([a] + rest)[1..] == rest;
  }

  /** A command that has the gate, or can take it, can be run to its end. */
  lemma DriveCommand(s: State, c: int) returns (more: seq<Action>)
    requires Inv(s) && c in s.runs && (s.runs[c].phase == Waiting ==> s.gate == Nobody)
    ensures CanRun(s, more) && SameButCommand(s, RunAll(s, more), c) && At(RunAll(s, more), c, Finished)
    decreases Rank(s.runs[c].phase)
  {
    more := [];
    if s.runs[c].phase != Finished {
      var a := NextOf(c, s.runs[c].phase);
      CommandSteps(s, c);
      StepKeeps(s, a);
      hide Inv, Step, Enabled;
      var rest := DriveCommand(Step(s, a), c);
      OneMore(s, a, rest);
      more := [a] + rest;
    }
  }

  /** And so can a stop. */
  lemma DriveStop(s: State, t: int) returns (more: seq<Action>)
    requires Inv(s) && t in s.stops && (s.stops[t].phase == StopWaiting || s.stops[t].phase == Bumped ==> s.gate == Nobody)
    ensures CanRun(s, more) && SameButStop(s, RunAll(s, more), t) && StopAt(RunAll(s, more), t, StopFinished)
    decreases StopRank(s.stops[t].phase)
  {
    more := [];
    if s.stops[t].phase != StopFinished {
      var a := NextOfStop(t, s.stops[t].phase);
      StopSteps(s, t);
      StepKeeps(s, a);
      hide Inv, Step, Enabled;
      var rest := DriveStop(Step(s, a), t);
      OneMore(s, a, rest);
      more := [a] + rest;
    }
  }

  function OpenRuns(s: State): set<int> { set c | c in s.runs && s.runs[c].phase != Finished }

  function OpenStops(s: State): set<int> { set t | t in s.stops && s.stops[t].phase != StopFinished }

  /** Someone who is not finished has the gate or finds it free. */
  lemma SomeoneNext(s: State) returns (command: bool, id: int)
    requires Inv(s) && (OpenRuns(s) != {} || OpenStops(s) != {})
    ensures command ==> id in OpenRuns(s) && (s.runs[id].phase == Waiting ==> s.gate == Nobody)
    ensures !command ==> id in OpenStops(s) && (s.stops[id].phase == StopWaiting || s.stops[id].phase == Bumped ==> s.gate == Nobody)
  {
    if s.gate.Command? {
      command, id := true, s.gate.id;
    } else if s.gate.Stop? {
      command, id := false, s.gate.id;
    } else if OpenRuns(s) != {} {
      command := true;
      Listings.Inhabited(OpenRuns(s));
      id :| id in OpenRuns(s);
    } else {
      command := false;
      Listings.Inhabited(OpenStops(s));
      id :| id in OpenStops(s);
    }
  }

  lemma NothingMore(s: State)
    ensures CanRun(s, []) && RunAll(s, []) == s
  {
  }

  lemma OpenOnes(s: State)
    ensures forall c | c in OpenRuns(s) :: c in s.runs
    ensures forall t | t in OpenStops(s) :: t in s.stops
  {
  }

  lemma CommandLess(s: State, s': State, c: int)
    requires SameButCommand(s, s', c) && At(s', c, Finished) && c in OpenRuns(s)
    ensures OpenRuns(s') == OpenRuns(s) - {c} && OpenStops(s') == OpenStops(s)
  {
    forall d
      ensures d in OpenRuns(s') <==> d in OpenRuns(s) - {c}
    {
      assert d in s'.runs <==> d in s.runs;
    }
  }

  lemma StopLess(s: State, s': State, t: int)
    requires SameButStop(s, s', t) && StopAt(s', t, StopFinished) && t in OpenStops(s)
    ensures OpenStops(s') == OpenStops(s) - {t} && OpenRuns(s') == OpenRuns(s)
  {
    forall u
      ensures u in OpenStops(s') <==> u in OpenStops(s) - {t}
    {
      assert u in s'.stops <==> u in s.stops;
    }
  }

  lemma {:induction false} Drains(s: State) returns (more: seq<Action>)
    requires Inv(s)
    ensures CanRun(s, more) && OpenRuns(RunAll(s, more)) == {} && OpenStops(RunAll(s, more)) == {}
    decreases |OpenRuns(s)| + |OpenStops(s)|
  {
    hide Inv, RunAll, CanRun, SameButCommand, SameButStop, OpenRuns, OpenStops, At, StopAt;
    more := [];
    if OpenRuns(s) == {} && OpenStops(s) == {} {
      NothingMore(s);
    } else {
      OpenOnes(s);
      var command, id := SomeoneNext(s);
      var first: seq<Action>;
      if command {
        first := DriveCommand(s, id);
        CommandLess(s, RunAll(s, first), id);
      } else {
        first := DriveStop(s, id);
        StopLess(s, RunAll(s, first), id);
      }
      RunKeeps(s, first);
      var rest := Drains(RunAll(s, first));
      RunJoined(s, first, rest);
      more := first + rest;
    }
  }

  /** Whatever has happened, every command and every stop that is under way can come to its end. */
  lemma NeverStuck(actions: seq<Action>)
    requires CanRun(IDLE, actions)
    ensures exists more :: CanRun(RunAll(IDLE, actions), more)
              && OpenRuns(RunAll(RunAll(IDLE, actions), more)) == {} && OpenStops(RunAll(RunAll(IDLE, actions), more)) == {}
  {
    assert Inv(IDLE);
    RunKeeps(IDLE, actions);
    var more := Drains(RunAll(IDLE, actions));
  }
}
