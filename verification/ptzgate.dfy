/**
 The command protocol of internal/cameracontrol/controller.go: commands (run) and
 stops (Stop) of one camera, in any number and any interleaving.  A step is a
 section under the meta lock, an operation on the gate, or a call's start or end.
 */
module PtzGate {
  import opened Options

  datatype Owner = Nobody | Command(id: int) | Stop(id: int)

  /**
   Waiting for the gate; Locked, before the generation check; Calling, past it;
   Returned and Released, in the deferred cleanup before and after cancel();
   Leaving, about to unlock the gate; Finished.
   */
  datatype Phase = Waiting | Locked | Calling | Returned | Released | Leaving | Finished

  datatype Run = Run(sampled: nat, callId: nat, phase: Phase)

  /** Bumped: generation raised, cancel() still to do. */
  datatype StopPhase = Bumped | StopWaiting | StopLocked | StopCalling | StopReturned | StopFinished

  datatype StopRun = StopRun(generation: nat, toCancel: Option<int>, phase: StopPhase)

  datatype State = State(
    generation: nat,
    callId: nat,
    cancel: Option<int>,
    gate: Owner,
    runs: map<int, Run>,
    stops: map<int, StopRun>,
    cancelled: set<int>)

  const IDLE := State(0, 0, None, Nobody, map[], map[], {})

  datatype Action =
    | Sample(id: int)
    | TakeGate(id: int)
    | Check(id: int)
    | Return(id: int)
    | CancelOwn(id: int)
    | Clear(id: int)
    | Unlock(id: int)
    | TimeOut(id: int)
    | Bump(id: int)
    | CancelOther(id: int)
    | StopTakeGate(id: int)
    | StopCall(id: int)
    | StopReturn(id: int)
    | StopUnlock(id: int)

  predicate At(s: State, id: int, phase: Phase) { id in s.runs && s.runs[id].phase == phase }

  predicate StopAt(s: State, id: int, phase: StopPhase) { id in s.stops && s.stops[id].phase == phase }

  predicate Enabled(s: State, a: Action) {
    match a
    case Sample(id) => id !in s.runs
    case TakeGate(id) => At(s, id, Waiting) && s.gate == Nobody
    case Check(id) => At(s, id, Locked)
    case Return(id) => At(s, id, Calling)
    case CancelOwn(id) => At(s, id, Returned)
    case Clear(id) => At(s, id, Released)
    case Unlock(id) => At(s, id, Leaving)
    case TimeOut(id) => id in s.runs
    case Bump(id) => id !in s.stops
    case CancelOther(id) => StopAt(s, id, Bumped)
    case StopTakeGate(id) => StopAt(s, id, StopWaiting) && s.gate == Nobody
    case StopCall(id) => StopAt(s, id, StopLocked)
    case StopReturn(id) => StopAt(s, id, StopCalling)
    case StopUnlock(id) => StopAt(s, id, StopReturned)
  }

  function Move(s: State, id: int, phase: Phase): State
    requires id in s.runs
  {
    s.(runs := s.runs[id := s.runs[id].(phase := phase)])
  }

  function MoveStop(s: State, id: int, phase: StopPhase): State
    requires id in s.stops
  {
    s.(stops := s.stops[id := s.stops[id].(phase := phase)])
  }

  function Step(s: State, a: Action): State
    requires Enabled(s, a)
  {
    match a
    case Sample(id) => s.(runs := s.runs[id := Run(s.generation, 0, Waiting)])
    case TakeGate(id) => Move(s, id, Locked).(gate := Command(id))
    case Check(id) =>
      if s.runs[id].sampled != s.generation then Move(s, id, Leaving)
      else s.(callId := s.callId + 1, cancel := Some(id), runs := s.runs[id := Run(s.generation, s.callId + 1, Calling)])
    case Return(id) => Move(s, id, Returned)
    case CancelOwn(id) => Move(s, id, Released).(cancelled := s.cancelled + {id})
    case Clear(id) => Move(s, id, Leaving).(cancel := if s.callId == s.runs[id].callId then None else s.cancel)
    case Unlock(id) => Move(s, id, Finished).(gate := Nobody)
    case TimeOut(id) => s.(cancelled := s.cancelled + {id})
    case Bump(id) => s.(generation := s.generation + 1, stops := s.stops[id := StopRun(s.generation + 1, s.cancel, Bumped)])
    case CancelOther(id) =>
      MoveStop(s, id, StopWaiting).(cancelled := if s.stops[id].toCancel.Some? then s.cancelled + {s.stops[id].toCancel.value} else s.cancelled)
    case StopTakeGate(id) => MoveStop(s, id, StopLocked).(gate := Stop(id))
    case StopCall(id) => MoveStop(s, id, StopCalling)
    case StopReturn(id) => MoveStop(s, id, StopReturned)
    case StopUnlock(id) => MoveStop(s, id, StopFinished).(gate := Nobody)
  }

  /** From its check to its cleanup a command's context is the one a stop would cancel. */
  predicate Cancellable(p: Phase) { p == Calling || p == Returned || p == Released }

  predicate Holds(p: Phase) { p != Waiting && p != Finished }

  predicate StopHolds(p: StopPhase) { p == StopLocked || p == StopCalling || p == StopReturned }

  predicate GateOk(s: State) {
    && (forall c | c in s.runs :: Holds(s.runs[c].phase) <==> s.gate == Command(c))
    && (forall t | t in s.stops :: StopHolds(s.stops[t].phase) <==> s.gate == Stop(t))
    && (s.gate.Command? ==> s.gate.id in s.runs) && (s.gate.Stop? ==> s.gate.id in s.stops)
  }

  predicate GenerationsOk(s: State) {
    && (forall c | c in s.runs :: s.runs[c].sampled <= s.generation)
    && (forall t | t in s.stops :: s.stops[t].generation <= s.generation)
  }

  /** The cancel slot is that of the command in its call, and of no other. */
  predicate SlotOk(s: State) {
    && (forall c | c in s.runs :: Cancellable(s.runs[c].phase) ==> s.cancel == Some(c) && s.runs[c].callId == s.callId)
    && (s.cancel.Some? ==> s.cancel.value in s.runs && Cancellable(s.runs[s.cancel.value].phase))
  }

  /** A stop means to cancel a command from before it, and every such command that is past its check. */
  predicate StopOk(s: State, t: int)
    requires t in s.stops
  {
    var stop := s.stops[t];
    && (stop.toCancel.Some? ==> stop.toCancel.value in s.runs && s.runs[stop.toCancel.value].sampled < stop.generation)
    && (forall c | c in s.runs :: Cancellable(s.runs[c].phase) && s.runs[c].sampled < stop.generation ==> stop.toCancel == Some(c))
    && (stop.phase != Bumped && stop.toCancel.Some? ==> stop.toCancel.value in s.cancelled)
  }

  predicate Inv(s: State) {
    GateOk(s) && GenerationsOk(s) && SlotOk(s) && forall t | t in s.stops :: StopOk(s, t)
  }

  lemma StepKeepsGate(s: State, a: Action)
    requires Inv(s) && Enabled(s, a)
    ensures GateOk(Step(s, a))
  {
    hide SlotOk, StopOk, GenerationsOk;
  }

  lemma StepKeepsGenerations(s: State, a: Action)
    requires Inv(s) && Enabled(s, a)
    ensures GenerationsOk(Step(s, a))
  {
    hide SlotOk, StopOk, GateOk;
  }

  lemma StepKeepsSlot(s: State, a: Action)
    requires Inv(s) && Enabled(s, a)
    ensures SlotOk(Step(s, a))
  {
    hide StopOk, GenerationsOk;
  }

  /** Commands stay listed with the generation they sampled, and only a check makes one cancellable. */
  lemma RunsKept(s: State, a: Action)
    requires Enabled(s, a)
    ensures var s' := Step(s, a);
            && (forall c | c in s.runs :: c in s'.runs && s'.runs[c].sampled == s.runs[c].sampled)
            && (forall c | c in s'.runs && Cancellable(s'.runs[c].phase) ::
                  c in s.runs && (Cancellable(s.runs[c].phase) || s.runs[c].sampled == s.generation))
            && s.cancelled <= s'.cancelled
  {
  }

  /** A stop keeps its generation and target; a new one takes those of the moment. */
  lemma StopsKept(s: State, a: Action, t: int)
    requires Enabled(s, a) && t in Step(s, a).stops
    ensures var stop, cancelled := Step(s, a).stops[t], Step(s, a).cancelled;
            if t in s.stops then
              && stop.generation == s.stops[t].generation && stop.toCancel == s.stops[t].toCancel
              && (s.stops[t].phase != Bumped ==> stop.phase != Bumped)
              && (s.stops[t].phase == Bumped && stop.phase != Bumped && stop.toCancel.Some? ==> stop.toCancel.value in cancelled)
            else stop == StopRun(s.generation + 1, s.cancel, Bumped) && Step(s, a).runs == s.runs
  {
  }

  lemma StepKeepsStop(s: State, a: Action, t: int)
    requires Inv(s) && Enabled(s, a) && t in Step(s, a).stops
    ensures StopOk(Step(s, a), t)
  {
    hide GateOk;
    if t in s.stops { assert StopOk(s, t); }
    StopsKept(s, a, t);
    RunsKept(s, a);
    hide Step, Enabled;
    assert GenerationsOk(s) && SlotOk(s);
    assert forall c | c in s.runs :: s.runs[c].sampled <= s.generation;
    if t !in s.stops && s.cancel.Some? { assert s.cancel.value in s.runs; assert s.runs[s.cancel.value].sampled <= s.generation; }
  }

  lemma StepKeeps(s: State, a: Action)
    requires Inv(s) && Enabled(s, a)
    ensures Inv(Step(s, a))
  {
    hide Step, GateOk, GenerationsOk, SlotOk, StopOk, Enabled;
    StepKeepsGate(s, a);
    StepKeepsGenerations(s, a);
    StepKeepsSlot(s, a);
    forall t | t in Step(s, a).stops
      ensures StopOk(Step(s, a), t)
    {
      StepKeepsStop(s, a, t);
    }
  }

  // ---------- runs ----------

  predicate CanRun(s: State, actions: seq<Action>)
    decreases |actions|
  {
    actions == [] || (Enabled(s, actions[0]) && CanRun(Step(s, actions[0]), actions[1..]))
  }

  function RunAll(s: State, actions: seq<Action>): State
    requires CanRun(s, actions)
    decreases |actions|
  {
    if actions == [] then s else RunAll(Step(s, actions[0]), actions[1..])
  }

  lemma {:induction false} RunKeeps(s: State, actions: seq<Action>)
    requires Inv(s) && CanRun(s, actions)
    ensures Inv(RunAll(s, actions))
    decreases |actions|
  {
    hide Inv, Step, Enabled;
    if actions != [] {
      StepKeeps(s, actions[0]);
      RunKeeps(Step(s, actions[0]), actions[1..]);
    }
  }

  predicate InCall(s: State, who: Owner) {
    match who
    case Nobody => false
    case Command(c) => At(s, c, Calling)
    case Stop(t) => StopAt(s, t, StopCalling)
  }

  /** Whatever happened before, two gated calls are never under way at once. */
  lemma CallsNeverOverlap(actions: seq<Action>, a: Owner, b: Owner)
    requires CanRun(IDLE, actions)
    ensures var s := RunAll(IDLE, actions); InCall(s, a) && InCall(s, b) ==> a == b
  {
    assert Inv(IDLE);
    RunKeeps(IDLE, actions);
  }

  /** Generation g has been reached, and command c, if it sampled an older one, is not in its call. */
  predicate Barred(s: State, g: nat, c: int) {
    g <= s.generation && (c in s.runs && s.runs[c].sampled < g ==> s.runs[c].phase != Calling)
  }

  lemma {:induction false} BarredStays(s: State, actions: seq<Action>, g: nat, c: int)
    requires Barred(s, g, c) && CanRun(s, actions)
    ensures Barred(RunAll(s, actions), g, c)
    decreases |actions|
  {
    if actions != [] { BarredStays(Step(s, actions[0]), actions[1..], g, c); }
  }

  /**
   Stop is a barrier: once its own camera call has begun, no command is in its
   call, and none that sampled an older generation ever will be.
   */
  lemma StopIsBarrier(before: seq<Action>, t: int, after: seq<Action>, c: int)
    requires CanRun(IDLE, before) && StopAt(RunAll(IDLE, before), t, StopCalling)
    requires CanRun(RunAll(IDLE, before), after)
    ensures var s, later := RunAll(IDLE, before), RunAll(RunAll(IDLE, before), after);
            && (c in s.runs ==> s.runs[c].phase != Calling)
            && (c in later.runs && later.runs[c].sampled < s.stops[t].generation ==> later.runs[c].phase != Calling)
  {
    assert Inv(IDLE);
    RunKeeps(IDLE, before);
    var s := RunAll(IDLE, before);
    assert s.gate == Stop(t) && Barred(s, s.stops[t].generation, c);
    BarredStays(s, after, s.stops[t].generation, c);
  }

  /** Already from the moment a stop raises the generation, a command not yet past its check can no longer start a call. */
  lemma NoLateStart(before: seq<Action>, t: int, after: seq<Action>, c: int)
    requires CanRun(IDLE, before) && Enabled(RunAll(IDLE, before), Bump(t)) && !At(RunAll(IDLE, before), c, Calling)
    requires c in RunAll(IDLE, before).runs && CanRun(Step(RunAll(IDLE, before), Bump(t)), after)
    ensures !At(RunAll(Step(RunAll(IDLE, before), Bump(t)), after), c, Calling)
  {
    assert Inv(IDLE);
    RunKeeps(IDLE, before);
    var s := RunAll(IDLE, before);
    assert s.runs[c].sampled <= s.generation;
    var s' := Step(s, Bump(t));
    BarredStays(s', after, s.generation + 1, c);
    SampledStays(s', after, c);
  }

  lemma {:induction false} SampledStays(s: State, actions: seq<Action>, c: int)
    requires c in s.runs && CanRun(s, actions)
    ensures c in RunAll(s, actions).runs && RunAll(s, actions).runs[c].sampled == s.runs[c].sampled
    decreases |actions|
  {
    if actions != [] {
      RunsKept(s, actions[0]);
      SampledStays(Step(s, actions[0]), actions[1..], c);
    }
  }

  /** A command from before a stop that is past its check has been cancelled by the time the stop waits for the gate. */
  lemma StopCancelsOlder(actions: seq<Action>, t: int, c: int)
    requires CanRun(IDLE, actions)
    requires var s := RunAll(IDLE, actions);
             && t in s.stops && s.stops[t].phase != Bumped
             && c in s.runs && Cancellable(s.runs[c].phase) && s.runs[c].sampled < s.stops[t].generation
    ensures c in RunAll(IDLE, actions).cancelled
  {
    assert Inv(IDLE);
    RunKeeps(IDLE, actions);
    assert StopOk(RunAll(IDLE, actions), t);
  }

  /** A stop never cancels a command that started after it. */
  lemma StopSparesNewer(actions: seq<Action>, t: int, c: int)
    requires CanRun(IDLE, actions)
    requires var s := RunAll(IDLE, actions); t in s.stops && s.stops[t].toCancel == Some(c)
    ensures var s := RunAll(IDLE, actions); c in s.runs && s.runs[c].sampled < s.stops[t].generation
  {
    assert Inv(IDLE);
    RunKeeps(IDLE, actions);
    assert StopOk(RunAll(IDLE, actions), t);
  }

  /** The cleanup always finds its own call id, so the slot is empty whenever nobody is between check and cleanup. */
  lemma CleanupClears(actions: seq<Action>, c: int)
    requires CanRun(IDLE, actions) && Enabled(RunAll(IDLE, actions), Clear(c))
    ensures Step(RunAll(IDLE, actions), Clear(c)).cancel == None
  {
    assert Inv(IDLE);
    RunKeeps(IDLE, actions);
  }

  // ---------- the shared fields ----------

  /** commandState, with the gate's holder: the sections run and Stop execute on it are steps of the protocol. */
  class CommandState {
    var generation: nat
    var callId: nat
    var cancel: Option<int>
    var gate: Owner

    constructor ()
      ensures Shows(IDLE)
    {
      generation, callId, cancel, gate := 0, 0, None, Nobody;
    }

    predicate Shows(s: State)
      reads this
    {
      generation == s.generation && callId == s.callId && cancel == s.cancel && gate == s.gate
    }

    method SampleGeneration(id: int, ghost s: State) returns (sampled: nat)
      requires Shows(s) && Enabled(s, Sample(id))
      ensures Shows(Step(s, Sample(id))) && sampled == Step(s, Sample(id)).runs[id].sampled
    {
      sampled := generation;
    }

    method LockGate(id: int, ghost s: State)
      requires Shows(s) && Enabled(s, TakeGate(id))
      modifies this
      ensures Shows(Step(s, TakeGate(id)))
    {
      gate := Command(id);
    }

    /** The check under the meta lock; a command that may go on gets its call id and registers its context. */
    method BeginCall(id: int, sampled: nat, ghost s: State) returns (granted: Option<nat>)
      requires Shows(s) && Enabled(s, Check(id)) && sampled == s.runs[id].sampled
      modifies this
      ensures var run := Step(s, Check(id)).runs[id];
              Shows(Step(s, Check(id))) && granted == if run.phase == Calling then Some(run.callId) else None
    {
      if sampled != generation { return None; }
      callId := callId + 1;
      cancel := Some(id);
      return Some(callId);
    }

    /** The deferred cleanup, after its cancel(). */
    method EndCall(id: int, own: nat, ghost s: State)
      requires Shows(s) && Enabled(s, Clear(id)) && own == s.runs[id].callId
      modifies this
      ensures Shows(Step(s, Clear(id)))
    {
      if callId == own { cancel := None; }
    }

    method UnlockGate(id: int, ghost s: State)
      requires Shows(s) && Enabled(s, Unlock(id))
      modifies this
      ensures Shows(Step(s, Unlock(id)))
    {
      gate := Nobody;
    }

    /** The first section of Stop: later commands sample a newer generation, and the running one is to be cancelled. */
    method RaiseGeneration(id: int, ghost s: State) returns (toCancel: Option<int>)
      requires Shows(s) && Enabled(s, Bump(id))
      modifies this
      ensures Shows(Step(s, Bump(id))) && toCancel == Step(s, Bump(id)).stops[id].toCancel
    {
      generation := generation + 1;
      toCancel := cancel;
    }
  }
}
