/**
 `execute_run` and `cancel_replay_run` as they are written, over a store that other
 clients may change arbitrarily before each access. Whatever they find there, they
 move through the states of the step system of `Replay` and leave the object as it
 says, so what holds of every run of that system holds of them.
 */
module ReplayWorker {
  import opened Wrappers
  import opened Storage
  import opened Replay
  import opened Sessions
  import ReplayOutcomes

  /** What a stage of the execution does: it goes well, raises, or exceeds the time limit. */
  datatype StageOutcome = Fine | Raises(reason: string) | Expires(reason: string)

  /** How `_execute_with_timeout` ends. */
  datatype Execution = Answered(result: string) | CancelledAtBoundary | Expired(reason: string) | Broken(reason: string)

  /** The step system of `Replay`, for one actor. */
  const STEP: Stepper<Cell<ReplayRun>, Actor, Event> :=
    (cell: Cell<ReplayRun>, actor: Actor, event: Event) => StepActor(cell, actor, event)

  class Caller {
    const session: Session<Cell<ReplayRun>, Actor, Event>
    /** How far a generation jumps when this caller writes. */
    const gap: nat

    constructor (session: Session<Cell<ReplayRun>, Actor, Event>, gap: nat)
      ensures this.session == session && this.gap == gap
    {
      this.session, this.gap := session, gap;
    }

    ghost predicate At(actor: Actor)
      reads session
    {
      session.step == STEP && session.At(actor)
    }

    /** The closure of `_transition`, which edits the stored run in place. */
    method Mutate(run: ReplayRun, current: Option<ReplayRun>) returns (next: ReplayRun)
      ensures next == TransitionMutation(run, current)
    {
      if current.None? {
        return run;
      }
      var cur := current.value;
      if Terminal(cur.state) {
        return cur;
      }
      if cur.cancelRequested && !run.state.Cancelled? {
        cur := cur.(state := Cancelled);
        cur := cur.(result := None);
        cur := cur.(failureReason := None);
        return cur;
      }
      cur := cur.(state := run.state);
      cur := cur.(result := run.result);
      cur := cur.(failureReason := run.failureReason);
      if run.state.Cancelled? {
        cur := cur.(cancelRequested := true);
      }
      return cur;
    }

    /** `_transition`; no result when every attempt lost its race. */
    method Transition(run: ReplayRun, ghost site: Site) returns (persisted: Option<ReplayRun>)
      requires At(WorkerTransition(site, run, Reading(0)))
      modifies session
      ensures At(if persisted.Some? then AfterTransition(site, run, persisted.value) else AfterExhaustion(site, run))
    {
      for attempt := 0 to MAX_ATTEMPTS
        invariant At(WorkerTransition(site, run, Reading(attempt)))
      {
        var found := session.Look(WorkerTransition(site, run, Reading(attempt)), Proceed(gap));
        var seen := found.Read();
        ghost var writing := WorkerTransition(site, run, Cas.Writing(attempt, seen));
        var next := Mutate(run, seen.payload);
        var cell := session.Next();
        if cell.Accepts(seen) {
          session.Leave(cell.Put(next, gap), writing, Proceed(gap));
          return Some(next);
        }
        session.Leave(cell, writing, Proceed(gap));
      }
      var _ := session.Look(WorkerTransition(site, run, Reading(MAX_ATTEMPTS)), Proceed(gap));
      return None;
    }

    /** `_execute_with_timeout`: four stages, each followed by the boundary check, then the answer. */
    method ExecuteWithTimeout(run: ReplayRun, stages: seq<StageOutcome>, answer: Result<string, string>)
      returns (r: Execution)
      requires |stages| == LAST_STAGE && At(WorkerStage(0, run))
      modifies session
      ensures At(match r
                 case Answered(result) =>
                   WorkerTransition(ToCompleted, Completing(run, result), Reading(0))
                 case CancelledAtBoundary => WorkerTransition(ToFinal, Cancelling(run), Reading(0))
                 case Expired(reason) => WorkerTransition(ToFinal, Failing(run, reason), Reading(0))
                 case Broken(reason) => WorkerTransition(ToFinal, Failing(run, reason), Reading(0)))
    {
      for stage := 0 to LAST_STAGE
        invariant At(WorkerStage(stage, run))
      {
        var outcome := stages[stage];
        match outcome {
          case Raises(reason) =>
            var _ := session.Look(WorkerStage(stage, run), Raise(reason));
            return Broken(reason);
          case Expires(reason) =>
            var _ := session.Look(WorkerStage(stage, run), TimeOut(reason));
            return Expired(reason);
          case Fine =>
            var reloaded := session.Look(WorkerStage(stage, run), Proceed(gap));
            if reloaded.value.Some? && reloaded.value.value.cancelRequested {
              return CancelledAtBoundary;
            }
        }
      }
      match answer {
        case Failure(reason) =>
          var _ := session.Look(WorkerStage(LAST_STAGE, run), Raise(reason));
          return Broken(reason);
        case Success(result) =>
          var _ := session.Look(WorkerStage(LAST_STAGE, run), Answer(result));
          return Answered(result);
      }
    }

    /**
     `execute_run`. `outcome` is what it returns, nothing if it raises; either way
     the step system has its worker done with just that.
     */
    method ExecuteRun(stages: seq<StageOutcome>, answer: Result<string, string>) returns (outcome: Option<ReplayRun>)
      requires |stages| == LAST_STAGE && At(WorkerLoad)
      modifies session
      ensures At(Done(outcome))
    {
      var loaded := session.Look(WorkerLoad, Proceed(gap));
      if loaded.value.None? {
        return Some(ReplayRun(RunState.Failed, None, Some("Run not found"), false));
      }
      var run := loaded.value.value;
      if !run.state.Queued? {
        return Some(run);
      }
      var cancelled := run.cancelRequested;
      if !cancelled {
        var reloaded := session.Look(WorkerRecheck(run), Proceed(gap));
        cancelled := reloaded.value.Some? && reloaded.value.value.cancelRequested;
      }
      if cancelled {
        run := run.(state := Cancelled, result := None, failureReason := None);
        var persisted := Transition(run, BeforeExecution);
        return if persisted.Some? then Some(run) else None;
      }
      run := run.(state := Running);
      var persisted := Transition(run, ToRunning);
      if persisted.None? || !persisted.value.state.Running? {
        return persisted;
      }
      outcome := Finish(run, stages, answer);
    }

    /** The rest of it: the stages, and the transition to which they lead. */
    method Finish(running: ReplayRun, stages: seq<StageOutcome>, answer: Result<string, string>)
      returns (outcome: Option<ReplayRun>)
      requires |stages| == LAST_STAGE && At(WorkerStage(0, running))
      modifies session
      ensures At(Done(outcome))
    {
      var run := running;
      var execution := ExecuteWithTimeout(run, stages, answer);
      match execution {
        case Answered(result) =>
          run := run.(state := Completed, result := Some(result), failureReason := None);
          var persisted := Transition(run, ToCompleted);
          if persisted.Some? {
            return persisted;
          }
          run := run.(state := RunState.Failed, result := None, failureReason := Some("Execution error"));
        case CancelledAtBoundary =>
          run := run.(state := Cancelled, result := None, failureReason := None);
        case Expired(reason) =>
          run := run.(state := RunState.Failed, result := None, failureReason := Some(reason));
        case Broken(reason) =>
          run := run.(state := RunState.Failed, result := None, failureReason := Some(reason));
      }
      outcome := Transition(run, ToFinal);
    }

    /** `cancel_replay_run`; nothing is returned when the run is missing or every attempt lost its race. */
    method CancelReplayRun() returns (outcome: Option<ReplayRun>)
      requires At(CancelLoad)
      modifies session
      ensures At(Done(outcome))
    {
      var loaded := session.Look(CancelLoad, Proceed(gap));
      if loaded.value.None? || Terminal(loaded.value.value.state) {
        return loaded.value;
      }
      var run := loaded.value.value;
      for attempt := 0 to MAX_ATTEMPTS
        invariant At(CancelWrite(run, Reading(attempt)))
      {
        var found := session.Look(CancelWrite(run, Reading(attempt)), Proceed(gap));
        var seen := found.Read();
        ghost var writing := CancelWrite(run, Cas.Writing(attempt, seen));
        var next := run;
        if seen.payload.Some? {
          next := seen.payload.value;
          if !Terminal(next.state) {
            next := next.(cancelRequested := true);
            next := next.(state := Cancelled);
            next := next.(result := None);
            next := next.(failureReason := None);
          }
        }
        var cell := session.Next();
        if cell.Accepts(seen) {
          session.Leave(cell.Put(next, gap), writing, Proceed(gap));
          return Some(next);
        }
        session.Leave(cell, writing, Proceed(gap));
      }
      var _ := session.Look(CancelWrite(run, Reading(MAX_ATTEMPTS)), Proceed(gap));
      return None;
    }
  }

  /** What every move of a schedule finds, and its event. */
  ghost function TraceOf(schedule: seq<Move>): seq<Noted<Cell<ReplayRun>, Event>> {
    if schedule == [] then []
    else
      var before, m := schedule[..|schedule| - 1], schedule[|schedule| - 1];
      TraceOf(before) + [Noted(m.actor, Taken(Run(before).cell, m.event))]
  }

  function Start(isWorker: bool): Actor {
    if isWorker then WorkerLoad else CancelLoad
  }

  lemma {:induction false} StepMovesActor(s: System, m: Move)
    ensures Step(s, m).actors == s.actors[m.actor := STEP(s.cell, ActorOf(s, m), m.event).1]
  {
  }

  /** An actor of the system stands where a caller stands that takes the same steps. */
  lemma {:induction false} ActorFollowsItsSteps(schedule: seq<Move>, a: ActorId, isWorker: bool)
    requires forall i :: 0 <= i < |schedule| && schedule[i].actor == a ==> schedule[i].isWorker == isWorker
    ensures Abreast(STEP, Start(isWorker), Run(schedule).actors, a, StepsOf(TraceOf(schedule), a))
  {
    if schedule != [] {
      var before, m := schedule[..|schedule| - 1], schedule[|schedule| - 1];
      var s := Run(before);
      ActorFollowsItsSteps(before, a, isWorker);
      StepMovesActor(s, m);
      StaysAbreast(
        STEP, Start(isWorker), s.actors, Run(schedule).actors, a, TraceOf(before),
        Noted(m.actor, Taken(s.cell, m.event)));
    }
  }

  /**
   A terminal outcome that a caller has returned inside a schedule, having found the
   stored run as the schedule left it each time, is the verdict of the store.
   */
  lemma {:induction false} ReturnedIsStored(schedule: seq<Move>, a: ActorId, isWorker: bool, run: ReplayRun)
    requires forall i :: 0 <= i < |schedule| && schedule[i].actor == a ==> schedule[i].isWorker == isWorker
    requires Follow(STEP, Start(isWorker), StepsOf(TraceOf(schedule), a)) == Done(Some(run))
    requires Terminal(run.state)
    ensures Settled(Run(schedule).cell, run)
  {
    ActorFollowsItsSteps(schedule, a, isWorker);
    Agreement(schedule, a, run, a, run);
  }

  /** Whatever `cancel_replay_run` returns inside a schedule is terminal, and the verdict of the store. */
  lemma {:induction false} ReturnedByCancelIsTerminal(schedule: seq<Move>, a: ActorId, run: ReplayRun)
    requires forall i :: 0 <= i < |schedule| && schedule[i].actor == a ==> !schedule[i].isWorker
    requires Follow(STEP, Start(false), StepsOf(TraceOf(schedule), a)) == Done(Some(run))
    ensures Terminal(run.state) && Settled(Run(schedule).cell, run)
  {
    ActorFollowsItsSteps(schedule, a, false);
    ReplayOutcomes.CancellerReturnsVerdict(schedule, a, run);
  }
}
