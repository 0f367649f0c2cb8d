/**
 The replay run state machine: any number of `execute_run` workers and
 `cancel_replay_run` callers race on one stored run. Every store access is a
 step of its own; a compare-and-set is a read step and a conditional-write step.
 A schedule picks, step by step, which actor moves and what its surroundings do
 (a clean step, an exception, a timeout, a result).
 */
module Replay {
  import opened Wrappers
  import opened Storage
  import opened Sessions

  datatype RunState = Queued | Running | Completed | Failed | Cancelled

  /** The stored record; the request never changes and is left out. Results are opaque texts. */
  datatype ReplayRun = ReplayRun(
    state: RunState, result: Option<string>, failureReason: Option<string>, cancelRequested: bool)

  predicate Terminal(state: RunState) {
    state.Completed? || state.Failed? || state.Cancelled?
  }

  const MAX_ATTEMPTS: nat := 8

  /** The closure of `_transition`: what is written over `current` for the requested `target`. */
  function TransitionMutation(target: ReplayRun, current: Option<ReplayRun>): ReplayRun {
    match current
    case None => target
    case Some(cur) =>
      if Terminal(cur.state) then cur
      else if FlaggedButLive(cur) && !target.state.Cancelled? then
        cur.(state := Cancelled, result := None, failureReason := None)
      else
        cur.(state := target.state, result := target.result, failureReason := target.failureReason,
             cancelRequested := cur.cancelRequested || target.state.Cancelled?)
  }

  /** The guard of the branch that honours a set flag on a run that is not terminal. */
  predicate FlaggedButLive(run: ReplayRun) {
    run.cancelRequested && !Terminal(run.state)
  }

  /** The closure of `cancel_replay_run`; `loaded` is the run read before the loop. */
  function CancelMutation(loaded: ReplayRun, current: Option<ReplayRun>): ReplayRun {
    match current
    case None => loaded
    case Some(cur) =>
      if Terminal(cur.state) then cur else ReplayRun(Cancelled, None, None, true)
  }

  // Actors

  datatype Cas =
    | Reading(attempt: nat)
    | Writing(attempt: nat, seen: Snapshot<ReplayRun>)

  /** Which `_transition` call of `execute_run` is in progress. */
  datatype Site = BeforeExecution | ToRunning | ToCompleted | ToFinal

  datatype Actor =
    | WorkerLoad                                          // execute_run entered
    | WorkerRecheck(run: ReplayRun)                       // loaded queued and unflagged; reload the flag
    | WorkerTransition(site: Site, target: ReplayRun, cas: Cas)
    | WorkerStage(stage: nat, run: ReplayRun)             // inside _execute_with_timeout
    | CancelLoad                                          // cancel_replay_run entered
    | CancelWrite(loaded: ReplayRun, cas: Cas)
    | Done(outcome: Option<ReplayRun>)                    // returned a run, or raised

  /** What an actor's surroundings do in its step. */
  datatype Event =
    | Proceed(gap: nat)
    | Raise(reason: string)
    | TimeOut(reason: string)
    | Answer(result: string)

  const LAST_STAGE: nat := 4

  function Cancelling(run: ReplayRun): ReplayRun {
    run.(state := Cancelled, result := None, failureReason := None)
  }

  function Completing(run: ReplayRun, result: string): ReplayRun {
    run.(state := Completed, result := Some(result), failureReason := None)
  }

  function Failing(run: ReplayRun, reason: string): ReplayRun {
    run.(state := RunState.Failed, result := None, failureReason := Some(reason))
  }

  /** After `_transition` returned `persisted`, where does `execute_run` go? */
  function AfterTransition(site: Site, target: ReplayRun, persisted: ReplayRun): Actor {
    match site
    case BeforeExecution => Done(Some(target))            // returns its own copy, not `persisted`
    case ToRunning => if persisted.state.Running? then WorkerStage(0, target) else Done(Some(persisted))
    case ToCompleted => Done(Some(persisted))
    case ToFinal => Done(Some(persisted))
  }

  /** `_transition` raised: only the completing call is inside the `try` that records a failure. */
  function AfterExhaustion(site: Site, target: ReplayRun): Actor {
    if site.ToCompleted? then WorkerTransition(ToFinal, Failing(target, "Execution error"), Reading(0)) else Done(None)
  }

  function StepStage(stored: Option<ReplayRun>, stage: nat, run: ReplayRun, event: Event): Actor {
    match event
    case Raise(reason) => WorkerTransition(ToFinal, Failing(run, reason), Reading(0))
    case TimeOut(reason) =>
      if stage < LAST_STAGE then WorkerTransition(ToFinal, Failing(run, reason), Reading(0))
      else WorkerStage(stage, run)
    case Proceed(_) =>
      if stage < LAST_STAGE then
        if stored.Some? && stored.value.cancelRequested then WorkerTransition(ToFinal, Cancelling(run), Reading(0))
        else WorkerStage(stage + 1, run)
      else WorkerStage(stage, run)
    case Answer(result) =>
      if stage == LAST_STAGE then
        WorkerTransition(ToCompleted, Completing(run, result), Reading(0))
      else WorkerStage(stage, run)
  }

  /** One step of one actor: the object after it, and the actor after it. */
  function StepActor(cell: Cell<ReplayRun>, actor: Actor, event: Event): (Cell<ReplayRun>, Actor) {
    var gap := if event.Proceed? then event.gap else 0;
    match actor
    case WorkerLoad =>
      (match cell.value
       case None => (cell, Done(Some(ReplayRun(RunState.Failed, None, Some("Run not found"), false))))
       case Some(run) =>
         if !run.state.Queued? then (cell, Done(Some(run)))
         else if run.cancelRequested then (cell, WorkerTransition(BeforeExecution, Cancelling(run), Reading(0)))
         else (cell, WorkerRecheck(run)))
    case WorkerRecheck(run) =>
      if cell.value.Some? && cell.value.value.cancelRequested then
        (cell, WorkerTransition(BeforeExecution, Cancelling(run), Reading(0)))
      else (cell, WorkerTransition(ToRunning, run.(state := Running), Reading(0)))
    case WorkerTransition(site, target, Reading(attempt)) =>
      if attempt == MAX_ATTEMPTS then (cell, AfterExhaustion(site, target))
      else (cell, WorkerTransition(site, target, Writing(attempt, cell.Read())))
    case WorkerTransition(site, target, Writing(attempt, seen)) =>
      var next := TransitionMutation(target, seen.payload);
      if cell.Accepts(seen) then (cell.Put(next, gap), AfterTransition(site, target, next))
      else (cell, WorkerTransition(site, target, Reading(attempt + 1)))
    case WorkerStage(stage, run) => (cell, StepStage(cell.value, stage, run, event))
    case CancelLoad =>
      (match cell.value
       case None => (cell, Done(None))
       case Some(run) => (cell, if Terminal(run.state) then Done(Some(run)) else CancelWrite(run, Reading(0))))
    case CancelWrite(loaded, Reading(attempt)) =>
      if attempt == MAX_ATTEMPTS then (cell, Done(None)) else (cell, CancelWrite(loaded, Writing(attempt, cell.Read())))
    case CancelWrite(loaded, Writing(attempt, seen)) =>
      var next := CancelMutation(loaded, seen.payload);
      if cell.Accepts(seen) then (cell.Put(next, gap), Done(Some(next)))
      else (cell, CancelWrite(loaded, Reading(attempt + 1)))
    case Done(_) => (cell, actor)
  }

  // Runs

  datatype System = System(cell: Cell<ReplayRun>, actors: map<ActorId, Actor>)

  /** A scheduled step; an actor that has not moved yet starts as a worker or as a canceller. */
  datatype Move = Move(actor: ActorId, isWorker: bool, event: Event)

  function ActorOf(s: System, m: Move): Actor {
    if m.actor in s.actors then s.actors[m.actor] else if m.isWorker then WorkerLoad else CancelLoad
  }

  function Step(s: System, m: Move): System {
    var (cell, actor) := StepActor(s.cell, ActorOf(s, m), m.event);
    System(cell, s.actors[m.actor := actor])
  }

  /** `create_replay_run` has just persisted the queued run under its fresh id. */
  function Created(): System {
    System(Cell(Some(ReplayRun(Queued, None, None, false)), 1), map[])
  }

  function Run(schedule: seq<Move>): System {
    if schedule == [] then Created()
    else Step(Run(schedule[..|schedule| - 1]), schedule[|schedule| - 1])
  }

  // Invariant

  /** The flag, the result and the reason are each set in exactly one state. */
  ghost predicate Consistent(run: ReplayRun) {
    && (run.cancelRequested <==> run.state.Cancelled?)
    && (run.result.Some? <==> run.state.Completed?)
    && (run.failureReason.Some? <==> run.state.Failed?)
  }

  ghost predicate GoodTarget(run: ReplayRun) {
    && !run.state.Queued?
    && (run.result.Some? <==> run.state.Completed?)
    && (run.failureReason.Some? <==> run.state.Failed?)
  }

  /** How the stored run may change: not at all once terminal, and otherwise only forward. */
  ghost predicate Forward(before: ReplayRun, after: ReplayRun) {
    && (Terminal(before.state) ==> after == before)
    && Rank(before.state) <= Rank(after.state)
  }

  function Rank(state: RunState): nat {
    if state.Queued? then 0 else if state.Running? then 1 else 2
  }

  ghost predicate GoodCell(cell: Cell<ReplayRun>) {
    cell.Valid() && cell.value.Some? && Consistent(cell.value.value)
  }

  ghost predicate GoodCas(cell: Cell<ReplayRun>, cas: Cas) {
    cas.Writing? ==> Coherent(cas.seen, cell) && cas.seen.payload.Some? && Consistent(cas.seen.payload.value)
  }

  /** The outcome part of a run: what callers are told. */
  function Verdict(run: ReplayRun): (RunState, Option<string>, Option<string>) {
    (run.state, run.result, run.failureReason)
  }

  ghost predicate Settled(cell: Cell<ReplayRun>, run: ReplayRun) {
    cell.value.Some? && Terminal(cell.value.value.state) && Verdict(run) == Verdict(cell.value.value)
  }

  ghost predicate GoodActor(cell: Cell<ReplayRun>, actor: Actor) {
    match actor
    case WorkerRecheck(run) => run.state.Queued? && Consistent(run)
    case WorkerTransition(site, target, cas) =>
      && GoodTarget(target) && GoodCas(cell, cas)
      && (site.BeforeExecution? ==> Settled(cell, target))
      && (site.ToCompleted? ==> target.state.Completed?)
      && (site.ToRunning? ==> target.state.Running?)
    case WorkerStage(_, run) => run.state.Running? && run.result.None? && run.failureReason.None?
    case CancelWrite(_, cas) => GoodCas(cell, cas)
    case Done(Some(run)) => Terminal(run.state) ==> Settled(cell, run)
    case _ => true
  }

  ghost predicate Inv(s: System) {
    && GoodCell(s.cell)
    && forall a :: a in s.actors ==> GoodActor(s.cell, s.actors[a])
  }

  /** The acting actor and the object it leaves behind are good, and the object moved forward. */
  lemma {:induction false} ActorKeeps(cell: Cell<ReplayRun>, actor: Actor, event: Event)
    requires GoodCell(cell) && GoodActor(cell, actor)
    ensures var (cell', actor') := StepActor(cell, actor, event);
            && GoodCell(cell') && GoodActor(cell', actor')
            && Evolves(cell, cell') && Forward(cell.value.value, cell'.value.value)
  {
    var (cell', actor') := StepActor(cell, actor, event);
    if actor.WorkerTransition? && actor.cas.Writing? && cell.Accepts(actor.cas.seen) {
      var cur := actor.cas.seen.payload.value;
      assert cur == cell.value.value;
      assert !FlaggedButLive(cur);
    }
  }

  /** Everybody else stays good while the object moves forward. */
  lemma {:induction false} OthersKeep(cell: Cell<ReplayRun>, cell': Cell<ReplayRun>, actor: Actor)
    requires GoodCell(cell) && GoodCell(cell') && GoodActor(cell, actor)
    requires Evolves(cell, cell') && Forward(cell.value.value, cell'.value.value)
    ensures GoodActor(cell', actor)
  {
  }

  lemma {:induction false} StepKeeps(s: System, m: Move)
    requires Inv(s)
    ensures Inv(Step(s, m)) && Forward(s.cell.value.value, Step(s, m).cell.value.value)
  {
    ActorKeeps(s.cell, ActorOf(s, m), m.event);
    var s' := Step(s, m);
    forall a | a in s'.actors ensures GoodActor(s'.cell, s'.actors[a]) {
      if a != m.actor {
        OthersKeep(s.cell, s'.cell, s.actors[a]);
      }
    }
  }

  lemma {:induction false} RunKeeps(schedule: seq<Move>)
    ensures Inv(Run(schedule))
  {
    if schedule != [] {
      RunKeeps(schedule[..|schedule| - 1]);
      StepKeeps(Run(schedule[..|schedule| - 1]), schedule[|schedule| - 1]);
    }
  }

  // Theorems

  /** In every reachable store the flag, the result and the reason say exactly what the state says. */
  lemma {:induction false} StoredRunIsConsistent(schedule: seq<Move>)
    ensures Run(schedule).cell.value.Some?
    ensures var run := Run(schedule).cell.value.value;
            && (run.cancelRequested <==> run.state.Cancelled?)
            && (run.result.Some? <==> run.state.Completed?)
            && (run.failureReason.Some? <==> run.state.Failed?)
  {
    RunKeeps(schedule);
  }

  /** Over the rest of any run, a terminal stored run never changes and its rank never falls. */
  lemma {:induction false} StoredRunMovesForward(schedule: seq<Move>, rest: seq<Move>)
    ensures Run(schedule).cell.value.Some? && Run(schedule + rest).cell.value.Some?
    ensures Forward(Run(schedule).cell.value.value, Run(schedule + rest).cell.value.value)
    decreases |rest|
  {
    RunKeeps(schedule);
    if rest == [] {
      assert schedule + rest == schedule;
    } else {
      var front := rest[..|rest| - 1];
      assert (schedule + rest)[..|schedule + rest| - 1] == schedule + front;
      StoredRunMovesForward(schedule, front);
      RunKeeps(schedule + front);
      StepKeeps(Run(schedule + front), rest[|rest| - 1]);
    }
  }

  /** The outcome an actor has returned, when it is a terminal one. */
  ghost predicate Reported(s: System, a: ActorId, run: ReplayRun) {
    a in s.actors && s.actors[a] == Done(Some(run)) && Terminal(run.state)
  }

  /** Agreement: all terminal outcomes ever returned carry one verdict, the stored one. */
  lemma {:induction false} Agreement(schedule: seq<Move>, a: ActorId, run: ReplayRun, b: ActorId, other: ReplayRun)
    requires Reported(Run(schedule), a, run) && Reported(Run(schedule), b, other)
    ensures Verdict(run) == Verdict(other)
    ensures Settled(Run(schedule).cell, run)
  {
    RunKeeps(schedule);
  }

  /**
   Agreement across time: an outcome returned early agrees with one returned any
   number of steps later.
   */
  lemma {:induction false} LaterAgreement(
    schedule: seq<Move>, rest: seq<Move>, a: ActorId, run: ReplayRun, b: ActorId, later: ReplayRun)
    requires Reported(Run(schedule), a, run) && Reported(Run(schedule + rest), b, later)
    ensures Verdict(run) == Verdict(later)
  {
    RunKeeps(schedule);
    RunKeeps(schedule + rest);
    StoredRunMovesForward(schedule, rest);
  }

  /** No reachable compare-and-set ever sees a flagged run that is not terminal: that branch is dead. */
  lemma {:induction false} FlagBranchIsDead(schedule: seq<Move>, a: ActorId)
    requires a in Run(schedule).actors
    ensures match Run(schedule).actors[a]
            case WorkerTransition(_, _, Writing(_, seen)) => seen.payload.Some? && !FlaggedButLive(seen.payload.value)
            case _ => true
  {
    RunKeeps(schedule);
    assert GoodActor(Run(schedule).cell, Run(schedule).actors[a]);
  }
}
