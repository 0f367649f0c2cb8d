/**
 How workers and cancellers of a replay run end: a canceller always with the stored
 verdict; every verdict for a cause; and an actor that goes on alone with exactly the
 change it stands for.
 */
module ReplayOutcomes {
  import opened Wrappers
  import opened Storage
  import opened Sessions
  import opened Replay

  // Cancellers

  ghost predicate IsCanceller(schedule: seq<Move>, a: ActorId) {
    forall i :: 0 <= i < |schedule| && schedule[i].actor == a ==> !schedule[i].isWorker
  }

  /** Where a canceller can stand. */
  ghost predicate CancellerAt(cell: Cell<ReplayRun>, actor: Actor) {
    match actor
    case CancelLoad => true
    case CancelWrite(_, _) => true
    case Done(None) => true
    case Done(Some(run)) => Terminal(run.state) && Settled(cell, run)
    case _ => false
  }

  lemma {:induction false} CancellerStep(cell: Cell<ReplayRun>, actor: Actor, event: Event)
    requires GoodCell(cell) && GoodActor(cell, actor) && CancellerAt(cell, actor)
    ensures var (cell', actor') := StepActor(cell, actor, event); CancellerAt(cell', actor')
  {
  }

  lemma {:induction false} CancellerStays(schedule: seq<Move>, a: ActorId)
    requires IsCanceller(schedule, a) && a in Run(schedule).actors
    ensures CancellerAt(Run(schedule).cell, Run(schedule).actors[a])
  {
    var before, m := schedule[..|schedule| - 1], schedule[|schedule| - 1];
    var s := Run(before);
    RunKeeps(before);
    if a in s.actors {
      CancellerStays(before, a);
    }
    if m.actor == a {
      CancellerStep(s.cell, ActorOf(s, m), m.event);
    } else {
      StepKeeps(s, m);
    }
  }

  /**
   Whatever a canceller returns is terminal, and is the verdict of the store; if that is
   `cancelled`, there is neither a result nor a reason and the stored run is flagged.
   */
  lemma {:induction false} CancellerReturnsVerdict(schedule: seq<Move>, a: ActorId, run: ReplayRun)
    requires IsCanceller(schedule, a) && a in Run(schedule).actors && Run(schedule).actors[a] == Done(Some(run))
    ensures Terminal(run.state) && Settled(Run(schedule).cell, run)
    ensures run.state.Cancelled? ==>
              run.result.None? && run.failureReason.None? && Run(schedule).cell.value.value.cancelRequested
  {
    CancellerStays(schedule, a);
    RunKeeps(schedule);
  }

  /**
   A canceller's accepted write cancels a live run for good, and puts a terminal run back
   as it is; either way it returns what is then stored.
   */
  lemma {:induction false} CancelReplacesLiveRuns(schedule: seq<Move>, m: Move)
    requires ActorOf(Run(schedule), m).CancelWrite? && ActorOf(Run(schedule), m).cas.Writing?
    requires Run(schedule).cell.Accepts(ActorOf(Run(schedule), m).cas.seen)
    ensures Run(schedule).cell.value.Some?
    ensures var before, t := Run(schedule).cell.value.value, Step(Run(schedule), m);
            && t.cell.value.Some? && m.actor in t.actors && t.actors[m.actor] == Done(t.cell.value)
            && t.cell.value.value == if Terminal(before.state) then before else ReplayRun(Cancelled, None, None, true)
  {
    RunKeeps(schedule);
    assert GoodActor(Run(schedule).cell, ActorOf(Run(schedule), m));
  }

  /** Once a run is cancelled, no worker begins another stage of it. */
  lemma {:induction false} NoStageAfterCancel(schedule: seq<Move>, m: Move)
    requires Run(schedule).cell.value.Some? && Run(schedule).cell.value.value.state.Cancelled?
    requires Step(Run(schedule), m).actors[m.actor].WorkerStage?
    ensures Step(Run(schedule), m).actors[m.actor] == ActorOf(Run(schedule), m)
  {
    RunKeeps(schedule);
    assert m.actor in Run(schedule).actors ==> GoodActor(Run(schedule).cell, ActorOf(Run(schedule), m));
  }

  // Causes

  /** An actor met an event. */
  datatype Occurrence = Occurrence(actor: Actor, event: Event)

  ghost function OccurredSoFar(schedule: seq<Move>): set<Occurrence> {
    if schedule == [] then {}
    else
      var before, m := schedule[..|schedule| - 1], schedule[|schedule| - 1];
      OccurredSoFar(before) + {Occurrence(ActorOf(Run(before), m), m.event)}
  }

  /** Each verdict has its cause: an answer, a stage that raised or ran out of time, lost races, or a canceller. */
  ghost predicate Caused(run: ReplayRun, past: set<Occurrence>) {
    match run.state
    case Completed => run.result.Some? && Answered(run.result.value, past)
    case Failed => run.failureReason.Some? && Disturbed(run.failureReason.value, past)
    case Cancelled => exists o :: o in past && o.actor.CancelWrite?
    case _ => true
  }

  ghost predicate Answered(result: string, past: set<Occurrence>) {
    exists o :: o in past && o.actor.WorkerStage? && o.actor.stage == LAST_STAGE && o.event == Answer(result)
  }

  ghost predicate Disturbed(reason: string, past: set<Occurrence>) {
    || (exists o :: o in past && o.actor.WorkerStage?
                    && (o.event == Raise(reason) || (o.event == TimeOut(reason) && o.actor.stage < LAST_STAGE)))
    || (reason == "Execution error" && exists o :: o in past && GaveUpCompleting(o.actor))
  }

  /** Every attempt to record the result has lost its race. */
  predicate GaveUpCompleting(actor: Actor) {
    actor.WorkerTransition? && actor.site.ToCompleted? && actor.cas == Reading(MAX_ATTEMPTS)
  }

  ghost predicate ActorCaused(cell: Cell<ReplayRun>, actor: Actor, past: set<Occurrence>) {
    actor.WorkerTransition? ==>
      && Caused(actor.target, past)
      && (actor.target.state.Cancelled? ==> cell.value.Some? && cell.value.value.state.Cancelled?)
  }

  lemma {:induction false} StepIsCaused(cell: Cell<ReplayRun>, actor: Actor, event: Event, past: set<Occurrence>)
    requires GoodCell(cell) && GoodActor(cell, actor) && ActorCaused(cell, actor, past)
    requires Caused(cell.value.value, past)
    ensures var (cell', actor') := StepActor(cell, actor, event);
            var past' := past + {Occurrence(actor, event)};
            cell'.value.Some? && Caused(cell'.value.value, past') && ActorCaused(cell', actor', past')
  {
    var o := Occurrence(actor, event);
    assert o in past + {o};
    CausedLater(cell.value.value, past, past + {o});
    if actor.WorkerTransition? {
      CausedLater(actor.target, past, past + {o});
    }
  }

  lemma {:induction false} CausedLater(run: ReplayRun, past: set<Occurrence>, past': set<Occurrence>)
    requires Caused(run, past) && past <= past'
    ensures Caused(run, past')
  {
  }

  lemma {:induction false} RunIsCaused(schedule: seq<Move>)
    ensures Run(schedule).cell.value.Some? && Caused(Run(schedule).cell.value.value, OccurredSoFar(schedule))
    ensures forall a :: a in Run(schedule).actors ==>
              ActorCaused(Run(schedule).cell, Run(schedule).actors[a], OccurredSoFar(schedule))
  {
    if schedule != [] {
      var before, m := schedule[..|schedule| - 1], schedule[|schedule| - 1];
      var s, past := Run(before), OccurredSoFar(before);
      RunIsCaused(before);
      RunKeeps(before);
      StepKeeps(s, m);
      StepIsCaused(s.cell, ActorOf(s, m), m.event, past);
      forall a | a in Run(schedule).actors && a != m.actor
        ensures ActorCaused(Run(schedule).cell, Run(schedule).actors[a], OccurredSoFar(schedule))
      {
        if s.actors[a].WorkerTransition? {
          CausedLater(s.actors[a].target, past, OccurredSoFar(schedule));
        }
      }
    }
  }

  /** What the `i`-th move of a schedule was. */
  ghost function OccurrenceAt(schedule: seq<Move>, i: nat): Occurrence
    requires i < |schedule|
  {
    Occurrence(ActorOf(Run(schedule[..i]), schedule[i]), schedule[i].event)
  }

  lemma {:induction false} OccurredAt(schedule: seq<Move>, o: Occurrence)
    requires o in OccurredSoFar(schedule)
    ensures exists i :: 0 <= i < |schedule| && o == OccurrenceAt(schedule, i)
  {
    var n := |schedule| - 1;
    if o in OccurredSoFar(schedule[..n]) {
      OccurredAt(schedule[..n], o);
      var i :| 0 <= i < n && o == OccurrenceAt(schedule[..n], i);
      SameOccurrence(schedule, n, i);
    } else {
      assert o == OccurrenceAt(schedule, n);
    }
  }

  lemma {:induction false} SameOccurrence(schedule: seq<Move>, n: nat, i: nat)
    requires i < n <= |schedule|
    ensures OccurrenceAt(schedule[..n], i) == OccurrenceAt(schedule, i)
  {
    assert schedule[..n][..i] == schedule[..i];
  }

  /** The stored result was an execution's answer, earlier in the run. */
  lemma {:induction false} ResultWasAnswered(schedule: seq<Move>, result: string)
    requires Run(schedule).cell.value.Some? && Run(schedule).cell.value.value.result == Some(result)
    ensures exists i :: 0 <= i < |schedule| && schedule[i].event == Answer(result)
  {
    RunKeeps(schedule);
    RunIsCaused(schedule);
    var o :| o in OccurredSoFar(schedule) && o.event == Answer(result);
    OccurredAt(schedule, o);
  }

  /** The stored reason was that of a stage, earlier in the run, or says that the result could not be recorded. */
  lemma {:induction false} ReasonWasRaised(schedule: seq<Move>, reason: string)
    requires Run(schedule).cell.value.Some? && Run(schedule).cell.value.value.failureReason == Some(reason)
    ensures (exists i ::
               0 <= i < |schedule| && (schedule[i].event == Raise(reason) || schedule[i].event == TimeOut(reason)))
            || (reason == "Execution error"
                && exists i :: 0 <= i < |schedule| && GaveUpCompleting(ActorOf(Run(schedule[..i]), schedule[i])))
  {
    RunKeeps(schedule);
    RunIsCaused(schedule);
    var past := OccurredSoFar(schedule);
    if o :| o in past && (o.event == Raise(reason) || o.event == TimeOut(reason)) {
      OccurredAt(schedule, o);
    } else {
      var o :| o in past && GaveUpCompleting(o.actor);
      OccurredAt(schedule, o);
    }
  }

  /** The stored run was cancelled by a canceller's write. */
  lemma {:induction false} CancelledByCanceller(schedule: seq<Move>)
    requires Run(schedule).cell.value.Some? && Run(schedule).cell.value.value.state.Cancelled?
    ensures exists i :: 0 <= i < |schedule| && ActorOf(Run(schedule[..i]), schedule[i]).CancelWrite?
  {
    RunIsCaused(schedule);
    var o :| o in OccurredSoFar(schedule) && o.actor.CancelWrite?;
    OccurredAt(schedule, o);
  }

  // Alone

  /** What an execution meets: one disturbance at a stage, or its answer. */
  datatype Course = Course(disturbed: Option<(nat, Event)>, answer: string)

  function Meets(c: Course, actor: Actor): Event {
    if !actor.WorkerStage? then Proceed(0)
    else if c.disturbed.Some? && c.disturbed.value.0 == actor.stage then c.disturbed.value.1
    else if actor.stage < LAST_STAGE then Proceed(0)
    else Answer(c.answer)
  }

  /** The disturbance ends the execution: a stage raises, or a timed one runs out of time. */
  predicate Proper(c: Course) {
    c.disturbed.Some? ==>
      && c.disturbed.value.0 <= LAST_STAGE
      && (c.disturbed.value.1.Raise? || (c.disturbed.value.1.TimeOut? && c.disturbed.value.0 < LAST_STAGE))
  }

  function Onward(c: Course): ((Cell<ReplayRun>, Actor)) -> (Cell<ReplayRun>, Actor) {
    (now: (Cell<ReplayRun>, Actor)) => StepActor(now.0, now.1, Meets(c, now.1))
  }

  /** A transition of a live, unflagged run that is not being raced: what it asks for is stored. */
  lemma {:induction false} TransitionAlone(c: Course, cell: Cell<ReplayRun>, site: Site, target: ReplayRun)
    returns (cell': Cell<ReplayRun>)
    requires cell.value.Some? && !Terminal(cell.value.value.state) && !cell.value.value.cancelRequested
    requires !target.state.Cancelled? && !target.cancelRequested
    ensures cell'.value == Some(target)
    ensures Leads(Onward(c),
                  (cell, WorkerTransition(site, target, Reading(0))), (cell', AfterTransition(site, target, target)))
  {
    var start := WorkerTransition(site, target, Reading(0));
    LeadsHere(Onward(c), (cell, start));
    LeadsNext(Onward(c), (cell, start), (cell, WorkerTransition(site, target, Writing(0, cell.Read()))));
    cell' := cell.Put(target, 0);
  }

  /** The stages, as far as they go. */
  lemma {:induction false} StagesAlone(c: Course, cell: Cell<ReplayRun>, run: ReplayRun, stage: nat)
    requires cell.value.Some? && !cell.value.value.cancelRequested && stage <= LAST_STAGE && Proper(c)
    requires c.disturbed.Some? ==> stage <= c.disturbed.value.0
    ensures Leads(Onward(c), (cell, WorkerStage(stage, run)), (cell, match c.disturbed
                    case None => WorkerTransition(ToCompleted, Completing(run, c.answer), Reading(0))
                    case Some(d) => WorkerTransition(ToFinal, Failing(run, d.1.reason), Reading(0))))
    decreases LAST_STAGE - stage
  {
    LeadsHere(Onward(c), (cell, WorkerStage(stage, run)));
    if stage < LAST_STAGE && !(c.disturbed.Some? && c.disturbed.value.0 == stage) {
      StagesAlone(c, cell, run, stage + 1);
      LeadsOn(Onward(c), (cell, WorkerStage(stage, run)), (cell, WorkerStage(stage + 1, run)), (cell, match c.disturbed
           case None => WorkerTransition(ToCompleted, Completing(run, c.answer), Reading(0))
           case Some(d) => WorkerTransition(ToFinal, Failing(run, d.1.reason), Reading(0))));
    }
  }

  /** What a worker that runs alone makes of a queued run. */
  function OutcomeOf(c: Course): ReplayRun {
    match c.disturbed
    case None => ReplayRun(Completed, Some(c.answer), None, false)
    case Some(d) => ReplayRun(RunState.Failed, None, Some(if d.1.Raise? || d.1.TimeOut? then d.1.reason else ""), false)
  }

  /**
   A worker alone completes a queued run with exactly its answer; or, if a stage raises or
   runs out of time, fails it with exactly that reason. It stores and returns the outcome.
   */
  lemma {:induction false} WorkerAlone(c: Course, cell: Cell<ReplayRun>) returns (cell': Cell<ReplayRun>)
    requires cell.value == Some(ReplayRun(Queued, None, None, false)) && Proper(c)
    ensures Leads(Onward(c), (cell, WorkerLoad), (cell', Done(Some(OutcomeOf(c))))) && cell'.value == Some(OutcomeOf(c))
  {
    var queued, running := cell.value.value, ReplayRun(Running, None, None, false);
    LeadsHere(Onward(c), (cell, WorkerLoad));
    LeadsNext(Onward(c), (cell, WorkerLoad), (cell, WorkerRecheck(queued)));
    var first := TransitionAlone(c, cell, ToRunning, running);
    LeadsOn(Onward(c),
            (cell, WorkerLoad),
            (cell, WorkerTransition(ToRunning, running, Reading(0))),
            (first, WorkerStage(0, running)));
    StagesAlone(c, first, running, 0);
    var (site, target) :=
      if c.disturbed.None? then (ToCompleted, Completing(running, c.answer))
      else (ToFinal, Failing(running, c.disturbed.value.1.reason));
    LeadsOn(Onward(c),
            (cell, WorkerLoad), (first, WorkerStage(0, running)), (first, WorkerTransition(site, target, Reading(0))));
    cell' := TransitionAlone(c, first, site, target);
    LeadsOn(Onward(c),
            (cell, WorkerLoad), (first, WorkerTransition(site, target, Reading(0))), (cell', Done(Some(target))));
  }

  /** A worker that finds a run which is not queued returns it and leaves it alone. */
  lemma {:induction false} LateWorkerAlone(c: Course, cell: Cell<ReplayRun>)
    requires cell.value.Some? && !cell.value.value.state.Queued?
    ensures Leads(Onward(c), (cell, WorkerLoad), (cell, Done(cell.value)))
  {
    LeadsHere(Onward(c), (cell, WorkerLoad));
  }

  /** A missing run is reported as failed by a worker and as absent by a canceller. */
  lemma {:induction false} MissingRunAlone(c: Course, cell: Cell<ReplayRun>)
    requires cell.value.None?
    ensures Leads(Onward(c), (cell, CancelLoad), (cell, Done(None)))
    ensures exists run :: Leads(Onward(c),
                                (cell, WorkerLoad), (cell, Done(Some(run)))) && run.state.Failed? && run.result.None?
  {
    LeadsHere(Onward(c), (cell, CancelLoad));
    LeadsHere(Onward(c), (cell, WorkerLoad));
  }

  /**
   A worker that finds the flag set on the queued run, at once or when it looks again, runs
   no stage: it leaves the stored run cancelled and returns its own copy, cancelled.
   */
  lemma {:induction false} FlagStopsWorkerAlone(c: Course, cell: Cell<ReplayRun>, actor: Actor, run: ReplayRun)
    returns (cell': Cell<ReplayRun>)
    requires cell.value.Some? && cell.value.value.cancelRequested
    requires cell.value.value.state.Queued? || cell.value.value.state.Cancelled?
    requires if actor.WorkerLoad? then cell.value == Some(run) && run.state.Queued? else actor == WorkerRecheck(run)
    ensures Leads(Onward(c),
                  (cell, actor), (cell', Done(Some(run.(state := Cancelled, result := None, failureReason := None)))))
    ensures cell'.value.Some? && cell'.value.value.state.Cancelled? && cell'.value.value.cancelRequested
  {
    var target := run.(state := Cancelled, result := None, failureReason := None);
    LeadsHere(Onward(c), (cell, actor));
    LeadsNext(Onward(c), (cell, actor), (cell, WorkerTransition(BeforeExecution, target, Reading(0))));
    LeadsNext(Onward(c), (cell, actor), (cell, WorkerTransition(BeforeExecution, target, Writing(0, cell.Read()))));
    cell' := cell.Put(TransitionMutation(target, cell.value), 0);
  }

  /** A canceller alone cancels a live run, and returns a terminal one as it is. */
  lemma {:induction false} CancellerAlone(c: Course, cell: Cell<ReplayRun>) returns (cell': Cell<ReplayRun>)
    requires cell.value.Some?
    ensures Leads(Onward(c), (cell, CancelLoad), (cell', Done(cell'.value)))
    ensures if Terminal(cell.value.value.state) then cell' == cell
            else cell'.value == Some(ReplayRun(Cancelled, None, None, true))
  {
    var run := cell.value.value;
    LeadsHere(Onward(c), (cell, CancelLoad));
    cell' := cell;
    if !Terminal(run.state) {
      LeadsNext(Onward(c), (cell, CancelLoad), (cell, CancelWrite(run, Reading(0))));
      LeadsNext(Onward(c), (cell, CancelLoad), (cell, CancelWrite(run, Writing(0, cell.Read()))));
      cell' := cell.Put(ReplayRun(Cancelled, None, None, true), 0);
    }
  }

  // Lost races

  /** Attempts are left: this one will be made, or is still good, or another one follows it. */
  predicate CanStillWrite(cas: Cas, cell: Cell<ReplayRun>) {
    match cas
    case Reading(attempt) => attempt < MAX_ATTEMPTS
    case Writing(attempt, seen) => attempt < MAX_ATTEMPTS && (cell.Accepts(seen) || attempt + 1 < MAX_ATTEMPTS)
  }

  /** However many races it has lost, a canceller gives up only with no attempt left. */
  lemma {:induction false} CancelsAfterLostRaces(c: Course, cell: Cell<ReplayRun>, loaded: ReplayRun, cas: Cas)
    returns (cell': Cell<ReplayRun>)
    requires GoodCell(cell) && GoodCas(cell, cas)
    requires match cas case Reading(n) => n <= MAX_ATTEMPTS case Writing(n, _) => n < MAX_ATTEMPTS
    ensures if CanStillWrite(cas, cell)
            then && Leads(Onward(c), (cell, CancelWrite(loaded, cas)), (cell', Done(cell'.value))) && cell'.value.Some?
                 && Terminal(cell'.value.value.state)
            else Leads(Onward(c), (cell, CancelWrite(loaded, cas)), (cell, Done(None)))
  {
    var start, cas' := CancelWrite(loaded, cas), cas;
    cell' := cell;
    LeadsHere(Onward(c), (cell, start));
    if cas.Writing? && !cell.Accepts(cas.seen) {
      cas' := Reading(cas.attempt + 1);
    }
    if cas'.Reading? {
      LeadsNext(Onward(c), (cell, start), (cell, CancelWrite(loaded, cas')));
      cas' := Writing(cas'.attempt, cell.Read());
    }
    if CanStillWrite(cas, cell) {
      LeadsNext(Onward(c), (cell, start), (cell, CancelWrite(loaded, cas')));
      cell' := cell.Put(CancelMutation(loaded, cas'.seen.payload), 0);
    }
  }

  /** Nor does a worker's transition; giving up on the result, it goes on to record a failure. */
  lemma {:induction false} TransitionAfterLostRaces(
    c: Course, cell: Cell<ReplayRun>, site: Site, target: ReplayRun, cas: Cas) returns (cell': Cell<ReplayRun>)
    requires GoodCell(cell) && GoodCas(cell, cas) && !target.state.Cancelled? && !target.cancelRequested
    requires match cas case Reading(n) => n <= MAX_ATTEMPTS case Writing(n, _) => n < MAX_ATTEMPTS
    ensures if CanStillWrite(cas, cell)
            then && cell'.value == Some(if Terminal(cell.value.value.state) then cell.value.value else target)
                 && Leads(Onward(c),
                          (cell, WorkerTransition(site, target, cas)),
                          (cell', AfterTransition(site, target, cell'.value.value)))
            else Leads(Onward(c),
                       (cell, WorkerTransition(site, target, cas)),
                       (cell, if !site.ToCompleted? then Done(None)
                              else WorkerTransition(ToFinal, Failing(target, "Execution error"), Reading(0))))
  {
    var start, cas' := WorkerTransition(site, target, cas), cas;
    cell' := cell;
    LeadsHere(Onward(c), (cell, start));
    if cas.Writing? && !cell.Accepts(cas.seen) {
      cas' := Reading(cas.attempt + 1);
    }
    if cas'.Reading? {
      LeadsNext(Onward(c), (cell, start), (cell, WorkerTransition(site, target, cas')));
      cas' := Writing(cas'.attempt, cell.Read());
    }
    if CanStillWrite(cas, cell) {
      LeadsNext(Onward(c), (cell, start), (cell, WorkerTransition(site, target, cas')));
      cell' := cell.Put(TransitionMutation(target, cas'.seen.payload), 0);
    }
  }

  // As part of a run

  const STEP: (System, Move) -> System := (s: System, m: Move) => Step(s, m)

  ghost predicate Only(rest: seq<Move>, a: ActorId, isWorker: bool) {
    forall i :: 0 <= i < |rest| ==> rest[i].actor == a && rest[i].isWorker == isWorker
  }

  ghost predicate StandsAt(s: System, t: System, a: ActorId, now: (Cell<ReplayRun>, Actor), n: nat) {
    t.cell == now.0 && t.actors == if n == 0 then s.actors else s.actors[a := now.1]
  }

  lemma {:induction false} OneMove(
    s: System, t: System, a: ActorId, c: Course, isWorker: bool, now: (Cell<ReplayRun>, Actor), n: nat)
    requires a !in s.actors && StandsAt(s, t, a, now, n)
    requires n == 0 ==> now.1 == if isWorker then WorkerLoad else CancelLoad
    ensures StandsAt(s, Step(t, Move(a, isWorker, Meets(c, now.1))), a, Onward(c)(now), n + 1)
  {
  }

  lemma {:induction false} RunPlays(schedule: seq<Move>, rest: seq<Move>)
    ensures Run(schedule + rest) == Played(STEP, Run(schedule), rest)
    decreases |rest|
  {
    if rest == [] {
      assert schedule + rest == schedule;
    } else {
      FirstMoveAway(schedule, rest);
      RunPlays(schedule + [rest[0]], rest[1..]);
    }
  }

  lemma {:induction false} FirstMoveAway(schedule: seq<Move>, rest: seq<Move>)
    requires rest != []
    ensures (schedule + [rest[0]])[..|schedule|] == schedule
    ensures (schedule + [rest[0]]) + rest[1..] == schedule + rest
  {
  }

  /** What an actor reaches alone, it reaches by a continuation of the run in which only it moves. */
  lemma {:induction false} ReachedByARun(
    schedule: seq<Move>, a: ActorId, c: Course, isWorker: bool, cell: Cell<ReplayRun>, run: Option<ReplayRun>)
    returns (rest: seq<Move>)
    requires a !in Run(schedule).actors
    requires Leads(Onward(c), (Run(schedule).cell, if isWorker then WorkerLoad else CancelLoad), (cell, Done(run)))
    ensures Only(rest, a, isWorker) && Run(schedule + rest).cell == cell
    ensures a in Run(schedule + rest).actors && Run(schedule + rest).actors[a] == Done(run)
  {
    var s, first := Run(schedule), if isWorker then WorkerLoad else CancelLoad;
    var n :| Iterate(Onward(c), (s.cell, first), n) == (cell, Done(run));
    var stands := (t: System, now: (Cell<ReplayRun>, Actor), k: nat) =>
      StandsAt(s, t, a, now, k) && (k == 0 ==> now.1 == first);
    var move := (now: (Cell<ReplayRun>, Actor)) => Move(a, isWorker, Meets(c, now.1));
    forall t, now, k: nat | stands(t, now, k) ensures stands(STEP(t, move(now)), Onward(c)(now), k + 1) {
      OneMove(s, t, a, c, isWorker, now, k);
    }
    rest := MovesFollow(STEP, Onward(c), move, stands, s, (s.cell, first), 0, n);
    RunPlays(schedule, rest);
  }

  /** From every reachable state with the run still queued, a worker that nobody interrupts ends it. */
  lemma {:induction false} WorkerCanFinish(schedule: seq<Move>, a: ActorId, c: Course) returns (rest: seq<Move>)
    requires a !in Run(schedule).actors && Proper(c)
    requires Run(schedule).cell.value.Some? && Run(schedule).cell.value.value.state.Queued?
    ensures Only(rest, a, true) && Run(schedule + rest).cell.value == Some(OutcomeOf(c))
    ensures a in Run(schedule + rest).actors && Run(schedule + rest).actors[a] == Done(Some(OutcomeOf(c)))
  {
    RunKeeps(schedule);
    var cell := WorkerAlone(c, Run(schedule).cell);
    rest := ReachedByARun(schedule, a, c, true, cell, Some(OutcomeOf(c)));
  }

  /** From every reachable state with the run still live, a canceller that nobody interrupts cancels it. */
  lemma {:induction false} CancellerCanFinish(schedule: seq<Move>, a: ActorId) returns (rest: seq<Move>)
    requires a !in Run(schedule).actors
    requires Run(schedule).cell.value.Some? && !Terminal(Run(schedule).cell.value.value.state)
    ensures Only(rest, a, false)
    ensures Run(schedule + rest).cell.value == Some(ReplayRun(Cancelled, None, None, true))
    ensures a in Run(schedule + rest).actors
    ensures Run(schedule + rest).actors[a] == Done(Some(ReplayRun(Cancelled, None, None, true)))
  {
    var c := Course(None, "");
    var cell := CancellerAlone(c, Run(schedule).cell);
    rest := ReachedByARun(schedule, a, c, false, cell, cell.value);
  }
}
