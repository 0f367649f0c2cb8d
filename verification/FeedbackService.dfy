/**
 The review actions of the service as they are written, over a store that others
 may change arbitrarily before each access. Each method takes exactly the steps of
 the step system of `Promotion`, so exactly-once promotion is about this code.
 */
module FeedbackService {
  import opened Wrappers
  import opened Storage
  import opened Promotion
  import opened Sessions

  const STEP: Stepper<Shared, Actor, nat> := (s: Shared, actor: Actor, gap: nat) => StepActor(s, actor, gap)

  class FeedbackService {
    const session: Session<Shared, Actor, nat>
    /** How far a generation jumps when this caller writes. */
    const gap: nat

    constructor (session: Session<Shared, Actor, nat>, gap: nat)
      ensures this.session == session && this.gap == gap
    {
      this.session, this.gap := session, gap;
    }

    ghost predicate At(actor: Actor)
      reads session
    {
      session.step == STEP && session.At(actor)
    }

    /** One attempt of the compare-and-set that rewrites the item for `action`. */
    method TryReview(action: Action, ghost attempt: nat) returns (ended: bool, record: Option<Feedback>)
      requires ValidAction(action) && attempt < MAX_ATTEMPTS && At(Reviewing(action, Reading(attempt)))
      modifies session
      ensures At(if !ended then Reviewing(action, Reading(attempt + 1))
                 else if record.None? then Aborted else ReviewDone(record.value))
    {
      var found := session.Look(Reviewing(action, Reading(attempt)), gap);
      var seen := found.item.Read();
      ghost var writing := Reviewing(action, Cas.Writing(attempt, seen));
      found := session.Next();
      if seen.payload.None? {
        session.Leave(found, writing, gap);
        return true, None;
      }
      var updated := Review(seen.payload.value, action);
      if found.item.Accepts(seen) {
        session.Leave(found.(item := found.item.Put(updated, gap)), writing, gap);
        return true, Some(updated);
      }
      session.Leave(found, writing, gap);
      return false, None;
    }

    /** `classify_feedback` and `resolve_feedback`; an unknown category is refused before any write. */
    method ReviewFeedback(action: Action) returns (record: Option<Feedback>)
      requires At(Reviewing(action, Reading(0)))
      modifies session
      ensures At(if record.None? then Aborted else ReviewDone(record.value))
    {
      if !ValidAction(action) {
        var _ := session.Look(Reviewing(action, Reading(0)), gap);
        return None;
      }
      for attempt := 0 to MAX_ATTEMPTS
        invariant At(Reviewing(action, Reading(attempt)))
      {
        var ended, updated := TryReview(action, attempt);
        if ended {
          return updated;
        }
      }
      var _ := session.Look(Reviewing(action, Reading(MAX_ATTEMPTS)), gap);
      return None;
    }

    /** One attempt of the compare-and-set that records the pointer, guards included. */
    method TryRecord(case_: BenchmarkCase, ghost attempt: nat) returns (ended: bool, outcome: PromotionOutcome)
      requires attempt < MAX_ATTEMPTS && At(Recording(case_, Reading(attempt)))
      modifies session
      ensures At(if ended then Outcome(outcome) else Recording(case_, Reading(attempt + 1)))
      ensures ended && outcome.Promoted? ==> outcome.case_ == case_
    {
      var found := session.Look(Recording(case_, Reading(attempt)), gap);
      var seen := found.item.Read();
      ghost var writing := Recording(case_, Cas.Writing(attempt, seen));
      found := session.Next();
      if seen.payload.None? {
        session.Leave(found, writing, gap);
        return true, NotPromoted;
      }
      var promoted := Promote(seen.payload.value, case_.question);
      if promoted.Failure? {
        session.Leave(found, writing, gap);
        return true, NotPermitted(promoted.error);
      }
      if found.item.Accepts(seen) {
        session.Leave(found.(item := found.item.Put(promoted.value.0, gap)), writing, gap);
        return true, Promoted(case_);
      }
      session.Leave(found, writing, gap);
      return false, NotPromoted;
    }

    /** `promote_feedback`; `question` is the one of the joined trace. */
    method PromoteFeedback(question: string) returns (outcome: PromotionOutcome)
      requires At(LoadingItem(question))
      modifies session
      ensures At(Outcome(outcome))
    {
      var found := session.Look(LoadingItem(question), gap);
      if found.item.value.None? {
        return NotPromoted;
      }
      var promoted := Promote(found.item.value.value, question);
      if promoted.Failure? {
        return NotPermitted(promoted.error);
      }
      var case_ := promoted.value.1;
      found := session.Next();
      if found.benchmark.generation != 0 {
        session.Leave(found, CreatingCase(case_), gap);
        return NotPermitted(AlreadyInEvaluationSet);
      }
      session.Leave(found.(benchmark := found.benchmark.Put(case_, gap)), CreatingCase(case_), gap);
      for attempt := 0 to MAX_ATTEMPTS
        invariant At(Recording(case_, Reading(attempt)))
      {
        var ended, recorded := TryRecord(case_, attempt);
        if ended {
          return recorded;
        }
      }
      found := session.Look(Recording(case_, Reading(MAX_ATTEMPTS)), gap);
      return NotPromoted;
    }
  }

  /** What `promote_feedback` does for its caller: the case, a refusal, or nothing. */
  datatype PromotionOutcome = Promoted(case_: BenchmarkCase) | NotPermitted(error: PromotionError) | NotPromoted

  function Outcome(outcome: PromotionOutcome): Actor {
    match outcome
    case Promoted(case_) => PromotionDone(case_)
    case NotPermitted(error) => Refused(error)
    case NotPromoted => Aborted
  }

  function Start(op: Operation): Actor {
    match op
    case ReviewItem(action) => Reviewing(action, Reading(0))
    case PromoteItem(question) => LoadingItem(question)
  }

  /** What every move of a schedule finds, and its event. */
  ghost function TraceOf(item: Feedback, schedule: seq<Move>): seq<Noted<Shared, nat>> {
    if schedule == [] then []
    else
      var before, m := schedule[..|schedule| - 1], schedule[|schedule| - 1];
      TraceOf(item, before) + [Noted(m.actor, Taken(Run(item, before).shared, m.gap))]
  }

  lemma {:induction false} StepMovesActor(s: System, m: Move)
    ensures Step(s, m).actors == s.actors[m.actor := STEP(s.shared, ActorOf(s, m), m.gap).1]
  {
  }

  /** An actor of the system stands where a caller stands that takes the same steps. */
  lemma {:induction false} ActorFollowsItsSteps(item: Feedback, schedule: seq<Move>, a: ActorId, op: Operation)
    requires forall i :: 0 <= i < |schedule| && schedule[i].actor == a ==> schedule[i].op == op
    ensures Abreast(STEP, Start(op), Run(item, schedule).actors, a, StepsOf(TraceOf(item, schedule), a))
  {
    if schedule != [] {
      var before, m := schedule[..|schedule| - 1], schedule[|schedule| - 1];
      var s := Run(item, before);
      ActorFollowsItsSteps(item, before, a, op);
      StepMovesActor(s, m);
      StaysAbreast(
        STEP, Start(op), s.actors, Run(item, schedule).actors, a, TraceOf(item, before),
        Noted(m.actor, Taken(s.shared, m.gap)));
    }
  }

  /**
   Of any number of `promote_feedback` calls inside one schedule, each finding the
   store as the schedule left it, no two return a case.
   */
  lemma {:induction false} OnlyOneCallPromotes(
    item: Feedback, schedule: seq<Move>,
    a: ActorId, p: Operation, x: BenchmarkCase, b: ActorId, q: Operation, y: BenchmarkCase)
    requires item.promotedCaseId.None?
    requires forall i :: 0 <= i < |schedule| && schedule[i].actor == a ==> schedule[i].op == p
    requires forall i :: 0 <= i < |schedule| && schedule[i].actor == b ==> schedule[i].op == q
    requires Follow(STEP, Start(p), StepsOf(TraceOf(item, schedule), a)) == Outcome(Promoted(x))
    requires Follow(STEP, Start(q), StepsOf(TraceOf(item, schedule), b)) == Outcome(Promoted(y))
    ensures a == b && x == y
  {
    ActorFollowsItsSteps(item, schedule, a, p);
    ActorFollowsItsSteps(item, schedule, b, q);
    AtMostOnePromotion(item, schedule, a, x, b, y);
  }
}
