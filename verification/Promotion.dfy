/**
 Review actions on one feedback item, as a step system: any number of operators
 classify, resolve and promote it at the same time. Promotion is a two-object
 protocol: a create-only case under a key derived from the item, then a
 compare-and-set of the item's `promoted_case_id`.
 */
module Promotion {
  import opened Wrappers
  import opened Storage
  import opened Sessions
  import opened Text

  datatype ReviewStatus = Unreviewed | Reviewed | Resolved

  datatype Feedback = Feedback(
    id: string,
    expectedAnswer: Option<string>,
    status: ReviewStatus,
    category: Option<string>,
    reviewedBy: Option<string>,
    promotedCaseId: Option<string>)

  datatype BenchmarkCase = BenchmarkCase(id: string, question: string, expectedAnswer: Option<string>)

  const FAILURE_CATEGORIES: set<string> := {
    "Missing knowledge", "Retrieval failure", "Wrong route", "Unsupported answer", "SQL problem", "Ambiguous question"}

  /** `classify_feedback_record`; the category has been validated. */
  function Classified(record: Feedback, category: string, reviewer: string): Feedback {
    record.(category := Some(category), reviewedBy := Some(reviewer), status := Reviewed)
  }

  /** `resolve_feedback_record`. */
  function ResolvedRecord(record: Feedback): Feedback {
    record.(status := Resolved)
  }

  function BenchmarkCaseIdFor(feedbackId: string): string {
    "feedback-" + feedbackId
  }

  /** Different items never share a case key. */
  lemma {:induction false} CaseIdsAreDistinct(a: string, b: string)
    requires BenchmarkCaseIdFor(a) == BenchmarkCaseIdFor(b)
    ensures a == b
  {
    var prefix := "feedback-";
    assert (prefix + a)[|prefix|..] == a && (prefix + b)[|prefix|..] == b;
  }

  datatype PromotionError = AlreadyInEvaluationSet | ExpectedAnswerRequired

  /** `promote_feedback_record`: the guards, then the record with its pointer and the case. */
  function Promote(record: Feedback, question: string): Result<(Feedback, BenchmarkCase), PromotionError> {
    if record.promotedCaseId.Some? then Failure(AlreadyInEvaluationSet)
    else if record.expectedAnswer.None? || Strip(record.expectedAnswer.value) == "" then Failure(ExpectedAnswerRequired)
    else
      var case_ := BenchmarkCase(BenchmarkCaseIdFor(record.id), question, record.expectedAnswer);
      Success((record.(promotedCaseId := Some(case_.id)), case_))
  }

  // Actors

  datatype Cas = Reading(attempt: nat) | Writing(attempt: nat, seen: Snapshot<Feedback>)

  datatype Action = Classify(category: string, reviewer: string) | Resolve

  datatype Actor =
    | Reviewing(action: Action, cas: Cas)
    | LoadingItem(question: string)
    | CreatingCase(case_: BenchmarkCase)
    | Recording(case_: BenchmarkCase, cas: Cas)
    | ReviewDone(record: Feedback)
    | PromotionDone(case_: BenchmarkCase)
    | Refused(error: PromotionError)
    | Aborted                       // an invalid category, or every attempt lost its race

  const MAX_ATTEMPTS: nat := 8

  /** The item, and the object under its case key in the evaluation set. */
  datatype Shared = Shared(item: Cell<Feedback>, benchmark: Cell<BenchmarkCase>)

  function Review(record: Feedback, action: Action): Feedback {
    match action
    case Classify(category, reviewer) => Classified(record, category, reviewer)
    case Resolve => ResolvedRecord(record)
  }

  predicate ValidAction(action: Action) {
    action.Classify? ==> action.category in FAILURE_CATEGORIES
  }

  function StepReviewing(s: Shared, action: Action, cas: Cas, gap: nat): (Shared, Actor) {
    if !ValidAction(action) then (s, Aborted)
    else match cas
      case Reading(attempt) =>
        if attempt == MAX_ATTEMPTS then (s, Aborted) else (s, Reviewing(action, Writing(attempt, s.item.Read())))
      case Writing(attempt, seen) =>
        if seen.payload.None? then (s, Aborted)
        else
          var next := Review(seen.payload.value, action);
          if s.item.Accepts(seen) then (s.(item := s.item.Put(next, gap)), ReviewDone(next))
          else (s, Reviewing(action, Reading(attempt + 1)))
  }

  function StepRecording(s: Shared, case_: BenchmarkCase, cas: Cas, gap: nat): (Shared, Actor) {
    match cas
    case Reading(attempt) =>
      if attempt == MAX_ATTEMPTS then (s, Aborted) else (s, Recording(case_, Writing(attempt, s.item.Read())))
    case Writing(attempt, seen) =>
      if seen.payload.None? then (s, Aborted)
      else match Promote(seen.payload.value, case_.question)
        case Failure(error) => (s, Refused(error))
        case Success(next) =>
          if s.item.Accepts(seen) then (s.(item := s.item.Put(next.0, gap)), PromotionDone(case_))
          else (s, Recording(case_, Reading(attempt + 1)))
  }

  /** One step of one actor; `gap` is how far a write's generation jumps. */
  function StepActor(s: Shared, actor: Actor, gap: nat): (Shared, Actor) {
    match actor
    case Reviewing(action, cas) => StepReviewing(s, action, cas, gap)
    case LoadingItem(question) =>
      if s.item.value.None? then (s, Aborted)
      else (match Promote(s.item.value.value, question)
            case Failure(error) => (s, Refused(error))
            case Success(next) => (s, CreatingCase(next.1)))
    case CreatingCase(case_) =>
      if s.benchmark.generation != 0 then (s, Refused(AlreadyInEvaluationSet))
      else (s.(benchmark := s.benchmark.Put(case_, gap)), Recording(case_, Reading(0)))
    case Recording(case_, cas) => StepRecording(s, case_, cas, gap)
    case _ => (s, actor)
  }

  // Runs

  datatype Operation = ReviewItem(action: Action) | PromoteItem(question: string)

  datatype System = System(shared: Shared, actors: map<ActorId, Actor>)

  datatype Move = Move(actor: ActorId, op: Operation, gap: nat)

  function ActorOf(s: System, m: Move): Actor {
    if m.actor in s.actors then s.actors[m.actor]
    else match m.op
      case ReviewItem(action) => Reviewing(action, Reading(0))
      case PromoteItem(question) => LoadingItem(question)
  }

  function Step(s: System, m: Move): System {
    var (shared, actor) := StepActor(s.shared, ActorOf(s, m), m.gap);
    System(shared, s.actors[m.actor := actor])
  }

  /** The item as the user's feedback created it: not promoted, no case yet. */
  function Run(item: Feedback, schedule: seq<Move>): System {
    if schedule == [] then System(Shared(Cell(Some(item), 1), Cell(None, 0)), map[])
    else Step(Run(item, schedule[..|schedule| - 1]), schedule[|schedule| - 1])
  }

  // Invariant

  ghost predicate GoodShared(item: Feedback, s: Shared) {
    && s.item.Valid() && s.benchmark.Valid() && s.item.value.Some?
    && s.item.value.value.id == item.id && s.item.value.value.expectedAnswer == item.expectedAnswer
    && (s.item.value.value.promotedCaseId.Some? ==>
          s.benchmark.value.Some? && s.item.value.value.promotedCaseId.value == s.benchmark.value.value.id)
    && (s.benchmark.value.Some? ==> CaseOf(item, s.benchmark.value.value))
  }

  ghost predicate CaseOf(item: Feedback, case_: BenchmarkCase) {
    && case_.id == BenchmarkCaseIdFor(item.id) && case_.expectedAnswer == item.expectedAnswer
    && item.expectedAnswer.Some? && Strip(item.expectedAnswer.value) != ""
  }

  ghost predicate GoodSnapshot(item: Feedback, s: Shared, cas: Cas) {
    cas.Writing? ==>
      && Coherent(cas.seen, s.item) && cas.seen.payload.Some?
      && cas.seen.payload.value.id == item.id && cas.seen.payload.value.expectedAnswer == item.expectedAnswer
      && (cas.seen.payload.value.promotedCaseId.Some? ==> s.item.value.Some? && s.item.value.value.promotedCaseId.Some?)
  }

  ghost predicate GoodActor(item: Feedback, s: Shared, actor: Actor) {
    match actor
    case Reviewing(_, cas) => GoodSnapshot(item, s, cas)
    case CreatingCase(case_) => CaseOf(item, case_)
    case Recording(case_, cas) =>
      && GoodSnapshot(item, s, cas) && s.benchmark.value == Some(case_)
      && s.item.value.Some? && s.item.value.value.promotedCaseId.None?
    case PromotionDone(case_) =>
      && s.benchmark.value == Some(case_)
      && s.item.value.Some? && s.item.value.value.promotedCaseId == Some(case_.id)
    case _ => true
  }

  /** At most one actor ever gets past the create-only write. */
  ghost predicate OneWinner(s: System) {
    && (forall a :: a in s.actors && PastCreation(s.actors[a]) ==> s.shared.benchmark.value.Some?)
    && (forall a, b ::
          a in s.actors && b in s.actors && PastCreation(s.actors[a]) && PastCreation(s.actors[b]) ==> a == b)
  }

  predicate PastCreation(actor: Actor) {
    actor.Recording? || actor.PromotionDone?
  }

  ghost predicate Inv(item: Feedback, s: System) {
    && GoodShared(item, s.shared)
    && (forall a :: a in s.actors ==> GoodActor(item, s.shared, s.actors[a]))
    && OneWinner(s)
  }

  /** How one step may change what is shared; `winner`: the mover is the case's creator. */
  ghost predicate Advances(s: Shared, t: Shared, winner: bool) {
    && Evolves(s.item, t.item)
    && (s.benchmark == t.benchmark || s.benchmark.value.None?)
    && s.item.value.Some? && t.item.value.Some?
    && (s.item.value.value.promotedCaseId.Some? ==>
          t.item.value.value.promotedCaseId == s.item.value.value.promotedCaseId)
    && (!winner ==> t.item.value.value.promotedCaseId == s.item.value.value.promotedCaseId)
  }

  lemma {:induction false} ActorKeeps(item: Feedback, s: Shared, actor: Actor, gap: nat)
    requires GoodShared(item, s) && GoodActor(item, s, actor)
    ensures var (t, next) := StepActor(s, actor, gap);
            && GoodShared(item, t) && GoodActor(item, t, next) && Advances(s, t, actor.Recording?)
            && (PastCreation(next) ==> t.benchmark.value.Some? && (PastCreation(actor) || s.benchmark.value.None?))
  {
  }

  lemma {:induction false} OthersKeep(item: Feedback, s: Shared, t: Shared, actor: Actor, winner: bool)
    requires GoodShared(item, s) && GoodShared(item, t) && GoodActor(item, s, actor) && Advances(s, t, winner)
    requires PastCreation(actor) ==> !winner && s.benchmark.value.Some?
    ensures GoodActor(item, t, actor)
  {
  }

  lemma {:induction false} StepKeeps(item: Feedback, s: System, m: Move)
    requires Inv(item, s)
    ensures Inv(item, Step(s, m))
    ensures s.shared.item.value.value.promotedCaseId.Some? ==>
              Step(s, m).shared.item.value.value.promotedCaseId == s.shared.item.value.value.promotedCaseId
    ensures s.shared.benchmark.value.Some? ==> Step(s, m).shared.benchmark.value == s.shared.benchmark.value
  {
    var actor := ActorOf(s, m);
    ActorKeeps(item, s.shared, actor, m.gap);
    var t := Step(s, m);
    forall a | a in t.actors ensures GoodActor(item, t.shared, t.actors[a]) {
      if a != m.actor {
        OthersKeep(item, s.shared, t.shared, s.actors[a], actor.Recording?);
      }
    }
  }

  lemma {:induction false} RunKeeps(item: Feedback, schedule: seq<Move>)
    requires item.promotedCaseId.None?
    ensures Inv(item, Run(item, schedule))
  {
    if schedule != [] {
      RunKeeps(item, schedule[..|schedule| - 1]);
      StepKeeps(item, Run(item, schedule[..|schedule| - 1]), schedule[|schedule| - 1]);
    }
  }

  // Theorems

  /** Exactly once: after any interleaving at most one promotion of the item has succeeded. */
  lemma {:induction false} AtMostOnePromotion(
    item: Feedback, schedule: seq<Move>, a: ActorId, x: BenchmarkCase, b: ActorId, y: BenchmarkCase)
    requires item.promotedCaseId.None?
    requires a in Run(item, schedule).actors && Run(item, schedule).actors[a] == PromotionDone(x)
    requires b in Run(item, schedule).actors && Run(item, schedule).actors[b] == PromotionDone(y)
    ensures a == b && x == y
    ensures Run(item, schedule).shared.item.value.Some?
    ensures Run(item, schedule).shared.item.value.value.promotedCaseId == Some(x.id)
  {
    RunKeeps(item, schedule);
    assert GoodActor(item, Run(item, schedule).shared, Run(item, schedule).actors[a]);
  }

  /**
   A set pointer names the case that exists, that case carries the item's answer,
   and over the rest of any run neither the pointer nor the case changes.
   */
  lemma {:induction false} PointerIsPermanent(item: Feedback, schedule: seq<Move>, rest: seq<Move>)
    requires item.promotedCaseId.None?
    ensures Run(item, schedule).shared.item.value.Some? && Run(item, schedule + rest).shared.item.value.Some?
    ensures var s, t := Run(item, schedule).shared, Run(item, schedule + rest).shared;
            && (s.item.value.value.promotedCaseId.Some? ==>
                  && s.benchmark.value.Some? && s.benchmark.value.value.id == s.item.value.value.promotedCaseId.value
                  && s.benchmark.value.value.expectedAnswer == item.expectedAnswer
                  && t.item.value.value.promotedCaseId == s.item.value.value.promotedCaseId)
            && (s.benchmark.value.Some? ==> t.benchmark.value == s.benchmark.value)
    decreases |rest|
  {
    RunKeeps(item, schedule);
    var all := schedule + rest;
    if rest == [] {
      assert all == schedule;
    } else {
      assert all[..|all| - 1] == schedule + rest[..|rest| - 1];
      PointerIsPermanent(item, schedule, rest[..|rest| - 1]);
      RunKeeps(item, all[..|all| - 1]);
      StepKeeps(item, Run(item, all[..|all| - 1]), all[|all| - 1]);
    }
  }

  /** The re-check inside the promoter's compare-and-set never fires for the creator of the case. */
  lemma {:induction false} WinnerIsNeverRefused(item: Feedback, schedule: seq<Move>, a: ActorId)
    requires item.promotedCaseId.None?
    requires a in Run(item, schedule).actors
    ensures match Run(item, schedule).actors[a]
            case Recording(case_, Writing(_, seen)) =>
              seen.payload.Some? && Promote(seen.payload.value, case_.question).Success?
            case _ => true
  {
    RunKeeps(item, schedule);
    assert GoodActor(item, Run(item, schedule).shared, Run(item, schedule).actors[a]);
  }
}
