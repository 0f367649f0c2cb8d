/**
 How review actions on a feedback item end: what a review leaves on the item, which case
 a promotion creates, and when each succeeds if nothing gets in its way.
 */
module PromotionOutcomes {
  import opened Wrappers
  import opened Storage
  import opened Sessions
  import opened Text
  import opened Promotion

  // On behalf of which operation an actor acts

  /** What a review leaves on the record it replaced. */
  ghost predicate ReviewedAs(before: Feedback, after: Feedback, action: Action) {
    match action
    case Classify(category, reviewer) =>
      && after.status.Reviewed? && after.category == Some(category) && after.reviewedBy == Some(reviewer)
      && after == before.(status := after.status, category := after.category, reviewedBy := after.reviewedBy)
    case Resolve =>
      after.status.Resolved? && after == before.(status := after.status)
  }

  ghost predicate CaseFor(item: Feedback, question: string, case_: BenchmarkCase) {
    case_ == BenchmarkCase("feedback-" + item.id, question, item.expectedAnswer)
  }

  ghost predicate Serves(item: Feedback, op: Operation, actor: Actor) {
    match actor
    case Reviewing(action, _) => op == ReviewItem(action)
    case LoadingItem(question) => op == PromoteItem(question)
    case CreatingCase(case_) => op.PromoteItem? && CaseFor(item, op.question, case_)
    case Recording(case_, _) => op.PromoteItem? && CaseFor(item, op.question, case_)
    case PromotionDone(case_) => op.PromoteItem? && CaseFor(item, op.question, case_)
    case ReviewDone(record) =>
      && op.ReviewItem? && ValidAction(op.action) && exists before :: ReviewedAs(before, record, op.action)
    case Refused(_) => op.PromoteItem?
    case Aborted => true
  }

  lemma {:induction false} StepServes(item: Feedback, s: Shared, actor: Actor, gap: nat, op: Operation)
    requires GoodShared(item, s) && Serves(item, op, actor)
    ensures Serves(item, op, StepActor(s, actor, gap).1)
  {
    if actor.Reviewing? && actor.cas.Writing? && actor.cas.seen.payload.Some? {
      var before := actor.cas.seen.payload.value;
      assert ReviewedAs(before, Review(before, actor.action), actor.action);
    }
  }

  ghost predicate Performs(schedule: seq<Move>, a: ActorId, op: Operation) {
    forall i :: 0 <= i < |schedule| && schedule[i].actor == a ==> schedule[i].op == op
  }

  lemma {:induction false} ActorServes(item: Feedback, schedule: seq<Move>, a: ActorId, op: Operation)
    requires item.promotedCaseId.None?
    requires Performs(schedule, a, op) && a in Run(item, schedule).actors
    ensures Serves(item, op, Run(item, schedule).actors[a])
  {
    var before, m := schedule[..|schedule| - 1], schedule[|schedule| - 1];
    var s := Run(item, before);
    RunKeeps(item, before);
    if a in s.actors {
      ActorServes(item, before, a, op);
    }
    if m.actor == a {
      StepServes(item, s.shared, ActorOf(s, m), m.gap, op);
    }
  }

  // Theorems

  /**
   A review returns the item with exactly its own category, reviewer and status, and only
   for a known category; a promotion returns the case made of its question and the item's
   answer.
   */
  lemma {:induction false} ReturnedIsAskedFor(item: Feedback, schedule: seq<Move>, a: ActorId, op: Operation)
    requires item.promotedCaseId.None?
    requires Performs(schedule, a, op) && a in Run(item, schedule).actors
    ensures match Run(item, schedule).actors[a]
            case ReviewDone(record) =>
              && op.ReviewItem?
              && (match op.action
                  case Classify(category, reviewer) =>
                    && category in {"Missing knowledge", "Retrieval failure", "Wrong route", "Unsupported answer",
                                    "SQL problem", "Ambiguous question"}
                    && record.status.Reviewed? && record.category == Some(category)
                    && record.reviewedBy == Some(reviewer)
                  case Resolve => record.status.Resolved?)
            case PromotionDone(case_) =>
              op.PromoteItem? && case_ == BenchmarkCase("feedback-" + item.id, op.question, item.expectedAnswer)
            case _ => true
  {
    ActorServes(item, schedule, a, op);
  }

  /**
   The item changes only by a review, which leaves the pointer, the answer and all else it
   is not about as they are, or by the promotion that created the case, which sets nothing
   but the pointer; the case, once there, never changes.
   */
  lemma {:induction false} ItemChangesOnlySo(item: Feedback, schedule: seq<Move>, m: Move)
    requires item.promotedCaseId.None?
    ensures Run(item, schedule).shared.item.value.Some? && Step(Run(item, schedule), m).shared.item.value.Some?
    ensures var s, t := Run(item, schedule).shared, Step(Run(item, schedule), m).shared;
            var before, after, actor := s.item.value.value, t.item.value.value, ActorOf(Run(item, schedule), m);
            && (after != before ==>
                  || (actor.Reviewing? && ValidAction(actor.action) && ReviewedAs(before, after, actor.action))
                  || (actor.Recording? && before.promotedCaseId.None?
                      && after == before.(promotedCaseId := Some("feedback-" + item.id))))
            && (t.benchmark.value != s.benchmark.value ==>
                  s.benchmark.value.None? && actor.CreatingCase? && t.benchmark.value == Some(actor.case_))
  {
    RunKeeps(item, schedule);
    var s := Run(item, schedule);
    StepKeeps(item, s, m);
    if m.actor in s.actors {
      assert GoodActor(item, s.shared, s.actors[m.actor]);
    }
  }

  // Alone

  const ONWARD: ((Shared, Actor)) -> (Shared, Actor) := (now: (Shared, Actor)) => StepActor(now.0, now.1, 0)

  /** A review alone succeeds exactly for a known category and an item that is there, and is then stored. */
  lemma {:induction false} ReviewsAlone(s: Shared, action: Action) returns (t: Shared, end: Actor)
    ensures Leads(ONWARD, (s, Reviewing(action, Reading(0))), (t, end))
    ensures if s.item.value.Some? && (action.Classify? ==> action.category in FAILURE_CATEGORIES)
            then && t == s.(item := t.item) && t.item.value.Some? && end == ReviewDone(t.item.value.value)
                 && ReviewedAs(s.item.value.value, t.item.value.value, action)
            else end == Aborted && t == s
  {
    var start := (s, Reviewing(action, Reading(0)));
    t, end := s, Aborted;
    LeadsHere(ONWARD, start);
    if ValidAction(action) {
      var last := Reviewing(action, Writing(0, s.item.Read()));
      LeadsNext(ONWARD, start, (s, last));
      t, end := StepActor(s, last, 0).0, StepActor(s, last, 0).1;
    }
  }

  /**
   A promotion alone succeeds exactly for an item that is there, is not promoted, has an
   expected answer that is not blank, and whose case key is free. It then stores the case
   and points the item at it; otherwise nothing changes and the error says why.
   */
  lemma {:induction false} PromotesAlone(s: Shared, question: string) returns (t: Shared, end: Actor)
    ensures Leads(ONWARD, (s, LoadingItem(question)), (t, end))
    ensures if s.item.value.None? then end == Aborted && t == s
            else
              var record := s.item.value.value;
              if record.promotedCaseId.Some? then end == Refused(AlreadyInEvaluationSet) && t == s
              else if record.expectedAnswer.None? || Strip(record.expectedAnswer.value) == ""
              then end == Refused(ExpectedAnswerRequired) && t == s
              else if s.benchmark.generation != 0 then end == Refused(AlreadyInEvaluationSet) && t == s
              else
                var case_ := BenchmarkCase("feedback-" + record.id, question, record.expectedAnswer);
                && end == PromotionDone(case_) && t.benchmark.value == Some(case_)
                && t.item.value == Some(record.(promotedCaseId := Some(case_.id)))
  {
    var start := (s, LoadingItem(question));
    t, end := s, StepActor(s, LoadingItem(question), 0).1;
    LeadsHere(ONWARD, start);
    if end.CreatingCase? {
      var case_ := end.case_;
      LeadsNext(ONWARD, start, (s, CreatingCase(case_)));
      t, end := StepActor(s, CreatingCase(case_), 0).0, StepActor(s, CreatingCase(case_), 0).1;
      if end.Recording? {
        var u, last := t, Recording(case_, Writing(0, t.item.Read()));
        LeadsNext(ONWARD, start, (u, Recording(case_, Reading(0))));
        LeadsNext(ONWARD, start, (u, last));
        t, end := StepActor(u, last, 0).0, StepActor(u, last, 0).1;
      }
    }
  }

  // Lost races

  predicate CanStillWrite(cas: Cas, cell: Cell<Feedback>) {
    match cas
    case Reading(attempt) => attempt < MAX_ATTEMPTS
    case Writing(attempt, seen) => attempt < MAX_ATTEMPTS && (cell.Accepts(seen) || attempt + 1 < MAX_ATTEMPTS)
  }

  /** However many races a review has lost, it gives up only with no attempt left. */
  lemma {:induction false} ReviewsAfterLostRaces(s: Shared, action: Action, cas: Cas) returns (t: Shared)
    requires s.item.value.Some? && ValidAction(action)
    requires cas.Writing? ==> Coherent(cas.seen, s.item) && cas.seen.payload.Some?
    requires match cas case Reading(n) => n <= MAX_ATTEMPTS case Writing(n, _) => n < MAX_ATTEMPTS
    ensures if CanStillWrite(cas, s.item)
            then && t.item.value.Some? && Leads(ONWARD,
                                                (s, Reviewing(action, cas)), (t, ReviewDone(t.item.value.value)))
                 && ReviewedAs(s.item.value.value, t.item.value.value, action)
            else Leads(ONWARD, (s, Reviewing(action, cas)), (s, Aborted))
  {
    var start, cas' := (s, Reviewing(action, cas)), cas;
    t := s;
    LeadsHere(ONWARD, start);
    if cas.Writing? && !s.item.Accepts(cas.seen) {
      cas' := Reading(cas.attempt + 1);
    }
    if cas'.Reading? {
      LeadsNext(ONWARD, start, (s, Reviewing(action, cas')));
      cas' := Writing(cas'.attempt, s.item.Read());
    }
    if CanStillWrite(cas, s.item) {
      LeadsNext(ONWARD, start, (s, Reviewing(action, cas')));
      t := StepActor(s, Reviewing(action, cas'), 0).0;
    }
  }

  /** Nor does the creator of a case give up pointing the item at it. */
  lemma {:induction false} RecordsAfterLostRaces(s: Shared, case_: BenchmarkCase, cas: Cas) returns (t: Shared)
    requires s.item.value.Some? && Promote(s.item.value.value, case_.question).Success?
    requires cas.Writing? ==> Coherent(cas.seen, s.item) && cas.seen.payload.Some?
    requires cas.Writing? ==> Promote(cas.seen.payload.value, case_.question).Success?
    requires match cas case Reading(n) => n <= MAX_ATTEMPTS case Writing(n, _) => n < MAX_ATTEMPTS
    ensures if CanStillWrite(cas, s.item)
            then && Leads(ONWARD, (s, Recording(case_, cas)), (t, PromotionDone(case_)))
                 && t.item.value == Some(
                      s.item.value.value.(promotedCaseId := Some("feedback-" + s.item.value.value.id)))
            else Leads(ONWARD, (s, Recording(case_, cas)), (s, Aborted))
  {
    var start, cas' := (s, Recording(case_, cas)), cas;
    t := s;
    LeadsHere(ONWARD, start);
    if cas.Writing? && !s.item.Accepts(cas.seen) {
      cas' := Reading(cas.attempt + 1);
    }
    if cas'.Reading? {
      LeadsNext(ONWARD, start, (s, Recording(case_, cas')));
      cas' := Writing(cas'.attempt, s.item.Read());
    }
    if CanStillWrite(cas, s.item) {
      LeadsNext(ONWARD, start, (s, Recording(case_, cas')));
      t := StepActor(s, Recording(case_, cas'), 0).0;
    }
  }
}
