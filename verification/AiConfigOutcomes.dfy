/**
 How the operations on an AI configuration end: what an operation reports is what it was
 asked for and has happened; and an operation that goes on alone makes exactly its change.
 */
module AiConfigOutcomes {
  import opened Wrappers
  import opened Storage
  import opened Sessions
  import opened AiConfig

  // History

  /** What was shared at each moment of a run. */
  ghost function SeenSoFar(schedule: seq<Move>): set<Shared> {
    (if schedule == [] then {} else SeenSoFar(schedule[..|schedule| - 1])) + {Run(schedule).shared}
  }

  lemma {:induction false} SeenWasThere(schedule: seq<Move>, s: Shared)
    requires s in SeenSoFar(schedule)
    ensures exists i :: 0 <= i <= |schedule| && Run(schedule[..i]).shared == s
  {
    var n := |schedule|;
    if schedule != [] && s in SeenSoFar(schedule[..n - 1]) {
      SeenWasThere(schedule[..n - 1], s);
      var i :| 0 <= i <= n - 1 && Run(schedule[..n - 1][..i]).shared == s;
      assert schedule[..n - 1][..i] == schedule[..i];
    } else {
      assert schedule[..n] == schedule;
    }
  }

  ghost predicate ActiveIn(s: Shared, id: VersionId) {
    AsIndex(s.index.value).active == Some(id)
  }

  ghost predicate WasActive(past: set<Shared>, id: VersionId) {
    exists s :: s in past && ActiveIn(s, id)
  }

  ghost predicate StoredIn(s: Shared, id: VersionId, version: ConfigVersion) {
    ObjectAt(s, id).value == Some(version)
  }

  ghost predicate WasStored(past: set<Shared>, id: VersionId, version: ConfigVersion) {
    exists s :: s in past && StoredIn(s, id, version)
  }

  ghost predicate ApprovedIn(s: Shared, id: VersionId, approver: string) {
    ObjectAt(s, id).value.Some? && ObjectAt(s, id).value.value.approver == Some(approver)
  }

  ghost predicate WasApproved(past: set<Shared>, id: VersionId, approver: string) {
    exists s :: s in past && ApprovedIn(s, id, approver)
  }

  // What an operation stands for

  ghost predicate Creates(op: Operation, id: VersionId, version: ConfigVersion, then_: Then) {
    if then_.Return? then op == Create(id, version) else op == Resolve(id, version)
  }

  ghost predicate Selects(
    op: Operation, id: VersionId, operator: string, reason: string, boot: Option<ConfigVersion>, past: set<Shared>)
  {
    if boot.None? then op == Operation.Rollback(id, operator, reason)
    else && op == Resolve(id, boot.value) && WasStored(past, id, boot.value)
         && operator == "system" && reason == "Bootstrap initial active configuration"
  }

  /** The actor acts for `op`, with its parameters, and what it relies on has happened. */
  ghost predicate Serves(op: Operation, actor: Actor, past: set<Shared>) {
    match actor
    case CreatingObject(id, version, then_) => Creates(op, id, version, then_)
    case Appending(id, version, then_, _) => Creates(op, id, version, then_) && WasStored(past, id, version)
    case CheckingVersion(id, approver) => op == Operation.Approve(id, approver)
    case Approving(id, approver, _) => op == Operation.Approve(id, approver)
    case CheckingIndex(id, operator, reason, boot) => Selects(op, id, operator, reason, boot, past)
    case Activating(id, operator, reason, boot, _) => Selects(op, id, operator, reason, boot, past)
    case ReadingIndex(freshId, defaults) => op == Resolve(freshId, defaults)
    case LoadingActive(id) => op.Resolve? && WasActive(past, id)
    case Done(Created(id)) => op.Create? && op.id == id && WasStored(past, id, op.version)
    case Done(Approved(id)) => op.Approve? && op.id == id && WasApproved(past, id, op.approver)
    case Done(Activated(event)) =>
      && op == Operation.Rollback(event.selected, event.operator, event.reason) && WasActive(past, event.selected)
    case Done(Resolved(id, version)) => op.Resolve? && WasActive(past, id) && WasStored(past, id, version)
    case Done(Unresolved) => op.Resolve?
    case Done(Rejected) => !op.Resolve?
  }

  lemma {:induction false} ServesLater(op: Operation, actor: Actor, past: set<Shared>, past': set<Shared>)
    requires Serves(op, actor, past) && past <= past'
    ensures Serves(op, actor, past')
  {
  }

  lemma {:induction false} CreatingServes(
    s: Shared, id: VersionId, version: ConfigVersion, then_: Then, gap: nat, op: Operation, past: set<Shared>)
    requires Creates(op, id, version, then_)
    ensures var next := StepActor(s, CreatingObject(id, version, then_), gap); Serves(op, next.1, past + {next.0})
  {
    var next := StepActor(s, CreatingObject(id, version, then_), gap);
    assert next.0 in past + {next.0};
    assert next.1.Appending? ==> StoredIn(next.0, id, version);
  }

  lemma {:induction false} ApprovingServes(
    s: Shared, id: VersionId, approver: string, cas: Cas<ConfigVersion>, gap: nat, op: Operation, past: set<Shared>)
    requires op == Operation.Approve(id, approver)
    ensures var next := StepApproving(s, id, approver, cas, gap); Serves(op, next.1, past + {next.0})
  {
    var next := StepApproving(s, id, approver, cas, gap);
    assert next.0 in past + {next.0};
    assert next.1 == Done(Approved(id)) ==> ApprovedIn(next.0, id, approver);
  }

  lemma {:induction false} ActivatingServes(
    s: Shared, id: VersionId, operator: string, reason: string, boot: Option<ConfigVersion>, cas: Cas<ConfigIndex>,
    gap: nat, op: Operation, past: set<Shared>)
    requires Selects(op, id, operator, reason, boot, past)
    ensures var next := StepActivating(s, id, operator, reason, boot, cas, gap); Serves(op, next.1, past + {next.0})
  {
    var next := StepActivating(s, id, operator, reason, boot, cas, gap);
    assert next.0 in past + {next.0};
    assert next.1.Done? && (next.1.outcome.Activated? || next.1.outcome.Resolved?) ==> ActiveIn(next.0, id);
  }

  lemma {:induction false} StepServes(s: Shared, actor: Actor, gap: nat, op: Operation, past: set<Shared>)
    requires Serves(op, actor, past) && s in past
    ensures var next := StepActor(s, actor, gap); Serves(op, next.1, past + {next.0})
  {
    ServesLater(op, actor, past, past + {StepActor(s, actor, gap).0});
    match actor
    case CreatingObject(id, version, then_) => CreatingServes(s, id, version, then_, gap, op, past);
    case Approving(id, approver, cas) => ApprovingServes(s, id, approver, cas, gap, op, past);
    case Activating(id, operator, reason, boot, cas) =>
      ActivatingServes(s, id, operator, reason, boot, cas, gap, op, past);
    case ReadingIndex(_, _) =>
      if AsIndex(s.index.value).active.Some? {
        assert ActiveIn(s, AsIndex(s.index.value).active.value);
      }
    case LoadingActive(id) =>
      if ObjectAt(s, id).value.Some? {
        assert StoredIn(s, id, ObjectAt(s, id).value.value);
      }
    case _ =>
  }

  ghost predicate Performs(schedule: seq<Move>, a: ActorId, op: Operation) {
    forall i :: 0 <= i < |schedule| && schedule[i].actor == a ==> schedule[i].op == op
  }

  lemma {:induction false} ActorServes(schedule: seq<Move>, a: ActorId, op: Operation)
    requires Performs(schedule, a, op) && a in Run(schedule).actors
    ensures Serves(op, Run(schedule).actors[a], SeenSoFar(schedule))
  {
    var before, m := schedule[..|schedule| - 1], schedule[|schedule| - 1];
    var s, past := Run(before), SeenSoFar(before);
    if a in s.actors {
      ActorServes(before, a, op);
    }
    assert s.shared in past;
    if m.actor == a {
      StepServes(s.shared, ActorOf(s, m), m.gap, op, past);
    } else {
      ServesLater(op, s.actors[a], past, SeenSoFar(schedule));
    }
  }

  // Theorems

  /** At some moment of the run, `id` was the active version. */
  ghost predicate WasActiveIn(schedule: seq<Move>, id: VersionId) {
    exists i :: 0 <= i <= |schedule| && ActiveIn(Run(schedule[..i]).shared, id)
  }

  /** At some moment, exactly `version` was stored under `id`. */
  ghost predicate WasStoredIn(schedule: seq<Move>, id: VersionId, version: ConfigVersion) {
    exists i :: 0 <= i <= |schedule| && StoredIn(Run(schedule[..i]).shared, id, version)
  }

  lemma {:induction false} ActiveOnce(schedule: seq<Move>, id: VersionId)
    requires WasActive(SeenSoFar(schedule), id)
    ensures WasActiveIn(schedule, id)
  {
    var s :| s in SeenSoFar(schedule) && ActiveIn(s, id);
    SeenWasThere(schedule, s);
  }

  lemma {:induction false} StoredOnce(schedule: seq<Move>, id: VersionId, version: ConfigVersion)
    requires WasStored(SeenSoFar(schedule), id, version)
    ensures WasStoredIn(schedule, id, version)
  {
    var s :| s in SeenSoFar(schedule) && StoredIn(s, id, version);
    SeenWasThere(schedule, s);
  }

  /**
   A resolver serves a version that was the active one at some moment of the run, exactly
   as it was stored at some moment; and it only ever loads such a version.
   */
  lemma {:induction false} ResolvedWasActive(schedule: seq<Move>, a: ActorId, op: Operation)
    requires Performs(schedule, a, op) && a in Run(schedule).actors
    ensures match Run(schedule).actors[a]
            case LoadingActive(id) => WasActiveIn(schedule, id)
            case Done(Resolved(id, version)) => WasActiveIn(schedule, id) && WasStoredIn(schedule, id, version)
            case _ => true
  {
    ActorServes(schedule, a, op);
    match Run(schedule).actors[a]
    case LoadingActive(id) => ActiveOnce(schedule, id);
    case Done(Resolved(id, version)) =>
      ActiveOnce(schedule, id);
      StoredOnce(schedule, id, version);
    case _ =>
  }

  /** An operation reports exactly what it was asked for, and that has happened. */
  lemma {:induction false} ReportedIsAskedFor(schedule: seq<Move>, a: ActorId, op: Operation)
    requires Performs(schedule, a, op) && a in Run(schedule).actors
    ensures match Run(schedule).actors[a]
            case Done(Created(id)) => op.Create? && op.id == id && WasStoredIn(schedule, id, op.version)
            case Done(Approved(id)) =>
              && op.Approve? && op.id == id
              && exists i :: 0 <= i <= |schedule| && ApprovedIn(Run(schedule[..i]).shared, id, op.approver)
            case Done(Activated(event)) =>
              && op.Rollback? && event.selected == op.id && event.operator == op.operator && event.reason == op.reason
              && WasActiveIn(schedule, op.id)
            case Done(Resolved(_, _)) => op.Resolve?
            case _ => true
  {
    ActorServes(schedule, a, op);
    match Run(schedule).actors[a]
    case Done(Created(id)) => StoredOnce(schedule, id, op.version);
    case Done(Approved(id)) =>
      var s :| s in SeenSoFar(schedule) && ApprovedIn(s, id, op.approver);
      SeenWasThere(schedule, s);
    case Done(Activated(event)) => ActiveOnce(schedule, event.selected);
    case _ =>
  }

  /** A version object appears as it was created, and after that only its approver changes. */
  lemma {:induction false} OnlyTheApproverChanges(schedule: seq<Move>, m: Move, id: VersionId)
    ensures var before, after := ObjectAt(Run(schedule).shared, id), ObjectAt(Step(Run(schedule), m).shared, id);
            var actor := ActorOf(Run(schedule), m);
            after != before ==>
              if before.value.None?
              then actor.CreatingObject? && actor.id == id && after.value == Some(actor.version)
              else && actor.Approving? && actor.id == id
                   && after.value == Some(before.value.value.(approver := Some(actor.approver)))
  {
    RunKeeps(schedule);
    if m.actor in Run(schedule).actors {
      assert GoodActor(Run(schedule).shared, ActorOf(Run(schedule), m));
    }
  }

  /**
   The index changes only by a creation, which lists its id last, or by an activation, which
   points at a listed id and logs who did it, why, and what was active until then.
   */
  lemma {:induction false} IndexChangesOnlySo(schedule: seq<Move>, m: Move)
    ensures var s, t := Run(schedule).shared, Step(Run(schedule), m).shared;
            var before, after, actor := AsIndex(s.index.value), AsIndex(t.index.value), ActorOf(Run(schedule), m);
            after != before ==>
              || (actor.Appending? && actor.id !in before.versions
                  && after == before.(versions := before.versions + [actor.id]))
              || (actor.Activating? && actor.id in before.versions
                  && after == ConfigIndex(
                       Some(actor.id), before.versions,
                       before.events + [ActivationEvent(actor.operator, before.active, actor.id, actor.reason)]))
  {
    RunKeeps(schedule);
    if m.actor in Run(schedule).actors {
      assert GoodActor(Run(schedule).shared, ActorOf(Run(schedule), m));
    }
  }

  // Alone

  /** One step of one actor, whose writes make the next generation. */
  const ONWARD: ((Shared, Actor)) -> (Shared, Actor) := (now: (Shared, Actor)) => StepActor(now.0, now.1, 0)

  /** A created version: stored as given, listed last, and nothing else different. */
  ghost predicate CreatedOnly(s: Shared, t: Shared, id: VersionId, version: ConfigVersion) {
    && t.objects == s.objects[id := ObjectAt(s, id).Put(version, 0)]
    && AsIndex(t.index.value) ==
         (var index := AsIndex(s.index.value);
          if id in index.versions then index else index.(versions := index.versions + [id]))
    && t.index.value.Some?
  }

  lemma {:induction false} StoresAlone(s: Shared, id: VersionId, version: ConfigVersion, then_: Then)
    returns (t: Shared)
    requires ValidDescription(version.description) && ObjectAt(s, id).generation == 0
    ensures CreatedOnly(s, t, id, version)
    ensures Leads(ONWARD, (s, CreatingObject(id, version, then_)),
                  (t, if then_.Return? then Done(Created(id))
                      else CheckingIndex(id, "system", "Bootstrap initial active configuration", Some(version))))
  {
    var start := (s, CreatingObject(id, version, then_));
    var u := s.(objects := s.objects[id := ObjectAt(s, id).Put(version, 0)]);
    LeadsHere(ONWARD, start);
    LeadsNext(ONWARD, start, (u, Appending(id, version, then_, Reading(0))));
    LeadsNext(ONWARD, start, (u, Appending(id, version, then_, Writing(0, u.index.Read()))));
    t := u.(index := u.index.Put(AppendMutation(id, u.index.value), 0));
  }

  /** A creation alone succeeds exactly for a description of a proper length and an id not used yet. */
  lemma {:induction false} CreatesAlone(s: Shared, id: VersionId, version: ConfigVersion)
    returns (t: Shared, end: Actor)
    ensures Leads(ONWARD, (s, Start(Create(id, version))), (t, end))
    ensures if 1 <= |version.description| <= 500 && ObjectAt(s, id).generation == 0
            then end == Done(Created(id)) && CreatedOnly(s, t, id, version)
            else end == Done(Rejected) && t == s
  {
    t, end := s, Done(Rejected);
    LeadsHere(ONWARD, (s, Start(Create(id, version))));
    if ValidDescription(version.description) && ObjectAt(s, id).generation == 0 {
      t := StoresAlone(s, id, version, Return);
      end := Done(Created(id));
    }
  }

  /** An approval alone succeeds exactly for a stored version, and sets its approver only. */
  lemma {:induction false} ApprovesAlone(s: Shared, id: VersionId, approver: string) returns (t: Shared, end: Actor)
    ensures Leads(ONWARD, (s, Start(Operation.Approve(id, approver))), (t, end))
    ensures if ObjectAt(s, id).value.Some?
            then && end == Done(Approved(id)) && t == s.(objects := t.objects)
                 && ObjectAt(t, id).value == Some(ObjectAt(s, id).value.value.(approver := Some(approver)))
                 && forall other :: other != id ==> ObjectAt(t, other) == ObjectAt(s, other)
            else end == Done(Rejected) && t == s
  {
    var start := (s, Start(Operation.Approve(id, approver)));
    t, end := s, Done(Rejected);
    LeadsHere(ONWARD, start);
    if ObjectAt(s, id).value.Some? {
      LeadsNext(ONWARD, start, (s, Approving(id, approver, Reading(0))));
      LeadsNext(ONWARD, start, (s, Approving(id, approver, Writing(0, ObjectAt(s, id).Read()))));
      var approved := ObjectAt(s, id).value.value.(approver := Some(approver));
      t := s.(objects := s.objects[id := ObjectAt(s, id).Put(approved, 0)]);
      end := Done(Approved(id));
    }
  }

  /** What an activation leaves. */
  ghost predicate ActivatedOnly(s: Shared, t: Shared, id: VersionId, operator: string, reason: string) {
    var before, after := AsIndex(s.index.value), AsIndex(t.index.value);
    && t.objects == s.objects && after.active == Some(id) && after.versions == before.versions
    && after.events == before.events + [ActivationEvent(operator, before.active, id, reason)]
  }

  lemma {:induction false} SelectsAlone(
    s: Shared, id: VersionId, operator: string, reason: string, boot: Option<ConfigVersion>)
    returns (t: Shared, end: Actor)
    ensures Leads(ONWARD, (s, CheckingIndex(id, operator, reason, boot)), (t, end))
    ensures if id in AsIndex(s.index.value).versions
            then && ActivatedOnly(s, t, id, operator, reason)
                 && end == Done(
                      if boot.Some? then Resolved(id, boot.value)
                      else Activated(ActivationEvent(operator, AsIndex(s.index.value).active, id, reason)))
            else end == Done(if boot.Some? then Unresolved else Rejected) && t == s
  {
    var start := (s, CheckingIndex(id, operator, reason, boot));
    t, end := s, Done(if boot.Some? then Unresolved else Rejected);
    LeadsHere(ONWARD, start);
    if id in AsIndex(s.index.value).versions {
      LeadsNext(ONWARD, start, (s, Activating(id, operator, reason, boot, Reading(0))));
      LeadsNext(ONWARD, start, (s, Activating(id, operator, reason, boot, Writing(0, s.index.Read()))));
      t := s.(index := s.index.Put(ActivateMutation(id, operator, reason, s.index.value).value, 0));
      end := Done(
        if boot.Some? then Resolved(id, boot.value)
        else Activated(ActivationEvent(operator, AsIndex(s.index.value).active, id, reason)));
    }
  }

  /** A roll-back alone succeeds exactly for a listed version: it moves the pointer and logs who, why and from where. */
  lemma {:induction false} RollsBackAlone(s: Shared, id: VersionId, operator: string, reason: string)
    returns (t: Shared, end: Actor)
    ensures Leads(ONWARD, (s, Start(Operation.Rollback(id, operator, reason))), (t, end))
    ensures if id in AsIndex(s.index.value).versions
            then && ActivatedOnly(s, t, id, operator, reason)
                 && end == Done(Activated(ActivationEvent(operator, AsIndex(s.index.value).active, id, reason)))
            else end == Done(Rejected) && t == s
  {
    t, end := SelectsAlone(s, id, operator, reason, None);
  }

  /**
   A resolver alone serves the active version as it is stored, and changes nothing. Without
   one it seeds the defaults under a fresh id, activates and serves them, unless the
   defaults are refused or the id is taken.
   */
  lemma {:induction false} ResolvesAlone(s: Shared, freshId: VersionId, defaults: ConfigVersion)
    returns (t: Shared, end: Actor)
    ensures Leads(ONWARD, (s, Start(Resolve(freshId, defaults))), (t, end))
    ensures match AsIndex(s.index.value).active
            case Some(id) =>
              && t == s
              && end == Done(
                   if ObjectAt(s, id).value.None? then Unresolved else Resolved(id, ObjectAt(s, id).value.value))
            case None =>
              if 1 <= |defaults.description| <= 500 && ObjectAt(s, freshId).generation == 0
              then && end == Done(Resolved(freshId, defaults)) && ActiveIn(t, freshId) && StoredIn(t, freshId, defaults)
                   && freshId in AsIndex(t.index.value).versions
              else end == Done(Unresolved) && t == s
  {
    var start := (s, Start(Resolve(freshId, defaults)));
    var active := AsIndex(s.index.value).active;
    LeadsHere(ONWARD, start);
    if active.Some? {
      LeadsNext(ONWARD, start, (s, LoadingActive(active.value)));
      t, end := StepActor(s, LoadingActive(active.value), 0).0, StepActor(s, LoadingActive(active.value), 0).1;
    } else if ValidDescription(defaults.description) && ObjectAt(s, freshId).generation == 0 {
      var u := StoresAlone(s, freshId, defaults, Bootstrap);
      var seeded := CheckingIndex(freshId, "system", "Bootstrap initial active configuration", Some(defaults));
      LeadsOn(ONWARD, start, (s, CreatingObject(freshId, defaults, Bootstrap)), (u, seeded));
      t, end := SelectsAlone(u, freshId, "system", "Bootstrap initial active configuration", Some(defaults));
      LeadsOn(ONWARD, start, (u, seeded), (t, end));
    } else {
      LeadsNext(ONWARD, start, (s, CreatingObject(freshId, defaults, Bootstrap)));
      t, end := s, Done(Unresolved);
    }
  }

  // Lost races

  predicate CanStillWrite<V>(cas: Cas<V>, cell: Cell<V>) {
    match cas
    case Reading(attempt) => attempt < MAX_ATTEMPTS
    case Writing(attempt, seen) => attempt < MAX_ATTEMPTS && (cell.Accepts(seen) || attempt + 1 < MAX_ATTEMPTS)
  }

  predicate InBudget<V>(cas: Cas<V>) {
    match cas
    case Reading(attempt) => attempt <= MAX_ATTEMPTS
    case Writing(attempt, _) => attempt < MAX_ATTEMPTS
  }

  /** A creation, once its object is stored, gives up its listing only with no attempt left. */
  lemma {:induction false} AppendsAfterLostRaces(
    s: Shared, id: VersionId, version: ConfigVersion, cas: Cas<ConfigIndex>) returns (t: Shared)
    requires InBudget(cas) && (cas.Writing? ==> Coherent(cas.seen, s.index))
    ensures if CanStillWrite(cas, s.index)
            then && Leads(ONWARD, (s, Appending(id, version, Return, cas)), (t, Done(Created(id))))
                 && t == s.(index := t.index) && id in AsIndex(t.index.value).versions
            else Leads(ONWARD, (s, Appending(id, version, Return, cas)), (s, Done(Rejected)))
  {
    var start, cas' := (s, Appending(id, version, Return, cas)), cas;
    t := s;
    LeadsHere(ONWARD, start);
    if cas.Writing? && !s.index.Accepts(cas.seen) {
      cas' := Reading(cas.attempt + 1);
    }
    if cas'.Reading? {
      LeadsNext(ONWARD, start, (s, Appending(id, version, Return, cas')));
      cas' := Writing(cas'.attempt, s.index.Read());
    }
    if CanStillWrite(cas, s.index) {
      LeadsNext(ONWARD, start, (s, Appending(id, version, Return, cas')));
      t := s.(index := s.index.Put(AppendMutation(id, cas'.seen.payload), 0));
    }
  }

  /** Nor does an activation. */
  lemma {:induction false} ActivatesAfterLostRaces(
    s: Shared, id: VersionId, operator: string, reason: string, cas: Cas<ConfigIndex>) returns (t: Shared, end: Actor)
    requires InBudget(cas) && id in AsIndex(s.index.value).versions
    requires cas.Writing? ==> Coherent(cas.seen, s.index) && id in AsIndex(cas.seen.payload).versions
    ensures Leads(ONWARD, (s, Activating(id, operator, reason, None, cas)), (t, end))
    ensures if CanStillWrite(cas, s.index)
            then ActivatedOnly(s, t, id, operator, reason) && end.Done? && end.outcome.Activated?
            else end == Done(Rejected) && t == s
  {
    var start, cas' := (s, Activating(id, operator, reason, None, cas)), cas;
    t, end := s, Done(Rejected);
    LeadsHere(ONWARD, start);
    if cas.Writing? && !s.index.Accepts(cas.seen) {
      cas' := Reading(cas.attempt + 1);
    }
    if cas'.Reading? {
      LeadsNext(ONWARD, start, (s, Activating(id, operator, reason, None, cas')));
      cas' := Writing(cas'.attempt, s.index.Read());
    }
    if CanStillWrite(cas, s.index) {
      var last := Activating(id, operator, reason, None, cas');
      LeadsNext(ONWARD, start, (s, last));
      t, end := StepActor(s, last, 0).0, StepActor(s, last, 0).1;
    }
  }
}
