/**
 `AIConfigurationStore` and the resolver as they are written, over a store that
 others may change arbitrarily before each access. Each method takes exactly the
 steps of the step system of `AiConfig`, so its audit-chain theorems are about
 this code.
 */
module AiConfigStore {
  import opened Wrappers
  import opened Storage
  import opened AiConfig
  import opened Sessions

  const STEP: Stepper<Shared, Actor, nat> := (s: Shared, actor: Actor, gap: nat) => StepActor(s, actor, gap)

  /** Where a finished creation leads: back to its caller, or on with the bootstrap. */
  function AfterCreation(id: VersionId, version: ConfigVersion, then_: Then): Actor {
    if then_.Return? then Done(Created(id))
    else CheckingIndex(id, "system", "Bootstrap initial active configuration", Some(version))
  }

  /** Where a roll-back leads; without an event it raised. */
  function AfterRollback(id: VersionId, boot: Option<ConfigVersion>, event: Option<ActivationEvent>): Actor {
    if event.None? then AiConfig.Raised(ThenOf(boot))
    else Done(if boot.Some? then Resolved(id, boot.value) else Activated(event.value))
  }

  class AIConfigurationStore {
    const session: Session<Shared, Actor, nat>
    /** How far a generation jumps when this caller writes. */
    const gap: nat

    constructor (session: Session<Shared, Actor, nat>, gap: nat)
      ensures this.session == session && this.gap == gap
    {
      this.session, this.gap := session, gap;
    }

    ghost predicate At(actor: Actor)
      reads session
    {
      session.step == STEP && session.At(actor)
    }

    /** One attempt to append a created version to the history, without activating it. */
    method TryAppend(id: VersionId, ghost version: ConfigVersion, ghost then_: Then, ghost attempt: nat)
      returns (ended: bool)
      requires attempt < MAX_ATTEMPTS && At(Appending(id, version, then_, Reading(attempt)))
      modifies session
      ensures At(
        if ended then AfterCreation(id, version, then_) else Appending(id, version, then_, Reading(attempt + 1)))
    {
      var found := session.Look(Appending(id, version, then_, Reading(attempt)), gap);
      var seen := found.index.Read();
      var index := AsIndex(seen.payload);
      if id !in index.versions {
        index := index.(versions := index.versions + [id]);
      }
      found := session.Next();
      ended := found.index.Accepts(seen);
      session.Leave(if ended then found.(index := found.index.Put(index, gap)) else found,
                    Appending(id, version, then_, Cas.Writing(attempt, seen)), gap);
    }

    /** `create_version`; it raises if the description or the id is refused, or every attempt lost its race. */
    method CreateVersion(id: VersionId, version: ConfigVersion, ghost then_: Then) returns (created: bool)
      requires At(CreatingObject(id, version, then_))
      modifies session
      ensures At(if created then AfterCreation(id, version, then_) else AiConfig.Raised(then_))
    {
      var found := session.Next();
      if !ValidDescription(version.description) || ObjectAt(found, id).generation != 0 {
        session.Leave(found, CreatingObject(id, version, then_), gap);
        return false;
      }
      session.Leave(found.(objects := found.objects[id := ObjectAt(found, id).Put(version, gap)]),
                    CreatingObject(id, version, then_), gap);
      for attempt := 0 to MAX_ATTEMPTS
        invariant At(Appending(id, version, then_, Reading(attempt)))
      {
        created := TryAppend(id, version, then_, attempt);
        if created {
          return;
        }
      }
      var _ := session.Look(Appending(id, version, then_, Reading(MAX_ATTEMPTS)), gap);
      return false;
    }

    /** One attempt to record an approval. */
    method TryApprove(id: VersionId, approver: string, ghost attempt: nat) returns (ended: bool, approved: bool)
      requires attempt < MAX_ATTEMPTS && At(Approving(id, approver, Reading(attempt)))
      modifies session
      ensures At(if ended then Done(if approved then Approved(id) else Rejected)
                 else Approving(id, approver, Reading(attempt + 1)))
    {
      var found := session.Look(Approving(id, approver, Reading(attempt)), gap);
      var seen := ObjectAt(found, id).Read();
      ghost var writing := Approving(id, approver, Cas.Writing(attempt, seen));
      found := session.Next();
      if seen.payload.None? {
        session.Leave(found, writing, gap);
        return true, false;
      }
      var version := seen.payload.value;
      version := version.(approver := Some(approver));
      if ObjectAt(found, id).Accepts(seen) {
        session.Leave(found.(objects := found.objects[id := ObjectAt(found, id).Put(version, gap)]), writing, gap);
        return true, true;
      }
      session.Leave(found, writing, gap);
      return false, false;
    }

    /** `approve_version`; it raises for an unknown version, or if every attempt lost its race. */
    method ApproveVersion(id: VersionId, approver: string) returns (approved: bool)
      requires At(CheckingVersion(id, approver))
      modifies session
      ensures At(Done(if approved then Approved(id) else Rejected))
    {
      var found := session.Look(CheckingVersion(id, approver), gap);
      if ObjectAt(found, id).value.None? {
        return false;
      }
      approved := Approve(id, approver);
    }

    method Approve(id: VersionId, approver: string) returns (approved: bool)
      requires At(Approving(id, approver, Reading(0)))
      modifies session
      ensures At(Done(if approved then Approved(id) else Rejected))
    {
      for attempt := 0 to MAX_ATTEMPTS
        invariant At(Approving(id, approver, Reading(attempt)))
      {
        var ended, done := TryApprove(id, approver, attempt);
        if ended {
          return done;
        }
      }
      var _ := session.Look(Approving(id, approver, Reading(MAX_ATTEMPTS)), gap);
      return false;
    }

    /** One attempt of the compare-and-set of `rollback`: re-check, move the pointer, log the activation. */
    method TryActivate(
      id: VersionId, operator: string, reason: string, ghost boot: Option<ConfigVersion>, ghost attempt: nat)
      returns (ended: bool, event: Option<ActivationEvent>)
      requires attempt < MAX_ATTEMPTS && At(Activating(id, operator, reason, boot, Reading(attempt)))
      modifies session
      ensures At(if ended then AfterRollback(id, boot, event)
                 else Activating(id, operator, reason, boot, Reading(attempt + 1)))
    {
      var found := session.Look(Activating(id, operator, reason, boot, Reading(attempt)), gap);
      var seen := found.index.Read();
      ghost var writing := Activating(id, operator, reason, boot, Cas.Writing(attempt, seen));
      found := session.Next();
      var index := AsIndex(seen.payload);
      if id !in index.versions {
        session.Leave(found, writing, gap);
        return true, None;
      }
      var activation := ActivationEvent(operator, index.active, id, reason);
      index := index.(active := Some(id));
      index := index.(events := index.events + [activation]);
      if found.index.Accepts(seen) {
        session.Leave(found.(index := found.index.Put(index, gap)), writing, gap);
        return true, Some(activation);
      }
      session.Leave(found, writing, gap);
      return false, None;
    }

    method Activate(id: VersionId, operator: string, reason: string, ghost boot: Option<ConfigVersion>)
      returns (event: Option<ActivationEvent>)
      requires At(Activating(id, operator, reason, boot, Reading(0)))
      modifies session
      ensures At(AfterRollback(id, boot, event))
    {
      for attempt := 0 to MAX_ATTEMPTS
        invariant At(Activating(id, operator, reason, boot, Reading(attempt)))
      {
        var ended, activation := TryActivate(id, operator, reason, boot, attempt);
        if ended {
          return activation;
        }
      }
      var _ := session.Look(Activating(id, operator, reason, boot, Reading(MAX_ATTEMPTS)), gap);
      return None;
    }

    /** `rollback`; it raises for a version that is not in the history, or if every attempt lost its race. */
    method Rollback(id: VersionId, operator: string, reason: string, ghost boot: Option<ConfigVersion>)
      returns (event: Option<ActivationEvent>)
      requires At(CheckingIndex(id, operator, reason, boot))
      modifies session
      ensures At(AfterRollback(id, boot, event))
    {
      var found := session.Look(CheckingIndex(id, operator, reason, boot), gap);
      if id !in AsIndex(found.index.value).versions {
        return None;
      }
      event := Activate(id, operator, reason, boot);
    }

    /** `resolve`: the active version, or a freshly seeded one; any error on the way reads as unresolved. */
    method Resolve(freshId: VersionId, defaults: ConfigVersion) returns (resolved: Option<(VersionId, ConfigVersion)>)
      requires At(ReadingIndex(freshId, defaults))
      modifies session
      ensures At(Done(if resolved.None? then Unresolved else Resolved(resolved.value.0, resolved.value.1)))
    {
      var found := session.Look(ReadingIndex(freshId, defaults), gap);
      var active := AsIndex(found.index.value).active;
      if active.Some? {
        found := session.Look(LoadingActive(active.value), gap);
        var version := ObjectAt(found, active.value).value;
        return if version.None? then None else Some((active.value, version.value));
      }
      var created := CreateVersion(freshId, defaults, Bootstrap);
      if !created {
        return None;
      }
      var event := Rollback(freshId, "system", "Bootstrap initial active configuration", Some(defaults));
      return if event.None? then None else Some((freshId, defaults));
    }
  }

  /** What every move of a schedule finds, and its event. */
  ghost function TraceOf(schedule: seq<Move>): seq<Noted<Shared, nat>> {
    if schedule == [] then []
    else
      var before, m := schedule[..|schedule| - 1], schedule[|schedule| - 1];
      TraceOf(before) + [Noted(m.actor, Taken(Run(before).shared, m.gap))]
  }

  lemma {:induction false} StepMovesActor(s: System, m: Move)
    ensures Step(s, m).actors == s.actors[m.actor := STEP(s.shared, ActorOf(s, m), m.gap).1]
  {
  }

  /** An actor of the system stands where a caller stands that takes the same steps. */
  lemma {:induction false} ActorFollowsItsSteps(schedule: seq<Move>, a: ActorId, op: Operation)
    requires forall i :: 0 <= i < |schedule| && schedule[i].actor == a ==> schedule[i].op == op
    ensures Abreast(STEP, Start(op), Run(schedule).actors, a, StepsOf(TraceOf(schedule), a))
  {
    if schedule != [] {
      var before, m := schedule[..|schedule| - 1], schedule[|schedule| - 1];
      var s := Run(before);
      ActorFollowsItsSteps(before, a, op);
      StepMovesActor(s, m);
      StaysAbreast(
        STEP, Start(op), s.actors, Run(schedule).actors, a, TraceOf(before), Noted(m.actor, Taken(s.shared, m.gap)));
    }
  }

  /**
   An activation that `rollback` returned inside a schedule, having found the store
   as the schedule left it each time, is in the log and stays there.
   */
  lemma {:induction false} ReturnedActivationIsLogged(
    schedule: seq<Move>, rest: seq<Move>, a: ActorId, op: Operation, event: ActivationEvent)
    requires forall i :: 0 <= i < |schedule| && schedule[i].actor == a ==> schedule[i].op == op
    requires Follow(STEP, Start(op), StepsOf(TraceOf(schedule), a)) == Done(Activated(event))
    ensures event in AsIndex(Run(schedule + rest).shared.index.value).events
  {
    ActorFollowsItsSteps(schedule, a, op);
    ReportedActivationIsLogged(schedule, rest, a, event);
  }

  /**
   A `resolve` that finds `id` active and `version` stored under it at each of its accesses
   returns exactly these, whatever else differs between them.
   */
  lemma {:induction false} ResolveServesTheActive(
    freshId: VersionId, defaults: ConfigVersion, steps: seq<Taken<Shared, nat>>, id: VersionId, version: ConfigVersion)
    requires |steps| >= 2
    requires forall k :: 0 <= k < |steps| ==>
      AsIndex(steps[k].found.index.value).active == Some(id) && ObjectAt(steps[k].found, id).value == Some(version)
    ensures Follow(STEP, Start(Resolve(freshId, defaults)), steps) == Done(Resolved(id, version))
  {
    var n := |steps| - 1;
    if n > 1 {
      ResolveServesTheActive(freshId, defaults, steps[..n], id, version);
    } else {
      assert steps[..1][..0] == [];
      assert Follow(STEP, Start(Resolve(freshId, defaults)), steps[..1]) == LoadingActive(id);
    }
  }
}
