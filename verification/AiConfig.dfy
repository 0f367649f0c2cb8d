/**
 Versioned AI configuration of one config id, as a step system: immutable
 version objects, and one index object holding the ordered history, the active
 pointer and the activation log. Creators, approvers, roll-backs and resolvers run
 concurrently; every store access is a step of its own, and a compare-and-set is a
 read step and a conditional-write step.
 */
module AiConfig {
  import opened Wrappers
  import opened Storage
  import opened Sessions

  type VersionId = string

  /** The settings an approval may not touch; one opaque bundle. */
  type Settings = string

  datatype ConfigVersion = ConfigVersion(settings: Settings, description: string, approver: Option<string>)

  datatype ActivationEvent = ActivationEvent(
    operator: string, previous: Option<VersionId>, selected: VersionId, reason: string)

  datatype ConfigIndex = ConfigIndex(
    active: Option<VersionId>, versions: seq<VersionId>, events: seq<ActivationEvent>)

  const MIN_DESCRIPTION: nat := 1
  const MAX_DESCRIPTION: nat := 500

  predicate ValidDescription(description: string) {
    MIN_DESCRIPTION <= |description| <= MAX_DESCRIPTION
  }

  function AsIndex(payload: Option<ConfigIndex>): ConfigIndex {
    if payload.None? then ConfigIndex(None, [], []) else payload.value
  }

  /** The index closure of `create_version`: append, without activating. */
  function AppendMutation(id: VersionId, current: Option<ConfigIndex>): ConfigIndex {
    var index := AsIndex(current);
    if id in index.versions then index else index.(versions := index.versions + [id])
  }

  /** The closure of `rollback`; `None` is the not-found error. */
  function ActivateMutation(id: VersionId, operator: string, reason: string, current: Option<ConfigIndex>)
    : Option<ConfigIndex>
  {
    var index := AsIndex(current);
    if id !in index.versions then None
    else Some(index.(active := Some(id),
                     events := index.events + [ActivationEvent(operator, index.active, id, reason)]))
  }

  // Actors

  datatype Cas<+V> = Reading(attempt: nat) | Writing(attempt: nat, seen: Snapshot<V>)

  /** What follows a finished creation or roll-back: nothing, or the rest of a bootstrap. */
  datatype Then = Return | Bootstrap

  datatype Outcome =
    | Created(id: VersionId)
    | Approved(id: VersionId)
    | Activated(event: ActivationEvent)
    | Resolved(id: VersionId, version: ConfigVersion)
    | Unresolved
    | Rejected            // an error was raised

  datatype Actor =
    | CreatingObject(id: VersionId, version: ConfigVersion, then_: Then)
    | Appending(id: VersionId, version: ConfigVersion, then_: Then, cas: Cas<ConfigIndex>)
    | CheckingVersion(id: VersionId, approver: string)
    | Approving(id: VersionId, approver: string, versionCas: Cas<ConfigVersion>)
    | CheckingIndex(id: VersionId, operator: string, reason: string, boot: Option<ConfigVersion>)
    | Activating(id: VersionId, operator: string, reason: string, boot: Option<ConfigVersion>, cas: Cas<ConfigIndex>)
    | ReadingIndex(freshId: VersionId, defaults: ConfigVersion)
    | LoadingActive(id: VersionId)
    | Done(outcome: Outcome)

  const MAX_ATTEMPTS: nat := 8

  datatype Shared = Shared(objects: map<VersionId, Cell<ConfigVersion>>, index: Cell<ConfigIndex>)

  function ObjectAt(s: Shared, id: VersionId): Cell<ConfigVersion> {
    if id in s.objects then s.objects[id] else Cell(None, 0)
  }

  /** The resolver answers `Unresolved` when anything inside it raises. */
  function Raised(then_: Then): Actor {
    Done(if then_.Bootstrap? then Unresolved else Rejected)
  }

  function ThenOf(boot: Option<ConfigVersion>): Then {
    if boot.Some? then Bootstrap else Return
  }

  function StepAppending(
    s: Shared, id: VersionId, version: ConfigVersion, then_: Then, cas: Cas<ConfigIndex>, gap: nat): (Shared, Actor)
  {
    match cas
    case Reading(attempt) =>
      if attempt == MAX_ATTEMPTS then (s, Raised(then_))
      else (s, Appending(id, version, then_, Writing(attempt, s.index.Read())))
    case Writing(attempt, seen) =>
      if s.index.Accepts(seen) then
        (s.(index := s.index.Put(AppendMutation(id, seen.payload), gap)),
         if then_.Return? then Done(Created(id))
         else CheckingIndex(id, "system", "Bootstrap initial active configuration", Some(version)))
      else (s, Appending(id, version, then_, Reading(attempt + 1)))
  }

  function StepApproving(s: Shared, id: VersionId, approver: string, cas: Cas<ConfigVersion>, gap: nat)
    : (Shared, Actor)
  {
    match cas
    case Reading(attempt) =>
      if attempt == MAX_ATTEMPTS then (s, Done(Rejected))
      else (s, Approving(id, approver, Writing(attempt, ObjectAt(s, id).Read())))
    case Writing(attempt, seen) =>
      if seen.payload.None? then (s, Done(Rejected))
      else if ObjectAt(s, id).Accepts(seen) then
        (s.(objects := s.objects[id := ObjectAt(s, id).Put(seen.payload.value.(approver := Some(approver)), gap)]),
         Done(Approved(id)))
      else (s, Approving(id, approver, Reading(attempt + 1)))
  }

  function StepActivating(
    s: Shared, id: VersionId, operator: string, reason: string, boot: Option<ConfigVersion>, cas: Cas<ConfigIndex>,
    gap: nat): (Shared, Actor)
  {
    match cas
    case Reading(attempt) =>
      if attempt == MAX_ATTEMPTS then (s, Raised(ThenOf(boot)))
      else (s, Activating(id, operator, reason, boot, Writing(attempt, s.index.Read())))
    case Writing(attempt, seen) =>
      match ActivateMutation(id, operator, reason, seen.payload)
      case None => (s, Raised(ThenOf(boot)))
      case Some(next) =>
        if s.index.Accepts(seen) then
          (s.(index := s.index.Put(next, gap)),
           Done(if boot.Some? then Resolved(id, boot.value) else Activated(next.events[|next.events| - 1])))
        else (s, Activating(id, operator, reason, boot, Reading(attempt + 1)))
  }

  /** One step of one actor; `gap` is how far a write's generation jumps. */
  function StepActor(s: Shared, actor: Actor, gap: nat): (Shared, Actor) {
    match actor
    case CreatingObject(id, version, then_) =>
      if !ValidDescription(version.description) || ObjectAt(s, id).generation != 0 then (s, Raised(then_))
      else (s.(objects := s.objects[id := ObjectAt(s, id).Put(version, gap)]),
            Appending(id, version, then_, Reading(0)))
    case Appending(id, version, then_, cas) => StepAppending(s, id, version, then_, cas, gap)
    case CheckingVersion(id, approver) =>
      (s, if ObjectAt(s, id).value.None? then Done(Rejected) else Approving(id, approver, Reading(0)))
    case Approving(id, approver, cas) => StepApproving(s, id, approver, cas, gap)
    case CheckingIndex(id, operator, reason, boot) =>
      (s, if id !in AsIndex(s.index.value).versions then Raised(ThenOf(boot))
          else Activating(id, operator, reason, boot, Reading(0)))
    case Activating(id, operator, reason, boot, cas) => StepActivating(s, id, operator, reason, boot, cas, gap)
    case ReadingIndex(freshId, defaults) =>
      var active := AsIndex(s.index.value).active;
      (s, if active.Some? then LoadingActive(active.value) else CreatingObject(freshId, defaults, Bootstrap))
    case LoadingActive(id) =>
      var version := ObjectAt(s, id).value;
      (s, Done(if version.None? then Unresolved else Resolved(id, version.value)))
    case Done(_) => (s, actor)
  }

  // Runs

  datatype Operation =
    | Create(id: VersionId, version: ConfigVersion)
    | Approve(id: VersionId, approver: string)
    | Rollback(id: VersionId, operator: string, reason: string)
    | Resolve(freshId: VersionId, defaults: ConfigVersion)

  function Start(op: Operation): Actor {
    match op
    case Create(id, version) => CreatingObject(id, version, Return)
    case Approve(id, approver) => CheckingVersion(id, approver)
    case Rollback(id, operator, reason) => CheckingIndex(id, operator, reason, None)
    case Resolve(freshId, defaults) => ReadingIndex(freshId, defaults)
  }

  datatype System = System(shared: Shared, actors: map<ActorId, Actor>)

  datatype Move = Move(actor: ActorId, op: Operation, gap: nat)

  function ActorOf(s: System, m: Move): Actor {
    if m.actor in s.actors then s.actors[m.actor] else Start(m.op)
  }

  function Step(s: System, m: Move): System {
    var (shared, actor) := StepActor(s.shared, ActorOf(s, m), m.gap);
    System(shared, s.actors[m.actor := actor])
  }

  function Run(schedule: seq<Move>): System {
    if schedule == [] then System(Shared(map[], Cell(None, 0)), map[])
    else Step(Run(schedule[..|schedule| - 1]), schedule[|schedule| - 1])
  }

  // Invariant

  ghost predicate Stored(s: Shared, id: VersionId) {
    id in s.objects && s.objects[id].value.Some?
  }

  /** Each activation names as its predecessor what the one before it selected. */
  ghost predicate Chained(events: seq<ActivationEvent>) {
    && (events != [] ==> events[0].previous == None)
    && (forall i, j :: 0 <= i < j < |events| && j == i + 1 ==> events[j].previous == Some(events[i].selected))
  }

  ghost predicate GoodIndex(index: ConfigIndex) {
    && (forall i, j :: 0 <= i < j < |index.versions| ==> index.versions[i] != index.versions[j])
    && Chained(index.events)
    && index.active == (if index.events == [] then None else Some(index.events[|index.events| - 1].selected))
    && (forall i :: 0 <= i < |index.events| ==> index.events[i].selected in index.versions)
  }

  ghost predicate AllStored(s: Shared, index: ConfigIndex) {
    forall i :: 0 <= i < |index.versions| ==> Stored(s, index.versions[i])
  }

  ghost predicate GoodShared(s: Shared) {
    && s.index.Valid() && GoodIndex(AsIndex(s.index.value)) && AllStored(s, AsIndex(s.index.value))
    && forall id :: id in s.objects ==> s.objects[id].Valid() && s.objects[id].value.Some?
  }

  ghost predicate GoodActor(s: Shared, actor: Actor) {
    match actor
    case Appending(id, version, _, cas) =>
      Stored(s, id) && s.objects[id].value.value.settings == version.settings
      && (cas.Writing? ==> Coherent(cas.seen, s.index))
    case Approving(id, _, cas) =>
      Stored(s, id) && (cas.Writing? ==> Coherent(cas.seen, s.objects[id]) && cas.seen.payload.Some?)
    case CheckingIndex(id, _, _, boot) =>
      boot.Some? ==> Stored(s, id) && s.objects[id].value.value.settings == boot.value.settings
                     && id in AsIndex(s.index.value).versions
    case Activating(id, _, _, boot, cas) =>
      && (boot.Some? ==> Stored(s, id) && s.objects[id].value.value.settings == boot.value.settings)
      && id in AsIndex(s.index.value).versions
      && (cas.Writing? ==> Coherent(cas.seen, s.index) && id in AsIndex(cas.seen.payload).versions)
    case LoadingActive(id) => Stored(s, id)
    case Done(Activated(event)) => event in AsIndex(s.index.value).events
    case Done(Created(id)) => id in AsIndex(s.index.value).versions
    case Done(Resolved(id, version)) => Stored(s, id) && s.objects[id].value.value.settings == version.settings
    case _ => true
  }

  /** How one step may change what is shared: objects stay and keep their settings, logs only grow. */
  ghost predicate Advances(s: Shared, t: Shared) {
    && (forall id :: Stored(s, id) ==>
          && Stored(t, id) && Evolves(s.objects[id], t.objects[id])
          && t.objects[id].value.value.settings == s.objects[id].value.value.settings)
    && Evolves(s.index, t.index)
    && AsIndex(s.index.value).versions <= AsIndex(t.index.value).versions
    && AsIndex(s.index.value).events <= AsIndex(t.index.value).events
  }

  ghost predicate Inv(s: System) {
    GoodShared(s.shared) && forall a :: a in s.actors ==> GoodActor(s.shared, s.actors[a])
  }

  ghost predicate Kept(s: Shared, next: (Shared, Actor)) {
    GoodShared(next.0) && GoodActor(next.0, next.1) && Advances(s, next.0)
  }

  lemma {:induction false} AppendIsGood(index: Option<ConfigIndex>, id: VersionId)
    requires GoodIndex(AsIndex(index))
    ensures var next := AppendMutation(id, index);
            && GoodIndex(next) && id in next.versions && AsIndex(index).versions <= next.versions
            && (forall v :: v in next.versions ==> v == id || v in AsIndex(index).versions)
            && next.events == AsIndex(index).events && next.active == AsIndex(index).active
  {
  }

  lemma {:induction false} ActivateIsGood(index: Option<ConfigIndex>, id: VersionId, operator: string, reason: string)
    requires GoodIndex(AsIndex(index)) && id in AsIndex(index).versions
    ensures var next := ActivateMutation(id, operator, reason, index);
            && next.Some? && GoodIndex(next.value) && next.value.versions == AsIndex(index).versions
            && next.value.active == Some(id) && AsIndex(index).events <= next.value.events
  {
  }

  /** An accepted write of a good index that keeps what was listed and logged. */
  lemma {:induction false} IndexWritten(s: Shared, next: ConfigIndex, gap: nat)
    requires GoodShared(s) && GoodIndex(next) && AllStored(s, next)
    requires AsIndex(s.index.value).versions <= next.versions && AsIndex(s.index.value).events <= next.events
    ensures var t := s.(index := s.index.Put(next, gap)); GoodShared(t) && Advances(s, t)
  {
  }

  lemma {:induction false} AppendingKeeps(
    s: Shared, id: VersionId, version: ConfigVersion, then_: Then, cas: Cas<ConfigIndex>, gap: nat)
    requires GoodShared(s) && GoodActor(s, Appending(id, version, then_, cas))
    ensures Kept(s, StepAppending(s, id, version, then_, cas, gap))
  {
    if cas.Writing? && s.index.Accepts(cas.seen) {
      AppendIsGood(cas.seen.payload, id);
      var next := AppendMutation(id, cas.seen.payload);
      forall i | 0 <= i < |next.versions| ensures Stored(s, next.versions[i]) {
        assert next.versions[i] in next.versions;
      }
      IndexWritten(s, next, gap);
    }
  }

  lemma {:induction false} ActivatingKeeps(
    s: Shared, id: VersionId, operator: string, reason: string, boot: Option<ConfigVersion>, cas: Cas<ConfigIndex>,
    gap: nat)
    requires GoodShared(s) && GoodActor(s, Activating(id, operator, reason, boot, cas))
    ensures Kept(s, StepActivating(s, id, operator, reason, boot, cas, gap))
  {
    if cas.Writing? && s.index.Accepts(cas.seen) {
      ActivateIsGood(cas.seen.payload, id, operator, reason);
      IndexWritten(s, ActivateMutation(id, operator, reason, cas.seen.payload).value, gap);
    }
  }

  lemma {:induction false} ApprovingKeeps(s: Shared, id: VersionId, approver: string, cas: Cas<ConfigVersion>, gap: nat)
    requires GoodShared(s) && GoodActor(s, Approving(id, approver, cas))
    ensures Kept(s, StepApproving(s, id, approver, cas, gap))
  {
  }

  lemma {:induction false} CreatingKeeps(s: Shared, id: VersionId, version: ConfigVersion, then_: Then, gap: nat)
    requires GoodShared(s)
    ensures Kept(s, StepActor(s, CreatingObject(id, version, then_), gap))
  {
  }

  lemma {:induction false} ActorKeeps(s: Shared, actor: Actor, gap: nat)
    requires GoodShared(s) && GoodActor(s, actor)
    ensures Kept(s, StepActor(s, actor, gap))
  {
    match actor
    case CreatingObject(id, version, then_) => CreatingKeeps(s, id, version, then_, gap);
    case Appending(id, version, then_, cas) => AppendingKeeps(s, id, version, then_, cas, gap);
    case Approving(id, approver, cas) => ApprovingKeeps(s, id, approver, cas, gap);
    case Activating(id, operator, reason, boot, cas) => ActivatingKeeps(s, id, operator, reason, boot, cas, gap);
    case _ => assert StepActor(s, actor, gap).0 == s;
  }

  lemma {:induction false} OthersKeep(s: Shared, t: Shared, actor: Actor)
    requires GoodShared(t) && GoodActor(s, actor) && Advances(s, t)
    ensures GoodActor(t, actor)
  {
  }

  lemma {:induction false} StepKeeps(s: System, m: Move)
    requires Inv(s)
    ensures Inv(Step(s, m)) && Advances(s.shared, Step(s, m).shared)
  {
    ActorKeeps(s.shared, ActorOf(s, m), m.gap);
    var t := Step(s, m);
    forall a | a in t.actors ensures GoodActor(t.shared, t.actors[a]) {
      if a != m.actor {
        OthersKeep(s.shared, t.shared, s.actors[a]);
      }
    }
  }

  lemma {:induction false} RunKeeps(schedule: seq<Move>)
    ensures Inv(Run(schedule))
  {
    if schedule != [] {
      RunKeeps(schedule[..|schedule| - 1]);
      StepKeeps(Run(schedule[..|schedule| - 1]), schedule[|schedule| - 1]);
    }
  }

  /** What holds between any two moments of one run. */
  ghost predicate Later(s: Shared, t: Shared) {
    && (forall id :: Stored(s, id) ==>
          Stored(t, id) && t.objects[id].value.value.settings == s.objects[id].value.value.settings)
    && AsIndex(s.index.value).versions <= AsIndex(t.index.value).versions
    && AsIndex(s.index.value).events <= AsIndex(t.index.value).events
  }

  lemma {:induction false} StepIsLater(origin: Shared, s: System, m: Move)
    requires Inv(s) && Later(origin, s.shared)
    ensures Later(origin, Step(s, m).shared)
  {
    StepKeeps(s, m);
  }

  // Theorems

  /**
   Nothing is ever lost or rewritten: over the rest of any run the history and the
   activation log only grow at their ends, and every version object stays and
   keeps its governed settings, whoever approves it in between.
   */
  lemma {:induction false} HistoryIsAppendOnly(schedule: seq<Move>, rest: seq<Move>)
    ensures Later(Run(schedule).shared, Run(schedule + rest).shared)
    decreases |rest|
  {
    var all := schedule + rest;
    if rest == [] {
      assert all == schedule;
    } else {
      var front := schedule + rest[..|rest| - 1];
      FrontOfSum(schedule, rest);
      HistoryIsAppendOnly(schedule, rest[..|rest| - 1]);
      RunKeeps(front);
      StepIsLater(Run(schedule).shared, Run(front), rest[|rest| - 1]);
    }
  }

  lemma {:induction false} FrontOfSum(schedule: seq<Move>, rest: seq<Move>)
    requires rest != []
    ensures (schedule + rest)[..|schedule + rest| - 1] == schedule + rest[..|rest| - 1]
    ensures (schedule + rest)[|schedule + rest| - 1] == rest[|rest| - 1]
  {
  }

  /**
   The audit chain after any interleaving: ids are distinct and each has its object;
   the first activation has no predecessor, every later one names what the one
   before it selected; and the active pointer is the last selection.
   */
  lemma {:induction false} AuditChain(schedule: seq<Move>)
    ensures var s := Run(schedule).shared;
            var index := AsIndex(s.index.value);
            && (forall i, j :: 0 <= i < j < |index.versions| ==> index.versions[i] != index.versions[j])
            && (forall i :: 0 <= i < |index.versions| ==> Stored(s, index.versions[i]))
            && (index.events != [] ==> index.events[0].previous == None)
            && (forall i, j :: 0 <= i < j < |index.events| && j == i + 1 ==>
                  index.events[j].previous == Some(index.events[i].selected))
            && (forall i :: 0 <= i < |index.events| ==> index.events[i].selected in index.versions)
            && index.active == (if index.events == [] then None else Some(index.events[|index.events| - 1].selected))
  {
    RunKeeps(schedule);
  }

  /** An activation that was reported is in the log, and stays there. */
  lemma {:induction false} ReportedActivationIsLogged(
    schedule: seq<Move>, rest: seq<Move>, a: ActorId, event: ActivationEvent)
    requires a in Run(schedule).actors && Run(schedule).actors[a] == Done(Activated(event))
    ensures event in AsIndex(Run(schedule + rest).shared.index.value).events
  {
    RunKeeps(schedule);
    assert GoodActor(Run(schedule).shared, Run(schedule).actors[a]);
    HistoryIsAppendOnly(schedule, rest);
  }

  /**
   The resolver's dangling-pointer branch is dead: whenever it is about to load
   the active version, the object is there; and what it resolved to are that
   object's settings, then and later.
   */
  lemma {:induction false} ResolverNeverDangles(schedule: seq<Move>, rest: seq<Move>, a: ActorId)
    requires a in Run(schedule).actors
    ensures match Run(schedule).actors[a]
            case LoadingActive(id) => Stored(Run(schedule).shared, id)
            case Done(Resolved(id, version)) =>
              && Stored(Run(schedule + rest).shared, id)
              && Run(schedule + rest).shared.objects[id].value.value.settings == version.settings
            case _ => true
  {
    RunKeeps(schedule);
    assert GoodActor(Run(schedule).shared, Run(schedule).actors[a]);
    HistoryIsAppendOnly(schedule, rest);
  }

  /** Once a roll-back has passed its pre-check, its re-check under compare-and-set never refuses. */
  lemma {:induction false} RollbackNeverLosesItsTarget(schedule: seq<Move>, a: ActorId)
    requires a in Run(schedule).actors
    ensures match Run(schedule).actors[a]
            case Activating(id, operator, reason, _, Writing(_, seen)) =>
              ActivateMutation(id, operator, reason, seen.payload).Some?
            case _ => true
  {
    RunKeeps(schedule);
    assert GoodActor(Run(schedule).shared, Run(schedule).actors[a]);
  }
}
