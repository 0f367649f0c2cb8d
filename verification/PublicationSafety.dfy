/** What every run of the publication protocol keeps. */
module PublicationSafety {
  import opened Wrappers
  import opened Storage
  import opened Documents
  import opened Publication

  // Invariant

  /** A record, wherever it is held, publishes only a version whose upsert has completed. */
  ghost predicate GoodRecord(r: Record, completed: set<Version>) {
    && r.version != ""
    && (r.activeVersion.Some? ==> r.activeVersion.value != "" && r.activeVersion.value in completed)
    && (r.status.Indexed? ==> r.activeVersion.Some?)
  }

  ghost predicate GoodIndex(index: Option<VersionIndex>, completed: set<Version>) {
    index.Some? ==> IndexInvariant(index.value) && Ids(index.value.versions) <= completed
  }

  ghost predicate GoodShared(s: Shared) {
    && s.record.Valid() && s.index.Valid()
    && (s.record.value.Some? ==> GoodRecord(s.record.value.value, s.completed))
    && GoodIndex(s.index.value, s.completed)
    && (forall p :: p in s.caches ==> GoodRecord(s.caches[p], s.completed))
    && "" !in s.completed
  }

  ghost predicate GoodCaller(caller: Caller) {
    (caller.UpdateCheck? || caller.UploadRead?) ==> caller.version != ""
  }

  /** A publishing write carries a version that has completed its upsert. */
  ghost predicate GoodAfter(after: After, record: Record, completed: set<Version>) {
    match after
    case ParsingSaved(base) => GoodRecord(base, completed)
    case ChunkingSaved(base) => GoodRecord(base, completed)
    case EmbeddingSaved(base, _) => GoodRecord(base, completed)
    case FinalSaved(base) => GoodRecord(base, completed) && base.version in completed
    case _ => true
  }

  ghost predicate GoodActor(s: Shared, actor: Actor) {
    match actor
    case CacheLookup(caller) => GoodCaller(caller)
    case StoreLookup(caller) => GoodCaller(caller)
    case CacheFill(caller, record) => GoodCaller(caller) && GoodRecord(record, s.completed)
    case Saving(record, after, cas) =>
      && GoodRecord(record, s.completed) && GoodAfter(after, record, s.completed)
      && (cas.Writing? ==> Coherent(cas.seen, s.record))
    case CachingSaved(record, after) => GoodRecord(record, s.completed) && GoodAfter(after, record, s.completed)
    case Enqueueing(record) => GoodRecord(record, s.completed)
    case FetchingRaw(record) => GoodRecord(record, s.completed)
    case ParsingContent(base) => GoodRecord(base, s.completed)
    case ChunkingContent(base) => GoodRecord(base, s.completed)
    case Upserting(purpose, chunks, remaining) =>
      && GoodRecord(purpose.base, s.completed)
      && VectorsOf(VersionOf(purpose), chunks - remaining) <= s.accepted
      && (purpose.ForRestore? ==> purpose.target in IdsOf(s.index.value))
    case WritingManifest(base) => GoodRecord(base, s.completed) && base.version in s.completed
    case RecordingVersion(base) => GoodRecord(base, s.completed) && base.version in s.completed
    case Activating(base, cas) =>
      && GoodRecord(base, s.completed) && base.version in s.completed
      && (cas.Writing? ==> Coherent(cas.seen, s.index))
    case DeletingVectors(base) => GoodRecord(base, s.completed)
    case LoadingIndex(base, _) => GoodRecord(base, s.completed)
    case LoadingChunks(base, target) =>
      GoodRecord(base, s.completed) && target in IdsOf(s.index.value)
    case Restoring(base, target, cas) =>
      && GoodRecord(base, s.completed) && target in IdsOf(s.index.value)
      && (cas.Writing? ==> Coherent(cas.seen, s.index) && GoodIndex(cas.seen.payload, s.completed)
                           && target in IdsOf(cas.seen.payload))
    case Searched(hits, kept) => forall i :: 0 <= i < |kept| ==> kept[i] in s.completed && kept[i] == kept[0]
    case _ => true
  }

  ghost predicate Inv(s: System) {
    GoodShared(s.shared) && forall a :: a in s.actors ==> GoodActor(s.shared, s.actors[a].actor)
  }

  /** How one step may change what is shared. */
  ghost predicate Advances(s: Shared, t: Shared) {
    && s.completed <= t.completed && s.accepted <= t.accepted
    && Evolves(s.record, t.record) && LegalMove(s.record.value, t.record.value)
    && Evolves(s.index, t.index) && IdsOf(s.index.value) <= IdsOf(t.index.value)
  }

  // Preservation, one kind of step at a time

  lemma {:induction false} GateKeepsOne(hits: seq<Version>, published: Option<Version>)
    ensures forall i :: 0 <= i < |Gate(hits, published)| ==> published == Some(Gate(hits, published)[i])
  {
    if hits != [] {
      GateKeepsOne(hits[1..], published);
    }
  }

  /** The gate lets through exactly the hits of the published version, each as often as it was hit. */
  lemma {:induction false} GateIsExact(hits: seq<Version>, published: Option<Version>)
    ensures forall v :: multiset(Gate(hits, published))[v] == if published == Some(v) then multiset(hits)[v] else 0
    ensures forall v :: v in Gate(hits, published) <==> v in hits && published == Some(v)
    ensures |Gate(hits, published)| == if published.Some? then multiset(hits)[published.value] else 0
  {
    if hits != [] {
      GateIsExact(hits[1..], published);
      assert hits == [hits[0]] + hits[1..];
    }
  }

  lemma {:induction false} GotDocumentIsGood(s: Shared, caller: Caller, existing: Option<Record>)
    requires GoodShared(s) && GoodCaller(caller)
    requires existing.Some? ==> GoodRecord(existing.value, s.completed)
    ensures GoodActor(s, GotDocument(caller, existing))
  {
    if caller.SearchLoad? {
      GateKeepsOne(caller.hits, PublishedVersionOf(existing));
    }
  }

  ghost predicate Kept(s: Shared, next: (Shared, Actor)) {
    GoodShared(next.0) && GoodActor(next.0, next.1) && Advances(s, next.0)
  }

  lemma {:induction false} SaveRaisedIsGood(s: Shared, record: Record, after: After, error: Option<WriteError>)
    requires GoodRecord(record, s.completed) && GoodAfter(after, record, s.completed)
    ensures GoodActor(s, SaveRaised(after, error))
  {
  }

  /** An accepted record write: what was good stays good, and only a legal move was made. */
  lemma {:induction false} RecordWritten(s: Shared, record: Record, after: After, seen: Snapshot<Record>, gap: nat)
    requires GoodShared(s) && GoodRecord(record, s.completed) && GoodAfter(after, record, s.completed)
    requires Coherent(seen, s.record) && s.record.Accepts(seen) && RejectIllegalWrite(record, seen.payload).None?
    ensures Kept(s, (s.(record := s.record.Put(record, gap)), CachingSaved(record, after)))
  {
  }

  lemma {:induction false} SavingKeeps(s: Shared, record: Record, after: After, cas: Cas<Record>, event: Event)
    requires GoodShared(s) && GoodActor(s, Saving(record, after, cas))
    ensures Kept(s, StepSaving(s, record, after, cas, event))
  {
    if event.Fail? {
      SaveRaisedIsGood(s, record, after, None);
    } else {
      match cas
      case Reading(_) => SaveRaisedIsGood(s, record, after, None);
      case Writing(_, seen) =>
        var refused := RejectIllegalWrite(record, seen.payload);
        if refused.Some? {
          SaveRaisedIsGood(s, record, after, refused);
        } else if s.record.Accepts(seen) {
          RecordWritten(s, record, after, seen, GapOf(event));
        }
    }
  }

  /** An accepted index write: a good index that lists at least the same versions. */
  lemma {:induction false} IndexWritten(s: Shared, payload: VersionIndex, gap: nat, next: Actor)
    requires GoodShared(s) && GoodIndex(Some(payload), s.completed)
    requires IdsOf(s.index.value) <= Ids(payload.versions)
    requires GoodActor(s.(index := s.index.Put(payload, gap)), next)
    ensures Kept(s, (s.(index := s.index.Put(payload, gap)), next))
  {
  }

  lemma {:induction false} ActivatingKeeps(s: Shared, base: Record, cas: Cas<VersionIndex>, event: Event)
    requires GoodShared(s) && GoodActor(s, Activating(base, cas))
    ensures Kept(s, StepActivating(s, base, cas, event))
  {
    if cas.Writing? && s.index.Accepts(cas.seen) {
      ActivateKeepsIndex(base.version, cas.seen.payload);
      if !event.Fail? {
        var payload := ActivateMutation(base.version, cas.seen.payload);
        IndexWritten(s, payload, GapOf(event), CleaningSuperseded(base.version));
      }
    }
  }

  lemma {:induction false} RestoringKeeps(
    s: Shared, base: Record, target: Version, cas: Cas<VersionIndex>, event: Event)
    requires GoodShared(s) && GoodActor(s, Restoring(base, target, cas))
    ensures Kept(s, StepRestoring(s, base, target, cas, event))
  {
    if cas.Writing? && s.index.Accepts(cas.seen) {
      RestoreKeepsIndex(target, cas.seen.payload);
      if !event.Fail? {
        var payload := RestoreMutation(target, cas.seen.payload).value;
        var record := base.(activeVersion := Some(target), status := Indexed);
        IndexWritten(s, payload, GapOf(event), Save(record, RestorationSaved(target)));
      }
    }
  }

  lemma {:induction false} UpsertingKeeps(
    s: Shared, purpose: Purpose, chunks: set<nat>, remaining: set<nat>, event: Event)
    requires GoodShared(s) && GoodActor(s, Upserting(purpose, chunks, remaining))
    ensures Kept(s, StepUpserting(s, purpose, chunks, remaining, event))
  {
  }

  lemma {:induction false} LoadingIndexKeeps(s: Shared, base: Record, target: Version, event: Event)
    requires GoodShared(s) && GoodActor(s, LoadingIndex(base, target))
    ensures GoodActor(s, StepLoadingIndex(s, base, target, event))
  {
    if s.index.value.Some? {
      FindIsMember(s.index.value.value.versions, target);
    }
  }

  lemma {:induction false} LookupKeeps(s: Shared, p: ProcessId, actor: Actor, event: Event)
    requires GoodShared(s) && GoodActor(s, actor)
    requires actor.CacheLookup? || actor.StoreLookup? || actor.CacheFill? || actor.CachingSaved?
    ensures Kept(s, StepActor(s, p, actor, event))
  {
    match actor
    case CacheLookup(caller) =>
      var cached := CacheOf(s, p);
      if cached.Some? && Terminal(cached.value.status) {
        GotDocumentIsGood(s, caller, cached);
      }
    case StoreLookup(caller) =>
      GotDocumentIsGood(s, caller, CacheOf(s, p));
      if caller.SearchLoad? {
        GateKeepsOne(caller.hits, None);
      }
    case CacheFill(caller, record) =>
      GotDocumentIsGood(s.(caches := s.caches[p := record]), caller, Some(record));
    case CachingSaved(_, _) =>
  }

  predicate ChangesVectorsOnly(actor: Actor) {
    actor.CleaningSuperseded? || actor.CleaningFailed? || actor.RollingBack? || actor.DeletingVectors?
  }

  lemma {:induction false} VectorStepKeeps(s: Shared, p: ProcessId, actor: Actor, event: Event)
    requires GoodShared(s) && GoodActor(s, actor) && ChangesVectorsOnly(actor)
    ensures Kept(s, StepActor(s, p, actor, event))
  {
  }

  predicate ReadsContent(actor: Actor) {
    actor.FetchingRaw? || actor.ParsingContent? || actor.ChunkingContent? || actor.LoadingChunks? || actor.Querying?
  }

  lemma {:induction false} ReadingKeeps(s: Shared, p: ProcessId, actor: Actor, event: Event)
    requires GoodShared(s) && GoodActor(s, actor) && ReadsContent(actor)
    ensures Kept(s, StepActor(s, p, actor, event))
  {
  }

  predicate LocalStep(actor: Actor) {
    || actor.Enqueueing? || actor.WritingManifest? || actor.RecordingVersion? || actor.RecordingFailure?
    || actor.Searched? || actor.Done? || actor.Finished?
  }

  lemma {:induction false} LocalStepKeeps(s: Shared, p: ProcessId, actor: Actor, event: Event)
    requires GoodShared(s) && GoodActor(s, actor) && LocalStep(actor)
    ensures Kept(s, StepActor(s, p, actor, event))
  {
  }

  lemma {:induction false} ActorKeeps(s: Shared, p: ProcessId, actor: Actor, event: Event)
    requires GoodShared(s) && GoodActor(s, actor)
    ensures Kept(s, StepActor(s, p, actor, event))
  {
    if actor.Saving? {
      SavingKeeps(s, actor.record, actor.after, actor.cas, event);
    } else if actor.Activating? {
      ActivatingKeeps(s, actor.base, actor.indexCas, event);
    } else if actor.Restoring? {
      RestoringKeeps(s, actor.base, actor.target, actor.indexCas, event);
    } else if actor.Upserting? {
      UpsertingKeeps(s, actor.purpose, actor.chunks, actor.remaining, event);
    } else if actor.LoadingIndex? {
      LoadingIndexKeeps(s, actor.base, actor.target, event);
    } else if ChangesVectorsOnly(actor) {
      VectorStepKeeps(s, p, actor, event);
    } else if ReadsContent(actor) {
      ReadingKeeps(s, p, actor, event);
    } else if LocalStep(actor) {
      LocalStepKeeps(s, p, actor, event);
    } else {
      LookupKeeps(s, p, actor, event);
    }
  }

  /** What another actor holds stays good while the shared state advances. */
  lemma {:induction false} OthersKeep(s: Shared, t: Shared, actor: Actor)
    requires GoodActor(s, actor) && Advances(s, t)
    ensures GoodActor(t, actor)
  {
  }

  lemma {:induction false} StepKeeps(s: System, m: Move)
    requires Inv(s) && LegalOperation(m.op)
    ensures Inv(Step(s, m)) && Advances(s.shared, Step(s, m).shared)
  {
    var launched := ActorOf(s, m);
    ActorKeeps(s.shared, launched.process, launched.actor, m.event);
    var t := Step(s, m);
    forall a | a in t.actors ensures GoodActor(t.shared, t.actors[a].actor) {
      if a != m.actor {
        OthersKeep(s.shared, t.shared, s.actors[a].actor);
      }
    }
  }

  lemma {:induction false} RunKeeps(schedule: seq<Move>)
    requires LegalSchedule(schedule)
    ensures Inv(Run(schedule))
  {
    if schedule != [] {
      RunKeeps(schedule[..|schedule| - 1]);
      StepKeeps(Run(schedule[..|schedule| - 1]), schedule[|schedule| - 1]);
    }
  }

  /** What holds between any two moments of one run. */
  ghost predicate Later(s: Shared, t: Shared) {
    && s.completed <= t.completed
    && IdsOf(s.index.value) <= IdsOf(t.index.value)
    && (s.record.value.Some? && s.record.value.value.status.Deleted? ==>
          t.record.value.Some? && t.record.value.value.status.Deleted?)
  }

  lemma {:induction false} StepIsLater(origin: Shared, s: System, m: Move)
    requires Inv(s) && LegalOperation(m.op) && Later(origin, s.shared)
    ensures Later(origin, Step(s, m).shared)
  {
    StepKeeps(s, m);
  }

  lemma {:induction false} LegalPrefix(schedule: seq<Move>, rest: seq<Move>)
    requires LegalSchedule(schedule + rest)
    ensures LegalSchedule(schedule)
  {
    forall i | 0 <= i < |schedule| ensures LegalOperation(schedule[i].op) {
      assert (schedule + rest)[i] == schedule[i];
    }
  }

  lemma {:induction false} NextIsLater(origin: Shared, front: seq<Move>, m: Move)
    requires LegalSchedule(front) && LegalOperation(m.op) && Later(origin, Run(front).shared)
    ensures Later(origin, Run(front + [m]).shared)
  {
    RunKeeps(front);
    StepIsLater(origin, Run(front), m);
    assert (front + [m])[..|front|] == front;
  }

  lemma {:induction false} RunIsLater(schedule: seq<Move>, rest: seq<Move>)
    requires LegalSchedule(schedule + rest)
    ensures Later(Run(schedule).shared, Run(schedule + rest).shared)
    decreases |rest|
  {
    if rest == [] {
      assert schedule + rest == schedule;
    } else {
      var n := |rest| - 1;
      var front := schedule + rest[..n];
      assert schedule + rest == front + [rest[n]];
      LegalPrefix(front, [rest[n]]);
      assert LegalOperation((front + [rest[n]])[|front|].op);
      RunIsLater(schedule, rest[..n]);
      NextIsLater(Run(schedule).shared, front, rest[n]);
    }
  }

  // Theorems

  /** In the step that `schedule[i]` takes, an upsert of `version` ends with every chunk accepted. */
  ghost predicate FinishesUpsert(schedule: seq<Move>, i: nat, version: Version)
    requires i < |schedule|
  {
    var s := Run(schedule[..i]);
    var actor := ActorOf(s, schedule[i]).actor;
    && actor.Upserting? && VersionOf(actor.purpose) == version
    && actor.remaining == {} && VectorsOf(version, actor.chunks) <= s.shared.accepted
  }

  lemma {:induction false} StepCompletes(s: System, m: Move, version: Version)
    requires Inv(s) && LegalOperation(m.op)
    requires version !in s.shared.completed && version in Step(s, m).shared.completed
    ensures var actor := ActorOf(s, m).actor;
            && actor.Upserting? && VersionOf(actor.purpose) == version
            && actor.remaining == {} && VectorsOf(version, actor.chunks) <= s.shared.accepted
  {
    var actor := ActorOf(s, m).actor;
    assert GoodActor(s.shared, actor);
    assert actor.Upserting?;
    assert actor.chunks - actor.remaining == actor.chunks;
  }

  lemma {:induction false} CompletedWasUpserted(schedule: seq<Move>, version: Version)
    requires LegalSchedule(schedule) && version in Run(schedule).shared.completed
    ensures exists i :: 0 <= i < |schedule| && FinishesUpsert(schedule, i, version)
  {
    var before := schedule[..|schedule| - 1];
    RunKeeps(before);
    if version in Run(before).shared.completed {
      CompletedWasUpserted(before, version);
      var i :| 0 <= i < |before| && FinishesUpsert(before, i, version);
      assert before[..i] == schedule[..i];
      assert FinishesUpsert(schedule, i, version);
    } else {
      StepCompletes(Run(before), schedule[|before|], version);
      assert FinishesUpsert(schedule, |before|, version);
    }
  }

  /** The records held anywhere after a run: stored, cached, or in an actor's hands. */
  ghost predicate Held(s: System, r: Record) {
    || s.shared.record.value == Some(r)
    || (exists p :: p in s.shared.caches && s.shared.caches[p] == r)
    || (exists a :: a in s.actors && InHand(s.actors[a].actor, r))
  }

  ghost predicate InHand(actor: Actor, r: Record) {
    match actor
    case CacheFill(_, record) => r == record
    case Saving(record, _, _) => r == record
    case CachingSaved(record, _) => r == record
    case Enqueueing(record) => r == record
    case FetchingRaw(record) => r == record
    case ParsingContent(base) => r == base
    case ChunkingContent(base) => r == base
    case Upserting(purpose, _, _) => r == purpose.base
    case WritingManifest(base) => r == base
    case RecordingVersion(base) => r == base
    case Activating(base, _) => r == base
    case DeletingVectors(base) => r == base
    case LoadingIndex(base, _) => r == base
    case LoadingChunks(base, _) => r == base
    case Restoring(base, _, _) => r == base
    case _ => false
  }

  /**
   Publication safety. After any interleaving, every `active_version` held
   anywhere, and every version the search gate would let through for it, is one
   whose full upsert ended earlier in that run.
   */
  lemma {:induction false} PublishedWasUpserted(schedule: seq<Move>, r: Record)
    requires LegalSchedule(schedule) && Held(Run(schedule), r)
    ensures r.activeVersion.Some? ==>
              exists i :: 0 <= i < |schedule| && FinishesUpsert(schedule, i, r.activeVersion.value)
    ensures PublishedVersionOf(Some(r)).Some? ==>
              exists i :: 0 <= i < |schedule| && FinishesUpsert(schedule, i, PublishedVersionOf(Some(r)).value)
  {
    RunKeeps(schedule);
    var s := Run(schedule);
    if a :| a in s.actors && InHand(s.actors[a].actor, r) {
      assert GoodActor(s.shared, s.actors[a].actor);
    }
    assert GoodRecord(r, s.shared.completed);
    if r.activeVersion.Some? {
      CompletedWasUpserted(schedule, r.activeVersion.value);
    }
  }

  /**
   A search that ran inside any interleaving returns one version only, and one
   whose full upsert ended earlier, even if the pointer moved while it ran.
   */
  lemma {:induction false} SearchReturnsOneFinishedVersion(
    schedule: seq<Move>, a: ActorId, hits: seq<Version>, kept: seq<Version>)
    requires LegalSchedule(schedule) && a in Run(schedule).actors
    requires Run(schedule).actors[a].actor == Searched(hits, kept)
    ensures forall i :: 0 <= i < |kept| ==> kept[i] == kept[0]
    ensures kept != [] ==> exists i :: 0 <= i < |schedule| && FinishesUpsert(schedule, i, kept[0])
  {
    RunKeeps(schedule);
    assert GoodActor(Run(schedule).shared, Run(schedule).actors[a].actor);
    if kept != [] {
      CompletedWasUpserted(schedule, kept[0]);
    }
  }

  /**
   The version index after any interleaving: distinct ids, an active member, the
   liveness flag set for exactly that member, every id fully upserted, and no id
   ever lost again.
   */
  lemma {:induction false} VersionIndexInvariant(schedule: seq<Move>, rest: seq<Move>)
    requires LegalSchedule(schedule + rest)
    ensures Run(schedule).shared.index.value.Some? ==> IndexInvariant(Run(schedule).shared.index.value.value)
    ensures IdsOf(Run(schedule).shared.index.value) <= Run(schedule).shared.completed
    ensures IdsOf(Run(schedule).shared.index.value) <= IdsOf(Run(schedule + rest).shared.index.value)
  {
    RunIsLater(schedule, rest);
    LegalPrefix(schedule, rest);
    RunKeeps(schedule);
  }

  /**
   A restore that reads the index skips re-indexing exactly when the read succeeds and
   its target is the index's active version; an unknown target, or a failed read, ends
   it with nothing changed.
   */
  lemma {:induction false} RestoreDecision(
    schedule: seq<Move>, base: Record, target: Version, p: ProcessId, event: Event)
    requires LegalSchedule(schedule)
    ensures var s := Run(schedule).shared;
            var (t, next) := StepActor(s, p, LoadingIndex(base, target), event);
            && t == s
            && (next.Restoring? <==> !event.Fail? && s.index.value.Some? && s.index.value.value.active == Some(target))
            && (next.Finished? <==> event.Fail? || target !in IdsOf(s.index.value))
  {
    RunKeeps(schedule);
    var s := Run(schedule).shared;
    if s.index.value.Some? {
      FindIsMember(s.index.value.value.versions, target);
      if Find(s.index.value.value.versions, target).Some? {
        LiveFlagMeansActive(s.index.value.value, target);
      }
    }
  }

  /** Once past that check, the not-found branch inside the restore's compare-and-set is dead. */
  lemma {:induction false} RestoreNeverLosesItsTarget(schedule: seq<Move>, a: ActorId)
    requires LegalSchedule(schedule) && a in Run(schedule).actors
    ensures var actor := Run(schedule).actors[a].actor;
            actor.Restoring? && actor.indexCas.Writing? ==>
              RestoreMutation(actor.target, actor.indexCas.seen.payload).Some?
  {
    RunKeeps(schedule);
    var s := Run(schedule);
    assert GoodActor(s.shared, s.actors[a].actor);
    match s.actors[a].actor
    case Restoring(_, target, Writing(_, seen)) =>
      RestoreKeepsIndex(target, seen.payload);
    case _ =>
  }

  /** `deleted` is terminal: once stored, it is stored after every continuation of the run. */
  lemma {:induction false} DeletedIsTerminal(schedule: seq<Move>, rest: seq<Move>)
    requires LegalSchedule(schedule + rest)
    requires Run(schedule).shared.record.value.Some? && Run(schedule).shared.record.value.value.status.Deleted?
    ensures Run(schedule + rest).shared.record.value.Some?
    ensures Run(schedule + rest).shared.record.value.value.status.Deleted?
  {
    RunIsLater(schedule, rest);
  }

  /** No step of any run changes the stored version except a `queued` or a `deleted` write. */
  lemma {:induction false} VersionChangesOnlyByUploadOrDelete(schedule: seq<Move>, m: Move)
    requires LegalSchedule(schedule) && LegalOperation(m.op)
    requires Run(schedule).shared.record.value.Some?
    ensures var before, after := Run(schedule).shared.record.value, Step(Run(schedule), m).shared.record.value;
            && after.Some?
            && (before.value.version != after.value.version ==>
                  after.value.status.Queued? || after.value.status.Deleted?)
  {
    RunKeeps(schedule);
    StepKeeps(Run(schedule), m);
  }
}
