/**
 Theorems about how operations of the publication protocol end: what an operation
 reports has happened, on behalf of whom it acts, and what it does to the vectors.
 */
module PublicationOutcomes {
  import opened Wrappers
  import opened Storage
  import opened Documents
  import opened Publication
  import opened PublicationSafety
  import opened PublicationHistory

  // On behalf of which operation an actor acts

  ghost predicate CallerFor(op: Operation, caller: Caller) {
    match caller
    case UpdateCheck(version, owner) => op == Update(version, owner)
    case UploadRead(version, owner) => op == Upload(version, owner) || op == Update(version, owner)
    case JobLoad(version) => op == Ingest(version)
    case DeleteLoad => op.Delete?
    case RestoreLoad(version) => op == Operation.Restore(version)
    case AbortLoad => op.Ingest?
    case SearchLoad(_) => op.Search?
  }

  ghost predicate Uploads(op: Operation, version: Version) {
    (op.Upload? || op.Update?) && op.version == version
  }

  ghost predicate SaveFor(op: Operation, record: Record, after: After) {
    match after
    case QueuedSaved => Uploads(op, record.version) && (op.owner.Some? ==> record.owner.Some?)
    case EnqueueFailureSaved => Uploads(op, record.version)
    case RawMissingSaved => op == Ingest(record.version)
    case ParsingSaved(base) => op == Ingest(record.version) && base.version == record.version
    case ChunkingSaved(base) => op == Ingest(record.version) && base.version == record.version
    case EmbeddingSaved(base, _) => op == Ingest(record.version) && base.version == record.version
    case FinalSaved(base) => op == Ingest(record.version) && base.version == record.version
    case FailureSaved(failed) => op == Ingest(record.version) && failed == record.version
    case DeletionSaved => op.Delete?
    case RestorationSaved(target) => op == Operation.Restore(target)
  }

  ghost predicate For(op: Operation, actor: Actor) {
    match actor
    case CacheLookup(caller) => CallerFor(op, caller)
    case StoreLookup(caller) => CallerFor(op, caller)
    case CacheFill(caller, _) => CallerFor(op, caller)
    case Saving(record, after, _) => SaveFor(op, record, after)
    case CachingSaved(record, after) => SaveFor(op, record, after)
    case Enqueueing(record) => Uploads(op, record.version)
    case FetchingRaw(record) => op == Ingest(record.version)
    case ParsingContent(base) => op == Ingest(base.version)
    case ChunkingContent(base) => op == Ingest(base.version)
    case Upserting(ForIngestion(base), _, _) => op == Ingest(base.version)
    case Upserting(ForRestore(_, target), _, _) => op == Operation.Restore(target)
    case WritingManifest(base) => op == Ingest(base.version)
    case RecordingVersion(base) => op == Ingest(base.version)
    case Activating(base, _) => op == Ingest(base.version)
    case CleaningSuperseded(keep) => op == Ingest(keep)
    case RecordingFailure(failed) => op == Ingest(failed)
    case CleaningFailed(failed) => op == Ingest(failed)
    case RollingBack => op.Ingest?
    case DeletingVectors(_) => op.Delete?
    case LoadingIndex(_, target) => op == Operation.Restore(target)
    case LoadingChunks(_, target) => op == Operation.Restore(target)
    case Restoring(_, target, _) => op == Operation.Restore(target)
    case Querying => op.Search?
    case Searched(_, _) => op.Search?
    case Done(Uploaded(version)) => Uploads(op, version)
    case Done(Ingested(version)) => op == Ingest(version)
    case Done(Removed) => op.Delete?
    case Done(Restored(version)) => op == Operation.Restore(version)
    case Finished => true
  }

  lemma {:induction false} RaisedStaysFor(record: Record, after: After, error: Option<WriteError>, op: Operation)
    requires SaveFor(op, record, after)
    ensures For(op, SaveRaised(after, error))
  {
  }

  lemma {:induction false} SavingStaysFor(
    s: Shared, record: Record, after: After, cas: Cas<Record>, event: Event, op: Operation)
    requires SaveFor(op, record, after)
    ensures For(op, StepSaving(s, record, after, cas, event).1)
  {
    RaisedStaysFor(record, after, None, op);
    if cas.Writing? {
      RaisedStaysFor(record, after, RejectIllegalWrite(record, cas.seen.payload), op);
    }
  }

  lemma {:induction false} GotDocumentStaysFor(caller: Caller, existing: Option<Record>, op: Operation)
    requires CallerFor(op, caller)
    ensures For(op, GotDocument(caller, existing))
  {
  }

  lemma {:induction false} LookupStaysFor(s: Shared, p: ProcessId, actor: Actor, event: Event, op: Operation)
    requires For(op, actor) && (actor.CacheLookup? || actor.StoreLookup? || actor.CacheFill?)
    ensures For(op, StepActor(s, p, actor, event).1)
  {
    GotDocumentStaysFor(actor.caller, CacheOf(s, p), op);
    if actor.CacheFill? {
      GotDocumentStaysFor(actor.caller, Some(actor.record), op);
    }
    assert For(op, LookupRaised(actor.caller));
  }

  lemma {:induction false} UpsertingStaysFor(
    s: Shared, purpose: Purpose, chunks: set<nat>, remaining: set<nat>, event: Event, op: Operation)
    requires For(op, Upserting(purpose, chunks, remaining))
    ensures For(op, StepUpserting(s, purpose, chunks, remaining, event).1)
  {
  }

  lemma {:induction false} ReadingStaysFor(s: Shared, p: ProcessId, actor: Actor, event: Event, op: Operation)
    requires For(op, actor) && ReadsContent(actor)
    ensures For(op, StepActor(s, p, actor, event).1)
  {
  }

  lemma {:induction false} IndexStaysFor(s: Shared, p: ProcessId, actor: Actor, event: Event, op: Operation)
    requires For(op, actor) && (actor.LoadingIndex? || actor.Activating? || actor.Restoring?)
    ensures For(op, StepActor(s, p, actor, event).1)
  {
  }

  lemma {:induction false} LocalStaysFor(s: Shared, p: ProcessId, actor: Actor, event: Event, op: Operation)
    requires For(op, actor) && LocalStep(actor)
    ensures For(op, StepActor(s, p, actor, event).1)
  {
  }

  lemma {:induction false} VectorsStayFor(s: Shared, p: ProcessId, actor: Actor, event: Event, op: Operation)
    requires For(op, actor) && ChangesVectorsOnly(actor)
    ensures For(op, StepActor(s, p, actor, event).1)
  {
  }

  lemma {:induction false} SavedStaysFor(
    s: Shared, p: ProcessId, record: Record, after: After, event: Event, op: Operation)
    requires For(op, CachingSaved(record, after))
    ensures For(op, StepActor(s, p, CachingSaved(record, after), event).1)
  {
  }

  lemma {:induction false} StaysFor(s: Shared, p: ProcessId, actor: Actor, event: Event, op: Operation)
    requires For(op, actor)
    ensures For(op, StepActor(s, p, actor, event).1)
  {
    if actor.Saving? {
      SavingStaysFor(s, actor.record, actor.after, actor.cas, event, op);
    } else if actor.Upserting? {
      UpsertingStaysFor(s, actor.purpose, actor.chunks, actor.remaining, event, op);
    } else if ReadsContent(actor) {
      ReadingStaysFor(s, p, actor, event, op);
    } else if actor.LoadingIndex? || actor.Activating? || actor.Restoring? {
      IndexStaysFor(s, p, actor, event, op);
    } else if LocalStep(actor) {
      LocalStaysFor(s, p, actor, event, op);
    } else if ChangesVectorsOnly(actor) {
      VectorsStayFor(s, p, actor, event, op);
    } else if actor.CachingSaved? {
      SavedStaysFor(s, p, actor.record, actor.after, event, op);
    } else {
      LookupStaysFor(s, p, actor, event, op);
    }
  }

  ghost predicate Performs(schedule: seq<Move>, a: ActorId, op: Operation) {
    forall i :: 0 <= i < |schedule| && schedule[i].actor == a ==> schedule[i].op == op
  }

  lemma {:induction false} ActsFor(schedule: seq<Move>, a: ActorId, op: Operation)
    requires Performs(schedule, a, op) && a in Run(schedule).actors
    ensures For(op, Run(schedule).actors[a].actor)
  {
    var before, m := schedule[..|schedule| - 1], schedule[|schedule| - 1];
    var s := Run(before);
    if a in s.actors {
      ActsFor(before, a, op);
    }
    if m.actor == a {
      var launched := ActorOf(s, m);
      StaysFor(s.shared, launched.process, launched.actor, m.event, op);
    }
  }

  // What an operation that ended well has done

  /** At some moment the stored record carried `version` and had it published. */
  ghost predicate WasPublished(schedule: seq<Move>, version: Version) {
    exists i, r: Record :: 0 <= i <= |schedule| && StoredAt(schedule, i, r)
              && r.status.Indexed? && r.version == version && PublishedVersionOf(Some(r)) == Some(version)
  }

  ghost predicate WasActive(schedule: seq<Move>, version: Version) {
    exists i :: 0 <= i <= |schedule| && ActiveAt(schedule, i, version)
  }

  /**
   An ingestion that ended well is that of its own version, and made it the stored
   published version and the index's active one; so did one that got to the clean-up.
   */
  lemma {:induction false} IngestedWasPublished(schedule: seq<Move>, a: ActorId, version: Version)
    requires LegalSchedule(schedule) && Performs(schedule, a, Ingest(version)) && a in Run(schedule).actors
    ensures var actor := Run(schedule).actors[a].actor;
            && (actor.Done? ==> actor == Done(Ingested(version)))
            && (actor.CleaningSuperseded? ==> actor.keep == version)
            && (actor.RecordingVersion? || actor.Activating? || actor.CleaningSuperseded? || actor.Done? ==>
                  WasPublished(schedule, version))
            && (actor.CleaningSuperseded? || actor.Done? ==> WasActive(schedule, version))
  {
    RunIsTold(schedule);
    ActsFor(schedule, a, Ingest(version));
    var actor, past := Run(schedule).actors[a].actor, StoredSoFar(schedule);
    assert Told(actor, past, ActiveSoFar(schedule));
    if actor.RecordingVersion? || actor.Activating? || actor.CleaningSuperseded? || actor.Done? {
      assert Published(past, version);
      var r :| r in past && r.status.Indexed? && r.version == version && PublishedVersionOf(Some(r)) == Some(version);
      StoredWasStored(schedule, r);
    }
    if actor.CleaningSuperseded? || actor.Done? {
      ActiveWasActive(schedule, version);
    }
  }

  /** A restore that ended well made its target the published version and the active one. */
  lemma {:induction false} RestoredWasPublished(schedule: seq<Move>, a: ActorId, target: Version)
    requires LegalSchedule(schedule) && Performs(schedule, a, Operation.Restore(target)) && a in Run(schedule).actors
    requires Run(schedule).actors[a].actor.Done?
    ensures exists i, r: Record :: 0 <= i <= |schedule| && StoredAt(schedule, i, r)
              && r.status.Indexed? && PublishedVersionOf(Some(r)) == Some(target)
    ensures WasActive(schedule, target)
  {
    RunIsTold(schedule);
    ActsFor(schedule, a, Operation.Restore(target));
    var past := StoredSoFar(schedule);
    assert Told(Run(schedule).actors[a].actor, past, ActiveSoFar(schedule));
    assert PutBack(past, target);
    var r :| r in past && r.status.Indexed? && PublishedVersionOf(Some(r)) == Some(target);
    StoredWasStored(schedule, r);
    ActiveWasActive(schedule, target);
  }

  ghost predicate IsDeleted(s: Shared) {
    s.record.value.Some? && s.record.value.value.status.Deleted?
  }

  lemma {:induction false} WasDeletedIsDeleted(schedule: seq<Move>, r: Record)
    requires LegalSchedule(schedule) && r in StoredSoFar(schedule) && r.status.Deleted?
    ensures IsDeleted(Run(schedule).shared)
  {
    StoredWasStored(schedule, r);
    var i :| 0 <= i <= |schedule| && StoredAt(schedule, i, r);
    assert schedule == schedule[..i] + schedule[i..];
    DeletedIsTerminal(schedule[..i], schedule[i..]);
  }

  /** A delete that ended well left the document deleted, for good; a roll-back runs only on a deleted document. */
  lemma {:induction false} RemovedIsDeleted(schedule: seq<Move>, a: ActorId)
    requires LegalSchedule(schedule) && a in Run(schedule).actors
    ensures Run(schedule).actors[a].actor == Done(Removed) ==> IsDeleted(Run(schedule).shared)
    ensures Run(schedule).actors[a].actor.RollingBack? ==> IsDeleted(Run(schedule).shared)
  {
    RunIsTold(schedule);
    var actor, past := Run(schedule).actors[a].actor, StoredSoFar(schedule);
    assert Told(actor, past, ActiveSoFar(schedule));
    if WasDeleted(past) {
      var r :| r in past && r.status.Deleted?;
      WasDeletedIsDeleted(schedule, r);
    }
  }

  /** An upload that ended well stored its version as queued. */
  lemma {:induction false} UploadedWasQueued(schedule: seq<Move>, a: ActorId, op: Operation)
    requires LegalSchedule(schedule) && Performs(schedule, a, op) && a in Run(schedule).actors
    requires (op.Upload? || op.Update?) && Run(schedule).actors[a].actor.Done?
    ensures Run(schedule).actors[a].actor == Done(Uploaded(op.version))
    ensures exists i, r: Record ::
              0 <= i <= |schedule| && StoredAt(schedule, i, r) && r.version == op.version && r.status.Queued?
  {
    RunIsTold(schedule);
    ActsFor(schedule, a, op);
    var past := StoredSoFar(schedule);
    assert Told(Run(schedule).actors[a].actor, past, ActiveSoFar(schedule));
    assert HadStatus(past, op.version, Status.Queued);
    var r :| r in past && r.version == op.version && r.status == Status.Queued;
    StoredWasStored(schedule, r);
  }

  /** Kept is every hit of the version that the record publishes, as often as it was hit, and nothing else. */
  ghost predicate LetThrough(hits: seq<Version>, kept: seq<Version>, r: Record) {
    forall v :: multiset(kept)[v] == if PublishedVersionOf(Some(r)) == Some(v) then multiset(hits)[v] else 0
  }

  /**
   What a search kept is exactly what the published version of one stored record lets
   through: all its hits of that version, in order, and no others; or nothing.
   */
  lemma {:induction false} SearchedByOneRecord(schedule: seq<Move>, a: ActorId, hits: seq<Version>, kept: seq<Version>)
    requires LegalSchedule(schedule) && a in Run(schedule).actors
    requires Run(schedule).actors[a].actor == Searched(hits, kept)
    ensures kept != [] ==>
              exists i, r: Record :: 0 <= i <= |schedule| && StoredAt(schedule, i, r) && LetThrough(hits, kept, r)
  {
    RunIsTold(schedule);
    var past := StoredSoFar(schedule);
    assert Told(Searched(hits, kept), past, ActiveSoFar(schedule));
    if kept != [] {
      var r :| r in past && kept == Gate(hits, PublishedVersionOf(Some(r)));
      StoredWasStored(schedule, r);
      GateIsExact(hits, PublishedVersionOf(Some(r)));
      assert LetThrough(hits, kept, r);
    }
  }

  // Failures

  /** The operation may still end well. */
  predicate OnTrack(actor: Actor) {
    match actor
    case CacheLookup(caller) => !caller.AbortLoad?
    case StoreLookup(caller) => !caller.AbortLoad?
    case CacheFill(caller, _) => !caller.AbortLoad?
    case Saving(_, after, _) => WayTo(after)
    case CachingSaved(_, after) => WayTo(after)
    case RecordingFailure(_) => false
    case CleaningFailed(_) => false
    case RollingBack => false
    case Finished => false
    case _ => true
  }

  predicate WayTo(after: After) {
    !after.EnqueueFailureSaved? && !after.RawMissingSaved? && !after.FailureSaved?
  }

  /** The actor's next step is a call that the operation cannot do without. */
  predicate MakesCall(actor: Actor) {
    || actor.StoreLookup? || actor.Saving? || actor.Enqueueing? || actor.FetchingRaw? || actor.ParsingContent?
    || actor.ChunkingContent? || actor.Upserting? || actor.WritingManifest? || actor.RecordingVersion?
    || actor.Activating? || actor.DeletingVectors? || actor.LoadingIndex? || actor.LoadingChunks? || actor.Restoring?
  }

  lemma {:induction false} OffTrackForGood(s: Shared, p: ProcessId, actor: Actor, event: Event)
    requires OnTrack(StepActor(s, p, actor, event).1) && !StepActor(s, p, actor, event).1.Searched?
    ensures OnTrack(actor) && !(MakesCall(actor) && event.Fail?)
  {
  }

  /** An operation that ended well had none of its calls fail. */
  lemma {:induction false} NothingFailedBefore(schedule: seq<Move>, a: ActorId, i: nat)
    requires a in Run(schedule).actors && OnTrack(Run(schedule).actors[a].actor)
    requires !Run(schedule).actors[a].actor.Searched?
    requires i < |schedule| && schedule[i].actor == a
    ensures MakesCall(ActorOf(Run(schedule[..i]), schedule[i]).actor) ==> !schedule[i].event.Fail?
  {
    var n := |schedule| - 1;
    var before, m := schedule[..n], schedule[n];
    if m.actor == a {
      var launched := ActorOf(Run(before), m);
      OffTrackForGood(Run(before).shared, launched.process, launched.actor, m.event);
    }
    if i < n {
      assert before[..i] == schedule[..i];
      LaunchedByThen(before, a, i);
      NothingFailedBefore(before, a, i);
    }
  }

  lemma {:induction false} LaunchedByThen(schedule: seq<Move>, a: ActorId, i: nat)
    requires i < |schedule| && schedule[i].actor == a
    ensures a in Run(schedule).actors
  {
    if i < |schedule| - 1 {
      LaunchedByThen(schedule[..|schedule| - 1], a, i);
    }
  }

  // Vectors

  /**
   Over any step of any run: a vector appears only by an upsert of its version, and is
   then one of those ever accepted; it disappears only by the clean-up behind an
   ingestion that published another version, by the clean-up of its own failed version,
   by a delete, or by a roll-back on a deleted document. Each of these, unless it
   fails, removes all it is meant to.
   */
  lemma {:induction false} VectorsChangeOnlySo(schedule: seq<Move>, m: Move)
    requires LegalSchedule(schedule)
    ensures var s, t, actor := Run(schedule).shared, Step(Run(schedule), m).shared, ActorOf(Run(schedule), m).actor;
            && (forall x :: x in t.vectors - s.vectors ==>
                  actor.Upserting? && VersionOf(actor.purpose) == x.version && x in t.accepted)
            && t.accepted - s.accepted <= t.vectors
            && (forall x :: x in s.vectors - t.vectors ==>
                  || (actor.CleaningSuperseded? && actor.keep != x.version && WasPublished(schedule, actor.keep))
                  || (actor.CleaningFailed? && actor.failed == x.version)
                  || actor.DeletingVectors?
                  || (actor.RollingBack? && IsDeleted(s)))
            && (!m.event.Fail? ==>
                  && (actor.CleaningSuperseded? ==> forall x :: x in t.vectors ==> x.version == actor.keep)
                  && (actor.CleaningFailed? ==> forall x :: x in t.vectors ==> x.version != actor.failed)
                  && (actor.DeletingVectors? || actor.RollingBack? ==> t.vectors == {}))
  {
    var actor := ActorOf(Run(schedule), m).actor;
    if m.actor in Run(schedule).actors {
      RemovedIsDeleted(schedule, m.actor);
      if actor.CleaningSuperseded? {
        RunIsTold(schedule);
        assert Told(actor, StoredSoFar(schedule), ActiveSoFar(schedule));
        var r :| r in StoredSoFar(schedule) && r.status.Indexed? && r.version == actor.keep
                 && PublishedVersionOf(Some(r)) == Some(actor.keep);
        StoredWasStored(schedule, r);
      }
    }
    VectorStep(Run(schedule), m);
  }

  /** The same about the step alone. */
  lemma {:induction false} VectorStep(s: System, m: Move)
    ensures var t, actor := Step(s, m).shared, ActorOf(s, m).actor;
            && (forall x :: x in t.vectors - s.shared.vectors ==>
                  actor.Upserting? && VersionOf(actor.purpose) == x.version && x in t.accepted)
            && t.accepted - s.shared.accepted <= t.vectors
            && (forall x :: x in s.shared.vectors - t.vectors ==>
                  || (actor.CleaningSuperseded? && actor.keep != x.version)
                  || (actor.CleaningFailed? && actor.failed == x.version)
                  || actor.DeletingVectors? || actor.RollingBack?)
            && (!m.event.Fail? ==>
                  && (actor.CleaningSuperseded? ==> forall x :: x in t.vectors ==> x.version == actor.keep)
                  && (actor.CleaningFailed? ==> forall x :: x in t.vectors ==> x.version != actor.failed)
                  && (actor.DeletingVectors? || actor.RollingBack? ==> t.vectors == {}))
  {
  }
}
