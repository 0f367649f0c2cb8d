/**
 The publication protocol of one document, as a step system. Uploads, ingestion
 workers, deletes, restores and searches run concurrently, in any number of
 processes; each works from local copies that may be stale. Every access to the
 store, to the process cache or to the vector index is a step of its own, and a
 schedule interleaves the steps of all actors in any order with any failures.
 Duplicate and late queue deliveries are covered: an ingestion of any version may
 start at any time.
 */
module Publication {
  import opened Wrappers
  import opened Storage
  import opened Documents
  import Sessions

  type ProcessId = nat
  type ActorId = Sessions.ActorId

  /**
   What the actors share. The last two are history: every vector ever accepted by
   the vector index, and the versions whose upsert ran to its end.
   */
  datatype Shared = Shared(
    record: Cell<Record>,
    index: Cell<VersionIndex>,
    vectors: set<Vector>,
    caches: map<ProcessId, Record>,
    accepted: set<Vector>,
    completed: set<Version>)

  /** Who called `get_document`, and what it needs to continue. */
  datatype Caller =
    | UpdateCheck(version: Version, owner: Option<string>)   // update_document
    | UploadRead(version: Version, owner: Option<string>)    // _queue_document
    | JobLoad(version: Version)                              // process_document_job
    | DeleteLoad                                             // delete_document
    | RestoreLoad(version: Version)                          // restore_version
    | AbortLoad                                              // _abort_ingestion_for_*
    | SearchLoad(hits: seq<Version>)                         // _filter_to_active_versions

  /** What the caller of `_save_document_record` does next; `base` is its current local record. */
  datatype After =
    | QueuedSaved
    | EnqueueFailureSaved
    | RawMissingSaved
    | ParsingSaved(base: Record)
    | ChunkingSaved(base: Record)
    | EmbeddingSaved(base: Record, chunks: set<nat>)
    | FinalSaved(base: Record)
    | FailureSaved(failed: Version)
    | DeletionSaved
    | RestorationSaved(target: Version)

  datatype Cas<+V> = Reading(attempt: nat) | Writing(attempt: nat, seen: Snapshot<V>)

  datatype Purpose = ForIngestion(base: Record) | ForRestore(base: Record, target: Version)

  /** What an operation has done when it ends well. */
  datatype Outcome = Uploaded(version: Version) | Ingested(version: Version) | Removed | Restored(version: Version)

  datatype Actor =
    | CacheLookup(caller: Caller)
    | StoreLookup(caller: Caller)
    | CacheFill(caller: Caller, record: Record)
    | Saving(record: Record, after: After, cas: Cas<Record>)
    | CachingSaved(record: Record, after: After)
    | Enqueueing(record: Record)
    | FetchingRaw(record: Record)
    | ParsingContent(base: Record)
    | ChunkingContent(base: Record)
    | Upserting(purpose: Purpose, chunks: set<nat>, remaining: set<nat>)
    | WritingManifest(base: Record)
    | RecordingVersion(base: Record)
    | Activating(base: Record, indexCas: Cas<VersionIndex>)
    | CleaningSuperseded(keep: Version)
    | RecordingFailure(failed: Version)
    | CleaningFailed(failed: Version)
    | RollingBack
    | DeletingVectors(base: Record)
    | LoadingIndex(base: Record, target: Version)
    | LoadingChunks(base: Record, target: Version)
    | Restoring(base: Record, target: Version, indexCas: Cas<VersionIndex>)
    | Querying
    | Searched(hits: seq<Version>, kept: seq<Version>)
    | Done(outcome: Outcome)
    | Finished                      // it gave up, or there was nothing to do

  datatype Event =
    | Proceed(gap: nat)             // the call succeeds
    | Fail                          // the call raises
    | Chunked(chunks: set<nat>)     // the chunks produced, or retained and read back
    | Batch(chunks: set<nat>)       // one accepted upsert batch
    | Matched(hits: seq<Vector>)    // what the vector index answered

  const RECORD_ATTEMPTS: nat := 5
  const INDEX_ATTEMPTS: nat := 8

  function VersionOf(purpose: Purpose): Version {
    match purpose
    case ForIngestion(base) => base.version
    case ForRestore(_, target) => target
  }

  function Save(record: Record, after: After): Actor {
    Saving(record, after, Reading(0))
  }

  /** The generic failure path of `_run_ingestion`. */
  function FailIngestion(base: Record): Actor {
    Save(base.(status := Status.Failed), FailureSaved(base.version))
  }

  /** The active-version gate: hits whose version is the document's published one. */
  function Gate(hits: seq<Version>, published: Option<Version>): seq<Version> {
    if hits == [] then []
    else (if published == Some(hits[0]) then [hits[0]] else []) + Gate(hits[1..], published)
  }

  /** `get_document` returned `existing`. */
  function GotDocument(caller: Caller, existing: Option<Record>): Actor {
    match caller
    case UpdateCheck(version, owner) =>
      if existing.None? || existing.value.status.Deleted? then Finished
      else CacheLookup(UploadRead(version, owner))
    case UploadRead(version, owner) =>
      var resolved := if existing.Some? && existing.value.owner.Some? then existing.value.owner else owner;
      Save(Record(version, Status.Queued, PublishedVersionOf(existing), resolved), QueuedSaved)
    case JobLoad(version) =>
      if existing.None? || existing.value.status.Deleted? || existing.value.version != version then Finished
      else FetchingRaw(existing.value)
    case DeleteLoad =>
      if existing.None? || existing.value.status.Deleted? then Finished else DeletingVectors(existing.value)
    case RestoreLoad(version) =>
      if existing.None? || existing.value.status.Deleted? then Finished else LoadingIndex(existing.value, version)
    case AbortLoad => Finished
    case SearchLoad(hits) => Searched(hits, Gate(hits, PublishedVersionOf(existing)))
  }

  /** `get_document` raised: the search gate lets nothing of the document through, every other caller gives up. */
  function LookupRaised(caller: Caller): Actor {
    if caller.SearchLoad? then Searched(caller.hits, Gate(caller.hits, None)) else Finished
  }

  /** `_save_document_record` returned. */
  function Saved(record: Record, after: After): Actor {
    match after
    case QueuedSaved => Enqueueing(record)
    case ParsingSaved(base) => ParsingContent(base)
    case ChunkingSaved(base) => ChunkingContent(base)
    case EmbeddingSaved(base, chunks) => Upserting(ForIngestion(base), chunks, chunks)
    case FinalSaved(base) => RecordingVersion(base)
    case FailureSaved(failed) => RecordingFailure(failed)
    case DeletionSaved => Done(Removed)
    case RestorationSaved(target) => Done(Restored(target))
    case _ => Finished
  }

  /** `_save_document_record` raised: `error` is a guard error; when absent, the store failed or all attempts lost. */
  function SaveRaised(after: After, error: Option<WriteError>): Actor {
    match after
    case ParsingSaved(base) => StageRaised(base, error)
    case ChunkingSaved(base) => StageRaised(base, error)
    case EmbeddingSaved(base, _) => StageRaised(base, error)
    case FinalSaved(base) => StageRaised(base, error)
    case FailureSaved(_) => if error.Some? then Aborted(error.value) else Finished
    case _ => Finished
  }

  function StageRaised(base: Record, error: Option<WriteError>): Actor {
    if error.Some? then Aborted(error.value) else FailIngestion(base)
  }

  function Aborted(error: WriteError): Actor {
    if error.DocumentDeleted? then RollingBack else CacheLookup(AbortLoad)
  }

  function CacheOf(s: Shared, p: ProcessId): Option<Record> {
    if p in s.caches then Some(s.caches[p]) else None
  }

  /** How far a generation jumps if the event is an accepted write. */
  function GapOf(event: Event): nat {
    if event.Proceed? then event.gap else 0
  }

  function StepSaving(s: Shared, record: Record, after: After, cas: Cas<Record>, event: Event): (Shared, Actor) {
    if event.Fail? then (s, SaveRaised(after, None))
    else match cas
    case Reading(attempt) =>
      if attempt == RECORD_ATTEMPTS then (s, SaveRaised(after, None))
      else (s, Saving(record, after, Writing(attempt, s.record.Read())))
    case Writing(attempt, seen) =>
      match PersistMutation(record, seen.payload)
      case Failure(error) => (s, SaveRaised(after, Some(error)))
      case Success(payload) =>
        if s.record.Accepts(seen) then (s.(record := s.record.Put(payload, GapOf(event))), CachingSaved(record, after))
        else (s, Saving(record, after, Reading(attempt + 1)))
  }

  function StepActivating(s: Shared, base: Record, cas: Cas<VersionIndex>, event: Event): (Shared, Actor) {
    if event.Fail? then (s, FailIngestion(base))
    else match cas
    case Reading(attempt) =>
      if attempt == INDEX_ATTEMPTS then (s, FailIngestion(base))
      else (s, Activating(base, Writing(attempt, s.index.Read())))
    case Writing(attempt, seen) =>
      if s.index.Accepts(seen) then
        (s.(index := s.index.Put(ActivateMutation(base.version, seen.payload), GapOf(event))),
         CleaningSuperseded(base.version))
      else (s, Activating(base, Reading(attempt + 1)))
  }

  function StepRestoring(s: Shared, base: Record, target: Version, cas: Cas<VersionIndex>, event: Event)
    : (Shared, Actor)
  {
    if event.Fail? then (s, Finished)
    else match cas
    case Reading(attempt) =>
      if attempt == INDEX_ATTEMPTS then (s, Finished)
      else (s, Restoring(base, target, Writing(attempt, s.index.Read())))
    case Writing(attempt, seen) =>
      match RestoreMutation(target, seen.payload)
      case None => (s, Finished)
      case Some(payload) =>
        if s.index.Accepts(seen) then
          (s.(index := s.index.Put(payload, GapOf(event))),
           Save(base.(activeVersion := Some(target), status := Indexed), RestorationSaved(target)))
        else (s, Restoring(base, target, Reading(attempt + 1)))
  }

  function StepUpserting(s: Shared, purpose: Purpose, chunks: set<nat>, remaining: set<nat>, event: Event)
    : (Shared, Actor)
  {
    match event
    case Batch(sent) =>
      var batch := VectorsOf(VersionOf(purpose), sent * remaining);
      (s.(vectors := s.vectors + batch, accepted := s.accepted + batch), Upserting(purpose, chunks, remaining - sent))
    case Proceed(_) =>
      if remaining != {} then (s, Upserting(purpose, chunks, remaining))
      else (s.(completed := s.completed + {VersionOf(purpose)}),
            match purpose
            case ForIngestion(base) => WritingManifest(base)
            case ForRestore(base, target) => Restoring(base, target, Reading(0)))
    case _ => (s, if purpose.ForIngestion? then FailIngestion(purpose.base) else Finished)
  }

  function StepLoadingIndex(s: Shared, base: Record, target: Version, event: Event): Actor {
    if event.Fail? then Finished
    else if s.index.value.None? then Finished
    else match Find(s.index.value.value.versions, target)
      case None => Finished                                    // DocumentVersionNotFoundError
      case Some(entry) =>
        if entry.vectorsPresent then Restoring(base, target, Reading(0)) else LoadingChunks(base, target)
  }

  /** One step of one actor running in process `p`. */
  function StepActor(s: Shared, p: ProcessId, actor: Actor, event: Event): (Shared, Actor) {
    match actor
    case CacheLookup(caller) =>
      var cached := CacheOf(s, p);
      (s, if cached.Some? && Terminal(cached.value.status) then GotDocument(caller, cached) else StoreLookup(caller))
    case StoreLookup(caller) =>
      (s, if event.Fail? then LookupRaised(caller)
          else if s.record.value.Some? then CacheFill(caller, s.record.value.value)
          else GotDocument(caller, CacheOf(s, p)))
    case CacheFill(caller, record) => (s.(caches := s.caches[p := record]), GotDocument(caller, Some(record)))
    case Saving(record, after, cas) => StepSaving(s, record, after, cas, event)
    case CachingSaved(record, after) => (s.(caches := s.caches[p := record]), Saved(record, after))
    case Enqueueing(record) =>
      (s, if event.Fail? then Save(record.(status := Status.Failed), EnqueueFailureSaved)
          else Done(Uploaded(record.version)))
    case FetchingRaw(record) =>
      (s, if event.Fail? then Save(record.(status := Status.Failed), RawMissingSaved)
          else var base := record.(status := Status.Parsing); Save(base, ParsingSaved(base)))
    case ParsingContent(base) =>
      (s, if event.Fail? then FailIngestion(base)
          else var next := base.(status := Status.Chunking); Save(next, ChunkingSaved(next)))
    case ChunkingContent(base) =>
      (s, if event.Chunked? then
            var next := base.(status := Status.Embedding); Save(next, EmbeddingSaved(next, event.chunks))
          else FailIngestion(base))
    case Upserting(purpose, chunks, remaining) => StepUpserting(s, purpose, chunks, remaining, event)
    case WritingManifest(base) =>
      (s, if event.Fail? then FailIngestion(base)
          else Save(base.(status := Indexed, activeVersion := Some(base.version)), FinalSaved(base)))
    case RecordingVersion(base) => (s, if event.Fail? then FailIngestion(base) else Activating(base, Reading(0)))
    case Activating(base, cas) => StepActivating(s, base, cas, event)
    case CleaningSuperseded(keep) =>
      (if event.Fail? then s else s.(vectors := set v | v in s.vectors && v.version == keep), Done(Ingested(keep)))
    case RecordingFailure(failed) => (s, if event.Fail? then Finished else CleaningFailed(failed))
    case CleaningFailed(failed) =>
      (if event.Fail? then s else s.(vectors := set v | v in s.vectors && v.version != failed), Finished)
    case RollingBack => (if event.Fail? then s else s.(vectors := {}), CacheLookup(AbortLoad))
    case DeletingVectors(base) =>
      if event.Fail? then (s, Finished)
      else (s.(vectors := {}), Save(base.(status := Status.Deleted), DeletionSaved))
    case LoadingIndex(base, target) => (s, StepLoadingIndex(s, base, target, event))
    case LoadingChunks(base, target) =>
      (s, if event.Chunked? && event.chunks != {} then Upserting(ForRestore(base, target), event.chunks, event.chunks)
          else Finished)
    case Restoring(base, target, cas) => StepRestoring(s, base, target, cas, event)
    case Querying =>
      (s, if event.Matched? && (forall v :: v in event.hits ==> v in s.vectors)
          then CacheLookup(SearchLoad(seq(|event.hits|, i requires 0 <= i < |event.hits| => event.hits[i].version)))
          else Finished)
    case Searched(_, _) => (s, actor)
    case Done(_) => (s, actor)
    case Finished => (s, actor)
  }

  // Runs

  /** The operations that may be started on the document. */
  datatype Operation =
    | Upload(version: Version, owner: Option<string>)
    | Update(version: Version, owner: Option<string>)
    | Ingest(version: Version)
    | Delete
    | Restore(version: Version)
    | Search

  function Start(op: Operation): Actor {
    match op
    case Upload(version, owner) => CacheLookup(UploadRead(version, owner))
    case Update(version, owner) => CacheLookup(UpdateCheck(version, owner))
    case Ingest(version) => CacheLookup(JobLoad(version))
    case Delete => CacheLookup(DeleteLoad)
    case Restore(version) => CacheLookup(RestoreLoad(version))
    case Search => Querying
  }

  /** Content hashes are never empty. */
  predicate LegalOperation(op: Operation) {
    (op.Upload? || op.Update?) ==> op.version != ""
  }

  datatype Launched = Launched(process: ProcessId, actor: Actor)

  datatype System = System(shared: Shared, actors: map<ActorId, Launched>)

  /** A scheduled step; an actor's first move launches its operation in its process. */
  datatype Move = Move(actor: ActorId, process: ProcessId, op: Operation, event: Event)

  function ActorOf(s: System, m: Move): Launched {
    if m.actor in s.actors then s.actors[m.actor] else Launched(m.process, Start(m.op))
  }

  function Step(s: System, m: Move): System {
    var launched := ActorOf(s, m);
    var (shared, actor) := StepActor(s.shared, launched.process, launched.actor, m.event);
    System(shared, s.actors[m.actor := Launched(launched.process, actor)])
  }

  function Empty(): System {
    System(Shared(Cell(None, 0), Cell(None, 0), {}, map[], {}, {}), map[])
  }

  function Run(schedule: seq<Move>): System {
    if schedule == [] then Empty()
    else Step(Run(schedule[..|schedule| - 1]), schedule[|schedule| - 1])
  }

  predicate LegalSchedule(schedule: seq<Move>) {
    forall i :: 0 <= i < |schedule| ==> LegalOperation(schedule[i].op)
  }
}
