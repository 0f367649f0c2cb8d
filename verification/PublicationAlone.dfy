/**
 What an operation of the publication protocol does when nothing gets in its way: from
 every reachable state, an operation that goes on alone, with no call failing, ends
 with exactly the change it stands for, or stops exactly where it must.
 */
module PublicationAlone {
  import opened Wrappers
  import opened Storage
  import opened Documents
  import opened Publication
  import opened PublicationSafety
  import opened Sessions

  /** What the calls answer: the chunks that are made or read back, and the hits of a query. */
  datatype World = World(chunks: set<nat>, hits: seq<Vector>)

  /** The call of the actor's next step succeeds. */
  function Calm(w: World, actor: Actor): Event {
    match actor
    case ChunkingContent(_) => Chunked(w.chunks)
    case LoadingChunks(_, _) => Chunked(w.chunks)
    case Upserting(_, _, remaining) => if remaining != {} then Batch(remaining) else Proceed(0)
    case Querying => Matched(w.hits)
    case _ => Proceed(0)
  }

  /** One undisturbed step in process `p`. */
  function Onward(w: World, p: ProcessId): ((Shared, Actor)) -> (Shared, Actor) {
    (now: (Shared, Actor)) => StepActor(now.0, p, now.1, Calm(w, now.1))
  }

  // Reading and writing the record

  /** The cache of the process holds nothing terminal but what is stored. */
  ghost predicate UpToDate(s: Shared, p: ProcessId) {
    p in s.caches ==> s.record.value.Some? && (Terminal(s.caches[p].status) ==> s.record.value == Some(s.caches[p]))
  }

  /** After a lookup nothing but the cache of the process may be different. */
  ghost predicate OnlyCached(s: Shared, t: Shared, p: ProcessId) {
    && t == s.(caches := t.caches) && UpToDate(t, p)
    && forall q :: q in t.caches ==>
         s.record.value == Some(t.caches[q]) || (q in s.caches && t.caches[q] == s.caches[q])
  }

  /** `get_document` answers what is stored. */
  lemma {:induction false} LookupReaches(w: World, p: ProcessId, s: Shared, caller: Caller) returns (t: Shared)
    requires UpToDate(s, p)
    ensures Leads(Onward(w, p),
                  (s, CacheLookup(caller)), (t, GotDocument(caller, s.record.value))) && OnlyCached(s, t, p)
  {
    t := s;
    LeadsHere(Onward(w, p), (s, CacheLookup(caller)));
    if !(p in s.caches && Terminal(s.caches[p].status)) {
      LeadsNext(Onward(w, p), (s, CacheLookup(caller)), (s, StoreLookup(caller)));
      if s.record.value.Some? {
        LeadsNext(Onward(w, p), (s, CacheLookup(caller)), (s, CacheFill(caller, s.record.value.value)));
        t := s.(caches := s.caches[p := s.record.value.value]);
      }
    }
  }

  ghost function Written(s: Shared, p: ProcessId, record: Record): Shared {
    s.(record := s.record.Put(record, 0), caches := s.caches[p := record])
  }

  /** A write that the guard lets through stores and caches the record. */
  lemma {:induction false} SaveReaches(w: World, p: ProcessId, s: Shared, record: Record, after: After)
    requires LegalMove(s.record.value, Some(record))
    ensures Leads(Onward(w, p), (s, Save(record, after)), (Written(s, p, record), Saved(record, after)))
  {
    RejectionExactly(record, s.record.value);
    var writing := Saving(record, after, Writing(0, s.record.Read()));
    LeadsHere(Onward(w, p), (s, Save(record, after)));
    LeadsNext(Onward(w, p), (s, Save(record, after)), (s, writing));
    LeadsNext(Onward(w, p),
              (s, Save(record, after)), (s.(record := s.record.Put(record, 0)), CachingSaved(record, after)));
  }

  /** A step and the write it leads to. */
  lemma {:induction false} StepAndSave(
    w: World, p: ProcessId, s: Shared, start: Actor, t: Shared, actor: Actor, u: Shared, record: Record, after: After)
    requires Leads(Onward(w, p), (s, start), (t, actor))
    requires StepActor(t, p, actor, Calm(w, actor)) == (u, Save(record, after))
    requires LegalMove(u.record.value, Some(record))
    ensures Leads(Onward(w, p), (s, start), (Written(u, p, record), Saved(record, after)))
  {
    LeadsNext(Onward(w, p), (s, start), (t, actor));
    SaveReaches(w, p, u, record, after);
    LeadsOn(Onward(w, p), (s, start), (u, Save(record, after)), (Written(u, p, record), Saved(record, after)));
  }

  // Ingestion

  ghost function WithVectors(s: Shared, version: Version, chunks: set<nat>): Shared {
    s.(vectors := s.vectors + VectorsOf(version, chunks), accepted := s.accepted + VectorsOf(version, chunks))
  }

  /** An upsert leaves every chunk of its version in the index. */
  lemma {:induction false} UpsertReaches(w: World, p: ProcessId, s: Shared, purpose: Purpose)
    ensures Leads(Onward(w, p),
                  (s, Upserting(purpose, w.chunks, w.chunks)),
                  (WithVectors(s, VersionOf(purpose), w.chunks), Upserting(purpose, w.chunks, {})))
  {
    var version := VersionOf(purpose);
    if w.chunks == {} {
      assert VectorsOf(version, w.chunks) == {};
      assert WithVectors(s, version, w.chunks) == s;
      LeadsHere(Onward(w, p), (s, Upserting(purpose, w.chunks, w.chunks)));
    } else {
      LeadsHere(Onward(w, p), (s, Upserting(purpose, w.chunks, w.chunks)));
      assert w.chunks * w.chunks == w.chunks && w.chunks - w.chunks == {};
    }
  }

  /** The progress stages: three writes, and then the upsert. */
  lemma {:induction false} PreparesAlone(w: World, p: ProcessId, s: Shared, record: Record)
    returns (t: Shared, base: Record)
    requires s.record.value == Some(record) && !record.status.Deleted?
    ensures base == record.(status := Status.Embedding)
    ensures Leads(Onward(w, p), (s, FetchingRaw(record)), (t, Upserting(ForIngestion(base), w.chunks, w.chunks)))
    ensures t.record.value == Some(base) && t == s.(record := t.record, caches := s.caches[p := base])
  {
    var start := FetchingRaw(record);
    var parsing, chunking := record.(status := Status.Parsing), record.(status := Status.Chunking);
    base := record.(status := Status.Embedding);
    LeadsHere(Onward(w, p), (s, start));
    StepAndSave(w, p, s, start, s, start, s, parsing, ParsingSaved(parsing));
    var first := Written(s, p, parsing);
    StepAndSave(w, p, s, start, first, ParsingContent(parsing), first, chunking, ChunkingSaved(chunking));
    var second := Written(first, p, chunking);
    StepAndSave(w, p, s, start, second, ChunkingContent(chunking), second, base, EmbeddingSaved(base, w.chunks));
    t := Written(second, p, base);
  }

  /** The upsert, the manifest, and the publishing write. */
  lemma {:induction false} PublishesAlone(w: World, p: ProcessId, s: Shared, base: Record) returns (t: Shared)
    requires s.record.value == Some(base) && !base.status.Deleted?
    ensures Leads(Onward(w, p), (s, Upserting(ForIngestion(base), w.chunks, w.chunks)), (t, RecordingVersion(base)))
    ensures t.record.value == Some(base.(status := Indexed, activeVersion := Some(base.version)))
    ensures t.index == s.index && t.vectors == s.vectors + VectorsOf(base.version, w.chunks)
    ensures p in t.caches && t.record.value == Some(t.caches[p])
  {
    var start := Upserting(ForIngestion(base), w.chunks, w.chunks);
    UpsertReaches(w, p, s, ForIngestion(base));
    var full := WithVectors(s, base.version, w.chunks);
    LeadsNext(Onward(w, p), (s, start), (full, Upserting(ForIngestion(base), w.chunks, {})));
    var complete := full.(completed := full.completed + {base.version});
    var final := base.(status := Indexed, activeVersion := Some(base.version));
    StepAndSave(w, p, s, start, complete, WritingManifest(base), complete, final, FinalSaved(base));
    t := Written(complete, p, final);
  }

  /** The version index, and the clean-up. */
  lemma {:induction false} FinishesAlone(w: World, p: ProcessId, s: Shared, base: Record) returns (t: Shared)
    requires s.index.value.Some? ==> IndexInvariant(s.index.value.value)
    ensures Leads(Onward(w, p), (s, RecordingVersion(base)), (t, Done(Ingested(base.version))))
    ensures t.record == s.record && t.caches == s.caches
    ensures t.index.value.Some? && t.index.value.value.active == Some(base.version)
    ensures IdsOf(t.index.value) == IdsOf(s.index.value) + {base.version}
    ensures forall x :: x in t.vectors <==> x in s.vectors && x.version == base.version
  {
    var start := RecordingVersion(base);
    LeadsHere(Onward(w, p), (s, start));
    LeadsNext(Onward(w, p), (s, start), (s, Activating(base, Cas.Reading(0))));
    LeadsNext(Onward(w, p), (s, start), (s, Activating(base, Cas.Writing(0, s.index.Read()))));
    var payload := ActivateMutation(base.version, s.index.value);
    ActivateKeepsIndex(base.version, s.index.value);
    var switched := s.(index := s.index.Put(payload, 0));
    LeadsNext(Onward(w, p), (s, start), (switched, CleaningSuperseded(base.version)));
    t := StepActor(switched, p, CleaningSuperseded(base.version), Proceed(0)).0;
  }

  /** What an undisturbed ingestion of the stored version leaves. */
  ghost predicate IngestedAll(s: Shared, t: Shared, record: Record, chunks: set<nat>) {
    && t.record.value == Some(Record(record.version, Indexed, Some(record.version), record.owner))
    && t.index.value.Some? && t.index.value.value.active == Some(record.version)
    && IdsOf(t.index.value) == IdsOf(s.index.value) + {record.version}
    && (forall x :: x in t.vectors <==>
          x.version == record.version && (x in s.vectors || x.chunk in chunks))
  }

  /**
   An ingestion alone publishes its version with all its vectors, exactly if the document
   is live and of that version; otherwise it stops and changes nothing but the cache.
   */
  lemma {:induction false} IngestsAlone(w: World, p: ProcessId, s: Shared, version: Version)
    returns (t: Shared, end: Actor)
    requires GoodShared(s) && UpToDate(s, p)
    ensures Leads(Onward(w, p), (s, Start(Ingest(version))), (t, end))
    ensures if s.record.value.Some? && !s.record.value.value.status.Deleted? && s.record.value.value.version == version
            then end == Done(Ingested(version)) && IngestedAll(s, t, s.record.value.value, w.chunks)
            else end == Finished && OnlyCached(s, t, p)
  {
    var start := Start(Ingest(version));
    var found := LookupReaches(w, p, s, JobLoad(version));
    t, end := found, Finished;
    if s.record.value.Some? && !s.record.value.value.status.Deleted? && s.record.value.value.version == version {
      var record := s.record.value.value;
      var prepared, base := PreparesAlone(w, p, found, record);
      LeadsOn(Onward(w, p),
              (s, start), (found, FetchingRaw(record)), (prepared, Upserting(ForIngestion(base), w.chunks, w.chunks)));
      var published := PublishesAlone(w, p, prepared, base);
      LeadsOn(Onward(w, p),
              (s, start),
              (prepared, Upserting(ForIngestion(base), w.chunks, w.chunks)),
              (published, RecordingVersion(base)));
      t := FinishesAlone(w, p, published, base);
      end := Done(Ingested(version));
      LeadsOn(Onward(w, p), (s, start), (published, RecordingVersion(base)), (t, end));
    }
  }

  // Ingestions that a call fails, or that others overtake

  /** The local record of an ingestion that is under way. */
  function StageOf(actor: Actor): Option<Record> {
    match actor
    case Saving(_, ParsingSaved(base), _) => Some(base)
    case Saving(_, ChunkingSaved(base), _) => Some(base)
    case Saving(_, EmbeddingSaved(base, _), _) => Some(base)
    case Saving(_, FinalSaved(base), _) => Some(base)
    case ParsingContent(base) => Some(base)
    case ChunkingContent(base) => Some(base)
    case Upserting(ForIngestion(base), _, _) => Some(base)
    case WritingManifest(base) => Some(base)
    case RecordingVersion(base) => Some(base)
    case Activating(base, _) => Some(base)
    case _ => None
  }

  /** What is left behind when others have deleted or replaced the document meanwhile. */
  ghost predicate Overtaken(s: Shared, t: Shared, p: ProcessId) {
    && s.record.value.Some?
    && if s.record.value.value.status.Deleted?
       then t == s.(vectors := {}, caches := t.caches) else OnlyCached(s, t, p)
  }

  /** A guard's refusal ends an ingestion: the vectors go exactly if the document is deleted. */
  lemma {:induction false} AbortsAlone(w: World, p: ProcessId, s: Shared, error: WriteError) returns (t: Shared)
    requires UpToDate(s, p) && s.record.value.Some?
    requires error.DocumentDeleted? <==> s.record.value.value.status.Deleted?
    ensures Leads(Onward(w, p), (s, Aborted(error)), (t, Finished)) && Overtaken(s, t, p)
  {
    var start, u := Aborted(error), s;
    LeadsHere(Onward(w, p), (s, start));
    if error.DocumentDeleted? {
      u := s.(vectors := {});
      LeadsHere(Onward(w, p), (s, start));
    }
    t := LookupReaches(w, p, u, AbortLoad);
    LeadsOn(Onward(w, p), (s, start), (u, CacheLookup(AbortLoad)), (t, Finished));
  }

  /** A write that the guard refuses. */
  lemma {:induction false} RefusedAlone(w: World, p: ProcessId, s: Shared, record: Record, after: After)
    returns (t: Shared)
    requires UpToDate(s, p) && !LegalMove(s.record.value, Some(record))
    requires StageOf(Save(record, after)).Some? || after.FailureSaved?
    ensures Leads(Onward(w, p), (s, Save(record, after)), (t, Finished)) && Overtaken(s, t, p)
  {
    RejectionExactly(record, s.record.value);
    var error := RejectIllegalWrite(record, s.record.value).value;
    var start := Save(record, after);
    LeadsHere(Onward(w, p), (s, start));
    LeadsNext(Onward(w, p), (s, start), (s, Saving(record, after, Writing(0, s.record.Read()))));
    t := AbortsAlone(w, p, s, error);
    LeadsOn(Onward(w, p), (s, start), (s, Aborted(error)), (t, Finished));
  }

  /** What the failure path leaves: a failed record with the pointer as it was, and no vectors of its version. */
  ghost predicate FailedCleanly(s: Shared, t: Shared, base: Record) {
    && t.record.value == Some(Record(base.version, Status.Failed, base.activeVersion, base.owner))
    && t.index == s.index && (forall x :: x in t.vectors <==> x in s.vectors && x.version != base.version)
  }

  lemma {:induction false} RecordsFailureAlone(w: World, p: ProcessId, s: Shared, base: Record) returns (t: Shared)
    requires UpToDate(s, p)
    ensures Leads(Onward(w, p), (s, FailIngestion(base)), (t, Finished))
    ensures if LegalMove(s.record.value, Some(base.(status := Status.Failed))) then FailedCleanly(s, t, base)
            else Overtaken(s, t, p)
  {
    var start, record := FailIngestion(base), base.(status := Status.Failed);
    if LegalMove(s.record.value, Some(record)) {
      var u := Written(s, p, record);
      SaveReaches(w, p, s, record, FailureSaved(base.version));
      LeadsNext(Onward(w, p), (s, start), (u, RecordingFailure(base.version)));
      LeadsNext(Onward(w, p), (s, start), (u, CleaningFailed(base.version)));
      t := u.(vectors := set x | x in u.vectors && x.version != base.version);
    } else {
      t := RefusedAlone(w, p, s, record, FailureSaved(base.version));
    }
  }

  /**
   An ingestion one of whose calls fails, at whatever stage, and that then goes on alone
   leaves a failed record with the old pointer and no vectors of its version; unless it
   was overtaken, and then only a deleted document loses its vectors.
   */
  lemma {:induction false} FailedStageEndsAlone(w: World, p: ProcessId, s: Shared, actor: Actor) returns (t: Shared)
    requires UpToDate(s, p) && StageOf(actor).Some?
    ensures var (u, next) := StepActor(s, p, actor, Fail); u == s && Leads(Onward(w, p), (s, next), (t, Finished))
    ensures var base := StageOf(actor).value;
            if s.record.value.None?
               || (!s.record.value.value.status.Deleted? && s.record.value.value.version == base.version)
            then FailedCleanly(s, t, base)
            else Overtaken(s, t, p)
  {
    var base := StageOf(actor).value;
    assert StepActor(s, p, actor, Fail) == (s, FailIngestion(base));
    t := RecordsFailureAlone(w, p, s, base);
  }

  /** An ingestion that finds itself overtaken at a write ends there, alike. */
  lemma {:induction false} OvertakenEndsAlone(w: World, p: ProcessId, s: Shared, record: Record, after: After)
    returns (t: Shared)
    requires UpToDate(s, p) && StageOf(Save(record, after)).Some? && s.record.value.Some?
    requires !record.status.Queued? && !record.status.Deleted?
    requires s.record.value.value.status.Deleted? || s.record.value.value.version != record.version
    ensures Leads(Onward(w, p), (s, Save(record, after)), (t, Finished)) && Overtaken(s, t, p)
  {
    t := RefusedAlone(w, p, s, record, after);
  }

  /** Without its raw content an ingestion, and without its queue an upload, leaves a failed record and nothing else. */
  lemma {:induction false} FailedStartEndsAlone(w: World, p: ProcessId, s: Shared, record: Record, upload: bool)
    returns (t: Shared)
    requires s.record.value == Some(record) && !record.status.Deleted?
    ensures var actor := if upload then Enqueueing(record) else FetchingRaw(record);
            var (u, next) := StepActor(s, p, actor, Fail);
            u == s && Leads(Onward(w, p), (s, next), (t, Finished))
    ensures t.record.value == Some(record.(status := Status.Failed)) && t.index == s.index && t.vectors == s.vectors
  {
    var failed := record.(status := Status.Failed);
    SaveReaches(w, p, s, failed, if upload then EnqueueFailureSaved else RawMissingSaved);
    t := Written(s, p, failed);
  }

  /** Every other call that fails ends its operation there and then, and changes nothing. */
  lemma {:induction false} FailedCallEndsTheRest(s: Shared, p: ProcessId, actor: Actor)
    requires actor.StoreLookup? || actor.DeletingVectors? || actor.LoadingIndex? || actor.LoadingChunks?
             || actor.Restoring? || actor.Querying? || (actor.Upserting? && actor.purpose.ForRestore?)
             || (actor.Saving?
                 && (actor.after.QueuedSaved? || actor.after.DeletionSaved? || actor.after.RestorationSaved?))
    ensures StepActor(s, p, actor, Fail) ==
              (s, if actor.StoreLookup? && actor.caller.SearchLoad? then Searched(actor.caller.hits, []) else Finished)
  {
    if actor.StoreLookup? && actor.caller.SearchLoad? {
      GateIsExact(actor.caller.hits, None);
    }
  }

  // Lost races

  /** Attempts are left: this one will be made, or is still good, or another one follows it. */
  predicate CanStillWrite<V>(cas: Cas<V>, cell: Cell<V>, attempts: nat) {
    match cas
    case Reading(attempt) => attempt < attempts
    case Writing(attempt, seen) => attempt < attempts && (cell.Accepts(seen) || attempt + 1 < attempts)
  }

  /** A write of a record succeeds alone, however many races it has lost, unless all attempts are gone. */
  lemma {:induction false} WritesAfterLostRaces(
    w: World, p: ProcessId, s: Shared, record: Record, after: After, cas: Cas<Record>)
    requires LegalMove(s.record.value, Some(record))
    requires cas.Writing? ==> LegalMove(cas.seen.payload, Some(record))
    requires cas.Reading? ==> cas.attempt <= RECORD_ATTEMPTS
    requires cas.Writing? ==> cas.attempt < RECORD_ATTEMPTS
    ensures if CanStillWrite(cas, s.record, RECORD_ATTEMPTS)
            then Leads(Onward(w, p), (s, Saving(record, after, cas)), (Written(s, p, record), Saved(record, after)))
            else Leads(Onward(w, p), (s, Saving(record, after, cas)), (s, SaveRaised(after, None)))
  {
    RejectionExactly(record, s.record.value);
    var start, cas' := Saving(record, after, cas), cas;
    LeadsHere(Onward(w, p), (s, start));
    if cas.Writing? {
      RejectionExactly(record, cas.seen.payload);
      if !s.record.Accepts(cas.seen) {
        LeadsHere(Onward(w, p), (s, start));
        cas' := Reading(cas.attempt + 1);
      }
    }
    if cas'.Reading? {
      LeadsNext(Onward(w, p), (s, start), (s, Saving(record, after, cas')));
      cas' := Writing(cas'.attempt, s.record.Read());
    }
    if CanStillWrite(cas, s.record, RECORD_ATTEMPTS) {
      LeadsNext(Onward(w, p), (s, start), (s, Saving(record, after, cas')));
      LeadsNext(Onward(w, p), (s, start), (s.(record := s.record.Put(record, 0)), CachingSaved(record, after)));
    }
  }

  /** So does the switch of the version index at the end of an ingestion. */
  lemma {:induction false} ActivatesAfterLostRaces(
    w: World, p: ProcessId, s: Shared, base: Record, cas: Cas<VersionIndex>) returns (t: Shared)
    requires cas.Reading? ==> cas.attempt <= INDEX_ATTEMPTS
    requires cas.Writing? ==> cas.attempt < INDEX_ATTEMPTS
    ensures if CanStillWrite(cas, s.index, INDEX_ATTEMPTS)
            then Leads(Onward(w, p), (s, Activating(base, cas)), (t, CleaningSuperseded(base.version)))
                 && t == s.(index := t.index) && t.index.value.Some? && t.index.value.value.active == Some(base.version)
            else Leads(Onward(w, p), (s, Activating(base, cas)), (s, FailIngestion(base)))
  {
    var start, cas' := Activating(base, cas), cas;
    t := s;
    LeadsHere(Onward(w, p), (s, start));
    if cas.Writing? && !s.index.Accepts(cas.seen) {
      LeadsHere(Onward(w, p), (s, start));
      cas' := Reading(cas.attempt + 1);
    }
    if cas'.Reading? {
      LeadsNext(Onward(w, p), (s, start), (s, Activating(base, cas')));
      cas' := Writing(cas'.attempt, s.index.Read());
    }
    if CanStillWrite(cas, s.index, INDEX_ATTEMPTS) {
      LeadsNext(Onward(w, p), (s, start), (s, Activating(base, cas')));
      t := s.(index := s.index.Put(ActivateMutation(base.version, cas'.seen.payload), 0));
    }
  }

  // Uploads and deletes

  /** What an upload leaves: the pointer that was published, and the owner the document had, if any. */
  ghost predicate UploadedOnly(s: Shared, t: Shared, version: Version, owner: Option<string>) {
    && t.record.value.Some? && t.record.value.value.version == version && t.record.value.value.status.Queued?
    && PublishedVersionOf(t.record.value) == PublishedVersionOf(s.record.value)
    && t.record.value.value.owner ==
         (if s.record.value.Some? && s.record.value.value.owner.Some? then s.record.value.value.owner else owner)
    && t.index == s.index && t.vectors == s.vectors
  }

  lemma {:induction false} StoresUpload(
    w: World, p: ProcessId, s: Shared, version: Version, owner: Option<string>) returns (t: Shared, end: Actor)
    requires UpToDate(s, p) && (s.record.value.Some? ==> s.record.value.value.version != "")
    ensures Leads(Onward(w, p), (s, CacheLookup(UploadRead(version, owner))), (t, end))
    ensures if s.record.value.Some? && s.record.value.value.status.Deleted?
            then end == Finished && OnlyCached(s, t, p)
            else end == Done(Uploaded(version)) && UploadedOnly(s, t, version, owner)
  {
    var start := CacheLookup(UploadRead(version, owner));
    var found := LookupReaches(w, p, s, UploadRead(version, owner));
    var save := GotDocument(UploadRead(version, owner), s.record.value);
    var record := save.record;
    RejectionExactly(record, s.record.value);
    if s.record.value.Some? && s.record.value.value.status.Deleted? {
      LeadsNext(Onward(w, p), (s, start), (found, save));
      LeadsNext(Onward(w, p), (s, start), (found, Saving(record, QueuedSaved, Writing(0, found.record.Read()))));
      t, end := found, Finished;
    } else {
      SaveReaches(w, p, found, record, QueuedSaved);
      t, end := Written(found, p, record), Done(Uploaded(version));
      LeadsOn(Onward(w, p), (s, start), (found, save), (t, Enqueueing(record)));
      LeadsNext(Onward(w, p), (s, start), (t, Enqueueing(record)));
    }
  }

  /** An upload alone is refused exactly for a deleted document, and otherwise stores its version as queued. */
  lemma {:induction false} UploadsAlone(w: World, p: ProcessId, s: Shared, version: Version, owner: Option<string>)
    returns (t: Shared, end: Actor)
    requires GoodShared(s) && UpToDate(s, p)
    ensures Leads(Onward(w, p), (s, Start(Upload(version, owner))), (t, end))
    ensures if s.record.value.Some? && s.record.value.value.status.Deleted?
            then end == Finished && OnlyCached(s, t, p)
            else end == Done(Uploaded(version)) && UploadedOnly(s, t, version, owner)
  {
    t, end := StoresUpload(w, p, s, version, owner);
  }

  /** A replacement alone does so too, exactly for a live document. */
  lemma {:induction false} UpdatesAlone(w: World, p: ProcessId, s: Shared, version: Version, owner: Option<string>)
    returns (t: Shared, end: Actor)
    requires GoodShared(s) && UpToDate(s, p)
    ensures Leads(Onward(w, p), (s, Start(Update(version, owner))), (t, end))
    ensures if s.record.value.Some? && !s.record.value.value.status.Deleted?
            then end == Done(Uploaded(version)) && UploadedOnly(s, t, version, owner)
            else end == Finished && OnlyCached(s, t, p)
  {
    var start := Start(Update(version, owner));
    var found := LookupReaches(w, p, s, UpdateCheck(version, owner));
    t, end := found, Finished;
    if s.record.value.Some? && !s.record.value.value.status.Deleted? {
      t, end := StoresUpload(w, p, found, version, owner);
      LeadsOn(Onward(w, p), (s, start), (found, CacheLookup(UploadRead(version, owner))), (t, end));
    }
  }

  /** A delete alone leaves a deleted record and no vectors, exactly for a live document. */
  lemma {:induction false} DeletesAlone(w: World, p: ProcessId, s: Shared) returns (t: Shared, end: Actor)
    requires UpToDate(s, p)
    ensures Leads(Onward(w, p), (s, Start(Delete)), (t, end))
    ensures if s.record.value.Some? && !s.record.value.value.status.Deleted?
            then end == Done(Removed) && t.vectors == {} && t.index == s.index
                 && t.record.value == Some(s.record.value.value.(status := Status.Deleted))
            else end == Finished && OnlyCached(s, t, p)
  {
    var start := Start(Delete);
    var found := LookupReaches(w, p, s, DeleteLoad);
    t, end := found, Finished;
    if s.record.value.Some? && !s.record.value.value.status.Deleted? {
      var record := s.record.value.value.(status := Status.Deleted);
      var empty := found.(vectors := {});
      LeadsNext(Onward(w, p), (s, start), (found, DeletingVectors(s.record.value.value)));
      SaveReaches(w, p, empty, record, DeletionSaved);
      t, end := Written(empty, p, record), Done(Removed);
      LeadsOn(Onward(w, p), (s, start), (empty, Save(record, DeletionSaved)), (t, end));
    }
  }

  // Restores

  /** What a restore leaves. */
  ghost predicate RestoredAll(s: Shared, t: Shared, record: Record, target: Version) {
    && t.record.value == Some(record.(activeVersion := Some(target), status := Indexed))
    && t.index.value.Some? && t.index.value.value.active == Some(target)
    && IdsOf(t.index.value) == IdsOf(s.index.value)
  }

  /** From the compare-and-set of the index on. */
  lemma {:induction false} SwitchesAlone(w: World, p: ProcessId, s: Shared, base: Record, target: Version)
    returns (t: Shared)
    requires GoodShared(s) && s.record.value == Some(base) && !base.status.Deleted? && target in IdsOf(s.index.value)
    ensures Leads(Onward(w, p), (s, Restoring(base, target, Cas.Reading(0))), (t, Done(Restored(target))))
    ensures RestoredAll(s, t, base, target) && t.vectors == s.vectors
  {
    var start := Restoring(base, target, Cas.Reading(0));
    RestoreKeepsIndex(target, s.index.value);
    var payload := RestoreMutation(target, s.index.value).value;
    var switched := s.(index := s.index.Put(payload, 0));
    LeadsHere(Onward(w, p), (s, start));
    StepAndSave(w, p, s, start, s, Restoring(base, target, Cas.Writing(0, s.index.Read())), switched,
                base.(activeVersion := Some(target), status := Indexed), RestorationSaved(target));
    t := Written(switched, p, base.(activeVersion := Some(target), status := Indexed));
  }

  /** What the index says about the target of a restore. */
  lemma {:induction false} TargetInIndex(s: Shared, base: Record, target: Version)
    requires GoodShared(s)
    ensures StepLoadingIndex(s, base, target, Proceed(0)) ==
              if target !in IdsOf(s.index.value) then Finished
              else if s.index.value.value.active == Some(target) then Restoring(base, target, Cas.Reading(0))
              else LoadingChunks(base, target)
  {
    if s.index.value.Some? {
      FindIsMember(s.index.value.value.versions, target);
      if Find(s.index.value.value.versions, target).Some? {
        LiveFlagMeansActive(s.index.value.value, target);
      }
    }
  }

  /** A target that is not active is re-indexed from its chunks, if there are some. */
  lemma {:induction false} ReindexesAlone(w: World, p: ProcessId, s: Shared, base: Record, target: Version)
    returns (t: Shared, next: Actor)
    ensures Leads(Onward(w, p), (s, LoadingChunks(base, target)), (t, next))
    ensures if w.chunks == {} then next == Finished && t == s
            else next == Restoring(base, target, Cas.Reading(0))
                 && t == WithVectors(s, target, w.chunks).(completed := s.completed + {target})
  {
    var start := LoadingChunks(base, target);
    LeadsHere(Onward(w, p), (s, start));
    t, next := s, Finished;
    if w.chunks != {} {
      var purpose := ForRestore(base, target);
      var full := WithVectors(s, target, w.chunks);
      UpsertReaches(w, p, s, purpose);
      LeadsOn(Onward(w, p),
              (s, start), (s, Upserting(purpose, w.chunks, w.chunks)), (full, Upserting(purpose, w.chunks, {})));
      LeadsNext(Onward(w, p), (s, start), (full, Upserting(purpose, w.chunks, {})));
      t, next := full.(completed := full.completed + {target}), Restoring(base, target, Cas.Reading(0));
    }
  }

  /** From the index on, for the active version. */
  lemma {:induction false} RestoresActive(w: World, p: ProcessId, s: Shared, base: Record, target: Version)
    returns (t: Shared)
    requires GoodShared(s) && s.record.value == Some(base) && !base.status.Deleted? && target in IdsOf(s.index.value)
    requires s.index.value.value.active == Some(target)
    ensures Leads(Onward(w, p), (s, LoadingIndex(base, target)), (t, Done(Restored(target))))
    ensures RestoredAll(s, t, base, target) && t.vectors == s.vectors
  {
    var next := Restoring(base, target, Cas.Reading(0));
    TargetInIndex(s, base, target);
    LeadsHere(Onward(w, p), (s, LoadingIndex(base, target)));
    t := SwitchesAlone(w, p, s, base, target);
    LeadsOn(Onward(w, p), (s, LoadingIndex(base, target)), (s, next), (t, Done(Restored(target))));
  }

  /** From the index on, for a listed version that is not active. */
  lemma {:induction false} RestoresInactive(w: World, p: ProcessId, s: Shared, base: Record, target: Version)
    returns (t: Shared, end: Actor)
    requires GoodShared(s) && s.record.value == Some(base) && !base.status.Deleted? && target in IdsOf(s.index.value)
    requires s.index.value.value.active != Some(target)
    ensures Leads(Onward(w, p), (s, LoadingIndex(base, target)), (t, end))
    ensures if w.chunks != {}
            then && end == Done(Restored(target)) && RestoredAll(s, t, base, target)
                 && t.vectors == s.vectors + VectorsOf(target, w.chunks)
            else end == Finished && t == s
  {
    var start := (s, LoadingIndex(base, target));
    TargetInIndex(s, base, target);
    LeadsHere(Onward(w, p), start);
    var ready, next := ReindexesAlone(w, p, s, base, target);
    LeadsOn(Onward(w, p), start, (s, LoadingChunks(base, target)), (ready, next));
    t, end := ready, next;
    if w.chunks != {} {
      ReindexedIsGood(s, target, w.chunks);
      t := SwitchesAlone(w, p, ready, base, target);
      end := Done(Restored(target));
      LeadsOn(Onward(w, p), start, (ready, next), (t, end));
    }
  }

  /** From the index on, for a listed version. */
  lemma {:induction false} RestoresListed(w: World, p: ProcessId, s: Shared, base: Record, target: Version)
    returns (t: Shared, end: Actor)
    requires GoodShared(s) && s.record.value == Some(base) && !base.status.Deleted? && target in IdsOf(s.index.value)
    ensures Leads(Onward(w, p), (s, LoadingIndex(base, target)), (t, end))
    ensures if s.index.value.value.active == Some(target) || w.chunks != {}
            then && end == Done(Restored(target)) && RestoredAll(s, t, base, target)
                 && t.vectors == s.vectors + (if s.index.value.value.active == Some(target) then {}
                                              else VectorsOf(target, w.chunks))
            else end == Finished && t == s
  {
    if s.index.value.value.active == Some(target) {
      t := RestoresActive(w, p, s, base, target);
      end := Done(Restored(target));
    } else {
      t, end := RestoresInactive(w, p, s, base, target);
    }
  }

  lemma {:induction false} ReindexedIsGood(s: Shared, target: Version, chunks: set<nat>)
    requires GoodShared(s) && target in IdsOf(s.index.value)
    ensures GoodShared(WithVectors(s, target, chunks).(completed := s.completed + {target}))
  {
  }

  /**
   A restore alone succeeds exactly for a listed version of a live document that is the
   active one or has chunks to rebuild it from, and then publishes it; the vectors are
   rebuilt exactly if it is not the active one. Otherwise nothing but the cache changes.
   */
  lemma {:induction false} RestoresAlone(w: World, p: ProcessId, s: Shared, target: Version)
    returns (t: Shared, end: Actor)
    requires GoodShared(s) && UpToDate(s, p)
    ensures Leads(Onward(w, p), (s, Start(Operation.Restore(target))), (t, end))
    ensures if s.record.value.Some? && !s.record.value.value.status.Deleted? && target in IdsOf(s.index.value)
               && (s.index.value.value.active == Some(target) || w.chunks != {})
            then && end == Done(Restored(target)) && RestoredAll(s, t, s.record.value.value, target)
                 && t.vectors == s.vectors + (if s.index.value.value.active == Some(target) then {}
                                              else VectorsOf(target, w.chunks))
            else end == Finished && OnlyCached(s, t, p)
  {
    var start := Start(Operation.Restore(target));
    var found := LookupReaches(w, p, s, RestoreLoad(target));
    t, end := found, Finished;
    if s.record.value.Some? && !s.record.value.value.status.Deleted? {
      var base := s.record.value.value;
      CachedIsGood(s, found, p);
      if target in IdsOf(s.index.value) {
        t, end := RestoresListed(w, p, found, base, target);
        LeadsOn(Onward(w, p), (s, start), (found, LoadingIndex(base, target)), (t, end));
      } else {
        TargetInIndex(found, base, target);
        LeadsNext(Onward(w, p), (s, start), (found, LoadingIndex(base, target)));
      }
    }
  }

  lemma {:induction false} CachedIsGood(s: Shared, t: Shared, p: ProcessId)
    requires GoodShared(s) && OnlyCached(s, t, p)
    ensures GoodShared(t)
  {
  }

  // Searches

  /** A search alone keeps exactly the hits of the stored published version. */
  lemma {:induction false} SearchesAlone(w: World, p: ProcessId, s: Shared) returns (t: Shared, kept: seq<Version>)
    requires UpToDate(s, p) && forall x :: x in w.hits ==> x in s.vectors
    ensures var hits := seq(|w.hits|, i requires 0 <= i < |w.hits| => w.hits[i].version);
            && Leads(Onward(w, p), (s, Start(Search)), (t, Searched(hits, kept))) && OnlyCached(s, t, p)
            && (forall v :: v in kept <==> v in hits && PublishedVersionOf(s.record.value) == Some(v))
            && |kept| == (if PublishedVersionOf(s.record.value).Some?
                          then multiset(hits)[PublishedVersionOf(s.record.value).value] else 0)
  {
    var hits := seq(|w.hits|, i requires 0 <= i < |w.hits| => w.hits[i].version);
    var asked := StepActor(s, p, Querying, Matched(w.hits)).1;
    assert asked.caller.hits == hits;
    LeadsHere(Onward(w, p), (s, Querying));
    t := LookupReaches(w, p, s, SearchLoad(hits));
    kept := Gate(hits, PublishedVersionOf(s.record.value));
    LeadsOn(Onward(w, p), (s, Querying), (s, CacheLookup(SearchLoad(hits))), (t, Searched(hits, kept)));
    GateIsExact(hits, PublishedVersionOf(s.record.value));
  }

  // As part of a run

  /** A continuation of a schedule in which only one actor moves. */
  ghost predicate Only(rest: seq<Move>, a: ActorId, p: ProcessId, op: Operation) {
    forall i :: 0 <= i < |rest| ==> rest[i].actor == a && rest[i].process == p && rest[i].op == op
  }

  /** Where the run stands after the actor's first `n` moves. */
  ghost predicate StandsAt(s: System, t: System, a: ActorId, p: ProcessId, now: (Shared, Actor), n: nat) {
    && t.shared == now.0
    && t.actors == if n == 0 then s.actors else s.actors[a := Launched(p, now.1)]
  }

  const STEP: (System, Move) -> System := (s: System, m: Move) => Step(s, m)

  lemma {:induction false} OneMove(
    s: System, t: System, a: ActorId, w: World, p: ProcessId, op: Operation, now: (Shared, Actor), n: nat)
    requires a !in s.actors && StandsAt(s, t, a, p, now, n) && (n == 0 ==> now.1 == Start(op))
    ensures StandsAt(s, Step(t, Move(a, p, op, Calm(w, now.1))), a, p, Onward(w, p)(now), n + 1)
  {
  }

  lemma {:induction false} RunNext(schedule: seq<Move>, m: Move)
    ensures Run(schedule + [m]) == Step(Run(schedule), m)
  {
    assert (schedule + [m])[..|schedule|] == schedule;
  }

  lemma {:induction false} RunPlays(schedule: seq<Move>, rest: seq<Move>)
    ensures Run(schedule + rest) == Played(STEP, Run(schedule), rest)
    decreases |rest|
  {
    if rest == [] {
      assert schedule + rest == schedule;
    } else {
      RunNext(schedule, rest[0]);
      RunPlays(schedule + [rest[0]], rest[1..]);
      FirstMoveAway(schedule, rest);
    }
  }

  lemma {:induction false} FirstMoveAway(schedule: seq<Move>, rest: seq<Move>)
    requires rest != []
    ensures (schedule + [rest[0]]) + rest[1..] == schedule + rest
  {
  }

  lemma {:induction false} AloneIsARun(s: System, a: ActorId, w: World, p: ProcessId, op: Operation, n: nat)
    returns (rest: seq<Move>)
    requires a !in s.actors
    ensures Only(rest, a, p, op)
    ensures StandsAt(s, Played(STEP, s, rest), a, p, Iterate(Onward(w, p), (s.shared, Start(op)), n), n)
  {
    var stands := (t: System, now: (Shared, Actor), k: nat) =>
      StandsAt(s, t, a, p, now, k) && (k == 0 ==> now.1 == Start(op));
    var move := (now: (Shared, Actor)) => Move(a, p, op, Calm(w, now.1));
    forall t, now, k: nat | stands(t, now, k) ensures stands(STEP(t, move(now)), Onward(w, p)(now), k + 1) {
      OneMove(s, t, a, w, p, op, now, k);
    }
    rest := MovesFollow(STEP, Onward(w, p), move, stands, s, (s.shared, Start(op)), 0, n);
  }

  /** What an operation reaches alone, it reaches by a continuation of the run in which only it moves. */
  lemma {:induction false} ReachedByARun(
    schedule: seq<Move>, a: ActorId, w: World, p: ProcessId, op: Operation, t: Shared, end: Actor)
    returns (rest: seq<Move>)
    requires a !in Run(schedule).actors && Leads(Onward(w, p),
                                                 (Run(schedule).shared, Start(op)), (t, end)) && end != Start(op)
    ensures Only(rest, a, p, op) && Run(schedule + rest).shared == t
    ensures a in Run(schedule + rest).actors && Run(schedule + rest).actors[a] == Launched(p, end)
  {
    var n :| Iterate(Onward(w, p), (Run(schedule).shared, Start(op)), n) == (t, end);
    rest := AloneIsARun(Run(schedule), a, w, p, op, n);
    RunPlays(schedule, rest);
  }

  /**
   From every reachable state an ingestion of the live stored version can run to its end,
   and then the version is published with all its vectors; a process whose cache is not
   behind the store is enough.
   */
  lemma {:induction false} IngestionCanFinish(schedule: seq<Move>, a: ActorId, p: ProcessId, chunks: set<nat>)
    returns (rest: seq<Move>)
    requires LegalSchedule(schedule) && a !in Run(schedule).actors && UpToDate(Run(schedule).shared, p)
    requires Run(schedule).shared.record.value.Some? && !Run(schedule).shared.record.value.value.status.Deleted?
    ensures var s, t := Run(schedule), Run(schedule + rest);
            var version := s.shared.record.value.value.version;
            && Only(rest, a, p, Ingest(version)) && a in t.actors
            && t.actors[a] == Launched(p, Done(Ingested(version)))
            && IngestedAll(s.shared, t.shared, s.shared.record.value.value, chunks)
  {
    RunKeeps(schedule);
    var s, w := Run(schedule).shared, World(chunks, []);
    var version := s.record.value.value.version;
    var t, end := IngestsAlone(w, p, s, version);
    rest := ReachedByARun(schedule, a, w, p, Ingest(version), t, end);
  }
}
