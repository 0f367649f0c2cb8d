/**
 What the operations of the publication protocol have done, whatever else happened
 meanwhile: every record in an operation's hands descends from one that was stored,
 and an operation that ended well has made, at some moment, the change it stands for.
 */
module PublicationHistory {
  import opened Wrappers
  import opened Storage
  import opened Documents
  import opened Publication
  import opened PublicationSafety

  // History

  /** The records that were stored at some moment of a run. */
  ghost function StoredSoFar(schedule: seq<Move>): set<Record> {
    if schedule == [] then {}
    else StoredSoFar(schedule[..|schedule| - 1]) + StoredIn(Run(schedule).shared)
  }

  /** The versions that the index had active at some moment. */
  ghost function ActiveSoFar(schedule: seq<Move>): set<Version> {
    if schedule == [] then {}
    else ActiveSoFar(schedule[..|schedule| - 1]) + ActiveIn(Run(schedule).shared)
  }

  ghost function StoredIn(s: Shared): set<Record> {
    if s.record.value.Some? then {s.record.value.value} else {}
  }

  ghost function ActiveIn(s: Shared): set<Version> {
    if s.index.value.Some? && s.index.value.value.active.Some? then {s.index.value.value.active.value} else {}
  }

  /** The record stored after the first `i` moves. */
  ghost predicate StoredAt(schedule: seq<Move>, i: nat, r: Record)
    requires i <= |schedule|
  {
    Run(schedule[..i]).shared.record.value == Some(r)
  }

  ghost predicate ActiveAt(schedule: seq<Move>, i: nat, v: Version)
    requires i <= |schedule|
  {
    var index := Run(schedule[..i]).shared.index.value;
    index.Some? && index.value.active == Some(v)
  }

  lemma {:induction false} StoredWasStored(schedule: seq<Move>, r: Record)
    requires r in StoredSoFar(schedule)
    ensures exists i :: 0 <= i <= |schedule| && StoredAt(schedule, i, r)
  {
    var before := schedule[..|schedule| - 1];
    if r in StoredSoFar(before) {
      StoredWasStored(before, r);
      var i :| 0 <= i <= |before| && StoredAt(before, i, r);
      assert before[..i] == schedule[..i];
      assert StoredAt(schedule, i, r);
    } else {
      assert schedule[..|schedule|] == schedule;
      assert StoredAt(schedule, |schedule|, r);
    }
  }

  lemma {:induction false} ActiveWasActive(schedule: seq<Move>, v: Version)
    requires v in ActiveSoFar(schedule)
    ensures exists i :: 0 <= i <= |schedule| && ActiveAt(schedule, i, v)
  {
    var before := schedule[..|schedule| - 1];
    if v in ActiveSoFar(before) {
      ActiveWasActive(before, v);
      var i :| 0 <= i <= |before| && ActiveAt(before, i, v);
      assert before[..i] == schedule[..i];
      assert ActiveAt(schedule, i, v);
    } else {
      assert schedule[..|schedule|] == schedule;
      assert ActiveAt(schedule, |schedule|, v);
    }
  }

  // What an operation in progress has in hand

  /** The record goes on from a stored one: the same version, pointer and owner. */
  ghost predicate Descends(r: Record, past: set<Record>) {
    exists e :: e in past && e.version == r.version && e.activeVersion == r.activeVersion && e.owner == r.owner
  }

  /** A stored record had `version` for its own and for its published version. */
  ghost predicate Published(past: set<Record>, version: Version) {
    exists e :: e in past && e.status.Indexed? && e.version == version && PublishedVersionOf(Some(e)) == Some(version)
  }

  /** A stored record had `version` published, under whatever version it carried. */
  ghost predicate PutBack(past: set<Record>, version: Version) {
    exists e :: e in past && e.status.Indexed? && PublishedVersionOf(Some(e)) == Some(version)
  }

  ghost predicate HadStatus(past: set<Record>, version: Version, status: Status) {
    exists e :: e in past && e.version == version && e.status == status
  }

  ghost predicate WasDeleted(past: set<Record>) {
    exists e :: e in past && e.status.Deleted?
  }

  /** A fresh upload: no pointer, or that of a stored record, with its owner if it had one. */
  ghost predicate Fresh(r: Record, past: set<Record>) {
    && r.status.Queued?
    && (r.activeVersion.Some? ==>
          exists e :: e in past && PublishedVersionOf(Some(e)) == r.activeVersion
                      && (e.owner.Some? ==> r.owner == e.owner))
  }

  /** What each kind of write writes. */
  ghost predicate Apt(record: Record, after: After, past: set<Record>, active: set<Version>) {
    match after
    case QueuedSaved => Fresh(record, past)
    case EnqueueFailureSaved => record.status.Failed? && Descends(record, past)
    case RawMissingSaved => record.status.Failed? && Descends(record, past)
    case ParsingSaved(base) => record == base && record.status.Parsing? && Descends(record, past)
    case ChunkingSaved(base) => record == base && record.status.Chunking? && Descends(record, past)
    case EmbeddingSaved(base, _) => record == base && record.status.Embedding? && Descends(record, past)
    case FinalSaved(base) =>
      && record.status.Indexed? && PublishedVersionOf(Some(record)) == Some(base.version)
      && record.version == base.version && record.owner == base.owner && Descends(base, past)
    case FailureSaved(failed) => record.status.Failed? && record.version == failed && Descends(record, past)
    case DeletionSaved =>
      record.status.Deleted? && Descends(record, past)
    case RestorationSaved(target) =>
      && record.status.Indexed? && PublishedVersionOf(Some(record)) == Some(target) && target in active
      && exists e :: e in past && e.version == record.version && e.owner == record.owner
  }

  /** What every operation in progress may rely on to have happened. */
  ghost predicate Told(actor: Actor, past: set<Record>, active: set<Version>) {
    match actor
    case CacheFill(_, record) => record in past
    case Saving(record, after, cas) =>
      && Apt(record, after, past, active)
      && (cas.Writing? && cas.seen.payload.Some? ==> cas.seen.payload.value in past)
    case CachingSaved(record, after) => record in past && Apt(record, after, past, active)
    case Enqueueing(record) => record in past && record.status.Queued?
    case FetchingRaw(record) => record in past
    case ParsingContent(base) => base.status.Parsing? && Descends(base, past)
    case ChunkingContent(base) => base.status.Chunking? && Descends(base, past)
    case Upserting(ForIngestion(base), _, _) => base.status.Embedding? && Descends(base, past)
    case Upserting(ForRestore(base, _), _, _) => base in past
    case WritingManifest(base) => Descends(base, past)
    case RecordingVersion(base) => Descends(base, past) && Published(past, base.version)
    case Activating(base, _) => Descends(base, past) && Published(past, base.version)
    case CleaningSuperseded(keep) => Published(past, keep) && keep in active
    case RecordingFailure(failed) => HadStatus(past, failed, Status.Failed)
    case CleaningFailed(failed) => HadStatus(past, failed, Status.Failed)
    case RollingBack => WasDeleted(past)
    case DeletingVectors(base) => base in past && !base.status.Deleted?
    case LoadingIndex(base, _) => base in past
    case LoadingChunks(base, _) => base in past
    case Restoring(base, _, _) => base in past
    case Searched(hits, kept) =>
      kept == [] || exists e :: e in past && kept == Gate(hits, PublishedVersionOf(Some(e)))
    case Done(Uploaded(version)) => HadStatus(past, version, Status.Queued)
    case Done(Ingested(version)) => Published(past, version) && version in active
    case Done(Removed) => WasDeleted(past)
    case Done(Restored(version)) => PutBack(past, version) && version in active
    case _ => true
  }

  ghost predicate SharedTold(s: Shared, past: set<Record>, active: set<Version>) {
    && StoredIn(s) <= past && ActiveIn(s) <= active
    && forall p :: p in s.caches ==> s.caches[p] in past
  }

  // One step

  lemma {:induction false} GateOfNone(hits: seq<Version>)
    ensures Gate(hits, None) == []
  {
    if hits != [] {
      GateOfNone(hits[1..]);
    }
  }

  lemma {:induction false} GotDocumentIsTold(
    caller: Caller, existing: Option<Record>, past: set<Record>, active: set<Version>)
    requires existing.Some? ==> existing.value in past
    ensures Told(GotDocument(caller, existing), past, active)
  {
    if caller.SearchLoad? {
      GateOfNone(caller.hits);
    }
  }

  /** What one step makes of the history. */
  ghost predicate StaysTold(next: (Shared, Actor), past: set<Record>, active: set<Version>) {
    var past', active' := past + StoredIn(next.0), active + ActiveIn(next.0);
    SharedTold(next.0, past', active') && Told(next.1, past', active')
  }

  lemma {:induction false} ToldLater(
    actor: Actor, past: set<Record>, active: set<Version>, past': set<Record>, active': set<Version>)
    requires Told(actor, past, active) && past <= past' && active <= active'
    ensures Told(actor, past', active')
  {
  }

  lemma {:induction false} NothingNew(s: Shared, next: Actor, past: set<Record>, active: set<Version>)
    requires SharedTold(s, past, active) && Told(next, past, active)
    ensures StaysTold((s, next), past, active)
  {
    assert past + StoredIn(s) == past && active + ActiveIn(s) == active;
  }

  lemma {:induction false} RaisedIsTold(
    record: Record, after: After, error: Option<WriteError>, past: set<Record>, active: set<Version>)
    requires Apt(record, after, past, active)
    requires error == Some(DocumentDeleted) ==> WasDeleted(past)
    ensures Told(SaveRaised(after, error), past, active)
  {
  }

  lemma {:induction false} WrittenIsTold(
    s: Shared, record: Record, after: After, gap: nat, past: set<Record>, active: set<Version>)
    requires SharedTold(s, past, active) && Apt(record, after, past, active)
    ensures StaysTold((s.(record := s.record.Put(record, gap)), CachingSaved(record, after)), past, active)
  {
    ToldLater(Saving(record, after, Reading(0)), past, active, past + {record}, active);
    assert active + ActiveIn(s.(record := s.record.Put(record, gap))) == active;
  }

  lemma {:induction false} SavingIsTold(
    s: Shared, record: Record, after: After, cas: Cas<Record>, event: Event, past: set<Record>, active: set<Version>)
    requires SharedTold(s, past, active) && Told(Saving(record, after, cas), past, active)
    ensures StaysTold(StepSaving(s, record, after, cas, event), past, active)
  {
    var next := StepSaving(s, record, after, cas, event);
    if event.Fail? {
      RaisedIsTold(record, after, None, past, active);
      NothingNew(s, next.1, past, active);
    } else {
      match cas
      case Reading(_) =>
        RaisedIsTold(record, after, None, past, active);
        NothingNew(s, next.1, past, active);
      case Writing(_, seen) =>
        var refused := RejectIllegalWrite(record, seen.payload);
        if refused.Some? {
          RejectionExactly(record, seen.payload);
          assert seen.payload.value in past;
          RaisedIsTold(record, after, refused, past, active);
          NothingNew(s, next.1, past, active);
        } else if s.record.Accepts(seen) {
          WrittenIsTold(s, record, after, GapOf(event), past, active);
        } else {
          NothingNew(s, next.1, past, active);
        }
    }
  }

  lemma {:induction false} ActivatingIsTold(
    s: Shared, base: Record, cas: Cas<VersionIndex>, event: Event, past: set<Record>, active: set<Version>)
    requires SharedTold(s, past, active) && Told(Activating(base, cas), past, active)
    ensures StaysTold(StepActivating(s, base, cas, event), past, active)
  {
    var next := StepActivating(s, base, cas, event);
    if cas.Writing? && s.index.Accepts(cas.seen) && !event.Fail? {
      assert past + StoredIn(next.0) == past;
    } else {
      NothingNew(s, next.1, past, active);
    }
  }

  lemma {:induction false} RestoringIsTold(
    s: Shared, base: Record, target: Version, cas: Cas<VersionIndex>, event: Event,
    past: set<Record>, active: set<Version>)
    requires SharedTold(s, past, active) && Told(Restoring(base, target, cas), past, active) && target != ""
    ensures StaysTold(StepRestoring(s, base, target, cas, event), past, active)
  {
    var next := StepRestoring(s, base, target, cas, event);
    if !event.Fail? && cas.Writing? && RestoreMutation(target, cas.seen.payload).Some? && s.index.Accepts(cas.seen) {
      assert past + StoredIn(next.0) == past;
      assert next.0.index.value.value.active == Some(target);
    } else {
      NothingNew(s, next.1, past, active);
    }
  }

  lemma {:induction false} LookupIsTold(
    s: Shared, p: ProcessId, actor: Actor, event: Event, past: set<Record>, active: set<Version>)
    requires SharedTold(s, past, active) && Told(actor, past, active)
    requires actor.CacheLookup? || actor.StoreLookup? || actor.CacheFill? || actor.CachingSaved?
    ensures StaysTold(StepActor(s, p, actor, event), past, active)
  {
    var next := StepActor(s, p, actor, event);
    assert past + StoredIn(next.0) == past && active + ActiveIn(next.0) == active;
    match actor
    case CacheLookup(caller) => GotDocumentIsTold(caller, CacheOf(s, p), past, active);
    case StoreLookup(caller) =>
      GotDocumentIsTold(caller, CacheOf(s, p), past, active);
      if caller.SearchLoad? {
        GateOfNone(caller.hits);
      }
    case CacheFill(caller, record) => GotDocumentIsTold(caller, Some(record), past, active);
    case CachingSaved(_, _) =>
  }

  lemma {:induction false} ReadingIsTold(
    s: Shared, p: ProcessId, actor: Actor, event: Event, past: set<Record>, active: set<Version>)
    requires Told(actor, past, active) && ReadsContent(actor)
    ensures Told(StepActor(s, p, actor, event).1, past, active)
  {
  }

  lemma {:induction false} LoadingIsTold(
    s: Shared, base: Record, target: Version, event: Event, past: set<Record>, active: set<Version>)
    requires Told(LoadingIndex(base, target), past, active)
    ensures Told(StepLoadingIndex(s, base, target, event), past, active)
  {
  }

  lemma {:induction false} LocalIsTold(
    s: Shared, p: ProcessId, actor: Actor, event: Event, past: set<Record>, active: set<Version>)
    requires Told(actor, past, active) && LocalStep(actor)
    requires actor.WritingManifest? ==> actor.base.version != ""
    ensures Told(StepActor(s, p, actor, event).1, past, active)
  {
  }

  lemma {:induction false} VectorsAreTold(
    s: Shared, p: ProcessId, actor: Actor, event: Event, past: set<Record>, active: set<Version>)
    requires Told(actor, past, active) && ChangesVectorsOnly(actor)
    ensures Told(StepActor(s, p, actor, event).1, past, active)
  {
  }

  /** Steps that leave record, index and caches alone. */
  lemma {:induction false} SharedStays(s: Shared, p: ProcessId, actor: Actor, event: Event)
    requires ReadsContent(actor) || actor.LoadingIndex? || LocalStep(actor) || ChangesVectorsOnly(actor)
    ensures var t := StepActor(s, p, actor, event).0;
            t.record == s.record && t.index == s.index && t.caches == s.caches
  {
  }

  lemma {:induction false} OtherIsTold(
    s: Shared, p: ProcessId, actor: Actor, event: Event, past: set<Record>, active: set<Version>)
    requires SharedTold(s, past, active) && Told(actor, past, active)
    requires ReadsContent(actor) || actor.LoadingIndex? || LocalStep(actor) || ChangesVectorsOnly(actor)
    requires actor.WritingManifest? ==> actor.base.version != ""
    ensures StaysTold(StepActor(s, p, actor, event), past, active)
  {
    var next := StepActor(s, p, actor, event);
    SharedStays(s, p, actor, event);
    assert past + StoredIn(next.0) == past && active + ActiveIn(next.0) == active;
    if ReadsContent(actor) {
      ReadingIsTold(s, p, actor, event, past, active);
    } else if actor.LoadingIndex? {
      LoadingIsTold(s, actor.base, actor.target, event, past, active);
    } else if LocalStep(actor) {
      LocalIsTold(s, p, actor, event, past, active);
    } else {
      VectorsAreTold(s, p, actor, event, past, active);
    }
  }

  lemma {:induction false} UpsertingIsTold(
    s: Shared, purpose: Purpose, chunks: set<nat>, remaining: set<nat>, event: Event,
    past: set<Record>, active: set<Version>)
    requires SharedTold(s, past, active) && Told(Upserting(purpose, chunks, remaining), past, active)
    ensures StaysTold(StepUpserting(s, purpose, chunks, remaining, event), past, active)
  {
    var next := StepUpserting(s, purpose, chunks, remaining, event);
    assert past + StoredIn(next.0) == past && active + ActiveIn(next.0) == active;
  }

  lemma {:induction false} NoEmptyVersion(s: Shared, actor: Actor)
    requires GoodShared(s) && GoodActor(s, actor)
    ensures actor.Restoring? ==> actor.target != ""
    ensures actor.WritingManifest? ==> actor.base.version != ""
  {
  }

  lemma {:induction false} ActorStaysTold(
    s: Shared, p: ProcessId, actor: Actor, event: Event, past: set<Record>, active: set<Version>)
    requires GoodShared(s) && GoodActor(s, actor) && SharedTold(s, past, active) && Told(actor, past, active)
    ensures StaysTold(StepActor(s, p, actor, event), past, active)
  {
    NoEmptyVersion(s, actor);
    StepIsTold(s, p, actor, event, past, active);
  }

  lemma {:induction false} StepIsTold(
    s: Shared, p: ProcessId, actor: Actor, event: Event, past: set<Record>, active: set<Version>)
    requires SharedTold(s, past, active) && Told(actor, past, active)
    requires actor.Restoring? ==> actor.target != ""
    requires actor.WritingManifest? ==> actor.base.version != ""
    ensures StaysTold(StepActor(s, p, actor, event), past, active)
  {
    if actor.Saving? {
      SavingIsTold(s, actor.record, actor.after, actor.cas, event, past, active);
    } else if actor.Activating? {
      ActivatingIsTold(s, actor.base, actor.indexCas, event, past, active);
    } else if actor.Restoring? {
      RestoringIsTold(s, actor.base, actor.target, actor.indexCas, event, past, active);
    } else if actor.Upserting? {
      UpsertingIsTold(s, actor.purpose, actor.chunks, actor.remaining, event, past, active);
    } else if ReadsContent(actor) || actor.LoadingIndex? || LocalStep(actor) || ChangesVectorsOnly(actor) {
      OtherIsTold(s, p, actor, event, past, active);
    } else {
      LookupIsTold(s, p, actor, event, past, active);
    }
  }

  // Whole runs

  ghost predicate AllTold(s: System, past: set<Record>, active: set<Version>) {
    SharedTold(s.shared, past, active) && forall a :: a in s.actors ==> Told(s.actors[a].actor, past, active)
  }

  lemma {:induction false} MoveIsTold(s: System, m: Move, past: set<Record>, active: set<Version>)
    requires Inv(s) && LegalOperation(m.op) && AllTold(s, past, active)
    ensures var t := Step(s, m); AllTold(t, past + StoredIn(t.shared), active + ActiveIn(t.shared))
  {
    var launched, t := ActorOf(s, m), Step(s, m);
    ActorStaysTold(s.shared, launched.process, launched.actor, m.event, past, active);
    var past', active' := past + StoredIn(t.shared), active + ActiveIn(t.shared);
    forall a | a in t.actors ensures Told(t.actors[a].actor, past', active') {
      if a != m.actor {
        ToldLater(s.actors[a].actor, past, active, past', active');
      }
    }
  }

  lemma {:induction false} RunIsTold(schedule: seq<Move>)
    requires LegalSchedule(schedule)
    ensures AllTold(Run(schedule), StoredSoFar(schedule), ActiveSoFar(schedule))
  {
    if schedule != [] {
      var before := schedule[..|schedule| - 1];
      RunKeeps(before);
      RunIsTold(before);
      MoveIsTold(Run(before), schedule[|schedule| - 1], StoredSoFar(before), ActiveSoFar(before));
    }
  }
}
