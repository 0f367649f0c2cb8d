/**
 One serialized `RagService`: its record cache, and the store and vector index as
 it leaves them. Every call into a backend may fail; the calls that fail are the
 caller-chosen set `faults`, so each contract covers every fault position.
 */
module RagService {
  import opened Wrappers
  import opened Documents

  type DocumentId = string

  /** The backend calls that can raise. */
  datatype Call =
    | SaveQueued | Enqueue | SaveEnqueueFailure
    | GetRaw | SaveRawMissing
    | SaveParsing | Parse | PutParsed | SaveChunking | Chunk | PutChunks | SaveEmbedding | Embed | Upsert
    | PutManifest | SaveFinal | CreateVersion | CreateEvent | ActivateIndex
    | SaveFailure | FailureEvent | CleanSuperseded | CleanFailed
    | DeleteVectors | SaveDeleted
    | LoadIndex | GetChunks | ActivateExisting | SaveRestored

  datatype SaveResult = Saved | Rejected(error: WriteError) | StoreFailed

  /** How the body of the ingestion's `try` ends; `base` is the local record at that moment. */
  datatype StageResult = Completed | Stopped(base: Record)

  datatype JobResult = Ingested | JobSkipped | JobFailed

  datatype RestoreResult = Restored | NoDocument | VersionNotFound | RestoreFailed

  /** Everything the backends hold about one document. */
  datatype Content = Content(
    record: Option<Record>, index: Option<VersionIndex>, retained: map<Version, set<nat>>, vectors: set<Vector>)
  {
    predicate Live() {
      record.Some? && !record.value.status.Deleted?
    }

    function Published(): Option<Version> {
      PublishedVersionOf(record)
    }

    function Active(): Option<Version> {
      if index.None? then None else index.value.active
    }

    /** Every retained chunk of the version has its vector. */
    predicate Present(version: Version) {
      version in retained && VectorsOf(version, retained[version]) <= vectors
    }

    /** A live document's published and index-active versions can be searched in full. */
    predicate Safe() {
      Live() ==>
        && (Published().Some? ==> Present(Published().value))
        && (Active().Some? ==> Present(Active().value))
    }

    ghost predicate Sound() {
      && (record.Some? ==> record.value.version != "")
      && (index.Some? ==> record.Some? && IndexInvariant(index.value) && "" !in Ids(index.value.versions))
    }

    predicate NoChunks(version: Version) {
      version in retained && retained[version] == {}
    }
  }

  function OfVersion(vectors: set<Vector>, version: Version): set<Vector> {
    set v | v in vectors && v.version == version
  }

  /** The record whose write is the publication switch. */
  function PublishedRecord(current: Record): Record {
    current.(status := Indexed, activeVersion := Some(current.version))
  }

  /** The record points at `version`, and every vector of it is there. */
  ghost predicate PublishedContent(c: Content, version: Version) {
    && c.record.Some? && c.record.value.status.Indexed? && c.record.value.activeVersion == Some(version)
    && c.Present(version)
  }

  /** What the progress stages of an ingestion of `version` may have done to a document. */
  ghost predicate Prepared(c: Content, c': Content, version: Version, chunks: set<nat>) {
    && c.Live() && c.record.value.version == version
    && c'.record.Some? && c'.record.value.version == version
    && c'.record.value.activeVersion == c.record.value.activeVersion && c'.record.value.owner == c.record.value.owner
    && (c'.record == c.record || !Terminal(c'.record.value.status))
    && c'.index == c.index && c'.vectors == c.vectors
    && (c'.retained == c.retained || c'.retained == c.retained[version := chunks])
  }

  /** The local record of an ingestion that was stopped before `_record_ingestion_success` ended. */
  ghost predicate LocalBase(c: Content, base: Record, version: Version) {
    && c.record.Some? && base.version == version && base.activeVersion == c.record.value.activeVersion
    && base.owner == c.record.value.owner
    && !base.status.Indexed? && !base.status.Deleted?
  }

  /** What an ingestion stopped anywhere may have left behind. */
  ghost predicate Interrupted(c: Content, c': Content, version: Version, chunks: set<nat>) {
    exists mid :: Prepared(c, mid, version, chunks) && InterruptedAfter(mid, c', version)
  }

  ghost predicate InterruptedAfter(mid: Content, c': Content, version: Version) {
    && c'.index == mid.index && c'.retained == mid.retained && c'.record.Some? && mid.record.Some?
    && mid.vectors <= c'.vectors && (forall v :: v in c'.vectors - mid.vectors ==> v.version == version)
    && (c'.record == mid.record || (c'.record == Some(PublishedRecord(mid.record.value)) && c'.Present(version)))
  }

  /** A stopped ingestion leaves a safe document safe and published, whatever it was stopped at. */
  lemma {:induction false} InterruptedIsSafe(c: Content, c': Content, version: Version, chunks: set<nat>)
    requires Interrupted(c, c', version, chunks) && version != ""
    requires c.Safe() && c.Published() != Some(version) && c.Active() != Some(version)
    ensures c'.Safe()
    ensures c'.Published() == c.Published() || c'.Published() == Some(version)
    ensures c.Published().Some? ==> c'.Published().Some?
  {
    var mid :| Prepared(c, mid, version, chunks) && InterruptedAfter(mid, c', version);
    assert mid.Published() == c.Published();
  }

  /** The failure write and the clean-up that follow a stopped ingestion. */
  ghost predicate FailureRecorded(c: Content, c': Content, base: Record, version: Version, cleaned: bool) {
    && c'.record == Some(base.(status := Status.Failed))
    && c'.index == c.index && c'.retained == c.retained
    && c'.vectors == if cleaned then c.vectors - OfVersion(c.vectors, version) else c.vectors
  }

  /** Recording the failure puts the old publication back and never touches its vectors. */
  lemma {:induction false} FailureIsSafe(
    c: Content, stopped: Content, c': Content, base: Record, version: Version, chunks: set<nat>, cleaned: bool)
    requires Interrupted(c, stopped, version, chunks) && LocalBase(c, base, version) && version != ""
    requires FailureRecorded(stopped, c', base, version, cleaned)
    ensures c.Published() != Some(version) ==> c'.Published() == c.Published()
    ensures c.Safe() && c.Published() != Some(version) && c.Active() != Some(version) ==> c'.Safe()
  {
    var mid :| Prepared(c, mid, version, chunks) && InterruptedAfter(mid, stopped, version);
  }

  /** After the clean-up a version that was fully searchable still is, exactly if it is not the failed one. */
  lemma {:induction false} CleanupSparesExactly(
    c: Content, stopped: Content, c': Content, base: Record, version: Version, chunks: set<nat>, p: Version)
    requires Interrupted(c, stopped, version, chunks) && FailureRecorded(stopped, c', base, version, true)
    requires c.Present(p)
    ensures c'.Present(p) <==> p != version || c'.NoChunks(p)
  {
    var mid :| Prepared(c, mid, version, chunks) && InterruptedAfter(mid, stopped, version);
    if p == version {
      if chunk :| chunk in c'.retained[p] {
        assert Vector(p, chunk) in VectorsOf(p, c'.retained[p]);
        assert Vector(p, chunk) !in c'.vectors;
      }
    } else {
      assert c'.retained[p] == c.retained[p];
    }
  }

  /** What a failed ingestion may have left, with the backend calls in `faults` raising. */
  ghost predicate Aftermath(c: Content, c': Content, version: Version, chunks: set<nat>, faults: set<Call>) {
    exists stopped, base ::
      Interrupted(c, stopped, version, chunks) && LocalBase(c, base, version) &&
      Recorded(stopped, c', base, version, faults)
  }

  /** What the failure path made of the document it found `stopped`. */
  ghost predicate Recorded(stopped: Content, c': Content, base: Record, version: Version, faults: set<Call>) {
    if SaveFailure in faults then c' == stopped
    else FailureRecorded(stopped, c', base, version, FailureEvent !in faults && CleanFailed !in faults)
  }

  /** A failed ingestion keeps a good document good; with the failure recorded, its publication too. */
  lemma {:induction false} AftermathIsSafe(
    c: Content, c': Content, version: Version, chunks: set<nat>, faults: set<Call>)
    requires Aftermath(c, c', version, chunks, faults) && version != "" && c.Published() != Some(version)
    ensures c.Published().Some? ==> c'.Published().Some? || !c.Safe() || c.Active() == Some(version)
    ensures SaveFailure !in faults ==> c'.Published() == c.Published()
    ensures c.Safe() && c.Active() != Some(version) ==> c'.Safe()
    ensures c'.Published() == c.Published() || c'.Published() == Some(version)
  {
    var stopped, base :|
      Interrupted(c, stopped, version, chunks) && LocalBase(c, base, version) &&
      Recorded(stopped, c', base, version, faults);
    if SaveFailure in faults {
      if c.Safe() && c.Active() != Some(version) {
        InterruptedIsSafe(c, stopped, version, chunks);
      }
    } else {
      FailureIsSafe(c, stopped, c', base, version, chunks, FailureEvent !in faults && CleanFailed !in faults);
    }
  }

  /** What no failed ingestion changes: the version index, other retained versions, the stored pointer and version. */
  lemma {:induction false} AftermathKeeps(
    c: Content, c': Content, version: Version, chunks: set<nat>, faults: set<Call>)
    requires Aftermath(c, c', version, chunks, faults)
    ensures c'.index == c.index && (c'.retained == c.retained || c'.retained == c.retained[version := chunks])
    ensures SaveFailure !in faults ==>
              c'.record.Some? && c.record.Some? && c'.record.value.activeVersion == c.record.value.activeVersion
    ensures c'.Live() && c'.record.value.version == version && c.Live() && c'.record.value.owner == c.record.value.owner
    ensures SaveFailure !in faults ==> c'.record.value.status.Failed?
    ensures forall x :: x in c'.vectors && x !in c.vectors ==> x.version == version
    ensures CleanedUp(faults) ==> forall x :: x in c'.vectors ==> x.version != version
  {
    var stopped, base :|
      Interrupted(c, stopped, version, chunks) && LocalBase(c, base, version) &&
      Recorded(stopped, c', base, version, faults);
  }

  /** The failure path ran to its end: failed record, failed event, vectors of the failed version removed. */
  predicate CleanedUp(faults: set<Call>) {
    GetRaw !in faults && SaveFailure !in faults && FailureEvent !in faults && CleanFailed !in faults
  }

  lemma {:induction false} AftermathSparesExactly(
    c: Content, c': Content, version: Version, chunks: set<nat>, faults: set<Call>, p: Version)
    requires Aftermath(c, c', version, chunks, faults) && CleanedUp(faults) && c.Present(p)
    ensures c'.Present(p) <==> p != version || c'.NoChunks(p)
  {
    var stopped, base :|
      Interrupted(c, stopped, version, chunks) && LocalBase(c, base, version) &&
      Recorded(stopped, c', base, version, faults);
    CleanupSparesExactly(c, stopped, c', base, version, chunks, p);
  }

  /** What reading a sound index tells a restore: known or not, restorable or not, live or not. */
  lemma {:induction false} TargetLookup(c: Content, version: Version)
    requires c.Sound()
    ensures version in IdsOf(c.index) <==> c.index.Some? && Find(c.index.value.versions, version).Some?
    ensures version in IdsOf(c.index) <==> RestoreMutation(version, c.index).Some?
    ensures version in IdsOf(c.index) ==>
              (Find(c.index.value.versions, version).value.vectorsPresent <==> c.Active() == Some(version))
  {
    RestoreKeepsIndex(version, c.index);
    if c.index.Some? && Find(c.index.value.versions, version).Some? {
      LiveFlagMeansActive(c.index.value, version);
    }
  }

  lemma {:induction false} MoreVectorsAreSafe(c: Content, vectors: set<Vector>)
    requires c.vectors <= vectors
    ensures c.Safe() ==> c.(vectors := vectors).Safe()
  {
  }

  /** The record of a fresh upload: it carries the published version and keeps the first owner. */
  function NewRecord(version: Version, status: Status, existing: Option<Record>, owner: Option<string>): Record {
    Record(version, status, PublishedVersionOf(existing),
           if existing.Some? && existing.value.owner.Some? then existing.value.owner else owner)
  }

  /** It is of its version, and of the first owner, if the document has had one; otherwise of the uploader. */
  lemma {:induction false} FirstOwnerIsKept(
    version: Version, status: Status, existing: Option<Record>, owner: Option<string>)
    ensures var next := NewRecord(version, status, existing, owner);
            && next.version == version && next.status == status
            && (existing.Some? && existing.value.owner.Some? ==> next.owner == existing.value.owner)
            && (existing.None? || existing.value.owner.None? ==> next.owner == owner)
            && next.activeVersion == PublishedVersionOf(existing)
  {
  }

  /** It leaves the publication as it was. */
  lemma {:induction false} NewRecordIsSafe(c: Content, version: Version, status: Status, owner: Option<string>)
    requires c.Sound() && (c.record.Some? ==> c.Live()) && (status.Queued? || status.Failed?)
    ensures var next := c.(record := Some(NewRecord(version, status, c.record, owner)));
            next.Published() == c.Published() && (c.Safe() ==> next.Safe())
  {
  }

  /** The calls up to the index; then up to the publication switch; then to the end of the ingestion. */
  const PREPARING: set<Call> := {SaveParsing, Parse, PutParsed, SaveChunking, Chunk, PutChunks, SaveEmbedding, Embed}
  const PUBLISHING: set<Call> := {Upsert, PutManifest, SaveFinal}
  const RECORDING: set<Call> := {CreateVersion, CreateEvent, ActivateIndex}

  /** An ingestion that ends before the publication switch. */
  predicate BlockedEarly(faults: set<Call>) {
    GetRaw in faults || !(faults !! PREPARING && faults !! PUBLISHING)
  }

  /** Every stage of an ingestion ends without an error. */
  predicate Undisturbed(faults: set<Call>) {
    faults !! PREPARING && faults !! PUBLISHING && faults !! RECORDING
  }

  /** A version can be rebuilt if its chunks can be read, there are some, and the upsert goes through. */
  predicate CanReindex(c: Content, version: Version, faults: set<Call>) {
    version in c.retained && c.retained[version] != {} && GetChunks !in faults && Upsert !in faults
  }

  /** A restore of a listed version ends well: it is live or can be rebuilt, and both writes go through. */
  predicate CanRestore(c: Content, version: Version, faults: set<Call>) {
    && (c.Active() == Some(version) || CanReindex(c, version, faults))
    && ActivateExisting !in faults && SaveRestored !in faults
  }

  /** A document nobody has uploaded. */
  const NOTHING: Content := Content(None, None, map[], {})

  class RagService {
    var documents: map<DocumentId, Record>       // the in-process cache
    var backend: map<DocumentId, Content>        // what the store and the vector index hold

    function At(d: DocumentId): Content
      reads this`backend
    {
      if d in backend then backend[d] else NOTHING
    }

    function Stored(d: DocumentId): Option<Record>
      reads this`backend
    {
      At(d).record
    }

    /**
     The cache never disagrees with the store; every version index is sound and
     belongs to a stored record; version texts are content hashes, never empty.
     */
    ghost predicate Valid()
      reads this
    {
      && (forall d :: d in documents ==> d in backend && backend[d].record == Some(documents[d]))
      && (forall d :: d in backend ==> backend[d].Sound())
    }

    /** Nothing about any document but `d` has changed in the backends. */
    twostate predicate Only(d: DocumentId)
      reads this`backend
    {
      backend == old(backend) || backend == old(backend)[d := At(d)]
    }

    constructor ()
      ensures Valid() && forall d :: At(d) == NOTHING
    {
      documents, backend := map[], map[];
    }

    /** A backend other than the record store takes what it is given. */
    method Put(d: DocumentId, content: Content)
      requires Valid() && content.Sound() && content.record.Some? && content.record == Stored(d)
      modifies this`backend
      ensures Valid() && backend == old(backend)[d := content]
    {
      backend := backend[d := content];
    }

    /** Serves a terminal record from the cache, anything else from the store; the two never differ. */
    method GetDocument(d: DocumentId) returns (r: Option<Record>)
      requires Valid()
      modifies this`documents
      ensures Valid()
      ensures r == Stored(d)
    {
      var cached := if d in documents then Some(documents[d]) else None;
      if cached.Some? && Terminal(cached.value.status) {
        return cached;
      }
      var payload := Stored(d);
      if payload.None? {
        return cached;
      }
      documents := documents[d := payload.value];
      return payload;
    }

    /**
     Persists under the guard, then caches. A refused or failed write changes
     neither the store nor the cache.
     */
    method SaveDocumentRecord(d: DocumentId, record: Record, call: Call, faults: set<Call>) returns (r: SaveResult)
      requires Valid() && record.version != ""
      modifies this
      ensures Valid() && Only(d)
      ensures r == match RejectIllegalWrite(record, old(Stored(d)))
                   case Some(error) => Rejected(error)
                   case None => if call in faults then StoreFailed else Saved
      ensures r.Saved? ==>
        backend == old(backend)[d := old(At(d)).(record := Some(record))] && documents == old(documents)[d := record]
      ensures !r.Saved? ==> backend == old(backend) && documents == old(documents)
      ensures LegalMove(old(Stored(d)), Stored(d))
    {
      var refused := RejectIllegalWrite(record, Stored(d));
      if refused.Some? {
        return Rejected(refused.value);
      }
      if call in faults {
        return StoreFailed;
      }
      backend := backend[d := At(d).(record := Some(record))];
      documents := documents[d := record];
      return Saved;
    }

    /** `_queue_document`: introduces a new version while the published one stays searchable. */
    method QueueDocument(d: DocumentId, version: Version, owner: Option<string>, faults: set<Call>)
      returns (r: SaveResult)
      requires Valid() && version != ""
      modifies this
      ensures Valid() && Only(d)
      ensures At(d).Published() == old(At(d)).Published()
      ensures old(At(d)).Safe() ==> At(d).Safe()
      ensures r.Rejected? <==> old(Stored(d)).Some? && old(Stored(d)).value.status.Deleted?
      ensures r.StoreFailed? <==> !r.Rejected? && SaveQueued in faults
      ensures !r.Saved? ==> At(d) == old(At(d))
      ensures r.Saved? ==> At(d) == old(At(d)).(record := Some(NewRecord(
        version, if Enqueue in faults && SaveEnqueueFailure !in faults then Status.Failed else Status.Queued,
        old(Stored(d)), owner)))
    {
      var existing := GetDocument(d);
      var record := NewRecord(version, Status.Queued, existing, owner);
      r := SaveFirstRecord(d, record, faults);
      if r.Saved? && Enqueue in faults {
        var _ := SaveProgress(d, record.(status := Status.Failed), SaveEnqueueFailure, faults);
      }
      if r.Saved? {
        NewRecordIsSafe(old(At(d)), version, Stored(d).value.status, owner);
      }
    }

    /** The save of a fresh upload's record, which is refused only for a deleted document. */
    method SaveFirstRecord(d: DocumentId, record: Record, faults: set<Call>) returns (r: SaveResult)
      requires Valid() && record.version != "" && record.status.Queued?
      modifies this
      ensures Valid()
      ensures r.Rejected? <==> old(Stored(d)).Some? && !old(At(d)).Live()
      ensures r.StoreFailed? <==> !r.Rejected? && SaveQueued in faults
      ensures backend == if r.Saved? then old(backend)[d := old(At(d)).(record := Some(record))] else old(backend)
    {
      r := SaveDocumentRecord(d, record, SaveQueued, faults);
    }

    /** `update_document`: replaces the content of a live document. */
    method UpdateDocument(d: DocumentId, version: Version, owner: Option<string>, faults: set<Call>)
      returns (r: Option<SaveResult>)
      requires Valid() && version != ""
      modifies this
      ensures Valid() && Only(d)
      ensures r.None? <==> !old(At(d)).Live()
      ensures r != Some(Saved) ==> At(d) == old(At(d))
      ensures old(At(d)).Safe() ==> At(d).Safe()
      ensures At(d).Published() == old(At(d)).Published()
      ensures r.Some? ==> (r == Some(Saved) <==> SaveQueued !in faults)
      ensures r == Some(Saved) ==>
        Stored(d).Some? && Stored(d).value.version == version && At(d) == old(At(d)).(record := Stored(d))
    {
      var current := GetDocument(d);
      if current.None? || current.value.status.Deleted? {
        return None;
      }
      var saved := QueueDocument(d, version, owner, faults);
      return Some(saved);
    }

    /**
     `delete_document`: vectors first, then the terminal record. Only a delete that
     loses its record write after removing the vectors can leave a document unsafe.
     */
    method DeleteDocument(d: DocumentId, faults: set<Call>) returns (completed: bool)
      requires Valid()
      modifies this
      ensures Valid() && Only(d)
      ensures !old(At(d)).Live() ==> completed && At(d) == old(At(d))
      ensures old(At(d)).Live() ==> (completed <==> DeleteVectors !in faults && SaveDeleted !in faults)
      ensures old(At(d)).Live() && completed ==>
        At(d) == old(At(d)).(record := Some(old(Stored(d)).value.(status := Status.Deleted)), vectors := {})
      ensures !completed && DeleteVectors in faults ==> At(d) == old(At(d))
      ensures !completed && DeleteVectors !in faults ==> At(d) == old(At(d)).(vectors := {})
    {
      var record := GetDocument(d);
      if record.None? || record.value.status.Deleted? {
        return true;
      }
      if DeleteVectors in faults {
        return false;
      }
      Put(d, At(d).(vectors := {}));
      var saved := SaveDocumentRecord(d, record.value.(status := Status.Deleted), SaveDeleted, faults);
      return saved.Saved?;
    }

    /** A progress write for the version that is stored: in a serialized service the guard lets it through. */
    method SaveProgress(d: DocumentId, record: Record, call: Call, faults: set<Call>) returns (saved: bool)
      requires Valid() && At(d).Live() && Stored(d).value.version == record.version && !record.status.Deleted?
      modifies this
      ensures Valid()
      ensures backend == old(backend)[d := At(d)]
      ensures saved <==> call !in faults
      ensures At(d) == if saved then old(At(d)).(record := Some(record)) else old(At(d))
    {
      var r := SaveDocumentRecord(d, record, call, faults);
      return r.Saved?;
    }

    /** Up to the index: the stages that only write progress records and retained content. */
    method PrepareStages(d: DocumentId, record: Record, chunks: set<nat>, faults: set<Call>) returns (r: StageResult)
      requires Valid() && Stored(d) == Some(record) && !record.status.Deleted?
      modifies this
      ensures Valid() && backend == old(backend)[d := At(d)]
      ensures Prepared(old(At(d)), At(d), record.version, chunks)
      ensures r.Stopped? ==> LocalBase(old(At(d)), r.base, record.version)
      ensures r.Completed? <==> faults !! PREPARING
      ensures r.Completed? ==>
        Stored(d).value.status.Embedding? && At(d).retained == old(At(d)).retained[record.version := chunks]
    {
      var current := record.(status := Status.Parsing);
      var saved := SaveProgress(d, current, SaveParsing, faults);
      if !saved || Parse in faults || PutParsed in faults {
        return Stopped(current);
      }
      current := current.(status := Status.Chunking);
      saved := SaveProgress(d, current, SaveChunking, faults);
      if !saved || Chunk in faults || PutChunks in faults {
        return Stopped(current);
      }
      Put(d, At(d).(retained := At(d).retained[record.version := chunks]));
      current := current.(status := Status.Embedding);
      saved := SaveProgress(d, current, SaveEmbedding, faults);
      if !saved || Embed in faults {
        return Stopped(current);
      }
      return Completed;
    }

    /** The upsert, the publication switch, and the version-index activation. */
    method PublishStages(d: DocumentId, current: Record, chunks: set<nat>, sent: set<nat>, faults: set<Call>)
      returns (r: StageResult)
      requires Valid() && Stored(d) == Some(current) && current.status.Embedding?
      requires current.version in At(d).retained && At(d).retained[current.version] == chunks
      modifies this
      ensures Valid() && backend == old(backend)[d := At(d)]
      ensures r.Completed? <==> faults !! PUBLISHING && faults !! RECORDING
      ensures r.Stopped? ==> r.base == current && InterruptedAfter(old(At(d)), At(d), current.version)
      ensures !(faults !! PUBLISHING) ==> Stored(d) == old(Stored(d))
      ensures r.Completed? ==> At(d) == Content(
        Some(PublishedRecord(current)), Some(ActivateMutation(current.version, old(At(d)).index)),
        old(At(d)).retained, old(At(d)).vectors + VectorsOf(current.version, chunks))
    {
      if Upsert in faults {
        Put(d, At(d).(vectors := At(d).vectors + VectorsOf(current.version, sent * chunks)));
        return Stopped(current);
      }
      Put(d, At(d).(vectors := At(d).vectors + VectorsOf(current.version, chunks)));
      if PutManifest in faults {
        return Stopped(current);
      }
      var saved := SaveProgress(d, PublishedRecord(current), SaveFinal, faults);
      if !saved || CreateVersion in faults || CreateEvent in faults || ActivateIndex in faults {
        return Stopped(current);
      }
      ActivateKeepsIndex(current.version, At(d).index);
      Put(d, At(d).(index := Some(ActivateMutation(current.version, At(d).index))));
      return Completed;
    }

    /** The generic `except` branch: the failed record, the failed event, the clean-up of partial vectors. */
    method RecordFailure(d: DocumentId, base: Record, faults: set<Call>) returns (recorded: bool, cleaned: bool)
      requires Valid() && At(d).Live() && Stored(d).value.version == base.version && !base.status.Deleted?
      modifies this
      ensures Valid() && backend == old(backend)[d := At(d)]
      ensures recorded <==> SaveFailure !in faults
      ensures cleaned <==> recorded && FailureEvent !in faults && CleanFailed !in faults
      ensures recorded ==> FailureRecorded(old(At(d)), At(d), base, base.version, cleaned)
      ensures !recorded ==> At(d) == old(At(d))
    {
      recorded := SaveProgress(d, base.(status := Status.Failed), SaveFailure, faults);
      cleaned := recorded && FailureEvent !in faults && CleanFailed !in faults;
      if cleaned {
        Put(d, At(d).(vectors := At(d).vectors - OfVersion(At(d).vectors, base.version)));
      }
    }

    /** The body of `_run_ingestion`'s `try`, up to the recorded success. */
    method RunStages(d: DocumentId, record: Record, chunks: set<nat>, sent: set<nat>, faults: set<Call>)
      returns (r: StageResult)
      requires Valid() && Stored(d) == Some(record) && !record.status.Deleted?
      modifies this
      ensures Valid() && backend == old(backend)[d := At(d)]
      ensures r.Completed? <==> Undisturbed(faults)
      ensures r.Completed? ==> PublishedContent(At(d), record.version)
                               && At(d).index == Some(ActivateMutation(record.version, old(At(d)).index))
      ensures r.Stopped? ==> Interrupted(old(At(d)), At(d), record.version, chunks)
                             && LocalBase(old(At(d)), r.base, record.version) && At(d).Live()
      ensures r.Completed? ==>
        Stored(d) == Some(Record(record.version, Indexed, Some(record.version), record.owner)) &&
        At(d).retained == old(At(d)).retained[record.version := chunks]
      ensures BlockedEarly(faults) && GetRaw !in faults && old(At(d)).Published() != Some(record.version) ==>
                At(d).Published() == old(At(d)).Published()
    {
      r := PrepareStages(d, record, chunks, faults);
      if r.Completed? {
        r := PublishStages(d, Stored(d).value, chunks, sent, faults);
      } else {
        assert InterruptedAfter(At(d), At(d), record.version);
      }
    }

    /** `_cleanup_superseded_vectors`: best effort. */
    method CleanupSuperseded(d: DocumentId, keep: Version, faults: set<Call>)
      requires Valid() && PublishedContent(At(d), keep)
      modifies this
      ensures Valid() && backend == old(backend)[d := At(d)]
      ensures PublishedContent(At(d), keep) && At(d) == old(At(d)).(vectors := At(d).vectors)
      ensures CleanSuperseded !in faults ==> At(d).vectors == OfVersion(At(d).vectors, keep)
    {
      if CleanSuperseded !in faults {
        Put(d, At(d).(vectors := OfVersion(At(d).vectors, keep)));
      }
    }

    /**
     `_run_ingestion`: either the version is published, or the document is in the
     aftermath of a failed ingestion.
     */
    method RunIngestion(d: DocumentId, record: Record, chunks: set<nat>, sent: set<nat>, faults: set<Call>)
      returns (published: bool)
      requires Valid() && Stored(d) == Some(record) && !record.status.Deleted?
      modifies this
      ensures Valid() && backend == old(backend)[d := At(d)]
      ensures published <==> Undisturbed(faults)
      ensures At(d).Live() && Stored(d).value.version == record.version && Stored(d).value.owner == record.owner
      ensures published ==>
        && PublishedContent(At(d), record.version)
        && At(d).index == Some(ActivateMutation(record.version, old(At(d)).index))
        && (CleanSuperseded !in faults ==> At(d).vectors == OfVersion(At(d).vectors, record.version))
        && At(d).retained == old(At(d)).retained[record.version := chunks]
      ensures BlockedEarly(faults) && GetRaw !in faults && old(At(d)).Published() != Some(record.version) ==>
                At(d).Published() == old(At(d)).Published()
      ensures !published ==> Aftermath(old(At(d)), At(d), record.version, chunks, faults)
    {
      ghost var start := At(d);
      var result := RunStages(d, record, chunks, sent, faults);
      if result.Completed? {
        CleanupSuperseded(d, record.version, faults);
        return true;
      }
      ghost var stopped := At(d);
      var _, _ := RecordFailure(d, result.base, faults);
      assert Recorded(stopped, At(d), result.base, record.version, faults);
      AftermathKeeps(start, At(d), record.version, chunks, faults);
      return false;
    }

    /**
     `process_document_job`. `chunks` is what chunking would produce and `sent`
     what a failing upsert got through before it failed.

     When the job's version is neither the published one nor the index's active
     one, no fault at any position costs the document its published version or
     makes partial vectors searchable. The last two clauses say exactly what
     happens otherwise.
     */
    method ProcessDocumentJob(d: DocumentId, version: Version, chunks: set<nat>, sent: set<nat>, faults: set<Call>)
      returns (r: JobResult)
      requires Valid()
      modifies this
      ensures Valid() && Only(d)
      ensures r.JobSkipped? <==> !old(At(d)).Live() || old(At(d)).record.value.version != version
      ensures r.JobSkipped? ==> At(d) == old(At(d))
      ensures r.Ingested? <==> !r.JobSkipped? && GetRaw !in faults && Undisturbed(faults)
      ensures !r.JobSkipped? ==>
        At(d).Live() && Stored(d).value.version == version && Stored(d).value.owner == old(Stored(d)).value.owner
      ensures r.Ingested? ==>
        && PublishedContent(At(d), version)
        && At(d).Published() == Some(version) && At(d).Active() == Some(version) && At(d).Safe()
        && (CleanSuperseded !in faults ==> At(d).vectors == OfVersion(At(d).vectors, version))
        && At(d).index == Some(ActivateMutation(version, old(At(d)).index))
        && At(d).retained == old(At(d)).retained[version := chunks]
      ensures r.JobFailed? ==>
        && At(d).index == old(At(d)).index
        && (At(d).retained == old(At(d)).retained || At(d).retained == old(At(d)).retained[version := chunks])
      ensures r.JobFailed? && (GetRaw in faults || SaveFailure !in faults) ==>
                Stored(d).Some? && Stored(d).value.activeVersion == old(Stored(d)).value.activeVersion
      ensures r.JobFailed? && (if GetRaw in faults then SaveRawMissing else SaveFailure) !in faults ==>
                Stored(d).Some? && Stored(d).value.status.Failed?
      ensures r.JobFailed? && GetRaw in faults ==> At(d) == old(At(d)).(record := Stored(d))
      ensures r.JobFailed? && CleanedUp(faults) ==> forall x :: x in At(d).vectors ==> x.version != version
      ensures old(At(d)).Published() != Some(version) ==>
        && (At(d).Published() == old(At(d)).Published() || At(d).Published() == Some(version))
        && (BlockedEarly(faults) ==> At(d).Published() == old(At(d)).Published())
      ensures old(At(d)).Safe() && old(At(d)).Published() != Some(version) && old(At(d)).Active() != Some(version) ==>
                && At(d).Safe()
                && (old(At(d)).Published().Some? ==> At(d).Published().Some?)
      ensures r.JobFailed? && old(At(d)).Published() != Some(version) && SaveFailure !in faults ==>
                At(d).Published() == old(At(d)).Published()
      ensures r.JobFailed? && CleanedUp(faults) && old(At(d)).Safe() && old(At(d)).Published().Some? ==>
                var p := old(At(d)).Published().value;
                (At(d).Present(p) <==> p != version || At(d).NoChunks(p))
      ensures r.JobFailed? && CleanedUp(faults) && old(At(d)).Safe() && old(At(d)).Active().Some? ==>
                var p := old(At(d)).Active().value;
                (At(d).Present(p) <==> p != version || At(d).NoChunks(p))
    {
      var record := GetDocument(d);
      if record.None? || record.value.status.Deleted? || record.value.version != version {
        return JobSkipped;
      }
      if GetRaw in faults {
        var _ := SaveProgress(d, record.value.(status := Status.Failed), SaveRawMissing, faults);
        return JobFailed;
      }
      ghost var start := At(d);
      var published := RunIngestion(d, record.value, chunks, sent, faults);
      if published {
        return Ingested;
      }
      AftermathKeeps(start, At(d), version, chunks, faults);
      if start.Published() != Some(version) {
        AftermathIsSafe(start, At(d), version, chunks, faults);
      }
      if CleanedUp(faults) {
        forall p | start.Present(p) ensures At(d).Present(p) <==> p != version || At(d).NoChunks(p) {
          AftermathSparesExactly(start, At(d), version, chunks, faults, p);
        }
      }
      return JobFailed;
    }

    /** `_reindex_version`: rebuilds the vectors of a version from its retained chunks. */
    method ReindexVersion(d: DocumentId, version: Version, sent: set<nat>, faults: set<Call>) returns (done: bool)
      requires Valid() && At(d).record.Some?
      modifies this
      ensures Valid() && backend == old(backend)[d := At(d)]
      ensures old(At(d)).vectors <= At(d).vectors && At(d) == old(At(d)).(vectors := At(d).vectors)
      ensures forall x :: x in At(d).vectors && x !in old(At(d)).vectors ==> x.version == version
      ensures done <==> CanReindex(old(At(d)), version, faults)
      ensures done ==> At(d).Present(version)
    {
      if GetChunks in faults || version !in At(d).retained || At(d).retained[version] == {} {
        return false;
      }
      var chunks := At(d).retained[version];
      var upserted := if Upsert in faults then sent * chunks else chunks;
      Put(d, At(d).(vectors := At(d).vectors + VectorsOf(version, upserted)));
      return Upsert !in faults;
    }

    /** `_activate_existing_version`: the version index, pointed at a version it already lists. */
    method ActivateExistingVersion(d: DocumentId, version: Version, faults: set<Call>) returns (done: bool)
      requires Valid() && version in IdsOf(At(d).index)
      requires At(d).Safe() ==> At(d).Present(version)
      modifies this
      ensures Valid() && backend == old(backend)[d := At(d)]
      ensures At(d) == old(At(d)).(index := At(d).index) && IdsOf(At(d).index) == IdsOf(old(At(d)).index)
      ensures old(At(d)).Safe() ==> At(d).Safe()
      ensures done <==> ActivateExisting !in faults
      ensures done ==> At(d).Active() == Some(version) && version != ""
      ensures !done ==> At(d) == old(At(d))
    {
      if ActivateExisting in faults {
        return false;
      }
      RestoreKeepsIndex(version, At(d).index);
      Put(d, At(d).(index := RestoreMutation(version, At(d).index)));
      return true;
    }

    /** Re-indexes a listed version unless its vectors are live. */
    method EnsureVectors(d: DocumentId, version: Version, sent: set<nat>, faults: set<Call>) returns (ready: bool)
      requires Valid() && version in IdsOf(At(d).index)
      modifies this
      ensures Valid() && backend == old(backend)[d := old(At(d)).(vectors := At(d).vectors)]
      ensures old(At(d)).vectors <= At(d).vectors
      ensures forall x :: x in At(d).vectors && x !in old(At(d)).vectors ==> x.version == version
      ensures old(At(d)).Active() == Some(version) ==> At(d).vectors == old(At(d)).vectors
      ensures ready <==> old(At(d)).Active() == Some(version) || CanReindex(old(At(d)), version, faults)
      ensures ready ==> At(d).Present(version) || (old(At(d)).Active() == Some(version))
    {
      TargetLookup(At(d), version);
      if Find(At(d).index.value.versions, version).value.vectorsPresent {
        return true;
      }
      ready := ReindexVersion(d, version, sent, faults);
    }

    /** The part of `restore_version` behind its checks: re-index if needed, activate, point the record. */
    method RestoreKnownVersion(d: DocumentId, record: Record, version: Version, sent: set<nat>, faults: set<Call>)
      returns (done: bool)
      requires Valid() && Stored(d) == Some(record) && !record.status.Deleted? && version in IdsOf(At(d).index)
      modifies this
      ensures Valid() && backend == old(backend)[d := At(d)]
      ensures At(d).retained == old(At(d)).retained && IdsOf(At(d).index) == IdsOf(old(At(d)).index)
      ensures old(At(d)).Active() == Some(version) ==> At(d).vectors == old(At(d)).vectors
      ensures old(At(d)).Safe() ==> At(d).Safe()
      ensures done <==> CanRestore(old(At(d)), version, faults)
      ensures done ==> At(d).Published() == Some(version) && At(d).Active() == Some(version)
      ensures done && old(At(d)).Active() != Some(version) ==> At(d).Present(version)
      ensures Stored(d) == Some(if done then record.(activeVersion := Some(version), status := Indexed) else record)
      ensures old(At(d)).vectors <= At(d).vectors
      ensures forall x :: x in At(d).vectors && x !in old(At(d)).vectors ==> x.version == version
    {
      ghost var start := At(d);
      var ready := EnsureVectors(d, version, sent, faults);
      MoreVectorsAreSafe(start, At(d).vectors);
      if !ready {
        return false;
      }
      var activated := ActivateExistingVersion(d, version, faults);
      assert backend == old(backend)[d := At(d)];
      if !activated {
        return false;
      }
      done := SaveProgress(d, record.(activeVersion := Some(version), status := Indexed), SaveRestored, faults);
    }

    /** `restore_version`; `sent` is what a failing re-index got through. */
    method RestoreVersion(d: DocumentId, version: Version, sent: set<nat>, faults: set<Call>) returns (r: RestoreResult)
      requires Valid()
      modifies this
      ensures Valid() && Only(d)
      ensures At(d).retained == old(At(d)).retained && IdsOf(At(d).index) == IdsOf(old(At(d)).index)
      ensures r.NoDocument? <==> !old(At(d)).Live()
      ensures old(At(d)).Live() && LoadIndex !in faults ==>
        (r.VersionNotFound? <==> version !in IdsOf(old(At(d)).index))
      ensures r.NoDocument? || r.VersionNotFound? ==> At(d) == old(At(d))
      ensures old(At(d)).Active() == Some(version) ==> At(d).vectors == old(At(d)).vectors
      ensures old(At(d)).Safe() ==> At(d).Safe()
      ensures r.Restored? <==>
        && old(At(d)).Live() && LoadIndex !in faults
        && version in IdsOf(old(At(d)).index) && CanRestore(old(At(d)), version, faults)
      ensures r.Restored? ==> At(d).Published() == Some(version) && At(d).Active() == Some(version)
      ensures r.Restored? && old(At(d)).Active() != Some(version) ==> At(d).Present(version)
      ensures r.Restored? ==>
        Stored(d).value.version == old(Stored(d)).value.version && Stored(d).value.owner == old(Stored(d)).value.owner
      ensures r.RestoreFailed? ==> Stored(d) == old(Stored(d)) && At(d).Published() == old(At(d)).Published()
      ensures old(At(d)).vectors <= At(d).vectors
      ensures forall x :: x in At(d).vectors && x !in old(At(d)).vectors ==> x.version == version
    {
      var record := GetDocument(d);
      if record.None? || record.value.status.Deleted? {
        return NoDocument;
      }
      if LoadIndex in faults {
        return RestoreFailed;
      }
      TargetLookup(At(d), version);
      var index := At(d).index;
      if index.None? || Find(index.value.versions, version).None? {
        return VersionNotFound;
      }
      var done := RestoreKnownVersion(d, record.value, version, sent, faults);
      return if done then Restored else RestoreFailed;
    }
  }
}
