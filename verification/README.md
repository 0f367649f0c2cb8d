# A verified model of the RAG service's protocols and scanners

This project models, in Dafny 4.11, the parts of the repository whose correctness
depends on interleavings, on whole runs, or on exact positions in a text, and proves
what they guarantee.

* **Artifact store** (`Storage`, `CasLinearization`, `DocumentWrites`): one object per
  key with a generation number, create-only and conditional writes, the retry loop of
  `update_json_cas` as an object with explicit interference, and the theorem that any
  interleaving of such loops is a sequence of atomic steps. The hand-written loop of
  `_persist_record` is an instance.
* **Document publication** (`Documents`, `Publication`, `PublicationSafety`,
  `PublicationHistory`, `PublicationOutcomes`, `PublicationAlone`, `RagService`,
  `ServiceRuns`, `SearchGate`): uploads, ingestion workers, deletes, restores and
  searches on one document as a step system with stale local copies, a cache per
  process, a version index and a vector index; the safety theorems hold for every
  schedule, an operation that ends well has made its change, and one that goes on alone,
  undisturbed or failing at any call, leaves exactly what it should. `RagService` is the
  same life cycle as a class whose methods run one at a time, with a fault possible at
  every backend call, and `ServiceRuns` is what any sequence of those operations keeps.
  `SearchGate` is the loop that filters a result list.
* **Replay runs** (`Replay`, `ReplayOutcomes`, `ReplayWorker`), **AI configuration**
  (`AiConfig`, `AiConfigOutcomes`, `AiConfigStore`) and **feedback promotion**
  (`Promotion`, `PromotionOutcomes`, `FeedbackService`): each protocol once as a step
  system, with its invariant, theorems over all schedules, and what each operation does
  alone; and once as the imperative code, which is proved to take exactly the steps of the
  system whatever it finds in the store (`Sessions`).
* **Keyset paging** (`KeysetPaging`, `PagedRuns`, `Base64Url`, `Cursor`, `Corpus`,
  `CorpusContents`, `FeedbackInbox`): whole browsing runs over a collection that changes
  between requests, through opaque signed cursors, and what they show in terms of the
  fields of the documents and items.
* **Scanners and splitters** (`SqlComments`, `SqlPieces`, `MarkerSplit`, `Sse`):
  index-driven loops proved against recursive specifications, independently of how their
  input was cut; and the comment stripper against how a text was written.
* **Rate limiter, clustering, upload scheduler** (`RateLimit`, `Skew`, `Grouping`,
  `Vectors`, `CosineBound`, `Clusters`, `UploadManager`): mutable structures proved
  against a keep-everything history, a labelling, and a first-come-first-served line;
  what the cosine implies for the number of clusters, and clock readings out of order
  for the limit.

In the step systems a schedule is any sequence of moves; each move lets one actor
take one step, and every access to the store is a step of its own. `Run(schedule)` is
the state after it. A statement about `Run(schedule)` for an arbitrary schedule is a
statement about every reachable state.

Where the code and its documentation differ, the model follows the code:

* `_cluster_outcomes` promises at most `max_topics` clusters, but an outcome whose
  similarity to every cluster is exactly -1 opens one more. For embeddings of one length
  and the code's cosine only a limit of one can be exceeded, and it is exactly if some
  outcome is opposite to the sum of all before it (`CosineBound.LimitHoldsExactly`;
  `CosineBound.OppositeQuestionsBreakTheLimit` is an instance).
* `check` promises at most `limit` events in a window, but it reads the clock before it
  takes the lock. When a reading can arrive `skew` behind the latest one, events that are
  `limit` apart in number are at least the window less twice the skew apart in time
  (`RateLimit.LimitUnderSkew`), and that bound is reached (`RateLimit.Overtaken`).
* `check` promises the time until the oldest event ages out; its rounding can fall
  short of it by less than a millisecond (`RateLimit.RetryCoversTheWait`,
  `RateLimit.RetryCanFallShort`).
* The streamed marker contract does not read back prose that ends in an early part of
  the marker (`MarkerSplit.ReadsBackAsWritten` says exactly when it does).
* The event-stream reader trims all white space around a field and dispatches an
  unended last frame; the WHATWG HTML Standard (section 9.2.6) removes one space and
  discards such a frame.
* A failed ingestion of the version that is already published does remove its vectors
  (`RagService.AftermathSparesExactly` says exactly which versions survive;
  `ServiceRuns.RedeliveryRemovesPublishedVectors` is a run in which it happens).

## Model

| member | source | states |
|---|---|---|
| Storage.LatestAppend | src/rag_system/storage.py:84-98 | After any further writes, the payload read back is that of the last of them that went to the key, or the old one exactly if none did |
| Storage.ObjectStore.GetJsonWithEtag | src/rag_system/storage.py:84-98 | A read returns the latest payload written under the key, with a generation that is present exactly if the object is |
| Storage.ObjectStore.PutJsonConditional | src/rag_system/storage.py:100-139 | A create-only write is accepted exactly if the key is absent, a conditional one exactly if the generation still matches; a refused write changes nothing |
| Storage.ObjectStore.Attempt | src/rag_system/storage.py:151-176 | One attempt with other clients writing in between: it wins with a mutation of exactly the payload it replaced, or loses because that key was written in the window |
| Storage.ObjectStore.UpdateJsonCas | src/rag_system/storage.py:141-176 | On success the log is the others' writes followed by this one, whose mutation saw the payload it replaced; an error or exhaustion writes nothing, and exhaustion means a competing write in every window |
| CasLinearization.CommitIsLinear | src/rag_system/storage.py:151-176 | An accepted write extends the atomic history by its client, whose mutation saw what it replaced |
| CasLinearization.Linearization | src/rag_system/storage.py:144-176 | Any interleaving of callers on one key is a sequence of atomic steps: the object holds what the committed callers leave in commit order, each committed once, a successful call returns what it stored, a failed one is not among them |
| CasLinearization.ObjectFollowsCommits | src/rag_system/storage.py:151-176 | Over any part of any run the object is unchanged exactly if no caller committed; each commit raises the generation, and the commits made so far stay the first ones: lost races, refusals and exhaustion write nothing |
| CasLinearization.UncontendedWriteSucceeds | src/rag_system/storage.py:151-176 | A caller loses an attempt only to a write that was accepted since it read |
| DocumentWrites.PersistRecordIsAtomic | src/rag_system/service.py:1146-1221 | Any interleaving of persisting callers is a sequence of atomic check-guard-then-write steps; what is stored is the last accepted record, and a caller returns exactly if its write was accepted |
| DocumentWrites.PersistRecord | src/rag_system/service.py:1180-1194 | The hand-written loop, over a record that others change arbitrarily before each access, takes exactly the steps of a client of that theorem; `Documents.RejectionExactly` says which error answers which record |
| Documents.RejectionExactly | src/rag_system/service.py:1197-1221 | The guard answers that the document is deleted exactly if the stored record is and the new one is not, and that the ingestion is stale exactly if neither is so, the versions differ and the new record is neither queued nor deleted |
| Documents.PublishedExactly | src/rag_system/service.py:1012-1025 | A live record publishes its pointer, or its own version if it is indexed and has none; a deleted one publishes nothing |
| DocumentWrites.ClientFollowsItsSteps | src/rag_system/service.py:1180-1194 | In every schedule of that theorem each client stands where a caller of the hand-written loop stands that found the same at its accesses |
| DocumentWrites.PersistedIsCommitted | src/rag_system/service.py:1180-1194 | A caller of the loop that returned without an error inside any schedule is one of the committed clients |
| Documents.ActivateKeepsIndex | src/rag_system/service.py:755-791 | Publishing a version keeps ids distinct and the liveness flag on exactly the active member, keeps every id, adds its own and makes it active |
| Documents.RestoreKeepsIndex | src/rag_system/service.py:909-929 | Restoring succeeds exactly for a listed version and keeps the invariant and the id set |
| Documents.LiveFlagMeansActive | src/rag_system/service.py:866-888 | The flag that decides about re-indexing is set exactly for the index's active version |
| PublicationSafety.RunKeeps | src/rag_system/service.py:261-582 | The invariant of the publication protocol holds after every schedule |
| PublicationSafety.CompletedWasUpserted | src/rag_system/service.py:475-482 | A version counts as complete only after a step in which an upsert of it ended with every chunk accepted |
| PublicationSafety.PublishedWasUpserted | src/rag_system/service.py:317-338 | After any interleaving of uploads, ingestions, deletes and restores, every active version in the store, in a cache or in a local copy names a version whose full upsert ended earlier |
| PublicationSafety.SearchReturnsOneFinishedVersion | src/rag_system/service.py:1568-1610 | A search that ran inside any interleaving returns one version only, and one whose full upsert ended earlier |
| PublicationSafety.VersionIndexInvariant | src/rag_system/service.py:755-791 | In every reachable state the version index has distinct ids, an active member and the flag on exactly that member, lists finished versions only, and never loses an id again |
| PublicationSafety.RestoreDecision | src/rag_system/service.py:847-888 | A restore skips re-indexing exactly if its target is the index's active version; an unknown target ends it with nothing changed |
| PublicationSafety.RestoreNeverLosesItsTarget | src/rag_system/service.py:918-929 | The not-found branch inside the restore's compare-and-set is unreachable |
| PublicationSafety.DeletedIsTerminal | src/rag_system/service.py:1197-1213 | Once `deleted` is stored, it is stored after every continuation of the run |
| PublicationSafety.VersionChangesOnlyByUploadOrDelete | src/rag_system/service.py:1197-1221 | No step of any run changes the stored version except a `queued` or a `deleted` write |
| PublicationHistory.RunIsTold | src/rag_system/service.py:261-929 | After every schedule: each record in an operation's hands has version, pointer and owner of a record that was stored; a publishing write makes its own version the published one; a failure write keeps the pointer; each stage stands behind the writes that lead to it |
| PublicationOutcomes.IngestedWasPublished | src/rag_system/service.py:475-513 | An ingestion behind its publishing write made its own version the stored published one, and one that got to the clean-up also made it the index's active one, at a moment of the run; an ingestion ends well for its own version only |
| PublicationOutcomes.RestoredWasPublished | src/rag_system/service.py:872-904 | A restore that ended well made its target the stored published version and the index's active one |
| PublicationOutcomes.RemovedIsDeleted | src/rag_system/service.py:279-292 | A delete that ended well left the document deleted for good; an ingestion rolls vectors back only if the stored record is deleted |
| PublicationOutcomes.UploadedWasQueued | src/rag_system/service.py:294-361 | An upload that ended well stored its version as queued |
| PublicationOutcomes.SearchedByOneRecord | src/rag_system/service.py:1568-1610 | What a search kept are all the hits of the version that one stored record published, each as often as it was hit, or nothing |
| PublicationOutcomes.NothingFailedBefore | src/rag_system/service.py:401-582 | An operation that ended well, or still may, has had none of the calls it needs fail |
| PublicationOutcomes.VectorsChangeOnlySo | src/rag_system/service.py:641-673 | In any step of any run a vector appears only by an upsert of its version, and disappears only by the clean-up behind an ingestion that published another version, the clean-up of its own failed version, a delete, or a roll-back of a deleted document; each of these removes all it is meant to |
| PublicationAlone.IngestsAlone | src/rag_system/service.py:370-513 | From every reachable state with a cache that is not behind, an undisturbed ingestion publishes its version with all its vectors, as the record's pointer and the index's active version, exactly if the document is live and of that version; otherwise it changes nothing |
| PublicationAlone.IngestionCanFinish | src/rag_system/service.py:370-513 | Every run that has the stored version live can be continued so that its ingestion ends well |
| PublicationAlone.FailedStageEndsAlone | src/rag_system/service.py:520-582 | An ingestion whose call fails, at whatever stage, leaves a failed record with the old pointer and removes the vectors of its version only; overtaken by a delete it removes all vectors, overtaken by an upload none |
| PublicationAlone.OvertakenEndsAlone | src/rag_system/service.py:520-540 | An ingestion that finds itself overtaken at a write stops: a deleted document loses its vectors, a replaced one does not |
| PublicationAlone.FailedStartEndsAlone | src/rag_system/service.py:388-399 | Without its raw content an ingestion, and without its queue an upload, leaves a failed record and nothing else |
| PublicationAlone.UploadsAlone | src/rag_system/service.py:294-361 | An undisturbed upload is refused exactly for a deleted document; otherwise it queues its version, keeps the published version and the first owner, and touches neither index nor vectors |
| PublicationAlone.UpdatesAlone | src/rag_system/service.py:261-277 | An undisturbed update does the same exactly for a live document |
| PublicationAlone.DeletesAlone | src/rag_system/service.py:279-292 | An undisturbed delete leaves a deleted record and no vectors, exactly for a live document |
| PublicationAlone.RestoresAlone | src/rag_system/service.py:847-929 | An undisturbed restore succeeds exactly for a listed version of a live document that is active or has chunks; it publishes it, and rebuilds its vectors exactly if it is not the active one |
| PublicationAlone.SearchesAlone | src/rag_system/service.py:1568-1610 | An undisturbed search keeps exactly the hits of the stored published version |
| PublicationAlone.WritesAfterLostRaces | src/rag_system/service.py:1180-1194 | However many races a record write has lost, it succeeds if it is left alone before its last attempt, and raises exactly if no attempt is left |
| RagService.RagService.GetDocument | src/rag_system/service.py:1027-1060 | Although terminal records are served from the cache, the result always equals the stored record |
| RagService.RagService.SaveDocumentRecord | src/rag_system/service.py:1130-1221 | The guard decides, as `Documents.RejectionExactly` says for both errors; an accepted record is stored and cached, a refused or failed write changes neither store nor cache |
| RagService.FirstOwnerIsKept | src/rag_system/service.py:318-340 | A fresh upload is of its version, carries the published version, and keeps the first owner; a document without one gets the uploader |
| RagService.RagService.QueueDocument | src/rag_system/service.py:294-361 | Uploading a version keeps the published version published and searchable; it is refused exactly for a deleted document, fails in the store exactly if the queued write fails, and leaves a failed record exactly if only the queue fails |
| RagService.RagService.UpdateDocument | src/rag_system/service.py:261-277 | Replacing content is offered exactly for live documents, succeeds exactly if the upload does, and keeps the published version searchable |
| RagService.RagService.DeleteDocument | src/rag_system/service.py:279-292 | A completed delete leaves a terminal record and no vectors; what an interrupted one leaves, by the call that failed |
| RagService.RagService.PrepareStages | src/rag_system/service.py:401-470 | The stages up to the index complete exactly if none of their calls fails, and change only the progress of the record and the retained content, wherever they stop |
| RagService.RagService.SaveProgress | src/rag_system/service.py:1130-1144 | In a serialized service a progress write for the stored version is accepted unless the store fails |
| RagService.RagService.PublishStages | src/rag_system/service.py:475-513 | Publication completes exactly if none of its calls fails; a stop anywhere before the end leaves the old publication, or the new one with all its vectors |
| RagService.RagService.RecordFailure | src/rag_system/service.py:541-582 | The failure write restores the old pointer, and the clean-up removes vectors of the failed version only |
| RagService.RagService.CleanupSuperseded | src/rag_system/service.py:641-659 | The clean-up after publication removes other versions only; the published one stays complete |
| RagService.InterruptedIsSafe | src/rag_system/service.py:401-582 | A stopped ingestion of another version leaves a document with a published version, all of it searchable |
| RagService.FailureIsSafe | src/rag_system/service.py:541-582 | Recording the failure puts the old publication back and never touches its vectors |
| RagService.AftermathIsSafe | src/rag_system/service.py:401-582 | Whatever set of backend calls failed, the aftermath of a failed ingestion of another version is safe |
| RagService.AftermathSparesExactly | src/rag_system/service.py:661-673 | After a failure whose clean-up ran, a version that was searchable in full still is, exactly if it is not the failed one or has no chunks |
| RagService.AftermathKeeps | src/rag_system/service.py:541-582 | No failed ingestion touches the version index, the retained chunks of other versions or the stored version; with the failure recorded the pointer is the old one |
| RagService.RagService.RunIngestion | src/rag_system/service.py:401-582 | Exactly if no stage fails the version is published with all its vectors and indexed as active; otherwise the document is in the aftermath of a failure |
| RagService.RagService.ProcessDocumentJob | src/rag_system/service.py:370-582 | A job is skipped exactly for a missing, deleted or superseded version; any other ingests exactly if the raw content can be read and no stage fails, and keeps the owner; a failed one leaves a failed record with the old pointer; a fault at any position costs a safe document neither its published version nor its searchability, and the exact condition when the version is its own |
| RagService.RagService.ReindexVersion | src/rag_system/service.py:931-956 | Re-indexing ends exactly if the version has retained chunks that can be read and the upsert goes through; it only adds vectors, of the version only, and all of them if it ends |
| RagService.RagService.ActivateExistingVersion | src/rag_system/service.py:909-929 | Activating a listed version succeeds exactly unless the store fails; it loses no id and changes nothing but the version index |
| RagService.RagService.RestoreKnownVersion | src/rag_system/service.py:872-904 | A restore of a listed version ends exactly if the version is the active one or can be rebuilt and both writes go through; it re-indexes only a version that is not active, and moves the publication only if it ends |
| RagService.RagService.RestoreVersion | src/rag_system/service.py:847-929 | A restore reports a missing document or version exactly then and with nothing changed, and succeeds exactly if a listed version is active or can be rebuilt and both writes go through; it never loses a version id, leaves the vectors alone if the target is active, and keeps a safe document safe at every fault |
| ServiceRuns.RunAll | src/rag_system/service.py:261-929 | After any sequence of uploads, updates, ingestions, deletes and restores of any documents, with any backend calls failing, every live document can be searched as published, and its index and pointer name only versions whose ingestion reached the publication switch; provided no version is ingested again after that, and no delete loses only its record write |
| ServiceRuns.Perform | src/rag_system/service.py:261-929 | Each operation keeps that of its document and leaves all other documents alone |
| ServiceRuns.FirstIngestionPublishes | src/rag_system/service.py:294-513 | A first upload and ingestion in which nothing fails publish the version with all its vectors |
| ServiceRuns.RedeliveryRemovesPublishedVectors | src/rag_system/service.py:541-582 | Redelivering that job with a parse that fails leaves the version published and its vectors gone |
| SearchGate.FilterToActiveVersions | src/rag_system/service.py:1587-1610 | The loop keeps exactly the hits, in order, whose version was the answer at their document's first hit |
| SearchGate.PassingIsExact | src/rag_system/service.py:1587-1610 | A hit is kept exactly if it is in the list and passes |
| SearchGate.OneVersionPerDocument | src/rag_system/service.py:1587-1610 | No result list mixes two versions of a document, however often its pointer moves while the list is filtered |
| Replay.StoredRunIsConsistent | src/rag_system/replay.py:349-408 | In every reachable store the cancel flag is set exactly if cancelled, a result exactly if completed, a reason exactly if failed |
| Replay.StoredRunMovesForward | src/rag_system/replay.py:597-645 | Over the rest of any run a terminal stored run never changes, and the state only moves from queued to running to terminal |
| Replay.Agreement | src/rag_system/replay.py:709-823 | All terminal outcomes ever returned by any worker or canceller agree on state, result and reason, and with the store |
| Replay.LaterAgreement | src/rag_system/replay.py:709-823 | An outcome returned early agrees with one returned any number of steps later |
| Replay.FlagBranchIsDead | src/rag_system/replay.py:629-634 | The branch for a flagged run that is not terminal is unreachable |
| ReplayOutcomes.CancellerReturnsVerdict | src/rag_system/replay.py:349-408 | Over every schedule, whatever a canceller returns is terminal and is the stored verdict; if that is cancelled, there is neither result nor reason and the stored run is flagged |
| ReplayOutcomes.CancelReplacesLiveRuns | src/rag_system/replay.py:380-403 | An accepted cancel write makes a live run cancelled, flagged and without result or reason, leaves a terminal run as it is, and returns what is then stored |
| ReplayOutcomes.NoStageAfterCancel | src/rag_system/replay.py:825-929 | Once a run is cancelled, no worker begins another stage of it |
| ReplayOutcomes.ResultWasAnswered | src/rag_system/replay.py:709-823 | A stored result is an answer that some execution of the run gave |
| ReplayOutcomes.ReasonWasRaised | src/rag_system/replay.py:709-823 | A stored reason is that of a stage that raised or ran out of time, or says that recording the result lost every race |
| ReplayOutcomes.CancelledByCanceller | src/rag_system/replay.py:349-408 | A run is stored as cancelled only after a canceller wrote |
| ReplayOutcomes.WorkerAlone | src/rag_system/replay.py:709-929 | A worker that nobody races completes a queued run with exactly its answer; if a stage raises or runs out of time, it fails it with exactly that reason |
| ReplayOutcomes.WorkerCanFinish | src/rag_system/replay.py:709-929 | Every run that is still queued can be continued so that one worker ends it so |
| ReplayOutcomes.CancellerAlone | src/rag_system/replay.py:349-408 | A canceller that nobody races cancels a live run and returns a terminal one as it is |
| ReplayOutcomes.FlagStopsWorkerAlone | src/rag_system/replay.py:729-760 | A worker that finds the flag, at once or when it looks again, runs no stage and leaves the run cancelled |
| ReplayOutcomes.TransitionAfterLostRaces | src/rag_system/replay.py:597-645 | However many races a transition has lost, it stores its target, or leaves a terminal run alone, unless no attempt is left; a result that could not be recorded becomes a failure |
| ReplayWorker.Caller.Mutate | src/rag_system/replay.py:618-642 | The closure that edits the stored run in place computes the transition of the step system |
| ReplayWorker.Caller.Transition | src/rag_system/replay.py:597-645 | The transition with its retry loop takes exactly the steps of the step system |
| ReplayWorker.Caller.ExecuteWithTimeout | src/rag_system/replay.py:825-929 | The staged execution with its boundary checks takes exactly the steps of the step system, for every way each stage can go |
| ReplayWorker.Caller.ExecuteRun | src/rag_system/replay.py:709-823 | The worker as written ends as the step system's worker does, whatever it finds in the store at each access |
| ReplayWorker.Caller.CancelReplayRun | src/rag_system/replay.py:349-408 | The canceller as written ends as the step system's canceller does, whatever it finds in the store at each access; what that is, `ReplayOutcomes.CancellerAlone` and `ReplayOutcomes.CancellerReturnsVerdict` say |
| ReplayWorker.ActorFollowsItsSteps | src/rag_system/replay.py:709-823 | In every schedule an actor stands where a caller stands that took the same steps |
| ReplayWorker.ReturnedIsStored | src/rag_system/replay.py:709-823 | A terminal outcome returned by the code inside any schedule is the verdict of the store |
| ReplayWorker.ReturnedByCancelIsTerminal | src/rag_system/replay.py:349-408 | Whatever the canceller as written returns inside any schedule is terminal and the verdict of the store |
| AiConfig.HistoryIsAppendOnly | src/rag_system/ai_config.py:186-359 | Over the rest of any run the history and the activation log only grow at their ends, and every version object stays and keeps its governed settings, approvals included |
| AiConfig.AuditChain | src/rag_system/ai_config.py:297-359 | After any interleaving ids are distinct and stored, the first activation has no predecessor, each later one names what the one before selected, and the active pointer is the last selection |
| AiConfig.ReportedActivationIsLogged | src/rag_system/ai_config.py:297-359 | A reported activation is in the log and stays there |
| AiConfig.ResolverNeverDangles | src/rag_system/ai_config.py:504-530 | The dangling-pointer branch is unreachable, and what was resolved are the stored settings, then and later; which version that is, `AiConfigOutcomes.ResolvedWasActive` says |
| AiConfig.RollbackNeverLosesItsTarget | src/rag_system/ai_config.py:317-331 | After its pre-check a roll-back's re-check never refuses |
| AiConfigOutcomes.ResolvedWasActive | src/rag_system/ai_config.py:504-530 | Over every schedule, a resolver loads and serves only a version that was the active one at a moment of the run, and serves it as it was stored at a moment |
| AiConfigOutcomes.ReportedIsAskedFor | src/rag_system/ai_config.py:186-359 | A creation, approval or activation that was reported is the one asked for, with its id, approver, operator and reason, and has happened |
| AiConfigOutcomes.OnlyTheApproverChanges | src/rag_system/ai_config.py:244-295 | In every step of every run a version object is created as given, and after that only its approver changes |
| AiConfigOutcomes.IndexChangesOnlySo | src/rag_system/ai_config.py:226-343 | In every step of every run the index changes only by a creation, which lists its id last, or by an activation, which points at a listed id and logs who, why and what was active before |
| AiConfigOutcomes.CreatesAlone | src/rag_system/ai_config.py:186-242 | A creation that nobody races succeeds exactly for a description of 1 to 500 characters and a free id |
| AiConfigOutcomes.ApprovesAlone | src/rag_system/ai_config.py:244-295 | An approval that nobody races succeeds exactly for a stored version and sets its approver only |
| AiConfigOutcomes.RollsBackAlone | src/rag_system/ai_config.py:297-359 | A roll-back that nobody races succeeds exactly for a listed version, moves the pointer and logs the activation |
| AiConfigOutcomes.ResolvesAlone | src/rag_system/ai_config.py:504-575 | A resolver that nobody races serves the active version as stored and changes nothing; without one it seeds, activates and serves the defaults |
| AiConfigStore.AIConfigurationStore.CreateVersion | src/rag_system/ai_config.py:186-242 | Creation as written takes exactly the steps of the step system |
| AiConfigStore.AIConfigurationStore.TryAppend | src/rag_system/ai_config.py:226-233 | The closure that appends a created id to the history in place, without activating it, takes exactly those steps |
| AiConfigStore.AIConfigurationStore.ApproveVersion | src/rag_system/ai_config.py:244-295 | Approval as written takes exactly the steps of the step system |
| AiConfigStore.AIConfigurationStore.TryApprove | src/rag_system/ai_config.py:267-280 | The closure that records the approval in place takes exactly those steps and touches no other field |
| AiConfigStore.AIConfigurationStore.TryActivate | src/rag_system/ai_config.py:324-343 | The closure that moves the pointer and appends to the log in place takes exactly those steps, re-check included |
| AiConfigStore.AIConfigurationStore.Rollback | src/rag_system/ai_config.py:297-359 | Roll-back as written takes exactly the steps of the step system |
| AiConfigStore.AIConfigurationStore.Resolve | src/rag_system/ai_config.py:504-575 | The resolver with its bootstrap takes exactly the steps of the step system; `AiConfigStore.ResolveServesTheActive` says what it returns |
| AiConfigStore.ResolveServesTheActive | src/rag_system/ai_config.py:504-530 | A resolve that finds a version active and stored at each of its accesses returns exactly that version |
| AiConfigStore.ActorFollowsItsSteps | src/rag_system/ai_config.py:186-359 | In every schedule an actor stands where a caller stands that took the same steps |
| AiConfigStore.ReturnedActivationIsLogged | src/rag_system/ai_config.py:297-359 | An activation that the code returned inside any schedule is in the log and stays there |
| Promotion.CaseIdsAreDistinct | src/rag_system/feedback.py:457-465 | Different feedback items never share a case id |
| Promotion.AtMostOnePromotion | src/rag_system/service.py:1508-1566 | Over any interleaving of classify, resolve and promote, at most one promotion of an item succeeds, and the item points at its case |
| Promotion.PointerIsPermanent | src/rag_system/service.py:1550-1557 | A set pointer names the existing case with the item's answer; neither pointer nor case ever changes again |
| Promotion.WinnerIsNeverRefused | src/rag_system/service.py:1550-1557 | The re-check inside the compare-and-set never fires for the creator of the case |
| PromotionOutcomes.ReturnedIsAskedFor | src/rag_system/feedback.py:425-465 | A review returns the item with exactly the category, reviewer and status asked for, and only for a known category; a promotion returns the case made of its question and the item's answer |
| PromotionOutcomes.ItemChangesOnlySo | src/rag_system/service.py:1453-1566 | In every step of every run the item changes only by a review, which leaves the pointer and the answer alone, or by the promotion, which sets nothing but the pointer; the case never changes |
| PromotionOutcomes.ReviewsAlone | src/rag_system/service.py:1453-1506 | A review that nobody races succeeds exactly for a known category and an item that is there |
| PromotionOutcomes.PromotesAlone | src/rag_system/service.py:1508-1566 | A promotion that nobody races succeeds exactly for an item that is not promoted, has an answer that is not blank, and whose case key is free; which error says so otherwise |
| FeedbackService.FeedbackService.ReviewFeedback | src/rag_system/service.py:1453-1506 | Classification and resolution as written take exactly the steps of the step system; an unknown category writes nothing |
| FeedbackService.FeedbackService.TryRecord | src/rag_system/service.py:1550-1557 | The compare-and-set of the pointer re-checks the guards against the item it replaces |
| FeedbackService.FeedbackService.PromoteFeedback | src/rag_system/service.py:1508-1566 | Promotion as written takes exactly the steps of the step system |
| FeedbackService.OnlyOneCallPromotes | src/rag_system/service.py:1508-1566 | Of any number of promotion calls inside one schedule, no two return a case |
| KeysetPaging.SortMultiset | src/rag_system/corpus.py:401-407 | Sorting neither loses nor invents items |
| KeysetPaging.SortAscending | src/rag_system/corpus.py:401-407 | With distinct keys the sorted list is strictly ordered, in either direction |
| KeysetPaging.ResumedIsExact | src/rag_system/corpus.py:409-432 | A page resumes over exactly the listed items beyond the boundary, in order |
| KeysetPaging.StringLessIsLexicographic | src/rag_system/corpus.py:401-407 | The order of strings is the dictionary's: agreement up to a place where the first ends or has the smaller character |
| KeysetPaging.ShownWasFetched | src/rag_system/corpus.py:345-450 | Whatever a run shows was found by one of its fetches |
| KeysetPaging.ClampPageSize | src/rag_system/corpus.py:337-342 | A missing or oversized request gives the maximum, one below 1 gives 1, and a size in range is kept; a maximum below 1 counts as 1 |
| KeysetPaging.WalkAscends | src/rag_system/corpus.py:345-450 | Keys strictly advance over a whole run, whatever changes between pages, so nothing is returned twice |
| KeysetPaging.WalkCovers | src/rag_system/corpus.py:345-450 | A key present at every fetch of a run that ended is returned |
| KeysetPaging.ShownExactlyOnce | src/rag_system/corpus.py:345-450 | It is returned at exactly one position |
| KeysetPaging.PageCountIsLeast | src/rag_system/corpus.py:434-448 | The page count is the least positive number of pages that hold the items |
| KeysetPaging.UnchangedCollection | src/rag_system/corpus.py:345-450 | On an unchanged collection the pages together are the sorted list, on exactly that many pages |
| PagedRuns.BrowseIsWalk | src/rag_system/corpus.py:345-450 | A client that follows opaque next cursors makes the keyset walk, page by page |
| PagedRuns.BrowseShowsExactlyOnce | src/rag_system/corpus.py:345-450 | A client that follows opaque cursors sees a key found at every request at exactly one position |
| Base64Url.PaddedIsTokenPlusPadding | src/rag_system/corpus.py:144-155 | The padding that encoding strips is exactly what the token's length calls for, and the token has no dot and no padding sign (sections 3.2 and 5 of RFC 4648) |
| Base64Url.DecodeEncode | src/rag_system/corpus.py:144-155 | Decoding an encoded byte string gives it back, for every length |
| Base64Url.EncodingIsBigEndian | src/rag_system/corpus.py:144-155 | Three bytes and their four characters are the digits of one number, the highest first (section 4 of RFC 4648) |
| Cursor.OneDotIsTwoParts | src/rag_system/corpus.py:206-210 | Splitting a token at its dot gives exactly the two parts it was built from |
| Cursor.DecodeEncodeCursor | src/rag_system/corpus.py:162-243 | A minted cursor decodes to the boundary it was minted for |
| Cursor.AcceptedCursorIsSigned | src/rag_system/corpus.py:197-243 | Every accepted cursor has two parts, carries the right signature and was parsed |
| Corpus.MintedCursorResumes | src/rag_system/corpus.py:409-448 | A cursor the listing minted is accepted under the same sort and resumes at its key |
| Corpus.ListingServes | src/rag_system/corpus.py:345-450 | Each answer of the listing is the keyset page that its cursor's boundary asks for; what is on it, `CorpusContents` says in terms of the fields |
| Corpus.ListingAscends | src/rag_system/corpus.py:345-450 | Over a whole run keys strictly advance, although documents come and go between requests |
| Corpus.ListingShowsExactlyOnce | src/rag_system/corpus.py:345-450 | A document listed at every request with an unchanged sort value is returned exactly once |
| Corpus.ListingUnchanged | src/rag_system/corpus.py:345-450 | On an unchanged corpus the pages are the sorted, filtered list, on as many pages as it fills, at least one; which documents that are, `CorpusContents.ShownExactlyTheWanted` says |
| CorpusContents.ShownIsWanted | src/rag_system/corpus.py:250-310 | Every document a run shows is the viewer's own unless the viewer is an operator, meets every filter that is set by its own fields, and contains the folded search term in its folded fields |
| CorpusContents.WantedIsShown | src/rag_system/corpus.py:250-310 | Conversely, a document that is so and is there at every request of an ended run is shown |
| CorpusContents.ShownExactlyTheWanted | src/rag_system/corpus.py:250-310 | On an unchanged corpus an ended run shows exactly those documents |
| CorpusContents.ShownInOrder | src/rag_system/corpus.py:313-334 | Documents are shown by folded title, folded owner or date, whichever was asked for, with the id breaking ties, in the direction asked for |
| CorpusContents.FailsExactly | src/rag_system/corpus.py:345-432 | A request fails exactly if its search term is longer than 200 characters, or else its cursor does not decode or was minted under another sort |
| FeedbackInbox.SelectNegative | src/rag_system/feedback.py:263-276 | The loop selects, in order, exactly the ratings of one or two with the asked-for status |
| FeedbackInbox.InboxServes | src/rag_system/feedback.py:323-390 | Each answer of the inbox is the keyset page that its cursor's boundary asks for |
| FeedbackInbox.InboxShowsExactlyOnce | src/rag_system/feedback.py:323-390 | A run goes strictly from newer to older; an item selected at every request of an ended run is shown exactly once |
| FeedbackInbox.InboxUnchanged | src/rag_system/feedback.py:323-390 | On an unchanged inbox the pages are the selected items, newest first, on as many pages as they fill |
| FeedbackInbox.ShownIsWanted | src/rag_system/feedback.py:145-147 | Every item a run shows has a rating of one or two and the status asked for |
| FeedbackInbox.WantedIsShown | src/rag_system/feedback.py:323-390 | Conversely, such an item that is there at every request of an ended run is shown |
| FeedbackInbox.NewestFirst | src/rag_system/feedback.py:323-390 | Of two items shown the later one is older, or as old with a smaller id |
| FeedbackInbox.FailsExactly | src/rag_system/feedback.py:323-390 | A request fails exactly if its cursor does not decode or was minted under another status |
| SqlComments.CopyQuoted | src/rag_system/copilot.py:107-122 | The scan over a quoted piece stops behind its closing quote and copies it verbatim |
| SqlComments.SkipLine | src/rag_system/copilot.py:123-126 | The scan over a line comment stops at the end of the line |
| SqlComments.SkipBlock | src/rag_system/copilot.py:138-148 | The scan over a block comment stops where all nested comments are closed, or at the end |
| SqlComments.ScanOne | src/rag_system/copilot.py:105-152 | One turn of the scan consumes exactly the lexer's next piece and adds what is left of it |
| SqlComments.StripSqlComments | src/rag_system/copilot.py:92-153 | The index-driven scan computes the text of the lexed pieces with each comment replaced by one blank, and ends on every text |
| SqlComments.FirstAt | src/rag_system/copilot.py:92-153 | Where the scan stops in the whole text is where the lexer's next piece ends |
| SqlComments.LexIsLossless | src/rag_system/copilot.py:92-153 | The lexed pieces, one after the other, are the text |
| SqlComments.StrippedLexesAlike | src/rag_system/copilot.py:92-153 | The output lexes as the input does, with each comment a plain blank |
| SqlComments.NoCommentSurvives | src/rag_system/copilot.py:92-153 | The output re-lexes without any comment |
| SqlComments.QuotesSurvive | src/rag_system/copilot.py:107-122 | Quoted literals and identifiers come through verbatim and in order |
| SqlComments.StripIsIdempotent | src/rag_system/copilot.py:92-153 | Stripping twice is stripping once |
| SqlComments.StripNeverGrows | src/rag_system/copilot.py:92-153 | The output is never longer than the input |
| SqlComments.BlocksNest | src/rag_system/copilot.py:138-148 | Closing inner and outer levels at once is closing the inner and then the outer ones: block comments nest (section 4.1.5 of the PostgreSQL manual) |
| SqlPieces.StripsExactlyTheComments | src/rag_system/copilot.py:92-153 | A text written from literals with doubled quotes, line comments, block comments nested to any depth and single characters is stripped of exactly its comments, each leaving a blank |
| SqlPieces.FirstIsPiece | src/rag_system/copilot.py:105-152 | Each such piece is lexed as what it was written as, whatever follows it |
| SqlPieces.OpenRunsToTheEnd | src/rag_system/copilot.py:107-148 | An open literal or block comment runs to the end of the text |
| MarkerSplit.SplitStream | src/rag_system/generation.py:213-243 | However the text is cut, the deltas together are the text before the first marker, the answer is that text stripped, the metadata the stripped rest, and at every moment exactly the releasable part is out |
| MarkerSplit.ForwardPiece | src/rag_system/generation.py:216-231 | One piece releases exactly what the text so far allows and no delta is empty |
| MarkerSplit.ReleasedIsProse | src/rag_system/generation.py:225-231 | What is released never reaches into the marker, however the text goes on |
| MarkerSplit.HoldBackIsTight | src/rag_system/generation.py:225-231 | A text that ends in all but the last character of the marker needs all nine characters that are held back |
| MarkerSplit.ReleasableExactly | src/rag_system/generation.py:225-231 | How much of a text without a marker could be released is exactly what precedes the longest beginning of the marker that it ends in |
| MarkerSplit.HeldPartCanBecomeMarker | src/rag_system/generation.py:225-231 | Some of a text without a marker can still turn out to be the marker exactly if the text ends in a proper beginning of it |
| MarkerSplit.HoldBackIsLeastConstant | src/rag_system/generation.py:225-231 | A constant number of held characters is safe for all texts exactly from nine on, and nine is what the loop holds back |
| MarkerSplit.ReadsBackAsWritten | src/rag_system/generation.py:213-243 | Prose, marker and metadata are read back as written exactly if the prose holds no marker and does not end in one begun early |
| Sse.DispatchSseFrame | frontendkimchi/src/api/copilot.ts:254-303 | The loop over the lines finds the last event type and all data lines, and makes the handler call they ask for |
| Sse.TailIsEnough | frontendkimchi/src/api/copilot.ts:235-245 | Text that comes later is split alike if only the unended tail is kept |
| Sse.ThrowDecides | frontendkimchi/src/api/copilot.ts:235-246 | An exception in the frames of a text decides the outcome, whatever comes later |
| Sse.DrainBuffer | frontendkimchi/src/api/copilot.ts:239-244 | The inner loop makes the calls of exactly the frames the buffer completes, up to one that throws, and keeps the tail |
| Sse.ReadStream | frontendkimchi/src/api/copilot.ts:231-246 | The handler calls, and whether an exception ends them, depend on the text alone and not on chunk boundaries |
| Sse.PrintedSplits | src/rag_system/api.py:1033-1036 | A printed stream splits into exactly the frames printed |
| Sse.PrintedStreamReadsBack | src/rag_system/api.py:1033-1036 | A printed stream, cut anywhere, is read back as the events that were printed, in order |
| Sse.ServedEventsAllArrive | frontendkimchi/src/api/copilot.ts:268-303 | Events of known types carrying objects all lead to their handler call |
| Sse.ServedEventsHandOver | frontendkimchi/src/api/copilot.ts:268-303 | Which handler each of them calls, and with which field, by type, field names and fallbacks |
| Sse.OddEvents | frontendkimchi/src/api/copilot.ts:268-303 | Unknown types are ignored; a `null` throws exactly where a field of it is read |
| Sse.LinesRejoin | frontendkimchi/src/api/copilot.ts:254-264 | The lines of a frame, put together again, are the frame |
| Sse.LastTypeWins | frontendkimchi/src/api/copilot.ts:255-259 | The last `event:` line gives the type; without one it is `message` |
| Sse.AllDataIsKept | frontendkimchi/src/api/copilot.ts:256-264 | Every `data:` line is kept in its place, and nothing else is |
| RateLimit.SlidingWindowRateLimiter.Create | src/rag_system/rate_limit.py:42-50 | A limit below one is an error |
| RateLimit.SlidingWindowRateLimiter.Prune | src/rag_system/rate_limit.py:52-65 | Exactly the keys without an event in the window are dropped |
| RateLimit.SlidingWindowRateLimiter.SweepIfDue | src/rag_system/rate_limit.py:76-81 | At most once a window exactly the fully aged keys are dropped; nothing a window could need is lost, whatever order readings arrive in |
| RateLimit.SlidingWindowRateLimiter.AgedOut | src/rag_system/rate_limit.py:88-96 | Exactly the aged events at the front are dropped |
| RateLimit.SlidingWindowRateLimiter.Check | src/rag_system/rate_limit.py:67-103 | In whatever order readings arrive, an attempt is refused only if the last `limit` events let through lie in its window, and advises the wait for the first of them; it is allowed only if they do not, up to twice the skew. Without skew it is allowed exactly if the whole history has fewer than the limit in the window |
| RateLimit.AttemptIsNear | src/rag_system/rate_limit.py:74-103 | With readings that arrive up to a skew behind the latest one, an attempt keeps events that are `limit` apart in number at least the window less twice the skew apart in time |
| RateLimit.SweptIsNear | src/rag_system/rate_limit.py:52-81 | Pruning buckets whose last event looks aged to some reading keeps that too, for every key |
| RateLimit.LimitUnderSkew | src/rag_system/rate_limit.py:31-40 | In every reachable state, no window that is shorter than the configured one by twice the skew, wherever it lies, holds more than the limit of accepted events of a key; without skew, no window does |
| Skew.ShortWindowsHoldLimit | src/rag_system/rate_limit.py:31-40 | If events that are `limit` apart in number are some gap apart in time, no window of that length holds more than `limit` |
| RateLimit.Overtaken | src/rag_system/rate_limit.py:74-103 | For every limit of two or more and every skew below the window, a run in which that bound is reached |
| RateLimit.AttemptIsHealthy | src/rag_system/rate_limit.py:83-103 | The trimmed bucket is the window of the whole history, so pruning never changes an answer |
| RateLimit.BucketsStaySorted | src/rag_system/rate_limit.py:83-103 | Buckets stay sorted, non-empty and within the limit |
| RateLimit.AcceptedIsSpaced | src/rag_system/rate_limit.py:31-40 | Any limit plus one consecutive accepted events span at least the window |
| RateLimit.WindowHoldsAtMostLimit | src/rag_system/rate_limit.py:31-40 | No window holds more than the limit of accepted events |
| RateLimit.RefusedUntilOldestAges | src/rag_system/rate_limit.py:67-73 | A refused key is refused until its oldest event in the window ages out, and no longer |
| RateLimit.RetryAfter | src/rag_system/rate_limit.py:98-100 | The advice is at least one second and within a millisecond below and a second above the true wait |
| RateLimit.RetryCoversTheWait | src/rag_system/rate_limit.py:98-100 | Exactly when the advice covers the wait |
| RateLimit.RetryCanFallShort | src/rag_system/rate_limit.py:98-100 | A wait that it does not cover |
| Grouping.SumIsComponentwise | src/rag_system/knowledge_gap.py:223-229 | A running sum is the componentwise sum of its members |
| Grouping.Best | src/rag_system/knowledge_gap.py:261-267 | The choice is the first of the greatest similarities above -1, or none |
| Grouping.LabelsAreGreedy | src/rag_system/knowledge_gap.py:246-277 | Every outcome joins the first of the most similar clusters, if that is above -1 and either at least 0.75 or no more may be opened, and otherwise opens the next |
| Grouping.NoTopicIsEmpty | src/rag_system/knowledge_gap.py:246-277 | Every cluster has a member |
| Grouping.SizesAddUp | src/rag_system/knowledge_gap.py:246-277 | Cluster sizes add up to the number of outcomes |
| Grouping.WithinLimitUnlessHomeless | src/rag_system/knowledge_gap.py:246-277 | The number of clusters exceeds the limit exactly if some outcome found all places taken and no similarity above -1 |
| Grouping.AboveOppositeIsWithinLimit | src/rag_system/knowledge_gap.py:246-277 | If each outcome finds a similarity above -1 to some cluster it meets, there are at most `max_topics` clusters |
| CosineBound.TopicsStayApart | src/rag_system/knowledge_gap.py:232-277 | With the cosine of the code, no two clusters ever have sums of the same direction |
| CosineBound.TwoTopicsHouseAll | src/rag_system/knowledge_gap.py:232-277 | Hence an outcome that meets two clusters is not opposite to all clusters |
| CosineBound.LimitHoldsExactly | src/rag_system/knowledge_gap.py:232-277 | For embeddings of one length and the cosine of the code, there are at most `max_topics` clusters exactly if the limit is two or more, or no outcome is opposite to the sum of all before it |
| CosineBound.OppositeQuestionsBreakTheLimit | src/rag_system/knowledge_gap.py:246-277 | Two opposite questions make two clusters although one is allowed |
| Clusters.Cluster.Add | src/rag_system/knowledge_gap.py:223-229 | Adding a member keeps the sum the sum of the members; it fails exactly for an embedding longer than the sum |
| Clusters.FindBest | src/rag_system/knowledge_gap.py:261-267 | The scan over the clusters finds the first of the best |
| Clusters.Place | src/rag_system/knowledge_gap.py:269-275 | An outcome joins the chosen cluster or opens one, and no other cluster changes |
| Clusters.ClusterOutcomes | src/rag_system/knowledge_gap.py:246-277 | Every outcome is in exactly one cluster, in input order, with the sums of exactly its members; the exact condition of failure |
| Clusters.AssembleTopics | src/rag_system/knowledge_gap.py:472-488 | One titled topic per cluster, in order; it fails exactly if some title is missing or blank |
| Clusters.GenerateMap | src/rag_system/knowledge_gap.py:451-513 | The map succeeds exactly if the limit is positive, every question embeds, every topic sums up and gets a title; its topics are the clusters, none empty, and their counts add up to the eligible count; too few outcomes give no topics |
| UploadManager.StartedOnce | frontendkimchi/src/hooks/useUploadManager.ts:51-84 | Each file starts at most once, and none both starts and waits |
| UploadManager.StartingKeeps | frontendkimchi/src/hooks/useUploadManager.ts:52-57 | Starting the first waiting file keeps counter, line, files and display consistent |
| UploadManager.NoPlaceIsWasted | frontendkimchi/src/hooks/useUploadManager.ts:51-84 | Between handlers as many uploads are in flight as there are files, up to two; a file waits only if two are |
| UploadManager.OneFate | frontendkimchi/src/hooks/useUploadManager.ts:51-116 | At every moment each accepted file, and no other, was started, or waits, or was removed, and only one of these |
| UploadManager.IdleMeansDone | frontendkimchi/src/hooks/useUploadManager.ts:51-116 | With nothing in flight every accepted file that was not removed was started exactly once, in order; no file is kept, and no task waits or runs |
| UploadManager.Manager.Pump | frontendkimchi/src/hooks/useUploadManager.ts:51-84 | The drain starts files from the front only and ends with at most two in flight and no waste |
| UploadManager.Manager.Enqueue | frontendkimchi/src/hooks/useUploadManager.ts:86-110 | Valid files join the line in order under their ids, invalid ones are only shown; the new tasks stand in front of the old ones, exactly the refused ones marked invalid |
| UploadManager.Manager.ClearFinished | frontendkimchi/src/hooks/useUploadManager.ts:118-122 | Exactly the queued and uploading tasks stay on display |
| UploadManager.Manager.RemoveTask | frontendkimchi/src/hooks/useUploadManager.ts:112-116 | A removed task leaves the display and the line, and nothing else changes |
| UploadManager.Manager.Report | frontendkimchi/src/hooks/useUploadManager.ts:59-77 | The result of an upload is shown on its task, uploaded or failed as it was, and on no other; the place is not yet free |
| UploadManager.Manager.Finish | frontendkimchi/src/hooks/useUploadManager.ts:78-82 | A settled upload frees its file and its place, which the next waiting file takes |

## Left out

* Retries of transport errors (`retry_on_transient`) and a conditional write whose response is lost.
* The contents of raw files, parsed documents, embeddings, manifests and ingestion events; a record's title, URI and error text. The model keeps version, status, active version and owner.
* The rendering of timestamps, ids and metrics; ids that the code draws at random are parameters.
* Overlapping upload, ingestion and restore may leave a published version without vectors, so nothing is claimed about vectors there; `RagService` and `ServiceRuns` state it for operations that do not overlap.
* PublicationAlone.IngestsAlone: the cached terminal record of the process, if there is one, is the stored record; a process whose cached record is behind acts on that record, and what it then does is covered only by the theorems over all schedules.
* Caches of different processes: only publication safety is stated for them, not agreement with the store.
* The closures given to `update_json_cas` are functions in `Storage` and `CasLinearization`, because the source requires them free of side effects; where they edit an object in place, the imperative modules do so on a local value, so aliasing of that object is not captured.
* The publication protocol under concurrency is a step system on values; its code as written is in `RagService`, where calls do not overlap, and in `DocumentWrites.PersistRecord`.
* CosineBound.LimitHoldsExactly: for embeddings of one length, which `_cosine_similarity` asks for; `Grouping.WithinLimitUnlessHomeless` is about any lengths and any similarity.
* JSON, HMAC, SHA-256, case folding and the square root in the cosine are parameters, with the round trip, injectivity or defining equation that a statement needs as its hypothesis; floating-point numbers are reals.
* The decoding of bytes to text in front of the event-stream reader, the HTTP exchange around it, and handlers that throw.
* Characters beyond those `char` has; Python strings and JavaScript strings are both sequences of `char`.
* `AiConfigStore.AIConfigurationStore.Resolve`: settings are one opaque bundle, so how defaults are read from the configuration is not modelled.
* The validation of a replay request's references: a run starts as the stored queued record that `create_replay_run` leaves.
* The display order of the AI configuration history, the join of inbox items with their traces, coverage quality, labels' wording, and the recommendations of the knowledge gap map.
* The limiter's lock and the HTTP dependency around it: `check` is atomic from the moment it holds the lock, with a clock reading from any earlier moment.
* The sqlglot-based SQL guard, the React components, HTTP routing and the clients of external services.
