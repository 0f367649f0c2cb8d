/**
 Whole sequences of operations on a serialized service, any number of documents and
 any backend call failing at any time: what stays true of every document.
 */
module ServiceRuns {
  import opened Wrappers
  import opened Documents
  import Rag = RagService

  /** An operation, with the backend calls that raise while it runs. */
  datatype Operation =
    | Upload(d: Rag.DocumentId, version: Version, owner: Option<string>, faults: set<Rag.Call>)
    | Update(d: Rag.DocumentId, version: Version, owner: Option<string>, faults: set<Rag.Call>)
    | Ingest(d: Rag.DocumentId, version: Version, chunks: set<nat>, sent: set<nat>, faults: set<Rag.Call>)
    | Delete(d: Rag.DocumentId, faults: set<Rag.Call>)
    | Restore(d: Rag.DocumentId, version: Version, sent: set<nat>, faults: set<Rag.Call>)

  /** Content hashes are never empty, and a delete that removed the vectors completes. */
  predicate Proper(op: Operation) {
    match op
    case Upload(_, version, _, _) => version != ""
    case Update(_, version, _, _) => version != ""
    case Delete(_, faults) => Rag.SaveDeleted !in faults || Rag.DeleteVectors in faults
    case _ => true
  }

  /** An ingestion that may reach the publication switch. */
  predicate MayPublish(op: Operation) {
    op.Ingest? && !Rag.BlockedEarly(op.faults)
  }

  /**
   No version is ingested again once an ingestion of it may have published it; a job
   that was stopped before the switch may be redelivered.
   */
  ghost predicate NoRepublication(ops: seq<Operation>) {
    forall i, j :: 0 <= i < j < |ops| && MayPublish(ops[i]) && ops[j].Ingest? && ops[j].d == ops[i].d ==>
      ops[j].version != ops[i].version
  }

  /** The versions of a document that may have been published by now. */
  ghost function Landed(ops: seq<Operation>, d: Rag.DocumentId): set<Version> {
    set i | 0 <= i < |ops| && MayPublish(ops[i]) && ops[i].d == d :: ops[i].version
  }

  /** A document can be searched as published, and its version index and pointer name landed versions only. */
  ghost predicate Orderly(c: Rag.Content, landed: set<Version>) {
    && c.Safe()
    && (c.Published().Some? ==> c.Published().value in landed)
    && IdsOf(c.index) <= landed
  }

  lemma {:induction false} LandedNext(ops: seq<Operation>, k: nat, d: Rag.DocumentId)
    requires k < |ops|
    ensures Landed(ops[..k + 1], d) ==
            Landed(ops[..k], d) + if MayPublish(ops[k]) && ops[k].d == d then {ops[k].version} else {}
  {
    var next := ops[..k + 1];
    forall v ensures v in Landed(next, d) <==>
      v in Landed(ops[..k], d) || (MayPublish(ops[k]) && ops[k].d == d && v == ops[k].version)
    {
      if v in Landed(ops[..k], d) {
        var i :| 0 <= i < k && MayPublish(ops[..k][i]) && ops[..k][i].d == d && ops[..k][i].version == v;
        assert next[i] == ops[..k][i];
      }
      if MayPublish(ops[k]) && ops[k].d == d && v == ops[k].version {
        assert next[k] == ops[k];
      }
    }
  }

  lemma {:induction false} IngestedIsNew(ops: seq<Operation>, k: nat)
    requires k < |ops| && NoRepublication(ops) && ops[k].Ingest?
    ensures ops[k].version !in Landed(ops[..k], ops[k].d)
  {
  }

  /** One operation keeps its document orderly. */
  method Perform(service: Rag.RagService, op: Operation, ghost landed: set<Version>)
    requires service.Valid() && Proper(op) && Orderly(service.At(op.d), landed)
    requires op.Ingest? ==> op.version !in landed
    modifies service
    ensures service.Valid()
    ensures forall d :: d != op.d ==> service.At(d) == old(service.At(d))
    ensures Orderly(service.At(op.d), landed + if MayPublish(op) then {op.version} else {})
  {
    ghost var before := service.At(op.d);
    match op {
      case Upload(d, version, owner, faults) =>
        var _ := service.QueueDocument(d, version, owner, faults);
      case Update(d, version, owner, faults) =>
        var _ := service.UpdateDocument(d, version, owner, faults);
      case Delete(d, faults) =>
        var _ := service.DeleteDocument(d, faults);
      case Restore(d, version, sent, faults) =>
        var _ := service.RestoreVersion(d, version, sent, faults);
      case Ingest(d, version, chunks, sent, faults) =>
        ActiveIsListed(before);
        ActivateKeepsIndex(version, before.index);
        var _ := service.ProcessDocumentJob(d, version, chunks, sent, faults);
    }
  }

  lemma {:induction false} ActiveIsListed(c: Rag.Content)
    requires c.Sound()
    ensures c.Active().Some? ==> c.Active().value in IdsOf(c.index)
  {
  }

  /**
   After any sequence of operations under the two conditions above, with any backend
   calls failing, every live document's published and active versions can be searched
   in full, and they are versions whose ingestion reached the publication switch.
   */
  method RunAll(service: Rag.RagService, ops: seq<Operation>)
    requires service.Valid() && (forall d :: service.At(d) == Rag.NOTHING)
    requires (forall i :: 0 <= i < |ops| ==> Proper(ops[i])) && NoRepublication(ops)
    modifies service
    ensures service.Valid()
    ensures forall d :: Orderly(service.At(d), Landed(ops, d))
  {
    for k := 0 to |ops|
      invariant service.Valid()
      invariant forall d :: Orderly(service.At(d), Landed(ops[..k], d))
    {
      ghost var d := ops[k].d;
      if ops[k].Ingest? {
        IngestedIsNew(ops, k);
      }
      Perform(service, ops[k], Landed(ops[..k], d));
      forall other ensures Orderly(service.At(other), Landed(ops[..k + 1], other)) {
        LandedNext(ops, k, other);
      }
    }
    assert ops[..|ops|] == ops;
  }

  /** An upload and an ingestion that nothing disturbs publish the version. */
  method FirstIngestionPublishes(d: Rag.DocumentId, version: Version, chunks: set<nat>)
    returns (service: Rag.RagService)
    requires version != ""
    ensures fresh(service) && service.Valid()
    ensures service.At(d).Live() && service.Stored(d).value.version == version
    ensures service.Stored(d).value.activeVersion == Some(version)
    ensures service.At(d).Present(version) && service.At(d).retained == map[version := chunks]
    ensures service.At(d).Safe()
  {
    service := new Rag.RagService();
    assert service.At(d) == Rag.NOTHING;
    var queued := service.QueueDocument(d, version, None, {});
    var job := service.ProcessDocumentJob(d, version, chunks, {}, {});
  }

  /**
   The first condition is needed: a redelivered job of the published version whose
   parsing fails removes the vectors and leaves the version published.
   */
  method RedeliveryRemovesPublishedVectors(d: Rag.DocumentId, version: Version, chunks: set<nat>)
    returns (service: Rag.RagService)
    requires version != "" && chunks != {}
    ensures fresh(service) && service.Valid()
    ensures service.At(d).Live() && service.At(d).Published() == Some(version)
    ensures !service.At(d).Present(version) && !service.At(d).Safe()
  {
    service := FirstIngestionPublishes(d, version, chunks);
    var job := service.ProcessDocumentJob(d, version, chunks, {}, {Rag.Parse});
    assert Rag.Parse in Rag.PREPARING;
  }
}
