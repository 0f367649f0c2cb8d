/**
 Document records and version indexes as values: the two guards of the service,
 and the two closures that rewrite a version index under compare-and-set.
 */
module Documents {
  import opened Wrappers

  /** A content hash. */
  type Version = string

  datatype Status = Queued | Parsing | Chunking | Embedding | Indexed | Failed | Deleted

  datatype Record = Record(version: Version, status: Status, activeVersion: Option<Version>, owner: Option<string>)

  predicate Terminal(status: Status) {
    status.Indexed? || status.Failed? || status.Deleted?
  }

  datatype WriteError = DocumentDeleted | StaleIngestion

  /** `_reject_illegal_write`: may `record` replace `current`? */
  function RejectIllegalWrite(record: Record, current: Option<Record>): Option<WriteError> {
    if current.None? then None
    else if !record.status.Deleted? && current.value.status.Deleted? then Some(DocumentDeleted)
    else if record.version != current.value.version && !record.status.Queued? && !record.status.Deleted? then
      Some(StaleIngestion)
    else None
  }

  /** A deleted record is replaced by a deleted one only, and a record of another version by a fresh or deleted one. */
  lemma {:induction false} RejectionExactly(record: Record, current: Option<Record>)
    ensures RejectIllegalWrite(record, current) == Some(DocumentDeleted)
            <==> current.Some? && current.value.status.Deleted? && !record.status.Deleted?
    ensures RejectIllegalWrite(record, current) == Some(StaleIngestion)
            <==> current.Some? && !current.value.status.Deleted? && record.version != current.value.version
                 && !record.status.Queued? && !record.status.Deleted?
    ensures RejectIllegalWrite(record, current).None? <==> LegalMove(current, Some(record))
  {
  }

  /** The mutation `_persist_record` retries: the guard, then the record itself. */
  function PersistMutation(record: Record, current: Option<Record>): Result<Record, WriteError> {
    match RejectIllegalWrite(record, current)
    case Some(error) => Failure(error)
    case None => Success(record)
  }

  /** `_published_version_of`: the searchable version; an empty version text counts as absent. */
  function PublishedVersionOf(record: Option<Record>): Option<Version> {
    if record.None? || record.value.status.Deleted? then None
    else if record.value.activeVersion.Some? && record.value.activeVersion.value != "" then record.value.activeVersion
    else if record.value.status.Indexed? then Some(record.value.version)
    else None
  }

  /** The pointer decides; an indexed record without one publishes its own version; a deleted one nothing. */
  lemma {:induction false} PublishedExactly(r: Record, version: Version)
    ensures PublishedVersionOf(Some(r)) == Some(version) <==>
              && !r.status.Deleted?
              && if r.activeVersion == None || r.activeVersion == Some("")
                 then r.status.Indexed? && version == r.version else r.activeVersion == Some(version)
    ensures PublishedVersionOf(None) == None
  {
  }

  /** How an accepted write may move the stored record. */
  ghost predicate LegalMove(before: Option<Record>, after: Option<Record>) {
    before.Some? ==>
      && after.Some?
      && (before.value.status.Deleted? ==> after.value.status.Deleted?)
      && (after.value.version != before.value.version ==> after.value.status.Queued? || after.value.status.Deleted?)
  }

  // Vectors

  datatype Vector = Vector(version: Version, chunk: nat)

  function VectorsOf(version: Version, chunks: set<nat>): set<Vector> {
    set c | c in chunks :: Vector(version, c)
  }

  // Version index

  datatype Entry = Entry(version: Version, vectorsPresent: bool)

  datatype VersionIndex = VersionIndex(active: Option<Version>, versions: seq<Entry>)

  function Without(entries: seq<Entry>, version: Version): seq<Entry> {
    if entries == [] then []
    else (if entries[0].version == version then [] else [entries[0]]) + Without(entries[1..], version)
  }

  /** Every entry's liveness flag set to "is this the live version?". */
  function Marked(entries: seq<Entry>, live: Version): seq<Entry> {
    seq(|entries|, i requires 0 <= i < |entries| => Entry(entries[i].version, entries[i].version == live))
  }

  /** The closure of `_activate_version_in_index`. */
  function ActivateMutation(version: Version, current: Option<VersionIndex>): VersionIndex {
    var entries := if current.Some? then current.value.versions else [];
    VersionIndex(Some(version), Marked(Without(entries, version), version) + [Entry(version, true)])
  }

  function Find(entries: seq<Entry>, version: Version): Option<Entry> {
    if entries == [] then None
    else if entries[0].version == version then Some(entries[0])
    else Find(entries[1..], version)
  }

  /** The closure of `_activate_existing_version`; `None` is the not-found error. */
  function RestoreMutation(version: Version, current: Option<VersionIndex>): Option<VersionIndex> {
    if current.None? || Find(current.value.versions, version).None? then None
    else Some(VersionIndex(Some(version), Marked(current.value.versions, version)))
  }

  ghost function Ids(entries: seq<Entry>): set<Version> {
    set i | 0 <= i < |entries| :: entries[i].version
  }

  ghost function IdsOf(index: Option<VersionIndex>): set<Version> {
    if index.None? then {} else Ids(index.value.versions)
  }

  /** Distinct ids, an active member, and vectors recorded for exactly the active entry. */
  ghost predicate IndexInvariant(index: VersionIndex) {
    && (forall i, j :: 0 <= i < j < |index.versions| ==> index.versions[i].version != index.versions[j].version)
    && index.active.Some? && index.active.value in Ids(index.versions)
    && (forall i :: 0 <= i < |index.versions| ==>
          (index.versions[i].vectorsPresent <==> index.versions[i].version == index.active.value))
  }

  lemma {:induction false} WithoutIds(entries: seq<Entry>, version: Version)
    requires forall i, j :: 0 <= i < j < |entries| ==> entries[i].version != entries[j].version
    ensures Ids(Without(entries, version)) == Ids(entries) - {version}
    ensures var kept := Without(entries, version);
            forall i, j :: 0 <= i < j < |kept| ==> kept[i].version != kept[j].version
  {
    if entries != [] {
      var rest := Without(entries[1..], version);
      WithoutIds(entries[1..], version);
      assert entries == [entries[0]] + entries[1..];
      IdsCons(entries[0], entries[1..]);
      assert entries[0].version !in Ids(entries[1..]);
      if entries[0].version == version {
        assert Without(entries, version) == rest;
      } else {
        assert Without(entries, version) == [entries[0]] + rest;
        IdsCons(entries[0], rest);
        assert forall j :: 0 <= j < |rest| ==> rest[j].version in Ids(rest);
      }
    }
  }

  lemma {:induction false} IdsCons(head: Entry, rest: seq<Entry>)
    ensures Ids([head] + rest) == {head.version} + Ids(rest)
  {
    var all := [head] + rest;
    forall v ensures v in Ids(all) <==> v == head.version || v in Ids(rest) {
      if v in Ids(rest) {
        var i :| 0 <= i < |rest| && rest[i].version == v;
        assert all[i + 1].version == v;
      }
      if v == head.version {
        assert all[0].version == v;
      }
    }
  }

  lemma {:induction false} MarkedIds(entries: seq<Entry>, live: Version)
    ensures Ids(Marked(entries, live)) == Ids(entries)
  {
    var m := Marked(entries, live);
    forall v ensures v in Ids(m) <==> v in Ids(entries) {
      if v in Ids(m) {
        var i :| 0 <= i < |m| && m[i].version == v;
        assert entries[i].version == v;
      }
      if v in Ids(entries) {
        var i :| 0 <= i < |entries| && entries[i].version == v;
        assert m[i].version == v;
      }
    }
  }

  lemma {:induction false} FindIsMember(entries: seq<Entry>, version: Version)
    ensures Find(entries, version).Some? <==> version in Ids(entries)
    ensures Find(entries, version).Some? ==>
              exists i :: 0 <= i < |entries| && entries[i] == Find(entries, version).value &&
                          entries[i].version == version
  {
    if entries != [] {
      FindIsMember(entries[1..], version);
      assert entries == [entries[0]] + entries[1..];
      IdsCons(entries[0], entries[1..]);
      if entries[0].version == version {
        assert entries[0] == Find(entries, version).value;
      } else if Find(entries, version).Some? {
        var i :| 0 <= i < |entries[1..]| && entries[1..][i] == Find(entries, version).value;
        assert entries[i + 1] == Find(entries, version).value;
      }
    }
  }

  /** Publishing a version keeps the invariant and every id, adds its own, and makes it the live one. */
  lemma {:induction false} ActivateKeepsIndex(version: Version, current: Option<VersionIndex>)
    requires current.Some? ==> IndexInvariant(current.value)
    ensures IndexInvariant(ActivateMutation(version, current))
    ensures Ids(ActivateMutation(version, current).versions) == IdsOf(current) + {version}
    ensures ActivateMutation(version, current).active == Some(version)
  {
    var entries := if current.Some? then current.value.versions else [];
    var kept := Marked(Without(entries, version), version);
    WithoutIds(entries, version);
    MarkedIds(Without(entries, version), version);
    var r := ActivateMutation(version, current);
    assert r.versions[|kept|] == Entry(version, true);
    forall i | 0 <= i < |kept| ensures kept[i].version != version {
      assert kept[i].version in Ids(kept);
    }
    forall v ensures v in Ids(r.versions) <==> v in Ids(kept) || v == version {
      if v in Ids(kept) {
        var i :| 0 <= i < |kept| && kept[i].version == v;
        assert r.versions[i].version == v;
      }
    }
  }

  /** Restoring succeeds exactly for a known version; then it keeps the invariant and the id set. */
  lemma {:induction false} RestoreKeepsIndex(version: Version, current: Option<VersionIndex>)
    requires current.Some? ==> IndexInvariant(current.value)
    ensures RestoreMutation(version, current).Some? <==> version in IdsOf(current)
    ensures RestoreMutation(version, current).Some? ==>
      var r := RestoreMutation(version, current).value;
      IndexInvariant(r) && Ids(r.versions) == IdsOf(current) && r.active == Some(version)
  {
    if current.Some? {
      FindIsMember(current.value.versions, version);
      MarkedIds(current.value.versions, version);
    }
  }

  /** The flag the restore path reads is set exactly for the index's active version. */
  lemma {:induction false} LiveFlagMeansActive(index: VersionIndex, target: Version)
    requires IndexInvariant(index)
    requires Find(index.versions, target).Some?
    ensures Find(index.versions, target).value.vectorsPresent <==> index.active == Some(target)
  {
    FindIsMember(index.versions, target);
  }
}
