/** The active-version gate over a whole result list, with hits of many documents. */
module SearchGate {
  import opened Wrappers
  import opened Documents

  datatype Hit = Hit(document: string, version: Version, chunk: string)

  /**
   What looking up a document's published version answers while hit `i` is being
   processed. Nothing relates the answers at different moments: the pointer may
   move at any time, and a failed lookup answers `None`.
   */
  type Lookup = (nat, string) -> Option<Version>

  function FirstOf(hits: seq<Hit>, document: string): nat {
    if hits == [] || hits[0].document == document then 0 else 1 + FirstOf(hits[1..], document)
  }

  lemma {:induction false} FirstOfIsFirst(hits: seq<Hit>, document: string)
    ensures FirstOf(hits, document) <= |hits|
    ensures FirstOf(hits, document) < |hits| ==> hits[FirstOf(hits, document)].document == document
    ensures forall i :: 0 <= i < FirstOf(hits, document) ==> hits[i].document != document
  {
    if hits != [] && hits[0].document != document {
      FirstOfIsFirst(hits[1..], document);
      forall i | 0 <= i < FirstOf(hits, document) ensures hits[i].document != document {
        if i > 0 {
          assert hits[i] == hits[1..][i - 1];
        }
      }
    }
  }

  /** A document's version for the whole list is the answer given at its first hit. */
  predicate Passes(hits: seq<Hit>, lookup: Lookup, hit: Hit) {
    lookup(FirstOf(hits, hit.document), hit.document) == Some(hit.version)
  }

  /** The hits among the first `n` that pass, in order. */
  function Passing(hits: seq<Hit>, lookup: Lookup, n: nat): seq<Hit>
    requires n <= |hits|
  {
    if n == 0 then []
    else Passing(hits, lookup, n - 1) + (if Passes(hits, lookup, hits[n - 1]) then [hits[n - 1]] else [])
  }

  /** `_filter_to_active_versions`: one lookup per document, remembered for the rest of the list. */
  method FilterToActiveVersions(hits: seq<Hit>, lookup: Lookup) returns (kept: seq<Hit>)
    ensures kept == Passing(hits, lookup, |hits|)
  {
    var activeByDocument: map<string, Option<Version>> := map[];
    kept := [];
    for i := 0 to |hits|
      invariant kept == Passing(hits, lookup, i)
      invariant forall d :: d in activeByDocument <==> FirstOf(hits, d) < i
      invariant forall d :: d in activeByDocument ==> activeByDocument[d] == lookup(FirstOf(hits, d), d)
    {
      var hit := hits[i];
      FirstOfIsFirst(hits, hit.document);
      forall d ensures FirstOf(hits, d) == i ==> d == hit.document {
        FirstOfIsFirst(hits, d);
      }
      if hit.document !in activeByDocument {
        activeByDocument := activeByDocument[hit.document := lookup(i, hit.document)];
      }
      var active := activeByDocument[hit.document];
      if active.Some? && hit.version == active.value {
        kept := kept + [hit];
      }
    }
  }

  /** Exactly the passing hits are kept. */
  lemma {:induction false} PassingIsExact(hits: seq<Hit>, lookup: Lookup, n: nat, hit: Hit)
    requires n <= |hits|
    ensures hit in Passing(hits, lookup, n) <==> hit in hits[..n] && Passes(hits, lookup, hit)
  {
    if n > 0 {
      PassingIsExact(hits, lookup, n - 1, hit);
      assert hits[..n] == hits[..n - 1] + [hits[n - 1]];
    }
  }

  /**
   No result list mixes two versions of one document, however often its pointer
   moved while the list was filtered; and what is kept was published at the
   moment the document was looked up.
   */
  lemma {:induction false} OneVersionPerDocument(hits: seq<Hit>, lookup: Lookup, a: Hit, b: Hit)
    requires a in Passing(hits, lookup, |hits|) && b in Passing(hits, lookup, |hits|) && a.document == b.document
    ensures a.version == b.version
    ensures exists i :: 0 <= i < |hits| && lookup(i, a.document) == Some(a.version)
  {
    PassingIsExact(hits, lookup, |hits|, a);
    PassingIsExact(hits, lookup, |hits|, b);
    FirstOfIsFirst(hits, a.document);
    assert lookup(FirstOf(hits, a.document), a.document) == Some(a.version);
    var i :| 0 <= i < |hits[..|hits|]| && hits[..|hits|][i] == a;
    assert FirstOf(hits, a.document) <= i;
  }
}
