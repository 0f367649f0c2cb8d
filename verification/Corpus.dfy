/**
 The corpus listing: role scope, filters, search, total order, resume at the
 cursor, slice, next cursor. Case folding, dates, JSON and HMAC are parameters.
 */
module Corpus {
  import opened Wrappers
  import opened Text
  import opened KeysetPaging
  import opened Cursor
  import PagedRuns

  datatype Document = Document(
    id: string, title: string, version: string, status: string, owner: Option<string>, activeVersion: Option<string>)

  datatype SortField = Name | Owner | Date

  const MAX_SEARCH_TERM_LENGTH: nat := 200

  datatype Params = Params(
    sortField: SortField, descending: bool,
    status: Option<string>, owner: Option<string>, activeVersion: Option<string>,
    dateFrom: Option<string>, dateTo: Option<string>, search: Option<string>)

  /** The fields of a cursor's payload. */
  datatype Boundary = Boundary(sortField: string, sortDirection: string, sortValue: string, lastId: string)

  /** Who asks, and what the listing is configured with. */
  datatype Context = Context(
    viewer: Option<string>, isOperator: bool, fold: string -> string, dateOf: Document -> Option<string>,
    codec: Codec<Boundary>, corpusPageSize: int)

  datatype CorpusError = SearchTermTooLong | InvalidCursor

  datatype CorpusPage = CorpusPage(documents: seq<Document>, nextCursor: Option<string>)

  function FieldName(f: SortField): string {
    match f
    case Name => "name"
    case Owner => "owner"
    case Date => "date"
  }

  function DirectionName(descending: bool): string {
    if descending then "desc" else "asc"
  }

  function OrEmpty(s: Option<string>): string {
    if s.Some? then s.value else ""
  }

  /** `_scope_by_role`: an owner-less record is visible to operators only. */
  predicate InScope(c: Context, d: Document) {
    c.isOperator || (d.owner.Some? && d.owner == c.viewer)
  }

  /** `_passes_filters`. */
  predicate PassesFilters(c: Context, p: Params, d: Document) {
    && (p.status.Some? ==> d.status == p.status.value)
    && (p.owner.Some? ==> d.owner == p.owner)
    && (p.activeVersion.Some? ==> d.activeVersion == p.activeVersion)
    && (p.dateFrom.Some? || p.dateTo.Some? ==> c.dateOf(d).Some?)
    && (p.dateFrom.Some? ==> !StringLess(c.dateOf(d).value, p.dateFrom.value))
    && (p.dateTo.Some? ==> !StringLess(p.dateTo.value, c.dateOf(d).value))
  }

  function SearchableText(d: Document): string {
    d.id + "\n" + d.title + "\n" + d.version + "\n" + d.status + "\n" +
    OrEmpty(d.owner) + "\n" + OrEmpty(d.activeVersion)
  }

  predicate MatchesSearch(c: Context, p: Params, d: Document) {
    p.search.Some? && p.search.value != "" ==> Find(c.fold(SearchableText(d)), c.fold(p.search.value)).Some?
  }

  predicate Listed(c: Context, p: Params, d: Document) {
    InScope(c, d) && PassesFilters(c, p, d) && MatchesSearch(c, p, d)
  }

  function PrimarySortValue(c: Context, f: SortField, d: Document): string {
    match f
    case Name => c.fold(d.title)
    case Owner => c.fold(OrEmpty(d.owner))
    case Date => OrEmpty(c.dateOf(d))
  }

  /** `_ordering_key`: the primary value, tie-broken by the id. */
  function OrderingKey(c: Context, f: SortField): Document -> Key {
    (d: Document) => (PrimarySortValue(c, f, d), d.id)
  }

  function BoundaryOf(c: Context, p: Params, key: Key): Boundary {
    Boundary(FieldName(p.sortField), DirectionName(p.descending), key.0, key.1)
  }

  /** The boundary key of a request's cursor, or the error that cursor raises. */
  function ResumeKey(c: Context, p: Params, cursor: Option<string>): Result<Option<Key>, CorpusError> {
    if cursor.None? then Success(None)
    else match DecodeCursor(c.codec, cursor.value)
      case Failure(_) => Failure(InvalidCursor)
      case Success(b) =>
        if b.sortField != FieldName(p.sortField) || b.sortDirection != DirectionName(p.descending) then
          Failure(InvalidCursor)
        else Success(Some((b.sortValue, b.lastId)))
  }

  /** `list_corpus`. */
  function ListCorpus(c: Context, p: Params, documents: seq<Document>, pageSize: Option<int>, cursor: Option<string>)
    : Result<CorpusPage, CorpusError>
  {
    if p.search.Some? && |p.search.value| > MAX_SEARCH_TERM_LENGTH then Failure(SearchTermTooLong)
    else match ResumeKey(c, p, cursor)
      case Failure(error) => Failure(error)
      case Success(boundary) =>
        var key := OrderingKey(c, p.sortField);
        var listed := Filter(documents, (d: Document) => Listed(c, p, d));
        var page := ListPage(listed, key, p.descending, boundary, ClampPageSize(pageSize, c.corpusPageSize));
        Success(CorpusPage(
          page.items,
          if page.next.None? then None else Some(EncodeCursor(c.codec, BoundaryOf(c, p, page.next.value)))))
  }

  // Whole runs

  /** What one request finds: the corpus may be different every time. */
  datatype Request = Request(documents: seq<Document>, pageSize: Option<int>)

  function Endpoint(c: Context, p: Params): PagedRuns.Endpoint<Request, Document> {
    (r: Request, cursor: Option<string>) =>
      match ListCorpus(c, p, r.documents, r.pageSize, cursor)
      case Failure(_) => None
      case Success(page) => Some(PagedRuns.Answer(page.documents, page.nextCursor))
  }

  function ListedOf(c: Context, p: Params, documents: seq<Document>): seq<Document> {
    Filter(documents, (d: Document) => Listed(c, p, d))
  }

  function SchemeOf(c: Context, p: Params): PagedRuns.Scheme<Request, Document> {
    PagedRuns.Scheme(
      (r: Request) => Fetch(ListedOf(c, p, r.documents), ClampPageSize(r.pageSize, c.corpusPageSize)),
      OrderingKey(c, p.sortField), p.descending,
      (key: Key) => EncodeCursor(c.codec, BoundaryOf(c, p, key)))
  }

  /** Parsing a payload undoes printing it, and the vocabulary is that of the service. */
  ghost predicate Lawful(codec: Codec<Boundary>) {
    && (forall b: Boundary :: codec.load(codec.dump(b)) == Some(b))
    && (forall b: Boundary :: codec.vocabulary(b) <==>
          b.sortField in {"name", "owner", "date"} && b.sortDirection in {"asc", "desc"})
  }

  ghost predicate UniqueIds(documents: seq<Document>) {
    forall i, j :: 0 <= i < j < |documents| ==> documents[i].id != documents[j].id
  }

  /** A run in which every corpus has unique ids and the search term is not too long. */
  ghost predicate ProperRun(c: Context, p: Params, requests: seq<Request>) {
    && Lawful(c.codec) && (p.search.Some? ==> |p.search.value| <= MAX_SEARCH_TERM_LENGTH)
    && forall i :: 0 <= i < |requests| ==> UniqueIds(requests[i].documents)
  }

  /** A minted cursor resumes exactly at the key it was minted for. */
  lemma {:induction false} MintedCursorResumes(c: Context, p: Params, key: Key)
    requires Lawful(c.codec)
    ensures ResumeKey(c, p, Some(EncodeCursor(c.codec, BoundaryOf(c, p, key)))) == Success(Some(key))
  {
    var b := BoundaryOf(c, p, key);
    assert c.codec.vocabulary(b);
    DecodeEncodeCursor(c.codec, b);
  }

  /** Each answer of the listing is the keyset page its cursor's boundary asks for. */
  lemma {:induction false} ListingServes(c: Context, p: Params, r: Request)
    requires Lawful(c.codec) && (p.search.Some? ==> |p.search.value| <= MAX_SEARCH_TERM_LENGTH)
    ensures PagedRuns.Serves(Endpoint(c, p), SchemeOf(c, p), r)
  {
    var s := SchemeOf(c, p);
    forall boundary
      ensures Endpoint(c, p)(r, PagedRuns.CursorAt(s, boundary))
           == Some(PagedRuns.AnswerOf(s, PagedRuns.PageAt(s, r, boundary)))
    {
      if boundary.Some? {
        MintedCursorResumes(c, p, boundary.value);
      }
    }
  }

  lemma {:induction false} ListedDistinct(c: Context, p: Params, documents: seq<Document>)
    requires UniqueIds(documents)
    ensures DistinctKeys(ListedOf(c, p, documents), OrderingKey(c, p.sortField))
  {
    if documents != [] {
      var rest := ListedOf(c, p, documents[1..]);
      ListedDistinct(c, p, documents[1..]);
      forall i | 0 <= i < |rest| ensures rest[i].id != documents[0].id {
        FilterMember(documents[1..], (d: Document) => Listed(c, p, d), rest[i]);
        var j :| 0 <= j < |documents[1..]| && documents[1..][j] == rest[i];
        assert documents[j + 1] == rest[i];
      }
    }
  }

  lemma {:induction false} RunIsServed(c: Context, p: Params, requests: seq<Request>)
    requires ProperRun(c, p, requests)
    ensures PagedRuns.ServesAll(Endpoint(c, p), SchemeOf(c, p), requests)
  {
    forall i | 0 <= i < |requests|
      ensures PagedRuns.Serves(Endpoint(c, p), SchemeOf(c, p), requests[i])
      ensures DistinctKeys(ListedOf(c, p, requests[i].documents), OrderingKey(c, p.sortField))
    {
      ListingServes(c, p, requests[i]);
      ListedDistinct(c, p, requests[i].documents);
    }
  }

  /** Everything a client is shown that follows the cursors from the start. */
  function ShownTo(c: Context, p: Params, requests: seq<Request>): seq<Document> {
    PagedRuns.ShownAnswers(PagedRuns.Browse(Endpoint(c, p), requests, None))
  }

  /**
   Whatever is added to or removed from the corpus between requests, ordering keys
   strictly advance over the whole run, in either direction: nothing is returned twice.
   */
  lemma {:induction false} ListingAscends(c: Context, p: Params, requests: seq<Request>)
    requires ProperRun(c, p, requests)
    ensures Ascending(ShownTo(c, p, requests), OrderingKey(c, p.sortField), p.descending)
  {
    RunIsServed(c, p, requests);
    PagedRuns.BrowseAscends(Endpoint(c, p), SchemeOf(c, p), requests);
  }

  /** The document `id` is in the corpus, listed, and sorts under `value`. */
  ghost predicate Listing(c: Context, p: Params, documents: seq<Document>, id: string, value: string) {
    exists d :: d in documents && Listed(c, p, d) && d.id == id && PrimarySortValue(c, p.sortField, d) == value
  }

  lemma {:induction false} ListingHasKey(c: Context, p: Params, documents: seq<Document>, id: string, value: string)
    requires Listing(c, p, documents, id, value)
    ensures HasKey(ListedOf(c, p, documents), OrderingKey(c, p.sortField), (value, id))
  {
    var d :| d in documents && Listed(c, p, d) && d.id == id && PrimarySortValue(c, p.sortField, d) == value;
    var listed := ListedOf(c, p, documents);
    FilterMember(documents, (x: Document) => Listed(c, p, x), d);
    var j :| 0 <= j < |listed| && listed[j] == d;
    assert OrderingKey(c, p.sortField)(listed[j]) == (value, id);
  }

  /**
   Exactly once: a document that is listed at every request of a run that reached
   its last page, under an unchanged sort value, is returned at exactly one position.
   */
  lemma {:induction false} ListingShowsExactlyOnce(
    c: Context, p: Params, requests: seq<Request>, id: string, value: string)
    requires ProperRun(c, p, requests)
    requires forall i :: 0 <= i < |requests| ==> Listing(c, p, requests[i].documents, id, value)
    requires PagedRuns.Ended(PagedRuns.Browse(Endpoint(c, p), requests, None))
    ensures Once(ShownTo(c, p, requests), OrderingKey(c, p.sortField), (value, id))
  {
    RunIsServed(c, p, requests);
    forall i | 0 <= i < |requests|
      ensures HasKey(ListedOf(c, p, requests[i].documents), OrderingKey(c, p.sortField), (value, id))
    {
      ListingHasKey(c, p, requests[i].documents, id, value);
    }
    PagedRuns.BrowseShowsExactlyOnce(Endpoint(c, p), SchemeOf(c, p), requests, (value, id));
  }

  /**
   On an unchanged corpus the pages, one after the other, are the sorted, filtered
   list, and the run ends after as many pages as that list fills, never less than one.
   */
  lemma {:induction false} ListingUnchanged(
    c: Context, p: Params, requests: seq<Request>, documents: seq<Document>, pageSize: Option<int>)
    requires ProperRun(c, p, requests) && UniqueIds(documents)
    requires forall i :: 0 <= i < |requests| ==> requests[i] == Request(documents, pageSize)
    requires |requests| >= PageCount(|ListedOf(c, p, documents)|, ClampPageSize(pageSize, c.corpusPageSize))
    ensures var answers := PagedRuns.Browse(Endpoint(c, p), requests, None);
            && ShownTo(c, p, requests) == Sort(ListedOf(c, p, documents), OrderingKey(c, p.sortField), p.descending)
            && |answers| == PageCount(|ListedOf(c, p, documents)|, ClampPageSize(pageSize, c.corpusPageSize))
            && PagedRuns.Ended(answers)
  {
    RunIsServed(c, p, requests);
    ListedDistinct(c, p, documents);
    PagedRuns.BrowseUnchanged(Endpoint(c, p), SchemeOf(c, p), requests, Request(documents, pageSize));
  }
}
