/**
 What a client of the corpus listing gets to see, in terms of the documents' fields: who
 may see what, which filters it meets, in which order it comes, and which errors answer a
 request.
 */
module CorpusContents {
  import opened Wrappers
  import opened Text
  import opened KeysetPaging
  import opened Cursor
  import opened Corpus
  import PagedRuns

  /** An operator may see everything, anyone else what they own; a document without owner is nobody's. */
  ghost predicate Permitted(c: Context, d: Document) {
    !c.isOperator ==> exists viewer :: c.viewer == Some(viewer) && d.owner == Some(viewer)
  }

  /** Each filter that is set is met, by the field it is about. */
  ghost predicate Filtered(c: Context, p: Params, d: Document) {
    && (forall status :: p.status == Some(status) ==> d.status == status)
    && (forall owner :: p.owner == Some(owner) ==> d.owner == Some(owner))
    && (forall version :: p.activeVersion == Some(version) ==> d.activeVersion == Some(version))
    && (forall from :: p.dateFrom == Some(from) ==>
          exists date :: c.dateOf(d) == Some(date) && (date == from || StringLess(from, date)))
    && (forall to :: p.dateTo == Some(to) ==>
          exists date :: c.dateOf(d) == Some(date) && (date == to || StringLess(date, to)))
  }

  /** All fields of a document, one to a line. */
  function AllFields(d: Document): string {
    d.id + "\n" + d.title + "\n" + d.version + "\n" + d.status + "\n" +
    (match d.owner case None => "" case Some(owner) => owner) + "\n" +
    (match d.activeVersion case None => "" case Some(version) => version)
  }

  ghost predicate Contains(text: string, term: string) {
    exists i: nat :: OccursAt(text, term, i)
  }

  /** A folded search term occurs in the folded text of all fields. */
  ghost predicate Found(c: Context, p: Params, d: Document) {
    forall term :: p.search == Some(term) && term != "" ==> Contains(c.fold(AllFields(d)), c.fold(term))
  }

  ghost predicate Wanted(c: Context, p: Params, d: Document) {
    Permitted(c, d) && Filtered(c, p, d) && Found(c, p, d)
  }

  lemma {:induction false} NotBefore(a: string, b: string)
    ensures !StringLess(a, b) <==> a == b || StringLess(b, a)
  {
    StringTrichotomy(a, b);
  }

  lemma {:induction false} FilteredExactly(c: Context, p: Params, d: Document)
    ensures PassesFilters(c, p, d) <==> Filtered(c, p, d)
  {
    if c.dateOf(d).Some? && p.dateFrom.Some? {
      NotBefore(c.dateOf(d).value, p.dateFrom.value);
    }
    if c.dateOf(d).Some? && p.dateTo.Some? {
      NotBefore(p.dateTo.value, c.dateOf(d).value);
    }
  }

  lemma {:induction false} FoundExactly(c: Context, p: Params, d: Document)
    ensures MatchesSearch(c, p, d) <==> Found(c, p, d)
  {
    assert SearchableText(d) == AllFields(d);
    if p.search.Some? && p.search.value != "" {
      var text, term := c.fold(AllFields(d)), c.fold(p.search.value);
      assert Find(text, term).Some? <==> Contains(text, term);
    }
  }

  /** A document is listed exactly if the viewer may see it and it meets all that is asked. */
  lemma {:induction false} ListedExactly(c: Context, p: Params, d: Document)
    ensures Listed(c, p, d) <==> Wanted(c, p, d)
  {
    FilteredExactly(c, p, d);
    FoundExactly(c, p, d);
  }

  lemma {:induction false} ListedOfExactly(c: Context, p: Params, documents: seq<Document>, d: Document)
    ensures d in ListedOf(c, p, documents) <==> d in documents && Wanted(c, p, d)
  {
    FilterMember(documents, (x: Document) => Listed(c, p, x), d);
    ListedExactly(c, p, d);
  }

  /**
   Whatever a run shows was in the corpus at one of its requests, is the viewer's own unless
   the viewer is an operator, and meets every filter and the search.
   */
  lemma {:induction false} ShownIsWanted(c: Context, p: Params, requests: seq<Request>, d: Document)
    requires ProperRun(c, p, requests) && d in ShownTo(c, p, requests)
    ensures !c.isOperator ==> c.viewer.Some? && d.owner == c.viewer
    ensures Filtered(c, p, d) && Found(c, p, d)
    ensures exists i :: 0 <= i < |requests| && d in requests[i].documents
  {
    RunIsServed(c, p, requests);
    PagedRuns.ShownWasFound(Endpoint(c, p), SchemeOf(c, p), requests, d);
    var i :| 0 <= i < |requests| && d in SchemeOf(c, p).fetch(requests[i]).items;
    ListedOfExactly(c, p, requests[i].documents, d);
  }

  /**
   Conversely, a document that is in the corpus, as it is, at every request of an ended run,
   and that the viewer may see and meets all that is asked, is shown.
   */
  lemma {:induction false} WantedIsShown(c: Context, p: Params, requests: seq<Request>, d: Document)
    requires ProperRun(c, p, requests) && PagedRuns.Ended(PagedRuns.Browse(Endpoint(c, p), requests, None))
    requires Wanted(c, p, d) && forall i :: 0 <= i < |requests| ==> d in requests[i].documents
    ensures d in ShownTo(c, p, requests)
  {
    var shown, value := ShownTo(c, p, requests), PrimarySortValue(c, p.sortField, d);
    forall i | 0 <= i < |requests| ensures Listing(c, p, requests[i].documents, d.id, value) {
      ListedExactly(c, p, d);
      assert d in requests[i].documents && Listed(c, p, d);
    }
    ListingShowsExactlyOnce(c, p, requests, d.id, value);
    var j :| 0 <= j < |shown| && OrderingKey(c, p.sortField)(shown[j]) == (value, d.id);
    ShownIsWanted(c, p, requests, shown[j]);
    var i :| 0 <= i < |requests| && shown[j] in requests[i].documents;
    SameId(requests[i].documents, shown[j], d);
  }

  lemma {:induction false} SameId(documents: seq<Document>, d: Document, e: Document)
    requires UniqueIds(documents) && d in documents && e in documents && d.id == e.id
    ensures d == e
  {
  }

  /** On an unchanged corpus an ended run shows exactly the documents that are wanted. */
  lemma {:induction false} ShownExactlyTheWanted(
    c: Context, p: Params, requests: seq<Request>, documents: seq<Document>, d: Document)
    requires ProperRun(c, p, requests) && PagedRuns.Ended(PagedRuns.Browse(Endpoint(c, p), requests, None))
    requires forall i :: 0 <= i < |requests| ==> requests[i].documents == documents
    ensures d in ShownTo(c, p, requests) <==> d in documents && Wanted(c, p, d)
  {
    if d in ShownTo(c, p, requests) {
      ShownIsWanted(c, p, requests, d);
    } else if d in documents && Wanted(c, p, d) {
      WantedIsShown(c, p, requests, d);
    }
  }

  /** What the listing sorts by: the folded title, the folded owner or the date, whichever was asked for. */
  ghost predicate SortsBy(c: Context, f: SortField, d: Document, value: string) {
    match f
    case Name => value == c.fold(d.title)
    case Owner => value == c.fold(match d.owner case None => "" case Some(owner) => owner)
    case Date => if c.dateOf(d).Some? then c.dateOf(d) == Some(value) else value == ""
  }

  /** The first document has the smaller value, or the same value and the smaller id. */
  ghost predicate InOrder(c: Context, f: SortField, first: Document, second: Document) {
    exists a, b ::
      && SortsBy(c, f, first, a) && SortsBy(c, f, second, b)
      && (StringLess(a, b) || (a == b && StringLess(first.id, second.id)))
  }

  /** A run shows documents in that order, or in the opposite one if it is descending. */
  lemma {:induction false} ShownInOrder(c: Context, p: Params, requests: seq<Request>, i: nat, j: nat)
    requires ProperRun(c, p, requests) && i < j < |ShownTo(c, p, requests)|
    ensures var shown := ShownTo(c, p, requests);
            if p.descending then InOrder(c, p.sortField, shown[j], shown[i])
            else InOrder(c, p.sortField, shown[i], shown[j])
  {
    ListingAscends(c, p, requests);
    var shown := ShownTo(c, p, requests);
    assert Before(p.descending, OrderingKey(c, p.sortField)(shown[i]), OrderingKey(c, p.sortField)(shown[j]));
    if p.descending {
      KeysInOrder(c, p.sortField, shown[j], shown[i]);
    } else {
      KeysInOrder(c, p.sortField, shown[i], shown[j]);
    }
  }

  lemma {:induction false} KeysInOrder(c: Context, f: SortField, first: Document, second: Document)
    requires KeyLess(OrderingKey(c, f)(first), OrderingKey(c, f)(second))
    ensures InOrder(c, f, first, second)
  {
    var a, b := PrimarySortValue(c, f, first), PrimarySortValue(c, f, second);
    assert SortsBy(c, f, first, a) && SortsBy(c, f, second, b);
  }

  /** The name of a sort in a cursor. */
  ghost predicate NamesSort(b: Boundary, p: Params) {
    && b.sortDirection == (if p.descending then "desc" else "asc")
    && match p.sortField
       case Name => b.sortField == "name"
       case Owner => b.sortField == "owner"
       case Date => b.sortField == "date"
  }

  /**
   A request fails exactly if its search term is longer than 200 characters, or else if its
   cursor does not decode or was minted under another sort.
   */
  lemma {:induction false} FailsExactly(
    c: Context, p: Params, documents: seq<Document>, pageSize: Option<int>, cursor: Option<string>)
    ensures var r := ListCorpus(c, p, documents, pageSize, cursor);
            && (r == Failure(SearchTermTooLong) <==> p.search.Some? && |p.search.value| > 200)
            && (r == Failure(InvalidCursor) <==>
                  && !(p.search.Some? && |p.search.value| > 200) && cursor.Some?
                  && match DecodeCursor(c.codec, cursor.value)
                     case Failure(_) => true
                     case Success(b) => !NamesSort(b, p))
  {
  }
}
