/** The feedback inbox: negative ratings, an optional status filter, newest first, under the same paging scheme. */
module FeedbackInbox {
  import opened Wrappers
  import opened KeysetPaging
  import opened Cursor
  import PagedRuns

  datatype Item = Item(id: string, createdAt: string, rating: int, status: string)

  /** The fields of a cursor's payload; an empty status token means "no filter". */
  datatype Boundary = Boundary(reviewStatus: string, createdAt: string, lastId: string)

  const REVIEW_STATUSES: set<string> := {"unreviewed", "reviewed", "resolved"}

  predicate IsNegativeRating(rating: int) {
    rating == 1 || rating == 2
  }

  predicate Selected(status: Option<string>, item: Item) {
    IsNegativeRating(item.rating) && (status.Some? ==> item.status == status.value)
  }

  /** A rating of one or two, and the status that is asked for, if one is. */
  ghost predicate Wanted(status: Option<string>, item: Item) {
    item.rating in {1, 2} && forall s :: status == Some(s) ==> item.status == s
  }

  function SelectedOf(items: seq<Item>, status: Option<string>): seq<Item> {
    Filter(items, (x: Item) => Selected(status, x))
  }

  lemma {:induction false} FilterAppend<T>(items: seq<T>, x: T, keep: T -> bool)
    ensures Filter(items + [x], keep) == Filter(items, keep) + (if keep(x) then [x] else [])
  {
    if items == [] {
      assert items + [x] == [x];
    } else {
      var rest := items[1..];
      FilterAppend(rest, x, keep);
      FilterCons(items[0], rest, keep);
      FilterCons(items[0], rest + [x], keep);
      assert items == [items[0]] + rest && items + [x] == [items[0]] + (rest + [x]);
    }
  }

  lemma {:induction false} FilterCons<T>(x: T, rest: seq<T>, keep: T -> bool)
    ensures Filter([x] + rest, keep) == (if keep(x) then [x] else []) + Filter(rest, keep)
  {
    assert ([x] + rest)[1..] == rest;
  }

  /** `_select_negative`: the accumulating loop. */
  method SelectNegative(items: seq<Item>, status: Option<string>) returns (selected: seq<Item>)
    ensures selected == SelectedOf(items, status)
    ensures forall x :: x in selected <==> x in items && Wanted(status, x)
  {
    selected := [];
    ghost var keep := (x: Item) => Selected(status, x);
    for i := 0 to |items|
      invariant selected == SelectedOf(items[..i], status)
    {
      assert items[..i + 1] == items[..i] + [items[i]];
      FilterAppend(items[..i], items[i], keep);
      if !IsNegativeRating(items[i].rating) {
        continue;
      }
      if status.Some? && items[i].status != status.value {
        continue;
      }
      selected := selected + [items[i]];
    }
    assert items[..|items|] == items;
    forall x ensures x in selected <==> x in items && Wanted(status, x) {
      FilterMember(items, keep, x);
    }
  }

  function OrderingKey(item: Item): Key {
    (item.createdAt, item.id)
  }

  function StatusToken(status: Option<string>): string {
    if status.None? then "" else status.value
  }

  /** The boundary key of a cursor; `None` is the invalid-cursor error. */
  function ResumeKey(codec: Codec<Boundary>, status: Option<string>, cursor: Option<string>): Option<Option<Key>> {
    if cursor.None? then Some(None)
    else match DecodeCursor(codec, cursor.value)
      case Failure(_) => None
      case Success(b) => if b.reviewStatus != StatusToken(status) then None else Some(Some((b.createdAt, b.lastId)))
  }

  datatype Request = Request(items: seq<Item>, pageSize: Option<int>)

  /** `list_feedback_inbox`, without the join of each item with its trace. */
  function ListInbox(codec: Codec<Boundary>, status: Option<string>, limit: int, r: Request, cursor: Option<string>)
    : Option<PagedRuns.Answer<Item>>
  {
    match ResumeKey(codec, status, cursor)
    case None => None
    case Some(boundary) =>
      var page := ListPage(SelectedOf(r.items, status), OrderingKey, true, boundary, ClampPageSize(r.pageSize, limit));
      Some(PagedRuns.Answer(page.items, if page.next.None? then None else Some(Mint(codec, status, page.next.value))))
  }

  function Mint(codec: Codec<Boundary>, status: Option<string>, key: Key): string {
    EncodeCursor(codec, Boundary(StatusToken(status), key.0, key.1))
  }

  function Endpoint(codec: Codec<Boundary>, status: Option<string>, limit: int): PagedRuns.Endpoint<Request, Item> {
    (r: Request, cursor: Option<string>) => ListInbox(codec, status, limit, r, cursor)
  }

  function SchemeOf(codec: Codec<Boundary>, status: Option<string>, limit: int): PagedRuns.Scheme<Request, Item> {
    PagedRuns.Scheme(
      (r: Request) => Fetch(SelectedOf(r.items, status), ClampPageSize(r.pageSize, limit)),
      OrderingKey, true, (key: Key) => Mint(codec, status, key))
  }

  ghost predicate Lawful(codec: Codec<Boundary>) {
    && (forall b: Boundary :: codec.load(codec.dump(b)) == Some(b))
    && (forall b: Boundary :: codec.vocabulary(b) <==> b.reviewStatus == "" || b.reviewStatus in REVIEW_STATUSES)
  }

  ghost predicate ProperRun(codec: Codec<Boundary>, status: Option<string>, requests: seq<Request>) {
    && Lawful(codec) && (status.Some? ==> status.value in REVIEW_STATUSES)
    && forall i :: 0 <= i < |requests| ==> UniqueIds(requests[i].items)
  }

  ghost predicate UniqueIds(items: seq<Item>) {
    forall i, j :: 0 <= i < j < |items| ==> items[i].id != items[j].id
  }

  /** Each answer of the inbox is the keyset page its cursor's boundary asks for. */
  lemma {:induction false} InboxServes(codec: Codec<Boundary>, status: Option<string>, limit: int, r: Request)
    requires Lawful(codec) && (status.Some? ==> status.value in REVIEW_STATUSES)
    ensures PagedRuns.Serves(Endpoint(codec, status, limit), SchemeOf(codec, status, limit), r)
  {
    var s := SchemeOf(codec, status, limit);
    forall boundary
      ensures Endpoint(codec, status, limit)(r, PagedRuns.CursorAt(s, boundary))
           == Some(PagedRuns.AnswerOf(s, PagedRuns.PageAt(s, r, boundary)))
    {
      if boundary.Some? {
        var b := Boundary(StatusToken(status), boundary.value.0, boundary.value.1);
        assert codec.vocabulary(b);
        DecodeEncodeCursor(codec, b);
      }
    }
  }

  lemma {:induction false} SelectedDistinct(items: seq<Item>, status: Option<string>)
    requires UniqueIds(items)
    ensures DistinctKeys(SelectedOf(items, status), OrderingKey)
  {
    if items != [] {
      var rest := SelectedOf(items[1..], status);
      SelectedDistinct(items[1..], status);
      forall i | 0 <= i < |rest| ensures rest[i].id != items[0].id {
        FilterMember(items[1..], (x: Item) => Selected(status, x), rest[i]);
        var j :| 0 <= j < |items[1..]| && items[1..][j] == rest[i];
        assert items[j + 1] == rest[i];
      }
    }
  }

  lemma {:induction false} RunIsServed(
    codec: Codec<Boundary>, status: Option<string>, limit: int, requests: seq<Request>)
    requires ProperRun(codec, status, requests)
    ensures PagedRuns.ServesAll(Endpoint(codec, status, limit), SchemeOf(codec, status, limit), requests)
  {
    forall i | 0 <= i < |requests|
      ensures PagedRuns.Serves(Endpoint(codec, status, limit), SchemeOf(codec, status, limit), requests[i])
      ensures DistinctKeys(SelectedOf(requests[i].items, status), OrderingKey)
    {
      InboxServes(codec, status, limit, requests[i]);
      SelectedDistinct(requests[i].items, status);
    }
  }

  function ShownTo(codec: Codec<Boundary>, status: Option<string>, limit: int, requests: seq<Request>): seq<Item> {
    PagedRuns.ShownAnswers(PagedRuns.Browse(Endpoint(codec, status, limit), requests, None))
  }

  /**
   A whole run over the inbox goes strictly from newer to older, whatever arrives
   or changes status between requests; an item selected at every request of an
   ended run is shown exactly once.
   */
  lemma {:induction false} InboxShowsExactlyOnce(
    codec: Codec<Boundary>, status: Option<string>, limit: int, requests: seq<Request>, item: Key)
    requires ProperRun(codec, status, requests)
    ensures Ascending(ShownTo(codec, status, limit, requests), OrderingKey, true)
    ensures PagedRuns.Ended(PagedRuns.Browse(Endpoint(codec, status, limit), requests, None))
            && (forall i :: 0 <= i < |requests| ==>
                  HasKey(SelectedOf(requests[i].items, status), OrderingKey, item)) ==>
              Once(ShownTo(codec, status, limit, requests), OrderingKey, item)
  {
    var endpoint, s := Endpoint(codec, status, limit), SchemeOf(codec, status, limit);
    RunIsServed(codec, status, limit, requests);
    PagedRuns.BrowseAscends(endpoint, s, requests);
    if PagedRuns.Ended(PagedRuns.Browse(endpoint, requests, None))
       && (forall i :: 0 <= i < |requests| ==> HasKey(SelectedOf(requests[i].items, status), OrderingKey, item)) {
      PagedRuns.BrowseShowsExactlyOnce(endpoint, s, requests, item);
    }
  }

  /** On an unchanged inbox the pages together are the selected items, newest first, on as many pages as they fill. */
  lemma {:induction false} InboxUnchanged(
    codec: Codec<Boundary>, status: Option<string>, limit: int, requests: seq<Request>, r: Request)
    requires ProperRun(codec, status, requests) && UniqueIds(r.items)
    requires forall i :: 0 <= i < |requests| ==> requests[i] == r
    requires |requests| >= PageCount(|SelectedOf(r.items, status)|, ClampPageSize(r.pageSize, limit))
    ensures var answers := PagedRuns.Browse(Endpoint(codec, status, limit), requests, None);
            && PagedRuns.Ended(answers)
            && |answers| == PageCount(|SelectedOf(r.items, status)|, ClampPageSize(r.pageSize, limit))
            && ShownTo(codec, status, limit, requests) == Sort(SelectedOf(r.items, status), OrderingKey, true)
  {
    RunIsServed(codec, status, limit, requests);
    SelectedDistinct(r.items, status);
    PagedRuns.BrowseUnchanged(Endpoint(codec, status, limit), SchemeOf(codec, status, limit), requests, r);
  }

  // In terms of the items

  /** Whatever a run shows is a negative rating with the status asked for, and was there at one of its requests. */
  lemma {:induction false} ShownIsWanted(
    codec: Codec<Boundary>, status: Option<string>, limit: int, requests: seq<Request>, item: Item)
    requires ProperRun(codec, status, requests) && item in ShownTo(codec, status, limit, requests)
    ensures Wanted(status, item) && exists i :: 0 <= i < |requests| && item in requests[i].items
  {
    var s := SchemeOf(codec, status, limit);
    RunIsServed(codec, status, limit, requests);
    PagedRuns.ShownWasFound(Endpoint(codec, status, limit), s, requests, item);
    var i :| 0 <= i < |requests| && item in s.fetch(requests[i]).items;
    FilterMember(requests[i].items, (x: Item) => Selected(status, x), item);
  }

  /** Conversely, such an item that is there, as it is, at every request of an ended run is shown. */
  lemma {:induction false} WantedIsShown(
    codec: Codec<Boundary>, status: Option<string>, limit: int, requests: seq<Request>, item: Item)
    requires ProperRun(codec, status, requests) && Wanted(status, item)
    requires PagedRuns.Ended(PagedRuns.Browse(Endpoint(codec, status, limit), requests, None))
    requires forall i :: 0 <= i < |requests| ==> item in requests[i].items
    ensures item in ShownTo(codec, status, limit, requests)
  {
    var shown, key := ShownTo(codec, status, limit, requests), OrderingKey(item);
    forall i | 0 <= i < |requests| ensures HasKey(SelectedOf(requests[i].items, status), OrderingKey, key) {
      var selected := SelectedOf(requests[i].items, status);
      FilterMember(requests[i].items, (x: Item) => Selected(status, x), item);
      var j :| 0 <= j < |selected| && selected[j] == item;
      assert OrderingKey(selected[j]) == key;
    }
    InboxShowsExactlyOnce(codec, status, limit, requests, key);
    var j :| 0 <= j < |shown| && OrderingKey(shown[j]) == key;
    ShownIsWanted(codec, status, limit, requests, shown[j]);
    var i :| 0 <= i < |requests| && shown[j] in requests[i].items;
    SameId(requests[i].items, shown[j], item);
  }

  lemma {:induction false} SameId(items: seq<Item>, x: Item, y: Item)
    requires UniqueIds(items) && x in items && y in items && x.id == y.id
    ensures x == y
  {
  }

  /** Of two items shown, the later one is older, or as old with a smaller id. */
  lemma {:induction false} NewestFirst(
    codec: Codec<Boundary>, status: Option<string>, limit: int, requests: seq<Request>, i: nat, j: nat)
    requires ProperRun(codec, status, requests) && i < j < |ShownTo(codec, status, limit, requests)|
    ensures var shown := ShownTo(codec, status, limit, requests);
            || StringLess(shown[j].createdAt, shown[i].createdAt)
            || (shown[j].createdAt == shown[i].createdAt && StringLess(shown[j].id, shown[i].id))
  {
    InboxShowsExactlyOnce(codec, status, limit, requests, OrderingKey(ShownTo(codec, status, limit, requests)[i]));
    var shown := ShownTo(codec, status, limit, requests);
    assert Before(true, OrderingKey(shown[i]), OrderingKey(shown[j]));
  }

  /** A request fails exactly if its cursor does not decode or was minted under another status. */
  lemma {:induction false} FailsExactly(
    codec: Codec<Boundary>, status: Option<string>, limit: int, r: Request, cursor: Option<string>)
    ensures ListInbox(codec, status, limit, r, cursor).None? <==>
              cursor.Some? && match DecodeCursor(codec, cursor.value)
                              case Failure(_) => true
                              case Success(b) => b.reviewStatus != (match status case None => "" case Some(s) => s)
  {
  }
}
