/**
 A client that follows opaque next cursors. If every single answer is a page of a
 keyset listing (with the cursor standing for the boundary key), the whole run is
 the keyset walk, and inherits its guarantees.
 */
module PagedRuns {
  import opened Wrappers
  import opened KeysetPaging

  datatype Answer<+T> = Answer(items: seq<T>, nextCursor: Option<string>)

  /** A listing endpoint: a request and a cursor to an answer, or to an error. */
  type Endpoint<!R, !T> = (R, Option<string>) -> Option<Answer<T>>

  /** The answers of a run; an error ends it. */
  function Browse<R, T>(endpoint: Endpoint<R, T>, requests: seq<R>, cursor: Option<string>): seq<Answer<T>> {
    if requests == [] then []
    else match endpoint(requests[0], cursor)
      case None => []
      case Some(answer) =>
        [answer] + (if answer.nextCursor.None? then [] else Browse(endpoint, requests[1..], answer.nextCursor))
  }

  function ShownAnswers<T>(answers: seq<Answer<T>>): seq<T> {
    if answers == [] then [] else answers[0].items + ShownAnswers(answers[1..])
  }

  /** How a listing orders its items, and how it writes a boundary key into a cursor. */
  datatype Scheme<!R, !T> = Scheme(fetch: R -> Fetch<T>, key: T -> Key, reverse: bool, mint: Key -> string)

  function CursorAt<R, T>(s: Scheme<R, T>, boundary: Option<Key>): Option<string> {
    if boundary.None? then None else Some(s.mint(boundary.value))
  }

  function PageAt<R, T>(s: Scheme<R, T>, r: R, boundary: Option<Key>): Page<T> {
    ListPage(s.fetch(r).items, s.key, s.reverse, boundary, s.fetch(r).size)
  }

  function AnswerOf<R, T>(s: Scheme<R, T>, page: Page<T>): Answer<T> {
    Answer(page.items, CursorAt(s, page.next))
  }

  /** The endpoint answers `r` with the page its cursor's boundary asks for. */
  ghost predicate Serves<R, T>(endpoint: Endpoint<R, T>, s: Scheme<R, T>, r: R) {
    forall boundary :: endpoint(r, CursorAt(s, boundary)) == Some(AnswerOf(s, PageAt(s, r, boundary)))
  }

  ghost predicate ServesAll<R, T>(endpoint: Endpoint<R, T>, s: Scheme<R, T>, requests: seq<R>) {
    forall i :: 0 <= i < |requests| ==>
      Serves(endpoint, s, requests[i]) && s.fetch(requests[i]).size >= 1 &&
      DistinctKeys(s.fetch(requests[i]).items, s.key)
  }

  function WalkOf<R, T>(s: Scheme<R, T>, requests: seq<R>, boundary: Option<Key>): seq<Page<T>> {
    Walk(Fetches(s, requests), s.key, s.reverse, boundary)
  }

  function Fetches<R, T>(s: Scheme<R, T>, requests: seq<R>): seq<Fetch<T>> {
    seq(|requests|, i requires 0 <= i < |requests| => s.fetch(requests[i]))
  }

  lemma {:induction false} WalkUnfolds<R, T>(s: Scheme<R, T>, requests: seq<R>, boundary: Option<Key>)
    requires requests != []
    ensures var page := PageAt(s, requests[0], boundary);
            WalkOf(s, requests, boundary) ==
              [page] + (if page.next.None? then [] else WalkOf(s, requests[1..], page.next))
  {
    assert Fetches(s, requests)[1..] == Fetches(s, requests[1..]);
  }

  /** A run and a walk with the same pages, the same items shown, and the same kind of end. */
  ghost predicate Agree<T>(answers: seq<Answer<T>>, pages: seq<Page<T>>) {
    && |answers| == |pages| && ShownAnswers(answers) == Shown(pages)
    && (answers != [] ==> (answers[|answers| - 1].nextCursor.None? <==> pages[|pages| - 1].next.None?))
  }

  lemma {:induction false} AgreeCons<R, T>(s: Scheme<R, T>, page: Page<T>, answers: seq<Answer<T>>, pages: seq<Page<T>>)
    requires Agree(answers, pages)
    ensures Agree([AnswerOf(s, page)] + answers, [page] + pages)
  {
    assert ([AnswerOf(s, page)] + answers)[1..] == answers && ([page] + pages)[1..] == pages;
  }

  lemma {:induction false} BrowseUnfolds<R, T>(
    endpoint: Endpoint<R, T>, s: Scheme<R, T>, requests: seq<R>, boundary: Option<Key>)
    requires requests != [] && Serves(endpoint, s, requests[0])
    ensures var page := PageAt(s, requests[0], boundary);
            Browse(endpoint, requests, CursorAt(s, boundary)) == [AnswerOf(s, page)] +
              if page.next.None? then [] else Browse(endpoint, requests[1..], CursorAt(s, page.next))
  {
    var page := PageAt(s, requests[0], boundary);
    assert endpoint(requests[0], CursorAt(s, boundary)) == Some(AnswerOf(s, page));
  }

  lemma {:induction false} ServesRest<R, T>(endpoint: Endpoint<R, T>, s: Scheme<R, T>, requests: seq<R>)
    requires requests != [] && ServesAll(endpoint, s, requests)
    ensures Serves(endpoint, s, requests[0]) && ServesAll(endpoint, s, requests[1..])
  {
  }

  lemma {:induction false} AgreeStep<R, T>(
    endpoint: Endpoint<R, T>, s: Scheme<R, T>, requests: seq<R>, boundary: Option<Key>)
    requires requests != [] && Serves(endpoint, s, requests[0])
    requires var next := PageAt(s, requests[0], boundary).next;
      next.Some? ==> Agree(Browse(endpoint, requests[1..], CursorAt(s, next)), WalkOf(s, requests[1..], next))
    ensures Agree(Browse(endpoint, requests, CursorAt(s, boundary)), WalkOf(s, requests, boundary))
  {
    var page := PageAt(s, requests[0], boundary);
    WalkUnfolds(s, requests, boundary);
    BrowseUnfolds(endpoint, s, requests, boundary);
    if page.next.None? {
      AgreeCons(s, page, [], []);
    } else {
      AgreeCons(s, page, Browse(endpoint, requests[1..], CursorAt(s, page.next)), WalkOf(s, requests[1..], page.next));
    }
  }

  /** The run and the walk agree page by page, in what they show and in whether they ended. */
  lemma {:induction false} BrowseIsWalk<R, T>(
    endpoint: Endpoint<R, T>, s: Scheme<R, T>, requests: seq<R>, boundary: Option<Key>)
    requires ServesAll(endpoint, s, requests)
    ensures Agree(Browse(endpoint, requests, CursorAt(s, boundary)), WalkOf(s, requests, boundary))
  {
    if requests != [] {
      var next := PageAt(s, requests[0], boundary).next;
      ServesRest(endpoint, s, requests);
      if next.Some? {
        BrowseIsWalk(endpoint, s, requests[1..], next);
      }
      AgreeStep(endpoint, s, requests, boundary);
    }
  }

  /** Keys strictly advance over the whole run, whatever changes between requests. */
  lemma {:induction false} BrowseAscends<R, T>(endpoint: Endpoint<R, T>, s: Scheme<R, T>, requests: seq<R>)
    requires ServesAll(endpoint, s, requests)
    ensures Ascending(ShownAnswers(Browse(endpoint, requests, None)), s.key, s.reverse)
  {
    BrowseIsWalk(endpoint, s, requests, None);
    WalkAscends(Fetches(s, requests), s.key, s.reverse, None);
  }

  /** Whatever is shown was found by some request. */
  lemma {:induction false} ShownWasFound<R, T>(endpoint: Endpoint<R, T>, s: Scheme<R, T>, requests: seq<R>, x: T)
    requires ServesAll(endpoint, s, requests) && x in ShownAnswers(Browse(endpoint, requests, None))
    ensures exists i :: 0 <= i < |requests| && x in s.fetch(requests[i]).items
  {
    BrowseIsWalk(endpoint, s, requests, None);
    var fetches := Fetches(s, requests);
    FetchesAreProper(endpoint, s, requests);
    assert x in Shown(Walk(fetches, s.key, s.reverse, None));
    ShownWasFetched(fetches, s.key, s.reverse, None, x);
    var i :| 0 <= i < |fetches| && x in fetches[i].items;
    FetchOf(s, requests, i);
  }

  lemma {:induction false} FetchOf<R, T>(s: Scheme<R, T>, requests: seq<R>, i: nat)
    requires i < |requests|
    ensures Fetches(s, requests)[i] == s.fetch(requests[i])
  {
  }

  lemma {:induction false} FetchesAreProper<R, T>(endpoint: Endpoint<R, T>, s: Scheme<R, T>, requests: seq<R>)
    requires ServesAll(endpoint, s, requests)
    ensures ProperFetches(Fetches(s, requests), s.key)
  {
    forall i | 0 <= i < |requests|
      ensures s.fetch(requests[i]).size >= 1 && DistinctKeys(s.fetch(requests[i]).items, s.key)
    {
      assert Serves(endpoint, s, requests[i]);
    }
  }

  /** The run reached its last page. */
  ghost predicate Ended<T>(answers: seq<Answer<T>>) {
    answers != [] && answers[|answers| - 1].nextCursor.None?
  }

  /** A key found at every request of an ended run is shown at exactly one position. */
  lemma {:induction false} BrowseShowsExactlyOnce<R, T>(
    endpoint: Endpoint<R, T>, s: Scheme<R, T>, requests: seq<R>, k: Key)
    requires ServesAll(endpoint, s, requests) && Ended(Browse(endpoint, requests, None))
    requires forall i :: 0 <= i < |requests| ==> HasKey(s.fetch(requests[i]).items, s.key, k)
    ensures Once(ShownAnswers(Browse(endpoint, requests, None)), s.key, k)
  {
    BrowseIsWalk(endpoint, s, requests, None);
    ShownExactlyOnce(Fetches(s, requests), s.key, s.reverse, k);
  }

  /** On an unchanged collection the run shows the sorted list, on as many pages as it fills. */
  lemma {:induction false} BrowseUnchanged<R, T>(endpoint: Endpoint<R, T>, s: Scheme<R, T>, requests: seq<R>, r: R)
    requires ServesAll(endpoint, s, requests)
    requires forall i :: 0 <= i < |requests| ==> requests[i] == r
    requires s.fetch(r).size >= 1 && DistinctKeys(s.fetch(r).items, s.key)
    requires |requests| >= PageCount(|s.fetch(r).items|, s.fetch(r).size)
    ensures var answers := Browse(endpoint, requests, None);
            && Ended(answers) && |answers| == PageCount(|s.fetch(r).items|, s.fetch(r).size)
            && ShownAnswers(answers) == Sort(s.fetch(r).items, s.key, s.reverse)
  {
    BrowseIsWalk(endpoint, s, requests, None);
    UnchangedCollection(Fetches(s, requests), s.fetch(r).items, s.fetch(r).size, s.key, s.reverse);
  }
}
