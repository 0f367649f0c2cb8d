/**
 Keyset pagination: order by a total key, resume strictly after a boundary key,
 slice, and hand out the last key as the next boundary. A whole browsing run may
 see a different collection at every fetch.
 */
module KeysetPaging {
  import opened Wrappers

  /** `(primary sort value, id)`, compared as Python compares tuples of strings. */
  type Key = (string, string)

  predicate StringLess(a: string, b: string) {
    b != [] && (a == [] || a[0] < b[0] || (a[0] == b[0] && StringLess(a[1..], b[1..])))
  }

  predicate KeyLess(a: Key, b: Key) {
    StringLess(a.0, b.0) || (a.0 == b.0 && StringLess(a.1, b.1))
  }

  /** The two agree up to a place, where the first one ends or has the smaller character. */
  ghost predicate LessAt(a: string, b: string, i: nat) {
    i <= |a| && i < |b| && a[..i] == b[..i] && (i == |a| || a[i] < b[i])
  }

  lemma {:induction false} LessAtNext(a: string, b: string, i: nat)
    requires a != [] && b != []
    ensures LessAt(a, b, i + 1) <==> a[0] == b[0] && LessAt(a[1..], b[1..], i)
  {
    if i + 1 <= |a| && i + 1 < |b| {
      assert a[..i + 1] == [a[0]] + a[1..][..i] && b[..i + 1] == [b[0]] + b[1..][..i];
    }
  }

  /** The order of strings is the dictionary's. */
  lemma {:induction false} StringLessIsLexicographic(a: string, b: string)
    ensures StringLess(a, b) <==> exists i: nat :: LessAt(a, b, i)
  {
    if a == [] || b == [] || a[0] != b[0] {
      assert StringLess(a, b) ==> LessAt(a, b, 0);
      forall i: nat | LessAt(a, b, i) ensures i == 0 {
        if i > 0 {
          LessAtNext(a, b, i - 1);
        }
      }
    } else {
      StringLessIsLexicographic(a[1..], b[1..]);
      if i: nat :| LessAt(a[1..], b[1..], i) {
        LessAtNext(a, b, i);
      }
      forall i: nat | LessAt(a, b, i) ensures i > 0 && LessAt(a[1..], b[1..], i - 1) {
        LessAtNext(a, b, i - 1);
      }
    }
  }

  lemma {:induction false} StringTrichotomy(a: string, b: string)
    ensures StringLess(a, b) || a == b || StringLess(b, a)
    ensures !(StringLess(a, b) && StringLess(b, a)) && !(StringLess(a, b) && a == b)
  {
    if a != [] && b != [] && a[0] == b[0] {
      StringTrichotomy(a[1..], b[1..]);
      assert a == [a[0]] + a[1..] && b == [b[0]] + b[1..];
    }
  }

  lemma {:induction false} StringTransitive(a: string, b: string, c: string)
    requires StringLess(a, b) && StringLess(b, c)
    ensures StringLess(a, c)
  {
    if a != [] && a[0] == b[0] && b[0] == c[0] {
      StringTransitive(a[1..], b[1..], c[1..]);
    }
  }

  /** Does `a` come before `b` in the listing? */
  predicate Before(reverse: bool, a: Key, b: Key) {
    if reverse then KeyLess(b, a) else KeyLess(a, b)
  }

  lemma {:induction false} BeforeTrichotomy(reverse: bool, a: Key, b: Key)
    ensures Before(reverse, a, b) || a == b || Before(reverse, b, a)
    ensures !(Before(reverse, a, b) && Before(reverse, b, a)) && !(Before(reverse, a, b) && a == b)
  {
    StringTrichotomy(a.0, b.0);
    StringTrichotomy(a.1, b.1);
  }

  lemma {:induction false} BeforeTransitive(reverse: bool, a: Key, b: Key, c: Key)
    requires Before(reverse, a, b) && Before(reverse, b, c)
    ensures Before(reverse, a, c)
  {
    var (x, y, z) := if reverse then (c, b, a) else (a, b, c);
    if StringLess(x.0, y.0) && StringLess(y.0, z.0) {
      StringTransitive(x.0, y.0, z.0);
    } else if x.0 == y.0 && y.0 == z.0 {
      StringTransitive(x.1, y.1, z.1);
    }
  }

  // Sorting

  /** A stable insertion: `x` goes in front of the first item that does not come before it. */
  function Insert<T>(x: T, sorted: seq<T>, key: T -> Key, reverse: bool): seq<T> {
    if sorted != [] && Before(reverse, key(sorted[0]), key(x)) then
      [sorted[0]] + Insert(x, sorted[1..], key, reverse)
    else [x] + sorted
  }

  /** `sorted(items, key=key, reverse=reverse)`. */
  function Sort<T>(items: seq<T>, key: T -> Key, reverse: bool): seq<T> {
    if items == [] then [] else Insert(items[0], Sort(items[1..], key, reverse), key, reverse)
  }

  ghost predicate DistinctKeys<T>(items: seq<T>, key: T -> Key) {
    forall i, j :: 0 <= i < j < |items| ==> key(items[i]) != key(items[j])
  }

  /** Keys strictly advance along the sequence. */
  ghost predicate Ascending<T>(items: seq<T>, key: T -> Key, reverse: bool) {
    forall i, j :: 0 <= i < j < |items| ==> Before(reverse, key(items[i]), key(items[j]))
  }

  lemma {:induction false} InsertMultiset<T>(x: T, sorted: seq<T>, key: T -> Key, reverse: bool)
    ensures multiset(Insert(x, sorted, key, reverse)) == multiset(sorted) + multiset{x}
  {
    if sorted != [] && Before(reverse, key(sorted[0]), key(x)) {
      InsertMultiset(x, sorted[1..], key, reverse);
      assert sorted == [sorted[0]] + sorted[1..];
    }
  }

  lemma {:induction false} SortMultiset<T>(items: seq<T>, key: T -> Key, reverse: bool)
    ensures multiset(Sort(items, key, reverse)) == multiset(items)
  {
    if items != [] {
      SortMultiset(items[1..], key, reverse);
      InsertMultiset(items[0], Sort(items[1..], key, reverse), key, reverse);
      assert items == [items[0]] + items[1..];
    }
  }

  lemma {:induction false} InsertAscending<T>(x: T, sorted: seq<T>, key: T -> Key, reverse: bool)
    requires Ascending(sorted, key, reverse)
    requires forall i :: 0 <= i < |sorted| ==> key(sorted[i]) != key(x)
    ensures Ascending(Insert(x, sorted, key, reverse), key, reverse)
  {
    if sorted == [] {
    } else if Before(reverse, key(sorted[0]), key(x)) {
      var rest := Insert(x, sorted[1..], key, reverse);
      InsertAscending(x, sorted[1..], key, reverse);
      InsertMultiset(x, sorted[1..], key, reverse);
      forall y | y in rest ensures Before(reverse, key(sorted[0]), key(y)) {
        assert y in multiset(rest);
        if y != x {
          var j :| 0 <= j < |sorted[1..]| && sorted[1..][j] == y;
          assert sorted[j + 1] == y;
        }
      }
      assert forall i :: 0 <= i < |rest| ==> rest[i] in rest;
    } else {
      BeforeTrichotomy(reverse, key(sorted[0]), key(x));
      forall i | 0 <= i < |sorted| ensures Before(reverse, key(x), key(sorted[i])) {
        if i > 0 {
          BeforeTransitive(reverse, key(x), key(sorted[0]), key(sorted[i]));
        }
      }
    }
  }

  lemma {:induction false} SortAscending<T>(items: seq<T>, key: T -> Key, reverse: bool)
    requires DistinctKeys(items, key)
    ensures Ascending(Sort(items, key, reverse), key, reverse)
  {
    if items != [] {
      var rest := Sort(items[1..], key, reverse);
      SortAscending(items[1..], key, reverse);
      SortMultiset(items[1..], key, reverse);
      forall i | 0 <= i < |rest| ensures key(rest[i]) != key(items[0]) {
        assert rest[i] in multiset(rest);
        var j :| 0 <= j < |items[1..]| && items[1..][j] == rest[i];
        assert items[j + 1] == rest[i];
      }
      InsertAscending(items[0], rest, key, reverse);
    }
  }

  // One page

  function Filter<T>(items: seq<T>, keep: T -> bool): seq<T> {
    if items == [] then []
    else (if keep(items[0]) then [items[0]] else []) + Filter(items[1..], keep)
  }

  datatype Page<+T> = Page(items: seq<T>, next: Option<Key>)

  predicate Beyond(reverse: bool, boundary: Option<Key>, key: Key) {
    boundary.None? || Before(reverse, boundary.value, key)
  }

  /** The ordered items strictly after the boundary. */
  function Resumed<T>(items: seq<T>, key: T -> Key, reverse: bool, boundary: Option<Key>): seq<T> {
    Filter(Sort(items, key, reverse), (x: T) => Beyond(reverse, boundary, key(x)))
  }

  function Cut<T>(resumed: seq<T>, key: T -> Key, size: nat): Page<T> {
    if |resumed| > size then
      Page(resumed[..size], if size > 0 then Some(key(resumed[size - 1])) else None)
    else Page(resumed, None)
  }

  function ListPage<T>(items: seq<T>, key: T -> Key, reverse: bool, boundary: Option<Key>, size: nat): Page<T> {
    Cut(Resumed(items, key, reverse, boundary), key, size)
  }

  lemma {:induction false} FilterMember<T>(items: seq<T>, keep: T -> bool, x: T)
    ensures x in Filter(items, keep) <==> x in items && keep(x)
  {
    if items != [] {
      FilterMember(items[1..], keep, x);
      assert items == [items[0]] + items[1..];
    }
  }

  lemma {:induction false} FilterAscending<T>(items: seq<T>, keep: T -> bool, key: T -> Key, reverse: bool)
    requires Ascending(items, key, reverse)
    ensures Ascending(Filter(items, keep), key, reverse)
  {
    if items != [] {
      var rest := Filter(items[1..], keep);
      FilterAscending(items[1..], keep, key, reverse);
      forall i | 0 <= i < |rest| ensures Before(reverse, key(items[0]), key(rest[i])) {
        FilterMember(items[1..], keep, rest[i]);
        var j :| 0 <= j < |items[1..]| && items[1..][j] == rest[i];
        assert items[j + 1] == rest[i];
      }
    }
  }

  /** What a fetch resumes over: in order, and exactly the items beyond the boundary. */
  lemma {:induction false} ResumedIsExact<T>(items: seq<T>, key: T -> Key, reverse: bool, boundary: Option<Key>)
    requires DistinctKeys(items, key)
    ensures var r := Resumed(items, key, reverse, boundary);
            && Ascending(r, key, reverse)
            && forall x :: x in r <==> x in items && Beyond(reverse, boundary, key(x))
  {
    var sorted := Sort(items, key, reverse);
    var keep := (x: T) => Beyond(reverse, boundary, key(x));
    SortAscending(items, key, reverse);
    SortMultiset(items, key, reverse);
    FilterAscending(sorted, keep, key, reverse);
    forall x ensures x in Filter(sorted, keep) <==> x in items && Beyond(reverse, boundary, key(x)) {
      FilterMember(sorted, keep, x);
      assert x in sorted <==> x in multiset(sorted);
    }
  }

  /**
   `_clamp_page_size`: into `[1, maximum]`, where a maximum below 1 counts as 1. A
   missing request gets the most, and any other the nearest size that is allowed.
   */
  function ClampPageSize(requested: Option<int>, maximum: int): (r: nat)
    ensures 1 <= r && (r <= maximum || r == 1)
    ensures requested.None? || requested.value > maximum ==> r == maximum || (r == 1 && maximum < 1)
    ensures requested.Some? && requested.value < 1 ==> r == 1
    ensures requested.Some? && 1 <= requested.value <= maximum ==> r == requested.value
  {
    var limit := if maximum < 1 then 1 else maximum;
    if requested.None? then limit
    else if requested.value < 1 then 1 else if requested.value < limit then requested.value else limit
  }

  // A browsing run

  /** What one request finds (already scoped, filtered and searched), and its page size. */
  datatype Fetch<+T> = Fetch(items: seq<T>, size: nat)

  /** The pages of a run that follows the boundaries; it stops at a page without one. */
  function Walk<T>(fetches: seq<Fetch<T>>, key: T -> Key, reverse: bool, boundary: Option<Key>): seq<Page<T>> {
    if fetches == [] then []
    else
      var page := ListPage(fetches[0].items, key, reverse, boundary, fetches[0].size);
      [page] + (if page.next.None? then [] else Walk(fetches[1..], key, reverse, page.next))
  }

  function Shown<T>(pages: seq<Page<T>>): seq<T> {
    if pages == [] then [] else pages[0].items + Shown(pages[1..])
  }

  ghost predicate Complete<T>(pages: seq<Page<T>>) {
    pages != [] && pages[|pages| - 1].next.None?
  }

  ghost predicate ProperFetches<T>(fetches: seq<Fetch<T>>, key: T -> Key) {
    forall i :: 0 <= i < |fetches| ==> fetches[i].size >= 1 && DistinctKeys(fetches[i].items, key)
  }

  lemma {:induction false} CutSplits<T>(resumed: seq<T>, key: T -> Key, reverse: bool, size: nat)
    requires size >= 1 && Ascending(resumed, key, reverse)
    ensures var page := Cut(resumed, key, size);
            && page.items <= resumed
            && (page.next.None? ==> page.items == resumed)
            && (page.next.Some? ==>
                  && (forall i :: 0 <= i < |page.items| ==>
                        key(page.items[i]) == page.next.value || Before(reverse, key(page.items[i]), page.next.value))
                  && (forall x :: x in resumed ==> x in page.items || Before(reverse, page.next.value, key(x)))
                  && resumed[size - 1] in page.items && key(resumed[size - 1]) == page.next.value)
  {
    var page := Cut(resumed, key, size);
    if page.next.Some? {
      forall x | x in resumed ensures x in page.items || Before(reverse, page.next.value, key(x)) {
        var i :| 0 <= i < |resumed| && resumed[i] == x;
        if i < size {
          assert page.items[i] == x;
        }
      }
      assert page.items[size - 1] == resumed[size - 1];
    }
  }

  /**
   Whatever happens to the collection between fetches, keys strictly advance over
   the whole run, so nothing is shown twice.
   */
  lemma {:induction false} WalkAscends<T>(fetches: seq<Fetch<T>>, key: T -> Key, reverse: bool, boundary: Option<Key>)
    requires ProperFetches(fetches, key)
    ensures var shown := Shown(Walk(fetches, key, reverse, boundary));
            && Ascending(shown, key, reverse)
            && forall i :: 0 <= i < |shown| ==> Beyond(reverse, boundary, key(shown[i]))
  {
    if fetches != [] {
      var resumed := Resumed(fetches[0].items, key, reverse, boundary);
      var page := Cut(resumed, key, fetches[0].size);
      ResumedIsExact(fetches[0].items, key, reverse, boundary);
      CutSplits(resumed, key, reverse, fetches[0].size);
      PrefixIsBeyond(page.items, resumed, key, reverse, boundary);
      WalkUnfolds(fetches, key, reverse, boundary);
      if page.next.None? {
        assert page.items + [] == page.items;
      } else {
        WalkAscends(fetches[1..], key, reverse, page.next);
        AscendingJoin(
          page.items, Shown(Walk(fetches[1..], key, reverse, page.next)), key, reverse, boundary, page.next.value);
      }
    }
  }

  lemma {:induction false} PrefixIsBeyond<T>(
    shown: seq<T>, resumed: seq<T>, key: T -> Key, reverse: bool, boundary: Option<Key>)
    requires shown <= resumed && forall x :: x in resumed ==> Beyond(reverse, boundary, key(x))
    ensures forall i :: 0 <= i < |shown| ==> Beyond(reverse, boundary, key(shown[i]))
  {
    forall i | 0 <= i < |shown| ensures Beyond(reverse, boundary, key(shown[i])) {
      assert shown[i] == resumed[i] && resumed[i] in resumed;
    }
  }

  lemma {:induction false} AscendingJoin<T>(
    a: seq<T>, b: seq<T>, key: T -> Key, reverse: bool, boundary: Option<Key>, middle: Key)
    requires Ascending(a, key, reverse) && Ascending(b, key, reverse)
    requires forall i :: 0 <= i < |a| ==> key(a[i]) == middle || Before(reverse, key(a[i]), middle)
    requires forall i :: 0 <= i < |b| ==> Before(reverse, middle, key(b[i]))
    requires Beyond(reverse, boundary, middle)
    requires forall i :: 0 <= i < |a| ==> Beyond(reverse, boundary, key(a[i]))
    ensures Ascending(a + b, key, reverse)
    ensures forall i :: 0 <= i < |a + b| ==> Beyond(reverse, boundary, key((a + b)[i]))
  {
    forall i, j | 0 <= i < |a| && 0 <= j < |b| ensures Before(reverse, key(a[i]), key(b[j])) {
      if key(a[i]) != middle {
        BeforeTransitive(reverse, key(a[i]), middle, key(b[j]));
      }
    }
    forall j | 0 <= j < |b| ensures Beyond(reverse, boundary, key(b[j])) {
      if boundary.Some? {
        BeforeTransitive(reverse, boundary.value, middle, key(b[j]));
      }
    }
  }

  ghost predicate HasKey<T>(items: seq<T>, key: T -> Key, k: Key) {
    exists i :: 0 <= i < |items| && key(items[i]) == k
  }

  /** Exactly one position has the key. */
  ghost predicate Once<T>(items: seq<T>, key: T -> Key, k: Key) {
    && HasKey(items, key, k)
    && (forall i, j :: 0 <= i < |items| && 0 <= j < |items| && key(items[i]) == k && key(items[j]) == k ==> i == j)
  }

  lemma {:induction false} ShownCons<T>(page: Page<T>, rest: seq<Page<T>>)
    ensures Shown([page] + rest) == page.items + Shown(rest)
    ensures Complete([page] + rest) <==> if rest == [] then page.next.None? else Complete(rest)
  {
    assert ([page] + rest)[1..] == rest;
  }

  lemma {:induction false} WalkUnfolds<T>(fetches: seq<Fetch<T>>, key: T -> Key, reverse: bool, boundary: Option<Key>)
    requires fetches != []
    ensures var pages := Walk(fetches, key, reverse, boundary);
            var page := ListPage(fetches[0].items, key, reverse, boundary, fetches[0].size);
            var rest := if page.next.None? then [] else Walk(fetches[1..], key, reverse, page.next);
            && Shown(pages) == page.items + Shown(rest)
            && (Complete(pages) <==> page.next.None? || Complete(rest))
            && |pages| == 1 + |rest|
  {
    var page := ListPage(fetches[0].items, key, reverse, boundary, fetches[0].size);
    ShownCons(page, if page.next.None? then [] else Walk(fetches[1..], key, reverse, page.next));
  }

  /** A key beyond the boundary is on the page, or beyond its next boundary. */
  lemma {:induction false} OnPageOrBeyond<T>(
    items: seq<T>, key: T -> Key, reverse: bool, boundary: Option<Key>, size: nat, k: Key)
    requires size >= 1 && DistinctKeys(items, key) && HasKey(items, key, k) && Beyond(reverse, boundary, k)
    ensures var page := ListPage(items, key, reverse, boundary, size);
            HasKey(page.items, key, k) || (page.next.Some? && Beyond(reverse, page.next, k))
  {
    var resumed := Resumed(items, key, reverse, boundary);
    var page := Cut(resumed, key, size);
    ResumedIsExact(items, key, reverse, boundary);
    CutSplits(resumed, key, reverse, size);
    var i :| 0 <= i < |items| && key(items[i]) == k;
    assert items[i] in items;
    if items[i] in page.items {
      var j :| 0 <= j < |page.items| && page.items[j] == items[i];
    }
  }

  lemma {:induction false} HasKeyJoin<T>(a: seq<T>, b: seq<T>, key: T -> Key, k: Key)
    requires HasKey(a, key, k) || HasKey(b, key, k)
    ensures HasKey(a + b, key, k)
  {
    if HasKey(a, key, k) {
      var i :| 0 <= i < |a| && key(a[i]) == k;
      assert (a + b)[i] == a[i];
    } else {
      var i :| 0 <= i < |b| && key(b[i]) == k;
      assert (a + b)[|a| + i] == b[i];
    }
  }

  ghost predicate AllHaveKey<T>(fetches: seq<Fetch<T>>, key: T -> Key, k: Key) {
    forall i :: 0 <= i < |fetches| ==> HasKey(fetches[i].items, key, k)
  }

  /** A key present at every fetch of a complete run is shown. */
  lemma {:induction false} WalkCovers<T>(
    fetches: seq<Fetch<T>>, key: T -> Key, reverse: bool, boundary: Option<Key>, k: Key)
    requires ProperFetches(fetches, key) && Complete(Walk(fetches, key, reverse, boundary))
    requires AllHaveKey(fetches, key, k)
    requires Beyond(reverse, boundary, k)
    ensures HasKey(Shown(Walk(fetches, key, reverse, boundary)), key, k)
  {
    var page := ListPage(fetches[0].items, key, reverse, boundary, fetches[0].size);
    WalkUnfolds(fetches, key, reverse, boundary);
    assert HasKey(fetches[0].items, key, k);
    OnPageOrBeyond(fetches[0].items, key, reverse, boundary, fetches[0].size, k);
    if !HasKey(page.items, key, k) {
      WalkCovers(fetches[1..], key, reverse, page.next, k);
    }
    HasKeyJoin(page.items, Shown(if page.next.None? then [] else Walk(fetches[1..], key, reverse, page.next)), key, k);
  }

  /**
   Exactly once: an item that is there at every fetch under one and the same key
   is shown at one position of the run and no other, in either direction.
   */
  lemma {:induction false} ShownExactlyOnce<T>(fetches: seq<Fetch<T>>, key: T -> Key, reverse: bool, k: Key)
    requires ProperFetches(fetches, key) && Complete(Walk(fetches, key, reverse, None))
    requires forall i :: 0 <= i < |fetches| ==> HasKey(fetches[i].items, key, k)
    ensures Once(Shown(Walk(fetches, key, reverse, None)), key, k)
  {
    WalkCovers(fetches, key, reverse, None, k);
    WalkAscends(fetches, key, reverse, None);
    var shown := Shown(Walk(fetches, key, reverse, None));
    forall i, j | 0 <= i < |shown| && 0 <= j < |shown| && key(shown[i]) == k && key(shown[j]) == k ensures i == j {
      BeforeTrichotomy(reverse, k, k);
    }
  }

  /** Whatever is shown was fetched. */
  lemma {:induction false} ShownWasFetched<T>(
    fetches: seq<Fetch<T>>, key: T -> Key, reverse: bool, boundary: Option<Key>, x: T)
    requires ProperFetches(fetches, key) && x in Shown(Walk(fetches, key, reverse, boundary))
    ensures exists i :: 0 <= i < |fetches| && x in fetches[i].items
  {
    var page := ListPage(fetches[0].items, key, reverse, boundary, fetches[0].size);
    WalkUnfolds(fetches, key, reverse, boundary);
    if x in page.items {
      var resumed := Resumed(fetches[0].items, key, reverse, boundary);
      ResumedIsExact(fetches[0].items, key, reverse, boundary);
      var i :| 0 <= i < |page.items| && page.items[i] == x;
      assert resumed[i] == x && x in resumed;
      assert x in fetches[0].items;
    } else {
      ShownWasFetched(fetches[1..], key, reverse, page.next, x);
      var i :| 0 <= i < |fetches[1..]| && x in fetches[1..][i].items;
      assert fetches[i + 1] == fetches[1..][i];
    }
  }

  // An unchanged collection

  /** The number of pages that `n` items fill. */
  function PageCount(n: nat, size: nat): (r: nat)
    requires size >= 1
    ensures r >= 1
    decreases n
  {
    if n <= size then 1 else 1 + PageCount(n - size, size)
  }

  /** It is the least positive number of pages that hold `n` items. */
  lemma {:induction false} PageCountIsLeast(n: nat, size: nat)
    requires size >= 1
    ensures n <= PageCount(n, size) * size
    ensures PageCount(n, size) > 1 ==> (PageCount(n, size) - 1) * size < n
    decreases n
  {
    if n > size {
      PageCountIsLeast(n - size, size);
    }
  }

  /** Resuming after the item at `p - 1` leaves the items from `p` on. */
  lemma {:induction false} ResumeAt<T>(sorted: seq<T>, p: nat, key: T -> Key, reverse: bool, boundary: Key)
    requires Ascending(sorted, key, reverse) && p <= |sorted|
    requires forall i :: 0 <= i < p ==> key(sorted[i]) == boundary || Before(reverse, key(sorted[i]), boundary)
    requires forall i :: p <= i < |sorted| ==> Before(reverse, boundary, key(sorted[i]))
    ensures Filter(sorted, (x: T) => Beyond(reverse, Some(boundary), key(x))) == sorted[p..]
    decreases |sorted|
  {
    var keep := (x: T) => Beyond(reverse, Some(boundary), key(x));
    if sorted != [] {
      BeforeTrichotomy(reverse, key(sorted[0]), boundary);
      var rest := sorted[1..];
      if p == 0 {
        ResumeAt(rest, 0, key, reverse, boundary);
        assert sorted == [sorted[0]] + rest;
      } else {
        ResumeAt(rest, p - 1, key, reverse, boundary);
        assert sorted[p..] == rest[p - 1..];
      }
    }
  }

  lemma {:induction false} FilterAll<T>(items: seq<T>, keep: T -> bool)
    requires forall x :: keep(x)
    ensures Filter(items, keep) == items
  {
    if items != [] {
      FilterAll(items[1..], keep);
      assert items == [items[0]] + items[1..];
    }
  }

  /** Where a walk over an unchanged collection stands after `p` items. */
  ghost predicate StandsAt<T>(sorted: seq<T>, p: nat, key: T -> Key, boundary: Option<Key>) {
    p <= |sorted| && (if p == 0 then boundary.None? else boundary == Some(key(sorted[p - 1])))
  }

  lemma {:induction false} ResumedFrom<T>(items: seq<T>, p: nat, key: T -> Key, reverse: bool, boundary: Option<Key>)
    requires DistinctKeys(items, key) && StandsAt(Sort(items, key, reverse), p, key, boundary)
    ensures Resumed(items, key, reverse, boundary) == Sort(items, key, reverse)[p..]
  {
    var sorted := Sort(items, key, reverse);
    SortAscending(items, key, reverse);
    if p == 0 {
      FilterAll(sorted, (x: T) => Beyond(reverse, boundary, key(x)));
    } else {
      ResumeAt(sorted, p, key, reverse, boundary.value);
    }
  }

  /** The page found at a given place of an unchanged collection, and where the next one starts. */
  lemma {:induction false} PageFrom<T>(
    items: seq<T>, size: nat, p: nat, key: T -> Key, reverse: bool, boundary: Option<Key>)
    requires size >= 1 && DistinctKeys(items, key) && StandsAt(Sort(items, key, reverse), p, key, boundary)
    ensures var sorted := Sort(items, key, reverse);
            var page := ListPage(items, key, reverse, boundary, size);
            if |sorted| - p > size
            then page.items == sorted[p..][..size] && page.next.Some? && StandsAt(sorted, p + size, key, page.next)
            else page == Page(sorted[p..], None)
  {
    ResumedFrom(items, p, key, reverse, boundary);
  }

  ghost predicate AllFetch<T>(fetches: seq<Fetch<T>>, f: Fetch<T>) {
    forall i :: 0 <= i < |fetches| ==> fetches[i] == f
  }

  /** What a run over an unchanged collection shows from a given place on. */
  ghost predicate ShowsRest<T>(pages: seq<Page<T>>, rest: seq<T>, size: nat)
    requires size >= 1
  {
    Shown(pages) == rest && Complete(pages) && |pages| == PageCount(|rest|, size)
  }

  lemma {:induction false} LastPageShowsRest<T>(
    fetches: seq<Fetch<T>>, rest: seq<T>, size: nat, key: T -> Key, reverse: bool, boundary: Option<Key>)
    requires fetches != [] && size >= 1 && |rest| <= size
    requires ListPage(fetches[0].items, key, reverse, boundary, fetches[0].size) == Page(rest, None)
    ensures ShowsRest(Walk(fetches, key, reverse, boundary), rest, size)
  {
    WalkUnfolds(fetches, key, reverse, boundary);
    assert rest + [] == rest;
  }

  lemma {:induction false} SplitsAt<T>(items: seq<T>, n: nat)
    requires n <= |items|
    ensures items[..n] + items[n..] == items && |items[n..]| == |items| - n
  {
  }

  lemma {:induction false} MorePagesShowRest<T>(
    fetches: seq<Fetch<T>>, rest: seq<T>, size: nat, key: T -> Key, reverse: bool, boundary: Option<Key>, next: Key)
    requires fetches != [] && size >= 1 && |rest| > size
    requires ListPage(fetches[0].items, key, reverse, boundary, fetches[0].size) == Page(rest[..size], Some(next))
    requires ShowsRest(Walk(fetches[1..], key, reverse, Some(next)), rest[size..], size)
    ensures ShowsRest(Walk(fetches, key, reverse, boundary), rest, size)
  {
    WalkUnfolds(fetches, key, reverse, boundary);
    SplitsAt(rest, size);
  }

  lemma {:induction false} WalkFrom<T>(
    fetches: seq<Fetch<T>>, items: seq<T>, size: nat, p: nat, key: T -> Key, reverse: bool, boundary: Option<Key>)
    requires size >= 1 && DistinctKeys(items, key) && AllFetch(fetches, Fetch(items, size))
    requires StandsAt(Sort(items, key, reverse), p, key, boundary)
    requires |fetches| >= PageCount(|Sort(items, key, reverse)| - p, size)
    ensures ShowsRest(Walk(fetches, key, reverse, boundary), Sort(items, key, reverse)[p..], size)
    decreases |fetches|
  {
    var sorted := Sort(items, key, reverse);
    var rest := sorted[p..];
    assert fetches[0] == Fetch(items, size);
    PageFrom(items, size, p, key, reverse, boundary);
    if |rest| > size {
      var next := ListPage(items, key, reverse, boundary, size).next;
      WalkFrom(fetches[1..], items, size, p + size, key, reverse, next);
      assert rest[size..] == sorted[p + size..];
      MorePagesShowRest(fetches, rest, size, key, reverse, boundary, next.value);
    } else {
      LastPageShowsRest(fetches, rest, size, key, reverse, boundary);
    }
  }

  /**
   On an unchanged collection the pages of a run, one after the other, are the
   sorted list, and the run ends after as many pages as the list fills.
   */
  lemma {:induction false} UnchangedCollection<T>(
    fetches: seq<Fetch<T>>, items: seq<T>, size: nat, key: T -> Key, reverse: bool)
    requires size >= 1 && DistinctKeys(items, key)
    requires forall i :: 0 <= i < |fetches| ==> fetches[i] == Fetch(items, size)
    requires |fetches| >= PageCount(|items|, size)
    ensures var pages := Walk(fetches, key, reverse, None);
            && Shown(pages) == Sort(items, key, reverse) && Complete(pages) && |pages| == PageCount(|items|, size)
  {
    SortMultiset(items, key, reverse);
    var sorted := Sort(items, key, reverse);
    assert |multiset(sorted)| == |sorted| && |multiset(items)| == |items|;
    WalkFrom(fetches, items, size, 0, key, reverse, None);
  }
}
