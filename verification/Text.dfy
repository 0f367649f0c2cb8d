/** The text operations of Python and JavaScript that the modelled code relies on. */
module Text {
  import opened Wrappers

  datatype Language = Python | JavaScript

  /** White space to Python's `str.strip`, and to JavaScript's `trim`. */
  predicate IsSpace(c: char, language: Language) {
    var n := c as int;
    || 9 <= n <= 13 || n == 32 || n == 0xA0 || n == 0x1680 || 0x2000 <= n <= 0x200A
    || n == 0x2028 || n == 0x2029 || n == 0x202F || n == 0x205F || n == 0x3000
    || if language.Python? then 28 <= n <= 31 || n == 0x85 else n == 0xFEFF
  }

  function StripLeft(s: string, language: Language): (r: string)
    ensures r != "" ==> !IsSpace(r[0], language)
  {
    if s != "" && IsSpace(s[0], language) then StripLeft(s[1..], language) else s
  }

  function StripRight(s: string, language: Language): string {
    if s != "" && IsSpace(s[|s| - 1], language) then StripRight(s[..|s| - 1], language) else s
  }

  /** `str.strip()`. */
  function Strip(s: string): string {
    StripRight(StripLeft(s, Python), Python)
  }

  /** `String.prototype.trim()`. */
  function Trim(s: string): string {
    StripRight(StripLeft(s, JavaScript), JavaScript)
  }

  predicate AllSpace(s: string, language: Language) {
    forall i :: 0 <= i < |s| ==> IsSpace(s[i], language)
  }

  lemma {:induction false} StripLeftCuts(s: string, language: Language) returns (front: string)
    ensures s == front + StripLeft(s, language) && AllSpace(front, language)
  {
    front := "";
    if s != "" && IsSpace(s[0], language) {
      front := StripLeftCuts(s[1..], language);
      front := [s[0]] + front;
    }
  }

  lemma {:induction false} StripRightCuts(s: string, language: Language) returns (back: string)
    ensures s == StripRight(s, language) + back && AllSpace(back, language)
    ensures var r := StripRight(s, language); r != "" ==> !IsSpace(r[|r| - 1], language) && r[0] == s[0]
  {
    back := "";
    if s != "" && IsSpace(s[|s| - 1], language) {
      var n := |s| - 1;
      back := StripRightCuts(s[..n], language);
      back := back + [s[n]];
      assert s == s[..n] + [s[n]];
    }
  }

  /** Stripping cuts white space off both ends, and all of it. */
  lemma {:induction false} StripCutsAllSpace(s: string, language: Language) returns (front: string, back: string)
    ensures var r := StripRight(StripLeft(s, language), language);
            && s == front + r + back && AllSpace(front, language) && AllSpace(back, language)
            && (r != "" ==> !IsSpace(r[0], language) && !IsSpace(r[|r| - 1], language))
  {
    front := StripLeftCuts(s, language);
    back := StripRightCuts(StripLeft(s, language), language);
  }

  /** Does `pattern` occur in `s` at position `i`? */
  predicate OccursAt(s: string, pattern: string, i: nat) {
    i + |pattern| <= |s| && s[i..i + |pattern|] == pattern
  }

  /** The first position at or after `from` where `pattern` occurs. */
  function FindFrom(s: string, pattern: string, from: nat): (r: Option<nat>)
    ensures r.Some? ==> from <= r.value && OccursAt(s, pattern, r.value)
    ensures r.Some? ==> forall i :: from <= i < r.value ==> !OccursAt(s, pattern, i)
    ensures r.None? ==> forall i :: from <= i ==> !OccursAt(s, pattern, i)
    decreases |s| - from
  {
    if OccursAt(s, pattern, from) then Some(from)
    else if from >= |s| then None
    else FindFrom(s, pattern, from + 1)
  }

  /** `s.find(pattern)` and `s.indexOf(pattern)`: the first occurrence. */
  function Find(s: string, pattern: string): (r: Option<nat>)
    ensures r.Some? ==> OccursAt(s, pattern, r.value)
    ensures r.Some? ==> forall i: nat :: i < r.value ==> !OccursAt(s, pattern, i)
    ensures r.None? ==> forall i: nat :: !OccursAt(s, pattern, i)
  {
    FindFrom(s, pattern, 0)
  }

  function Concat(pieces: seq<string>): string {
    if pieces == [] then "" else Concat(pieces[..|pieces| - 1]) + pieces[|pieces| - 1]
  }

  lemma {:induction false} ConcatSplit(a: seq<string>, b: seq<string>)
    ensures Concat(a + b) == Concat(a) + Concat(b)
  {
    if b == [] {
      assert a + b == a;
    } else {
      var n := |b| - 1;
      assert (a + b)[..|a| + n] == a + b[..n];
      ConcatSplit(a, b[..n]);
      assert Concat(a + b) == Concat(a + b[..n]) + b[n];
    }
  }

  /** An occurrence inside a prefix is the same occurrence in the whole. */
  lemma {:induction false} OccursInPrefix(s: string, more: string, pattern: string, i: nat)
    requires i + |pattern| <= |s|
    ensures OccursAt(s + more, pattern, i) <==> OccursAt(s, pattern, i)
  {
    assert (s + more)[i..i + |pattern|] == s[i..i + |pattern|];
  }

  /** A first occurrence stays the first one when text is appended. */
  lemma {:induction false} FindStable(s: string, more: string, pattern: string)
    requires Find(s, pattern).Some?
    ensures Find(s + more, pattern) == Find(s, pattern)
  {
    var i := Find(s, pattern).value;
    OccursInPrefix(s, more, pattern, i);
    forall j: nat | j < i ensures !OccursAt(s + more, pattern, j) {
      OccursInPrefix(s, more, pattern, j);
    }
  }

  /** Appending text can create an occurrence only across or after the old end. */
  lemma {:induction false} FindNew(s: string, more: string, pattern: string)
    requires Find(s, pattern).None? && Find(s + more, pattern).Some?
    ensures Find(s + more, pattern).value + |pattern| > |s|
  {
    var i := Find(s + more, pattern).value;
    if i + |pattern| <= |s| {
      OccursInPrefix(s, more, pattern, i);
    }
  }
}
