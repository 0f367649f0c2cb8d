/**
 The SQL comment stripper, as an in-place scan with an index, against a lexer that
 splits the text into quoted pieces, comments and single characters. Block
 comments nest (section 4.1.5 of the PostgreSQL manual).
 */
module SqlComments {
  datatype Kind = Quoted | Comment | Plain

  datatype Token = Token(kind: Kind, text: string)

  predicate IsQuote(c: char) {
    c == '\'' || c == '"'
  }

  /** How much of `s` belongs to a quoted piece whose opening quote `q` was just read. */
  function QuotedLength(s: string, q: char): (n: nat)
    ensures n <= |s|
  {
    if s == "" then 0
    else if s[0] != q then 1 + QuotedLength(s[1..], q)
    else if |s| >= 2 && s[1] == q then 2 + QuotedLength(s[2..], q)
    else 1
  }

  /** How much of `s` precedes the end of the line. */
  function LineLength(s: string): (n: nat)
    ensures n <= |s|
  {
    if s == "" || s[0] == '\n' then 0 else 1 + LineLength(s[1..])
  }

  predicate Opens(s: string) {
    |s| >= 2 && s[0] == '/' && s[1] == '*'
  }

  predicate Closes(s: string) {
    |s| >= 2 && s[0] == '*' && s[1] == '/'
  }

  /** How many characters one step inside a block comment takes, and the depth after it. */
  function BlockStep(s: string, depth: nat): (r: (nat, nat))
    requires s != "" && depth > 0
    ensures 1 <= r.0 <= |s|
  {
    if Opens(s) then (2, depth + 1) else if Closes(s) then (2, depth - 1) else (1, depth)
  }

  /** How much of `s` it takes to close `depth` open block comments. */
  function BlockLength(s: string, depth: nat): (n: nat)
    ensures n <= |s|
    decreases |s|
  {
    if s == "" || depth == 0 then 0
    else
      var step := BlockStep(s, depth);
      step.0 + BlockLength(s[step.0..], step.1)
  }

  predicate Dashes(s: string) {
    |s| >= 2 && s[0] == '-' && s[1] == '-'
  }

  function First(s: string): (t: Token)
    requires s != ""
    ensures 1 <= |t.text| <= |s| && t.text == s[..|t.text|]
  {
    if IsQuote(s[0]) then Token(Quoted, s[..1 + QuotedLength(s[1..], s[0])])
    else if Dashes(s) then Token(Comment, s[..2 + LineLength(s[2..])])
    else if Opens(s) then Token(Comment, s[..2 + BlockLength(s[2..], 1)])
    else Token(Plain, s[..1])
  }

  function Lex(s: string): seq<Token>
    decreases |s|
  {
    if s == "" then [] else [First(s)] + Lex(s[|First(s).text|..])
  }

  /** What is left of a token: a comment becomes one blank. */
  function Shown(t: Token): string {
    if t.kind.Comment? then " " else t.text
  }

  function Render(tokens: seq<Token>): string {
    if tokens == [] then "" else Shown(tokens[0]) + Render(tokens[1..])
  }

  function Texts(tokens: seq<Token>): string {
    if tokens == [] then "" else tokens[0].text + Texts(tokens[1..])
  }

  /** What is out so far, and what the rest will add, make up the whole. */
  ghost predicate OnTrack(sql: string, i: nat, out: string) {
    i <= |sql| && out + Render(Lex(sql[i..])) == Render(Lex(sql))
  }

  lemma {:induction false} RenderUnfolds(s: string)
    requires s != ""
    ensures Render(Lex(s)) == Shown(First(s)) + Render(Lex(s[|First(s).text|..]))
  {
    var tail := Lex(s[|First(s).text|..]);
    assert Lex(s) == [First(s)] + tail && ([First(s)] + tail)[1..] == tail;
  }

  lemma {:induction false} Associates(a: string, b: string, c: string)
    ensures a + (b + c) == a + b + c
  {
  }

  lemma {:induction false} ShowsNext(out: string, rest: string, whole: string)
    requires rest != "" && out + Render(Lex(rest)) == whole
    ensures (out + Shown(First(rest))) + Render(Lex(rest[|First(rest).text|..])) == whole
  {
    RenderUnfolds(rest);
    Associates(out, Shown(First(rest)), Render(Lex(rest[|First(rest).text|..])));
  }

  lemma {:induction false} SuffixOfSuffix(sql: string, i: nat, n: nat)
    requires i + n <= |sql|
    ensures sql[i + n..] == sql[i..][n..]
  {
  }

  lemma {:induction false} OneMoreToken(sql: string, i: nat, out: string)
    requires i < |sql| && OnTrack(sql, i, out)
    ensures var t := First(sql[i..]); OnTrack(sql, i + |t.text|, out + Shown(t))
  {
    ShowsNext(out, sql[i..], Render(Lex(sql)));
    SuffixOfSuffix(sql, i, |First(sql[i..]).text|);
  }

  lemma {:induction false} OnTrackEnds(sql: string, out: string)
    ensures OnTrack(sql, 0, "")
    ensures OnTrack(sql, |sql|, out) ==> out == Render(Lex(sql))
  {
    assert sql[0..] == sql && sql[|sql|..] == "";
  }

  lemma {:induction false} SuffixFacts(sql: string, i: nat)
    requires i < |sql|
    ensures sql[i..] != "" && sql[i..][0] == sql[i] && sql[i..][1..] == sql[i + 1..]
    ensures i + 1 < |sql| ==> |sql[i..]| >= 2 && sql[i..][1] == sql[i + 1] && sql[i..][2..] == sql[i + 2..]
    ensures i + 1 == |sql| ==> |sql[i..]| == 1
  {
  }

  // Where the scan stops, by positions in the whole text

  function QuotedEnd(sql: string, i: nat, q: char): nat
    requires i <= |sql|
    decreases |sql| - i
  {
    if i == |sql| then i
    else if sql[i] != q then QuotedEnd(sql, i + 1, q)
    else if i + 1 < |sql| && sql[i + 1] == q then QuotedEnd(sql, i + 2, q)
    else i + 1
  }

  lemma {:induction false} QuotedEndIsLength(sql: string, i: nat, q: char)
    requires i <= |sql|
    ensures QuotedEnd(sql, i, q) == i + QuotedLength(sql[i..], q)
    decreases |sql| - i
  {
    if i < |sql| {
      SuffixFacts(sql, i);
      if sql[i] != q {
        QuotedEndIsLength(sql, i + 1, q);
      } else if i + 1 < |sql| && sql[i + 1] == q {
        QuotedEndIsLength(sql, i + 2, q);
      }
    }
  }

  function BlockEnd(sql: string, i: nat, depth: nat): nat
    requires i <= |sql|
    decreases |sql| - i
  {
    if i == |sql| || depth == 0 then i
    else if sql[i] == '/' && i + 1 < |sql| && sql[i + 1] == '*' then BlockEnd(sql, i + 2, depth + 1)
    else if sql[i] == '*' && i + 1 < |sql| && sql[i + 1] == '/' then BlockEnd(sql, i + 2, depth - 1)
    else BlockEnd(sql, i + 1, depth)
  }

  lemma {:induction false} BlockEndIsLength(sql: string, i: nat, depth: nat)
    requires i <= |sql|
    ensures BlockEnd(sql, i, depth) == i + BlockLength(sql[i..], depth)
    decreases |sql| - i
  {
    if i < |sql| && depth > 0 {
      SuffixFacts(sql, i);
      var step := BlockStep(sql[i..], depth);
      BlockEndIsLength(sql, i + step.0, step.1);
    }
  }

  function LineEnd(sql: string, i: nat): nat
    requires i <= |sql|
    decreases |sql| - i
  {
    if i == |sql| || sql[i] == '\n' then i else LineEnd(sql, i + 1)
  }

  lemma {:induction false} LineEndIsLength(sql: string, i: nat)
    requires i <= |sql|
    ensures LineEnd(sql, i) == i + LineLength(sql[i..])
    decreases |sql| - i
  {
    if i < |sql| {
      SuffixFacts(sql, i);
      if sql[i] != '\n' {
        LineEndIsLength(sql, i + 1);
      }
    }
  }

  lemma {:induction false} FirstAt(sql: string, i: nat)
    requires i < |sql|
    ensures var t := First(sql[i..]);
            var pair := i + 1 < |sql|;
            if IsQuote(sql[i]) then
              t.kind.Quoted? && i + |t.text| == QuotedEnd(sql, i + 1, sql[i])
            else if pair && sql[i] == '-' && sql[i + 1] == '-' then
              t.kind.Comment? && i + |t.text| == LineEnd(sql, i + 2)
            else if pair && sql[i] == '/' && sql[i + 1] == '*' then
              t.kind.Comment? && i + |t.text| == BlockEnd(sql, i + 2, 1)
            else t.kind.Plain? && |t.text| == 1
    ensures i + |First(sql[i..]).text| <= |sql|
    ensures First(sql[i..]).text == sql[i..i + |First(sql[i..]).text|]
  {
    SuffixFacts(sql, i);
    QuotedEndIsLength(sql, i + 1, sql[i]);
    if i + 1 < |sql| {
      LineEndIsLength(sql, i + 2);
      BlockEndIsLength(sql, i + 2, 1);
    }
  }

  /** The scan over a quoted piece, from just behind its opening quote. */
  method CopyQuoted(sql: string, start: nat, quote: char, out: string) returns (i: nat, copied: string)
    requires start <= |sql|
    ensures start <= i == QuotedEnd(sql, start, quote) <= |sql|
    ensures copied == out + sql[start..i]
  {
    i, copied := start, out;
    while i < |sql|
      invariant start <= i <= |sql|
      invariant copied == out + sql[start..i]
      invariant QuotedEnd(sql, i, quote) == QuotedEnd(sql, start, quote)
    {
      copied := copied + [sql[i]];
      if sql[i] == quote {
        if i + 1 < |sql| && sql[i + 1] == quote {
          copied := copied + [sql[i + 1]];
          i := i + 2;
          continue;
        }
        i := i + 1;
        return;
      }
      i := i + 1;
    }
  }

  /** The scan over a block comment, from just behind its opening. */
  method SkipBlock(sql: string, start: nat) returns (i: nat)
    requires start <= |sql|
    ensures i == BlockEnd(sql, start, 1)
  {
    i := start;
    var depth: nat := 1;
    while i < |sql| && depth > 0
      invariant start <= i <= |sql|
      invariant BlockEnd(sql, i, depth) == BlockEnd(sql, start, 1)
      decreases |sql| - i
    {
      if sql[i] == '/' && i + 1 < |sql| && sql[i + 1] == '*' {
        depth := depth + 1;
        i := i + 2;
      } else if sql[i] == '*' && i + 1 < |sql| && sql[i + 1] == '/' {
        depth := depth - 1;
        i := i + 2;
      } else {
        i := i + 1;
      }
    }
  }

  method SkipLine(sql: string, start: nat) returns (i: nat)
    requires start <= |sql|
    ensures i == LineEnd(sql, start)
  {
    i := start;
    while i < |sql| && sql[i] != '\n'
      invariant start <= i <= |sql|
      invariant LineEnd(sql, i) == LineEnd(sql, start)
    {
      i := i + 1;
    }
  }

  /** One turn of the scan: what stands at `start` is copied, or skipped and replaced by a blank. */
  method ScanOne(sql: string, start: nat, out: string) returns (i: nat, grown: string)
    requires start < |sql|
    ensures i == start + |First(sql[start..]).text|
    ensures grown == out + Shown(First(sql[start..]))
  {
    FirstAt(sql, start);
    var ch := sql[start];
    if ch == '\'' || ch == '"' {
      i, grown := CopyQuoted(sql, start + 1, ch, out + [ch]);
      assert sql[start..i] == [ch] + sql[start + 1..i];
    } else if ch == '-' && start + 1 < |sql| && sql[start + 1] == '-' {
      i := SkipLine(sql, start + 2);
      grown := out + " ";
    } else if ch == '/' && start + 1 < |sql| && sql[start + 1] == '*' {
      i := SkipBlock(sql, start + 2);
      grown := out + " ";
    } else {
      i, grown := start + 1, out + [ch];
    }
  }

  /** `_strip_sql_comments`: one pass, terminating on every text, unterminated quotes and comments included. */
  method StripSqlComments(sql: string) returns (out: string)
    ensures out == Render(Lex(sql))
  {
    out := "";
    var i := 0;
    OnTrackEnds(sql, out);
    while i < |sql|
      invariant OnTrack(sql, i, out)
      decreases |sql| - i
    {
      OneMoreToken(sql, i, out);
      i, out := ScanOne(sql, i, out);
    }
    OnTrackEnds(sql, out);
  }

  // What the lexer guarantees

  /** Lexing loses nothing: the pieces, one after the other, are the text. */
  lemma {:induction false} LexIsLossless(s: string)
    ensures Texts(Lex(s)) == s
    decreases |s|
  {
    if s != "" {
      LexIsLossless(s[|First(s).text|..]);
    }
  }

  /** A stripped text starts like the text itself, or with the blank of a leading comment. */
  lemma {:induction false} StartsAlike(s: string)
    ensures s == "" <==> Render(Lex(s)) == ""
    ensures s != "" ==> Render(Lex(s))[0] == s[0] || Render(Lex(s))[0] == ' '
  {
  }

  lemma {:induction false} DropOfConcat(a: string, b: string, n: nat)
    requires n <= |a|
    ensures (a + b)[n..] == a[n..] + b
  {
  }

  /** Where a quoted piece ends depends on what follows only through a further quote. */
  lemma {:induction false} QuotedStable(body: string, rest: string, other: string, q: char)
    requires QuotedLength(body + rest, q) == |body|
    requires rest == "" <==> other == ""
    requires other != "" ==> other[0] != q
    ensures QuotedLength(body + other, q) == |body|
    decreases |body|
  {
    if body == "" {
      assert body + rest == rest && body + other == other;
    } else if body[0] != q {
      assert (body + rest)[1..] == body[1..] + rest && (body + other)[1..] == body[1..] + other;
      QuotedStable(body[1..], rest, other, q);
    } else if |body| >= 2 {
      assert (body + rest)[1] == body[1];
      DropOfConcat(body, rest, 2);
      DropOfConcat(body, other, 2);
      QuotedStable(body[2..], rest, other, q);
    }
  }

  /** A closed quoted piece is followed by something other than its quote. */
  lemma {:induction false} NoQuoteFollows(body: string, rest: string, q: char)
    requires QuotedLength(body + rest, q) == |body| && rest != ""
    ensures rest[0] != q
    decreases |body|
  {
    if body == "" {
      assert body + rest == rest;
    } else if body[0] != q {
      assert (body + rest)[1..] == body[1..] + rest;
      NoQuoteFollows(body[1..], rest, q);
    } else if |body| >= 2 {
      assert (body + rest)[1] == body[1];
      DropOfConcat(body, rest, 2);
      NoQuoteFollows(body[2..], rest, q);
    } else {
      assert (body + rest)[1] == rest[0];
    }
  }

  /** The token a token is lexed as once comments are gone. */
  function Blanked(t: Token): Token {
    if t.kind.Comment? then Token(Plain, " ") else t
  }

  function BlankedAll(tokens: seq<Token>): seq<Token> {
    if tokens == [] then [] else [Blanked(tokens[0])] + BlankedAll(tokens[1..])
  }

  /** The stripped text opens with the first token's blanked form, and goes on with the stripped rest. */
  ghost predicate OpensWith(stripped: string, t: Token, rest: string) {
    stripped != "" && First(stripped) == t && stripped[|t.text|..] == rest
  }

  lemma {:induction false} QuotedFirst(s: string, rest: string, stripped: string)
    requires s != "" && IsQuote(s[0]) && rest == s[|First(s).text|..]
    requires rest == "" <==> stripped == ""
    requires rest != "" ==> stripped[0] == rest[0] || stripped[0] == ' '
    ensures OpensWith(First(s).text + stripped, First(s), stripped)
  {
    var text := First(s).text;
    var body := text[1..];
    assert s[1..] == body + rest;
    if rest != "" {
      NoQuoteFollows(body, rest, s[0]);
    }
    QuotedStable(body, rest, stripped, s[0]);
    DropOfConcat(text, stripped, 1);
    DropOfConcat(text, stripped, |text|);
    assert (text + stripped)[..|text|] == text;
  }

  lemma {:induction false} PlainFirst(s: string, rest: string, stripped: string)
    requires s != "" && First(s).kind.Plain? && rest == s[1..]
    requires rest == "" <==> stripped == ""
    requires rest != "" ==> stripped[0] == rest[0] || stripped[0] == ' '
    ensures OpensWith(First(s).text + stripped, First(s), stripped)
  {
    assert First(s).text == [s[0]];
    if rest != "" {
      assert s[1] == rest[0];
    }
    var t := [s[0]] + stripped;
    assert t[1..] == stripped && t[..1] == [s[0]];
  }

  lemma {:induction false} BlankFirst(stripped: string)
    ensures OpensWith(" " + stripped, Token(Plain, " "), stripped)
  {
    var t := " " + stripped;
    assert t[1..] == stripped && t[..1] == " ";
  }

  /** In the stripped text, the first token is the first token of the text with its comment blanked. */
  lemma {:induction false} FirstOfStripped(s: string)
    requires s != ""
    ensures OpensWith(Render(Lex(s)), Blanked(First(s)), Render(Lex(s[|First(s).text|..])))
  {
    var t := First(s);
    var rest := s[|t.text|..];
    StartsAlike(rest);
    assert Render(Lex(s)) == Shown(t) + Render(Lex(rest));
    match t.kind
    case Quoted => QuotedFirst(s, rest, Render(Lex(rest)));
    case Plain => PlainFirst(s, rest, Render(Lex(rest)));
    case Comment => BlankFirst(Render(Lex(rest)));
  }

  /**
   The output lexes exactly as the input did, with every comment a blank: no new
   quote, comment or literal ever arises from what a removed comment leaves together.
   */
  lemma {:induction false} StrippedLexesAlike(s: string)
    ensures Lex(Render(Lex(s))) == BlankedAll(Lex(s))
    decreases |s|
  {
    if s != "" {
      FirstOfStripped(s);
      StrippedLexesAlike(s[|First(s).text|..]);
    }
  }

  /** The quoted pieces, in order. */
  function QuotedPieces(tokens: seq<Token>): seq<string> {
    if tokens == [] then []
    else (if tokens[0].kind.Quoted? then [tokens[0].text] else []) + QuotedPieces(tokens[1..])
  }

  lemma {:induction false} BlankingKeeps(tokens: seq<Token>)
    ensures QuotedPieces(BlankedAll(tokens)) == QuotedPieces(tokens)
    ensures Render(BlankedAll(tokens)) == Render(tokens)
    ensures |BlankedAll(tokens)| == |tokens|
    ensures forall i :: 0 <= i < |tokens| ==> !BlankedAll(tokens)[i].kind.Comment?
  {
    if tokens != [] {
      BlankingKeeps(tokens[1..]);
    }
  }

  /** No comment survives outside quotes. */
  lemma {:induction false} NoCommentSurvives(s: string)
    ensures forall i :: 0 <= i < |Lex(Render(Lex(s)))| ==> !Lex(Render(Lex(s)))[i].kind.Comment?
  {
    StrippedLexesAlike(s);
    BlankingKeeps(Lex(s));
  }

  /** Quoted literals and identifiers come through verbatim and in order. */
  lemma {:induction false} QuotesSurvive(s: string)
    ensures QuotedPieces(Lex(Render(Lex(s)))) == QuotedPieces(Lex(s))
  {
    StrippedLexesAlike(s);
    BlankingKeeps(Lex(s));
  }

  /** Stripping twice is stripping once. */
  lemma {:induction false} StripIsIdempotent(s: string)
    ensures Render(Lex(Render(Lex(s)))) == Render(Lex(s))
  {
    StrippedLexesAlike(s);
    BlankingKeeps(Lex(s));
  }

  /** The output is never longer than the input. */
  lemma {:induction false} StripNeverGrows(s: string)
    ensures |Render(Lex(s))| <= |s|
    decreases |s|
  {
    if s != "" {
      StripNeverGrows(s[|First(s).text|..]);
    }
  }

  lemma {:induction false} BlockLengthStep(s: string, depth: nat)
    requires s != "" && depth > 0
    ensures var step := BlockStep(s, depth); BlockLength(s, depth) == step.0 + BlockLength(s[step.0..], step.1)
  {
  }

  /** One step on both sides. */
  lemma {:induction false} StepDeeper(s: string, inner: nat, outer: nat) returns (n: nat, d: nat, rest: string)
    requires s != "" && inner > 0
    ensures 1 <= n <= |s| && rest == s[n..]
    ensures BlockLength(s, inner) == n + BlockLength(rest, d)
    ensures BlockLength(s, inner + outer) == n + BlockLength(rest, d + outer)
  {
    BlockLengthStep(s, inner);
    BlockLengthStep(s, inner + outer);
    n, d := BlockStep(s, inner).0, BlockStep(s, inner).1;
    rest := s[n..];
  }

  lemma {:induction false} DropDrop(s: string, a: nat, b: nat)
    requires a + b <= |s|
    ensures s[a + b..] == s[a..][b..]
  {
  }

  lemma {:induction false} BlockEnds(s: string, inner: nat, outer: nat, rest: string)
    requires rest == s[BlockLength(s, inner)..]
    ensures BlockLength(s, inner + outer) == |s| - |rest| + BlockLength(rest, outer)
    decreases |s|
  {
    if inner == 0 {
      assert rest == s;
    } else if s != "" {
      var n, d, tail := StepDeeper(s, inner, outer);
      DropDrop(s, n, BlockLength(tail, d));
      BlockEnds(tail, d, outer, rest);
    }
  }

  /** Closing `inner + outer` levels is closing the inner ones first and then the outer ones: comments nest. */
  lemma {:induction false} BlocksNest(s: string, inner: nat, outer: nat)
    ensures var i := BlockLength(s, inner); BlockLength(s, inner + outer) == i + BlockLength(s[i..], outer)
  {
    BlockEnds(s, inner, outer, s[BlockLength(s, inner)..]);
  }
}
