/**
 What the comment stripper does, told by how a text was written: literals with their
 quotes doubled, line comments, block comments nested to any depth, and single
 characters. Whatever is written so is stripped of exactly its comments.
 */
module SqlPieces {
  import opened SqlComments

  /** The inside of a block comment; its plain characters are neither asterisks nor slashes. */
  datatype Body = Empty | Letter(c: char, next: Body) | Nested(inner: Body, next: Body)

  predicate ProperBody(body: Body) {
    match body
    case Empty => true
    case Letter(c, next) => c != '*' && c != '/' && ProperBody(next)
    case Nested(inner, next) => ProperBody(inner) && ProperBody(next)
  }

  function BodyText(body: Body): string {
    match body
    case Empty => ""
    case Letter(c, next) => [c] + BodyText(next)
    case Nested(inner, next) => "/*" + BodyText(inner) + "*/" + BodyText(next)
  }

  datatype Piece =
    | Literal(quote: char, value: string)
    | LineComment(text: string)
    | BlockComment(body: Body)
    | Single(c: char)

  /** A value between quotes: each quote in it is doubled. */
  function Doubled(value: string, quote: char): string {
    if value == "" then ""
    else (if value[0] == quote then [quote, quote] else [value[0]]) + Doubled(value[1..], quote)
  }

  function Written(piece: Piece): string {
    match piece
    case Literal(quote, value) => [quote] + Doubled(value, quote) + [quote]
    case LineComment(text) => "--" + text
    case BlockComment(body) => "/*" + BodyText(body) + "*/"
    case Single(c) => [c]
  }

  predicate Proper(piece: Piece) {
    match piece
    case Literal(quote, _) => quote == '\'' || quote == '"'
    case LineComment(text) => '\n' !in text
    case BlockComment(body) => ProperBody(body)
    case Single(c) => c != '\'' && c != '"'
  }

  /** The piece ends where it was meant to, with this text behind it. */
  predicate Ends(piece: Piece, rest: string) {
    rest != "" ==>
      match piece
      case Literal(quote, _) => rest[0] != quote
      case LineComment(_) => rest[0] == '\n'
      case BlockComment(_) => true
      case Single(c) => !(c == '-' && rest[0] == '-') && !(c == '/' && rest[0] == '*')
  }

  function WrittenAll(pieces: seq<Piece>): string {
    if pieces == [] then "" else Written(pieces[0]) + WrittenAll(pieces[1..])
  }

  /** Each piece is proper and ends where it was meant to. */
  predicate WellWritten(pieces: seq<Piece>) {
    pieces != [] ==> Proper(pieces[0]) && Ends(pieces[0], WrittenAll(pieces[1..])) && WellWritten(pieces[1..])
  }

  /** The same without comments, each of which leaves a blank. */
  function Kept(pieces: seq<Piece>): string {
    if pieces == [] then ""
    else (if pieces[0].LineComment? || pieces[0].BlockComment? then " " else Written(pieces[0])) + Kept(pieces[1..])
  }

  lemma {:induction false} Drop(a: string, b: string)
    ensures (a + b)[|a|..] == b && (a + b)[..|a|] == a
  {
  }

  lemma {:induction false} QuotedIsValue(value: string, quote: char, rest: string)
    requires rest != "" ==> rest[0] != quote
    ensures QuotedLength(Doubled(value, quote) + [quote] + rest, quote) == |Doubled(value, quote)| + 1
  {
    var s := Doubled(value, quote) + [quote] + rest;
    if value == "" {
      assert s == [quote] + rest;
    } else {
      var head := if value[0] == quote then [quote, quote] else [value[0]];
      var tail := Doubled(value[1..], quote) + [quote] + rest;
      QuotedIsValue(value[1..], quote, rest);
      assert s == head + tail;
      Drop(head, tail);
    }
  }

  lemma {:induction false} LineIsText(text: string, rest: string)
    requires '\n' !in text && (rest != "" ==> rest[0] == '\n')
    ensures LineLength(text + rest) == |text|
  {
    if text == "" {
      assert text + rest == rest;
    } else {
      assert (text + rest)[1..] == text[1..] + rest;
      LineIsText(text[1..], rest);
    }
  }

  lemma {:induction false} LetterPasses(c: char, tail: string, depth: nat)
    requires c != '*' && c != '/' && depth > 0
    ensures BlockLength([c] + tail, depth) == 1 + BlockLength(tail, depth)
  {
    Drop([c], tail);
    BlockLengthStep([c] + tail, depth);
  }

  lemma {:induction false} NestedText(inner: string, next: string, rest: string)
    ensures ("/*" + inner + "*/" + next) + rest == "/*" + (inner + ("*/" + (next + rest)))
  {
  }

  lemma {:induction false} LetterText(c: char, next: string, rest: string)
    ensures ([c] + next) + rest == [c] + (next + rest)
  {
  }

  lemma {:induction false} EmptyText(rest: string)
    ensures "" + rest == rest
  {
  }

  /** From inside `depth` comments, the body takes nothing from the comments around it. */
  lemma {:induction false} BodyPasses(body: Body, rest: string, depth: nat)
    requires ProperBody(body) && depth > 0
    ensures BlockLength(BodyText(body) + rest, depth) == |BodyText(body)| + BlockLength(rest, depth)
    decreases body, 0
  {
    match body
    case Empty => EmptyText(rest);
    case Letter(c, next) =>
      BodyPasses(next, rest, depth);
      LetterPasses(c, BodyText(next) + rest, depth);
      LetterText(c, BodyText(next), rest);
    case Nested(inner, next) =>
      BodyPasses(next, rest, depth);
      NestedPasses(inner, BodyText(next) + rest, depth);
      NestedText(BodyText(inner), BodyText(next), rest);
  }

  lemma {:induction false} NestedPasses(inner: Body, tail: string, depth: nat)
    requires ProperBody(inner) && depth > 0
    ensures BlockLength("/*" + (BodyText(inner) + ("*/" + tail)), depth) ==
              |BodyText(inner)| + 4 + BlockLength(tail, depth)
    decreases inner, 1
  {
    var closing := "*/" + tail;
    var inside := BodyText(inner) + closing;
    var s := "/*" + inside;
    Drop("/*", inside);
    assert s[0] == '/' && s[1] == '*';
    BlockLengthStep(s, depth);
    BodyPasses(inner, closing, depth + 1);
    ClosesOne(tail, depth);
  }

  lemma {:induction false} ClosesOne(tail: string, depth: nat)
    ensures BlockLength("*/" + tail, depth + 1) == 2 + BlockLength(tail, depth)
  {
    var s := "*/" + tail;
    Drop("*/", tail);
    assert s[0] == '*' && s[1] == '/';
    BlockLengthStep(s, depth + 1);
  }

  lemma {:induction false} BlockIsBody(body: Body, rest: string)
    requires ProperBody(body)
    ensures BlockLength(BodyText(body) + ("*/" + rest), 1) == |BodyText(body)| + 2
  {
    BodyPasses(body, "*/" + rest, 1);
    ClosesOne(rest, 0);
  }

  function KindOf(piece: Piece): Kind {
    match piece
    case Literal(_, _) => Quoted
    case Single(_) => Plain
    case _ => Comment
  }

  lemma {:induction false} FirstOfLiteral(quote: char, value: string, rest: string)
    requires IsQuote(quote) && (rest != "" ==> rest[0] != quote)
    ensures var text := Written(Literal(quote, value)); First(text + rest) == Token(Quoted, text)
  {
    var text := Written(Literal(quote, value));
    var s := text + rest;
    QuotedIsValue(value, quote, rest);
    assert s[1..] == Doubled(value, quote) + [quote] + rest;
    Drop(text, rest);
  }

  lemma {:induction false} FirstOfLine(text: string, rest: string)
    requires '\n' !in text && (rest != "" ==> rest[0] == '\n')
    ensures First("--" + text + rest) == Token(Comment, "--" + text)
  {
    var s := "--" + text + rest;
    LineIsText(text, rest);
    assert s[2..] == text + rest && s[0] == '-' && s[1] == '-';
    Drop("--" + text, rest);
  }

  lemma {:induction false} FirstOfBlock(body: Body, rest: string)
    requires ProperBody(body)
    ensures var text := "/*" + BodyText(body) + "*/"; First(text + rest) == Token(Comment, text)
  {
    var text := "/*" + BodyText(body) + "*/";
    BlockIsBody(body, rest);
    BlockTail(BodyText(body), rest);
    Drop(text, rest);
  }

  lemma {:induction false} BlockTail(inner: string, rest: string)
    ensures var s := "/*" + inner + "*/" + rest;
            |s| >= 2 && s[0] == '/' && s[1] == '*' && s[2..] == inner + ("*/" + rest)
  {
  }

  lemma {:induction false} FirstOfSingle(c: char, rest: string)
    requires Proper(Single(c)) && Ends(Single(c), rest)
    ensures First([c] + rest) == Token(Plain, [c])
  {
    var s := [c] + rest;
    assert s[0] == c && (|s| >= 2 ==> s[1] == rest[0]);
    Drop([c], rest);
  }

  /** A piece that ends where it was meant to is lexed as what it is. */
  lemma {:induction false} FirstIsPiece(piece: Piece, rest: string)
    requires Proper(piece) && Ends(piece, rest)
    ensures First(Written(piece) + rest) == Token(KindOf(piece), Written(piece))
  {
    match piece
    case Literal(quote, value) => FirstOfLiteral(quote, value, rest);
    case LineComment(text) => FirstOfLine(text, rest);
    case BlockComment(body) => FirstOfBlock(body, rest);
    case Single(c) => FirstOfSingle(c, rest);
  }

  /**
   A text written from literals, comments and single characters is stripped of exactly
   its comments, each of which leaves a blank; literals keep whatever is in them.
   */
  lemma {:induction false} StripsExactlyTheComments(pieces: seq<Piece>)
    requires WellWritten(pieces)
    ensures Render(Lex(WrittenAll(pieces))) == Kept(pieces)
  {
    if pieces != [] {
      var s, rest := WrittenAll(pieces), WrittenAll(pieces[1..]);
      FirstIsPiece(pieces[0], rest);
      Drop(Written(pieces[0]), rest);
      RenderUnfolds(s);
      StripsExactlyTheComments(pieces[1..]);
    }
  }

  /** An open literal or block comment runs to the end of the text. */
  lemma {:induction false} OpenRunsToTheEnd(quote: char, value: string, body: Body)
    requires IsQuote(quote) && ProperBody(body)
    ensures First([quote] + Doubled(value, quote)) == Token(Quoted, [quote] + Doubled(value, quote))
    ensures First("/*" + BodyText(body)) == Token(Comment, "/*" + BodyText(body))
  {
    var literal, comment := [quote] + Doubled(value, quote), "/*" + BodyText(body);
    OpenQuote(value, quote);
    assert literal[1..] == Doubled(value, quote);
    BodyPasses(body, "", 1);
    assert BodyText(body) + "" == BodyText(body);
    assert comment[2..] == BodyText(body) && comment[0] == '/' && comment[1] == '*';
  }

  lemma {:induction false} OpenQuote(value: string, quote: char)
    ensures QuotedLength(Doubled(value, quote), quote) == |Doubled(value, quote)|
  {
    if value != "" {
      var head := if value[0] == quote then [quote, quote] else [value[0]];
      OpenQuote(value[1..], quote);
      Drop(head, Doubled(value[1..], quote));
    }
  }
}
