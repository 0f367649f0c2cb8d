/**
 Signed, opaque cursors: `base64url(payload) "." base64url(signature)`. JSON and
 HMAC are parameters; the round trip needs only that parsing undoes printing on
 the fields at hand.
 */
module Cursor {
  import opened Wrappers
  import opened Base64Url

  /** `dump` and `load` print and parse the payload's fields; `load` is `None` for anything else. */
  datatype Codec<!F> = Codec(
    dump: F -> seq<byte>, load: seq<byte> -> Option<F>, sign: seq<byte> -> seq<byte>, vocabulary: F -> bool)

  datatype CursorError = Empty | Malformed | NotBase64 | BadSignature | BadPayload | UnknownVocabulary

  /** `token.split(".")`. */
  function SplitDots(s: string): (parts: seq<string>)
    ensures |parts| >= 1
  {
    if s == "" then [""]
    else
      var rest := SplitDots(s[1..]);
      if s[0] == '.' then [""] + rest else [[s[0]] + rest[0]] + rest[1..]
  }

  function EncodeCursor<F>(c: Codec<F>, fields: F): string {
    var payload := c.dump(fields);
    Encode(payload) + "." + Encode(c.sign(payload))
  }

  function DecodeCursor<F>(c: Codec<F>, token: string): Result<F, CursorError> {
    if token == "" then Failure(Empty)
    else
      var parts := SplitDots(token);
      if |parts| != 2 then Failure(Malformed)
      else match (Decode(parts[0]), Decode(parts[1]))
        case (Some(payload), Some(signature)) =>
          if signature != c.sign(payload) then Failure(BadSignature)
          else (match c.load(payload)
            case None => Failure(BadPayload)
            case Some(fields) => if c.vocabulary(fields) then Success(fields) else Failure(UnknownVocabulary))
        case _ => Failure(NotBase64)
  }

  lemma {:induction false} NoDotIsOnePart(s: string)
    requires forall i :: 0 <= i < |s| ==> s[i] != '.'
    ensures SplitDots(s) == [s]
  {
    if s != "" {
      NoDotIsOnePart(s[1..]);
      assert s == [s[0]] + s[1..];
    }
  }

  lemma {:induction false} OneDotIsTwoParts(a: string, b: string)
    requires forall i :: 0 <= i < |a| ==> a[i] != '.'
    requires forall i :: 0 <= i < |b| ==> b[i] != '.'
    ensures SplitDots(a + "." + b) == [a, b]
    decreases |a|
  {
    var s := a + "." + b;
    if a == "" {
      assert s[1..] == b;
      NoDotIsOnePart(b);
    } else {
      assert s[1..] == a[1..] + "." + b;
      OneDotIsTwoParts(a[1..], b);
      assert a == [a[0]] + a[1..];
    }
  }

  /** Round trip: a cursor the service minted decodes to the boundary it was minted for. */
  lemma {:induction false} DecodeEncodeCursor<F>(c: Codec<F>, fields: F)
    requires c.load(c.dump(fields)) == Some(fields) && c.vocabulary(fields)
    ensures DecodeCursor(c, EncodeCursor(c, fields)) == Success(fields)
  {
    var payload := c.dump(fields);
    PaddedIsTokenPlusPadding(payload);
    PaddedIsTokenPlusPadding(c.sign(payload));
    OneDotIsTwoParts(Encode(payload), Encode(c.sign(payload)));
    DecodeEncode(payload);
    DecodeEncode(c.sign(payload));
  }

  lemma {:induction false} SplitRejoins(s: string)
    ensures |SplitDots(s)| == 1 ==> s == SplitDots(s)[0]
    ensures |SplitDots(s)| == 2 ==> s == SplitDots(s)[0] + "." + SplitDots(s)[1]
  {
    if s != "" {
      SplitRejoins(s[1..]);
      assert s == [s[0]] + s[1..];
    }
  }

  /** The converse: whatever is accepted is two parts, carries the right signature, and was parsed. */
  lemma {:induction false} AcceptedCursorIsSigned<F>(c: Codec<F>, token: string, fields: F)
    requires DecodeCursor(c, token) == Success(fields)
    ensures exists payload, a, b ::
              && token == a + "." + b && Decode(a) == Some(payload) && Decode(b) == Some(c.sign(payload))
              && c.load(payload) == Some(fields) && c.vocabulary(fields)
  {
    SplitRejoins(token);
    var a, b := SplitDots(token)[0], SplitDots(token)[1];
    assert token == a + "." + b && Decode(a) == Some(Decode(a).value) && Decode(b) == Some(c.sign(Decode(a).value));
  }
}
