/**
 The unpadded base64url text of a byte string, and Python's lenient decoder, which
 skips foreign characters and stops at complete padding (alphabet: section 5 of
 RFC 4648; padding: section 3.2).
 */
module Base64Url {
  import opened Wrappers

  type byte = b: int | 0 <= b < 256

  type sextet = v: int | 0 <= v < 64

  function Digit(v: sextet): char {
    if v < 26 then 'A' + v as char
    else if v < 52 then 'a' + (v - 26) as char
    else if v < 62 then '0' + (v - 52) as char
    else if v == 62 then '-' else '_'
  }

  /** The decoder's table, after `-` and `_` were translated to `+` and `/`. */
  function Value(c: char): Option<sextet> {
    if 'A' <= c <= 'Z' then Some(c as int - 'A' as int)
    else if 'a' <= c <= 'z' then Some(c as int - 'a' as int + 26)
    else if '0' <= c <= '9' then Some(c as int - '0' as int + 52)
    else if c == '-' || c == '+' then Some(62)
    else if c == '_' || c == '/' then Some(63)
    else None
  }

  lemma {:induction false} DigitValue(v: sextet)
    ensures Value(Digit(v)) == Some(v) && Digit(v) != '=' && Digit(v) != '.' && Digit(v) as int < 128
  {
  }

  /** `urlsafe_b64encode`: with padding. */
  function Padded(raw: seq<byte>): string {
    if raw == [] then ""
    else if |raw| == 1 then [Digit(raw[0] / 4), Digit(raw[0] % 4 * 16), '=', '=']
    else if |raw| == 2 then
      [Digit(raw[0] / 4), Digit(raw[0] % 4 * 16 + raw[1] / 16), Digit(raw[1] % 16 * 4), '=']
    else
      [Digit(raw[0] / 4), Digit(raw[0] % 4 * 16 + raw[1] / 16),
       Digit(raw[1] % 16 * 4 + raw[2] / 64), Digit(raw[2] % 64)]
      + Padded(raw[3..])
  }

  function StripPadding(s: string): string {
    if s != "" && s[|s| - 1] == '=' then StripPadding(s[..|s| - 1]) else s
  }

  /** `_b64url_encode`. */
  function Encode(raw: seq<byte>): string {
    StripPadding(Padded(raw))
  }

  /** The decoder's automaton: `quad` sextets of the group seen, `left` bits pending, `pads` read in a row. */
  function Scan(s: string, quad: nat, left: nat, pads: nat): Option<seq<byte>>
    requires quad < 4 && (quad == 0 ==> left == 0)
    requires (quad == 1 ==> left < 64) && (quad == 2 ==> left < 16) && (quad == 3 ==> left < 4)
    decreases |s|
  {
    if s == "" then (if quad == 0 then Some([]) else None)
    else if s[0] == '=' then
      if quad >= 2 && quad + pads + 1 >= 4 then Some([])
      else Scan(s[1..], quad, left, if quad >= 2 then pads + 1 else pads)
    else match Value(s[0])
      case None => Scan(s[1..], quad, left, pads)
      case Some(v) =>
        if quad == 0 then Scan(s[1..], 1, v, 0)
        else if quad == 1 then Emit(left * 4 + v / 16, Scan(s[1..], 2, v % 16, 0))
        else if quad == 2 then Emit(left * 16 + v / 4, Scan(s[1..], 3, v % 4, 0))
        else Emit(left * 64 + v, Scan(s[1..], 0, 0, 0))
  }

  function Emit(b: byte, rest: Option<seq<byte>>): Option<seq<byte>> {
    if rest.None? then None else Some([b] + rest.value)
  }

  function EqualSigns(n: nat): string {
    if n == 0 then "" else EqualSigns(n - 1) + "="
  }

  /** The `=` signs that bring `n` characters to a multiple of four. */
  function Padding(n: nat): string {
    EqualSigns((4 - n % 4) % 4)
  }

  /** `_b64url_decode`; `None` is the invalid-cursor error. */
  function Decode(token: string): Option<seq<byte>> {
    if exists i :: 0 <= i < |token| && token[i] as int >= 128 then None
    else Scan(token + Padding(|token|), 0, 0, 0)
  }

  ghost predicate Digits(s: string) {
    forall i :: 0 <= i < |s| ==> s[i] != '=' && s[i] != '.' && s[i] as int < 128
  }

  lemma {:induction false} StripDigits(s: string, pads: nat)
    requires Digits(s)
    ensures StripPadding(s + EqualSigns(pads)) == s
    decreases pads
  {
    if pads == 0 {
      assert s + EqualSigns(pads) == s;
    } else {
      var padded := s + EqualSigns(pads);
      assert padded[..|padded| - 1] == s + EqualSigns(pads - 1);
      StripDigits(s, pads - 1);
    }
  }

  /** Stripping padding does not reach into what stands in front of it. */
  lemma {:induction false} StripAfter(front: string, s: string)
    requires front != "" && front[|front| - 1] != '='
    ensures StripPadding(front + s) == front + StripPadding(s)
    decreases |s|
  {
    if s == "" {
      assert front + s == front;
    } else if s[|s| - 1] == '=' {
      assert (front + s)[..|front + s| - 1] == front + s[..|s| - 1];
      StripAfter(front, s[..|s| - 1]);
    }
  }

  lemma {:induction false} DigitsConcat(a: string, b: string)
    requires Digits(a) && Digits(b)
    ensures Digits(a + b)
  {
  }

  function Group(a: byte, b: byte, c: byte): string {
    [Digit(a / 4), Digit(a % 4 * 16 + b / 16), Digit(b % 16 * 4 + c / 64), Digit(c % 64)]
  }

  lemma {:induction false} GroupDigits(a: byte, b: byte, c: byte)
    ensures Digits(Group(a, b, c))
  {
    DigitValue(a / 4);
    DigitValue(a % 4 * 16 + b / 16);
    DigitValue(b % 16 * 4 + c / 64);
    DigitValue(c % 64);
  }

  lemma {:induction false} GroupInFront(group: string, padded: string, token: string)
    requires |group| == 4 && Digits(group) && Digits(token)
    requires padded == token + Padding(|token|) && StripPadding(padded) == token
    ensures Digits(group + token) && StripPadding(group + padded) == group + token
    ensures group + padded == (group + token) + Padding(|group + token|)
  {
    StripAfter(group, padded);
    DigitsConcat(group, token);
    assert |group + token| % 4 == |token| % 4;
  }

  lemma {:induction false} TailPadding(digits: string, pads: nat)
    requires Digits(digits) && pads == (4 - |digits| % 4) % 4
    ensures StripPadding(digits + EqualSigns(pads)) == digits
    ensures digits + EqualSigns(pads) == digits + Padding(|digits|)
  {
    StripDigits(digits, pads);
  }

  lemma {:induction false} PaddedTail(raw: seq<byte>)
    requires |raw| == 1 || |raw| == 2
    ensures Digits(Encode(raw)) && Padded(raw) == Encode(raw) + Padding(|Encode(raw)|)
  {
    var b := if |raw| == 2 then raw[1] else 0;
    var digits := Group(raw[0], b, 0)[..|raw| + 1];
    GroupDigits(raw[0], b, 0);
    assert EqualSigns(1) == "=" && EqualSigns(2) == "==";
    assert Padded(raw) == digits + EqualSigns(3 - |raw|);
    TailPadding(digits, 3 - |raw|);
  }

  /** The padded text is the token plus exactly the padding that its length calls for. */
  lemma {:induction false} PaddedIsTokenPlusPadding(raw: seq<byte>)
    ensures Digits(Encode(raw))
    ensures Padded(raw) == Encode(raw) + Padding(|Encode(raw)|)
    decreases |raw|
  {
    if |raw| == 1 || |raw| == 2 {
      PaddedTail(raw);
    } else if |raw| >= 3 {
      var group := Group(raw[0], raw[1], raw[2]);
      GroupDigits(raw[0], raw[1], raw[2]);
      PaddedIsTokenPlusPadding(raw[3..]);
      assert Padded(raw) == group + Padded(raw[3..]);
      GroupInFront(group, Padded(raw[3..]), Encode(raw[3..]));
    }
  }

  /** The bits of two neighbouring bytes, cut into sextets and put together again. */
  lemma {:induction false} Joined(a: byte, b: byte, c: byte)
    ensures a / 4 * 4 + (a % 4 * 16 + b / 16) / 16 == a && (a % 4 * 16 + b / 16) % 16 == b / 16
    ensures b / 16 * 16 + (b % 16 * 4 + c / 64) / 4 == b && (b % 16 * 4 + c / 64) % 4 == c / 64
    ensures c / 64 * 64 + c % 64 == c
  {
  }

  lemma {:induction false} ScanDigit(v: sextet, rest: string, quad: nat, left: nat, pads: nat)
    requires quad < 4 && (quad == 0 ==> left == 0)
    requires (quad == 1 ==> left < 64) && (quad == 2 ==> left < 16) && (quad == 3 ==> left < 4)
    ensures Scan([Digit(v)] + rest, quad, left, pads) ==
              if quad == 0 then Scan(rest, 1, v, 0)
              else if quad == 1 then Emit(left * 4 + v / 16, Scan(rest, 2, v % 16, 0))
              else if quad == 2 then Emit(left * 16 + v / 4, Scan(rest, 3, v % 4, 0))
              else Emit(left * 64 + v, Scan(rest, 0, 0, 0))
  {
    DigitValue(v);
    assert ([Digit(v)] + rest)[1..] == rest;
  }

  lemma {:induction false} ScanGroup(a: byte, b: byte, c: byte, rest: string)
    ensures Scan(Group(a, b, c) + rest, 0, 0, 0) == Emit(a, Emit(b, Emit(c, Scan(rest, 0, 0, 0))))
  {
    var d := Group(a, b, c);
    var last := [d[3]] + rest;
    var third := [d[2]] + last;
    var second := [d[1]] + third;
    assert d + rest == [d[0]] + second;
    Joined(a, b, c);
    ScanDigit(c % 64, rest, 3, c / 64, 0);
    ScanDigit(b % 16 * 4 + c / 64, last, 2, b / 16, 0);
    ScanDigit(a % 4 * 16 + b / 16, third, 1, a / 4, 0);
    ScanDigit(a / 4, second, 0, 0, 0);
  }

  lemma {:induction false} ScanPairPadding(left: nat)
    requires left < 16
    ensures Scan("==", 2, left, 0) == Some([])
  {
    assert "=="[1..] == "=";
    assert Scan("=", 2, left, 1) == Some([]);
  }

  lemma {:induction false} ScanOne(a: byte)
    ensures Scan(Padded([a]), 0, 0, 0) == Some([a])
  {
    Joined(a, 0, 0);
    assert Padded([a]) == [Digit(a / 4)] + ([Digit(a % 4 * 16)] + "==");
    ScanDigit(a / 4, [Digit(a % 4 * 16)] + "==", 0, 0, 0);
    ScanDigit(a % 4 * 16, "==", 1, a / 4, 0);
    ScanPairPadding(0);
    assert a % 4 * 16 / 16 == a % 4 && a % 4 * 16 % 16 == 0;
    assert [a] == [a] + [];
  }

  lemma {:induction false} ScanTwo(a: byte, b: byte)
    ensures Scan(Padded([a, b]), 0, 0, 0) == Some([a, b])
  {
    var last := [Digit(b % 16 * 4)] + "=";
    var middle := [Digit(a % 4 * 16 + b / 16)] + last;
    assert Padded([a, b]) == [Digit(a / 4)] + middle;
    Joined(a, b, 0);
    ScanLastPadding();
    ScanDigit(b % 16 * 4, "=", 2, b / 16, 0);
    ScanDigit(a % 4 * 16 + b / 16, last, 1, a / 4, 0);
    ScanDigit(a / 4, middle, 0, 0, 0);
    assert [b] + [] == [b] && [a] + [b] == [a, b];
  }

  lemma {:induction false} ScanLastPadding()
    ensures Scan("=", 3, 0, 0) == Some([])
  {
  }

  lemma {:induction false} ScanPadded(raw: seq<byte>)
    ensures Scan(Padded(raw), 0, 0, 0) == Some(raw)
    decreases |raw|
  {
    if |raw| == 1 {
      ScanOne(raw[0]);
      assert raw == [raw[0]];
    } else if |raw| == 2 {
      ScanTwo(raw[0], raw[1]);
      assert raw == [raw[0], raw[1]];
    } else if |raw| >= 3 {
      var rest := raw[3..];
      ScanPadded(rest);
      ScanGroup(raw[0], raw[1], raw[2], Padded(rest));
      assert Padded(raw) == Group(raw[0], raw[1], raw[2]) + Padded(rest);
      ThreeAndRest(raw);
    }
  }

  lemma {:induction false} ThreeAndRest(raw: seq<byte>)
    requires |raw| >= 3
    ensures raw == [raw[0]] + ([raw[1]] + ([raw[2]] + raw[3..]))
  {
  }

  /** Decoding an encoded byte string gives it back, whatever its length. */
  lemma {:induction false} DecodeEncode(raw: seq<byte>)
    ensures Decode(Encode(raw)) == Some(raw)
  {
    PaddedIsTokenPlusPadding(raw);
    ScanPadded(raw);
  }

  /** Three bytes become four characters, the digits of one number in the two bases, the highest first. */
  lemma {:induction false} EncodingIsBigEndian(a: byte, b: byte, c: byte, rest: seq<byte>)
    ensures var s := Padded([a, b, c] + rest);
            && |s| >= 4 && s[4..] == Padded(rest)
            && Value(s[0]).Some? && Value(s[1]).Some? && Value(s[2]).Some? && Value(s[3]).Some?
            && ((Value(s[0]).value * 64 + Value(s[1]).value) * 64 + Value(s[2]).value) * 64 + Value(s[3]).value
               == (a * 256 + b) * 256 + c
  {
    assert ([a, b, c] + rest)[3..] == rest;
    DigitValue(a / 4);
    DigitValue(a % 4 * 16 + b / 16);
    DigitValue(b % 16 * 4 + c / 64);
    DigitValue(c % 64);
  }

  /** Three known texts (sections 5 and 10 of RFC 4648). */
  lemma {:induction false} KnownTexts()
    ensures Padded([102, 111, 111]) == "Zm9v" && Padded([98, 97, 114]) == "YmFy"
    ensures Padded([251, 239, 255]) == "--__"
  {
    assert Padded([]) == "";
    var foo: seq<byte>, bar: seq<byte>, last: seq<byte> := [102, 111, 111], [98, 97, 114], [251, 239, 255];
    assert foo[3..] == [] && bar[3..] == [] && last[3..] == [];
  }
}
