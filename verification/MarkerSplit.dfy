/**
 The streamed answer: prose, then a marker, then metadata. Prose is forwarded while
 the model is still writing, and the marker may arrive cut into any number of pieces.
 */
module MarkerSplit {
  import opened Wrappers
  import opened Text

  const META_MARKER := "###META###"

  /** What the whole text says is prose: everything before the first marker. */
  function Prose(text: string): string {
    match Find(text, META_MARKER)
    case Some(i) => text[..i]
    case None => text
  }

  /** What the whole text says is metadata. */
  function Metadata(text: string): string {
    match Find(text, META_MARKER)
    case Some(i) => Strip(text[i + |META_MARKER|..])
    case None => ""
  }

  /** How much of a text may be shown while more of it may still come. */
  function Released(text: string): (n: nat)
    ensures n <= |text|
  {
    match Find(text, META_MARKER)
    case Some(i) => i
    case None => if |text| < |META_MARKER| then 0 else |text| - (|META_MARKER| - 1)
  }

  /** Nothing released has to be taken back: however the text goes on, it is prose. */
  lemma {:induction false} ReleasedIsProse(text: string, more: string)
    ensures Released(text) <= Released(text + more) <= |Prose(text + more)|
    ensures text[..Released(text)] == (text + more)[..Released(text)]
    ensures text[..Released(text)] <= Prose(text + more)
  {
    if Find(text, META_MARKER).Some? {
      FindStable(text, more, META_MARKER);
    } else if Find(text + more, META_MARKER).Some? {
      FindNew(text, more, META_MARKER);
    }
    assert text[..Released(text)] == (text + more)[..Released(text)];
  }

  predicate EndsIn(s: string, ending: string) {
    |ending| <= |s| && s[|s| - |ending|..] == ending
  }

  /**
   A text that ends in all but the last character of the marker needs all that is
   held back: the next character can make the held part the marker.
   */
  lemma {:induction false} HoldBackIsTight(before: string)
    requires Find(before + META_MARKER[..|META_MARKER| - 1], META_MARKER).None?
    ensures var text := before + META_MARKER[..|META_MARKER| - 1];
            Released(text) == |before| && Prose(text + "#") == text[..Released(text)]
  {
    var text := before + META_MARKER[..|META_MARKER| - 1];
    assert text + "#" == before + META_MARKER;
    assert OccursAt(text + "#", META_MARKER, |before|);
    if Find(text + "#", META_MARKER).value < |before| {
      FindNew(text, "#", META_MARKER);
      assert false;
    }
  }

  /** How many characters of a marker the text may end in: the longest beginning of at most `upTo` that it ends in. */
  function BegunUpTo(text: string, upTo: nat): (j: nat)
    requires upTo < |META_MARKER|
    ensures j <= upTo && EndsIn(text, META_MARKER[..j])
    ensures forall k :: j < k <= upTo ==> !EndsIn(text, META_MARKER[..k])
  {
    if upTo == 0 || EndsIn(text, META_MARKER[..upTo]) then upTo else BegunUpTo(text, upTo - 1)
  }

  function MarkerBegun(text: string): nat {
    BegunUpTo(text, |META_MARKER| - 1)
  }

  lemma {:induction false} TextBehind(text: string, more: string, i: nat)
    requires i <= |text| < i + |META_MARKER| && OccursAt(text + more, META_MARKER, i)
    ensures text[i..] == META_MARKER[..|text| - i]
  {
    var window := (text + more)[i..i + |META_MARKER|];
    assert |text[i..]| == |META_MARKER[..|text| - i]|;
    forall k | 0 <= k < |text| - i ensures text[i..][k] == META_MARKER[..|text| - i][k] {
      assert window[k] == (text + more)[i + k] == text[i + k];
    }
  }

  /** Whatever follows, a marker can take away no more than the beginning the text ends in. */
  lemma {:induction false} MarkerTakesAtMost(text: string, more: string)
    requires Find(text, META_MARKER).None?
    ensures |Prose(text + more)| >= |text| - MarkerBegun(text)
  {
    if Find(text + more, META_MARKER).Some? {
      var i := Find(text + more, META_MARKER).value;
      FindNew(text, more, META_MARKER);
      if i < |text| {
        var j := |text| - i;
        TextBehind(text, more, i);
        assert EndsIn(text, META_MARKER[..j]);
      }
    }
  }

  /** And the rest of the marker takes exactly that away. */
  lemma {:induction false} MarkerTakes(text: string)
    requires Find(text, META_MARKER).None?
    ensures |Prose(text + META_MARKER[MarkerBegun(text)..])| == |text| - MarkerBegun(text)
  {
    var j := MarkerBegun(text);
    var whole, i := text + META_MARKER[j..], |text| - j;
    assert whole[i..i + |META_MARKER|] == META_MARKER[..j] + META_MARKER[j..];
    assert META_MARKER[..j] + META_MARKER[j..] == META_MARKER;
    assert OccursAt(whole, META_MARKER, i);
    MarkerTakesAtMost(text, META_MARKER[j..]);
  }

  /**
   Without a marker so far, exactly the text up to a beginning of the marker at its end
   can be shown: all continuations leave that much prose, and one leaves no more.
   */
  lemma {:induction false} ReleasableExactly(text: string, n: nat)
    requires Find(text, META_MARKER).None? && n <= |text|
    ensures (forall more :: text[..n] <= Prose(text + more)) <==> n + MarkerBegun(text) <= |text|
  {
    if n + MarkerBegun(text) <= |text| {
      forall more ensures text[..n] <= Prose(text + more) {
        MarkerTakesAtMost(text, more);
        assert text[..n] == (text + more)[..n];
      }
    } else {
      MarkerTakes(text);
      assert !(text[..n] <= Prose(text + META_MARKER[MarkerBegun(text)..]));
    }
  }

  /** Something held back can still become the marker exactly if the text ends in a beginning of it. */
  lemma {:induction false} HeldPartCanBecomeMarker(text: string)
    requires Find(text, META_MARKER).None?
    ensures (exists more :: |Prose(text + more)| < |text|)
            <==> exists j :: 0 < j < |META_MARKER| && EndsIn(text, META_MARKER[..j])
  {
    forall more | |Prose(text + more)| < |text| ensures MarkerBegun(text) > 0 {
      MarkerTakesAtMost(text, more);
    }
    if MarkerBegun(text) > 0 {
      MarkerTakes(text);
      assert EndsIn(text, META_MARKER[..MarkerBegun(text)]);
    }
  }

  function AllBut(text: string, held: nat): string {
    if |text| < held then "" else text[..|text| - held]
  }

  /** Showing all but the last `held` characters of a text never shows part of a marker. */
  ghost predicate SafeHoldBack(held: nat) {
    forall text: string, more: string :: Find(text, META_MARKER).None? ==> AllBut(text, held) <= Prose(text + more)
  }

  /** The loop holds back the least constant number of characters that is safe. */
  lemma {:induction false} HoldBackIsLeastConstant(held: nat)
    ensures SafeHoldBack(held) <==> held >= |META_MARKER| - 1
    ensures forall text :: Find(text, META_MARKER).None? ==> text[..Released(text)] == AllBut(text, |META_MARKER| - 1)
  {
    if held >= |META_MARKER| - 1 {
      forall text: string, more: string | Find(text, META_MARKER).None?
        ensures AllBut(text, held) <= Prose(text + more)
      {
        var n := if |text| < held then 0 else |text| - held;
        ReleasableExactly(text, n);
        assert text[..n] == AllBut(text, held);
      }
    } else {
      var text := META_MARKER[..|META_MARKER| - 1];
      assert text + "#" == META_MARKER && OccursAt(META_MARKER, META_MARKER, 0);
      assert Prose(text + "#") == "";
      assert !(AllBut(text, held) <= Prose(text + "#"));
    }
  }

  /** The beginnings of the marker that the marker itself can complete. */
  predicate EndsInHalfMarker(prose: string) {
    EndsIn(prose, "###META") || EndsIn(prose, "###META#") || EndsIn(prose, "###META##")
  }

  lemma {:induction false} MarkerAcrossTheEnd(prose: string, j: nat)
    requires 0 < j < |META_MARKER| && j <= |prose|
    ensures OccursAt(prose + META_MARKER, META_MARKER, |prose| - j)
            <==> 7 <= j && EndsIn(prose, META_MARKER[..j])
  {
    var i := |prose| - j;
    var window := (prose + META_MARKER)[i..i + |META_MARKER|];
    assert window == prose[i..] + META_MARKER[..|META_MARKER| - j];
    assert META_MARKER == META_MARKER[..j] + META_MARKER[j..];
    if j < 7 {
      var k := if j <= 3 then 3 - j else 0;
      assert window[j + k] == META_MARKER[k] != META_MARKER[j + k];
    }
    if window == META_MARKER {
      assert window[..j] == prose[i..];
    }
  }

  lemma {:induction false} HalfMarkers(prose: string)
    ensures EndsInHalfMarker(prose) <==> exists j :: 7 <= j < |META_MARKER| && EndsIn(prose, META_MARKER[..j])
  {
    assert META_MARKER[..7] == "###META" && META_MARKER[..8] == "###META#" && META_MARKER[..9] == "###META##";
  }

  /** Writing the marker behind prose: is the written one the first? */
  lemma {:induction false} FirstMarker(prose: string)
    ensures Find(prose + META_MARKER, META_MARKER) == Some(|prose|)
            <==> Find(prose, META_MARKER).None? && !EndsInHalfMarker(prose)
  {
    var text := prose + META_MARKER;
    assert OccursAt(text, META_MARKER, |prose|);
    HalfMarkers(prose);
    if Find(prose, META_MARKER).Some? {
      FindStable(prose, META_MARKER, META_MARKER);
    } else {
      var i := Find(text, META_MARKER).value;
      if i < |prose| {
        FindNew(prose, META_MARKER, META_MARKER);
        MarkerAcrossTheEnd(prose, |prose| - i);
      }
      forall j | 7 <= j < |META_MARKER| && EndsIn(prose, META_MARKER[..j]) ensures i < |prose| {
        MarkerAcrossTheEnd(prose, j);
      }
    }
  }

  /**
   A model that writes prose, the marker and metadata is read back as it wrote them
   exactly when the prose holds no marker and does not end in a marker begun early.
   */
  lemma {:induction false} ReadsBackAsWritten(prose: string, meta: string)
    ensures var text := prose + META_MARKER + meta;
            Prose(text) == prose && Metadata(text) == Strip(meta)
            <==> Find(prose, META_MARKER).None? && !EndsInHalfMarker(prose)
  {
    var text := prose + META_MARKER;
    FirstMarker(prose);
    assert OccursAt(text, META_MARKER, |prose|);
    FindStable(text, meta, META_MARKER);
    assert (text + meta)[..|prose|] == prose;
    assert (text + meta)[|prose| + |META_MARKER|..] == meta;
  }

  lemma {:induction false} OneMorePiece(pieces: seq<string>, k: nat)
    requires k < |pieces|
    ensures Concat(pieces[..k + 1]) == Concat(pieces[..k]) + pieces[k]
  {
    assert pieces[..k + 1][..k] == pieces[..k];
  }

  /** What may be shown once the first `k` pieces have arrived. */
  function ReleasedAfter(pieces: seq<string>, k: nat): string
    requires k <= |pieces|
  {
    Concat(pieces[..k])[..Released(Concat(pieces[..k]))]
  }

  /** The deltas and how many of them were out after each piece handled so far. */
  ghost predicate InStep(pieces: seq<string>, deltas: seq<string>, seen: seq<nat>) {
    && |seen| <= |pieces|
    && forall k :: 0 <= k < |seen| ==>
         seen[k] <= |deltas| && Concat(deltas[..seen[k]]) == ReleasedAfter(pieces, k + 1)
  }

  /** Text from `from` up to `to` goes out as one delta, unless there is none. */
  function Forward(deltas: seq<string>, text: string, from: nat, to: nat): (out: seq<string>)
    requires from <= to <= |text|
  {
    if to > from then deltas + [text[from..to]] else deltas
  }

  lemma {:induction false} ForwardExtends(deltas: seq<string>, text: string, from: nat, to: nat)
    requires from <= to <= |text|
    requires Concat(deltas) == text[..from] && "" !in deltas
    ensures Concat(Forward(deltas, text, from, to)) == text[..to] && "" !in Forward(deltas, text, from, to)
  {
    if to > from {
      assert (deltas + [text[from..to]])[..|deltas|] == deltas;
      assert text[..to] == text[..from] + text[from..to];
    }
  }

  lemma {:induction false} ForwardStaysInStep(
    pieces: seq<string>, deltas: seq<string>, seen: seq<nat>, text: string, from: nat, to: nat)
    requires from <= to <= |text| && InStep(pieces, deltas, seen)
    ensures InStep(pieces, Forward(deltas, text, from, to), seen)
  {
    var out := Forward(deltas, text, from, to);
    forall k | 0 <= k < |seen| ensures out[..seen[k]] == deltas[..seen[k]] {}
  }

  /** One piece of the loop below: what goes out is what the text so far releases. */
  method ForwardPiece(buffer: string, emitted: nat, piece: string, deltas: seq<string>)
    returns (buffer': string, emitted': nat, deltas': seq<string>)
    requires emitted == Released(buffer)
    ensures buffer' == buffer + piece
    ensures emitted <= emitted' == Released(buffer')
    ensures deltas' == Forward(deltas, buffer', emitted, emitted')
  {
    ReleasedIsProse(buffer, piece);
    buffer', emitted', deltas' := buffer + piece, emitted, deltas;
    var idx := Find(buffer', META_MARKER);
    if idx.Some? {
      if idx.value > emitted {
        deltas' := deltas + [buffer'[emitted..idx.value]];
        emitted' := idx.value;
      }
    } else {
      var safe := |buffer'| - (|META_MARKER| - 1);
      if safe > emitted {
        deltas' := deltas + [buffer'[emitted..safe]];
        emitted' := safe;
      }
    }
  }

  lemma {:induction false} SeenNext(pieces: seq<string>, deltas: seq<string>, seen: seq<nat>)
    requires |seen| < |pieces| && InStep(pieces, deltas, seen)
    requires Concat(deltas) == ReleasedAfter(pieces, |seen| + 1)
    ensures InStep(pieces, deltas, seen + [|deltas|])
  {
    assert deltas[..|deltas|] == deltas;
  }

  lemma {:induction false} TakeOfConcat(a: string, b: string, n: nat)
    requires n <= |a|
    ensures (a + b)[..n] == a[..n]
  {
  }

  lemma {:induction false} PieceStaysInStep(
    pieces: seq<string>, k: nat, deltas: seq<string>, seen: seq<nat>, emitted: nat, emitted': nat)
    requires k < |pieces| && |seen| == k && InStep(pieces, deltas, seen) && "" !in deltas
    requires emitted <= emitted' && emitted == Released(Concat(pieces[..k]))
    requires emitted' == Released(Concat(pieces[..k + 1]))
    requires Concat(deltas) == Concat(pieces[..k])[..emitted]
    ensures var out := Forward(deltas, Concat(pieces[..k + 1]), emitted, emitted');
            && Concat(out) == Concat(pieces[..k + 1])[..emitted'] && "" !in out
            && InStep(pieces, out, seen + [|out|])
  {
    var text := Concat(pieces[..k + 1]);
    assert text[..emitted] == Concat(pieces[..k])[..emitted] by {
      OneMorePiece(pieces, k);
      TakeOfConcat(Concat(pieces[..k]), pieces[k], emitted);
    }
    ForwardExtends(deltas, text, emitted, emitted');
    ForwardStaysInStep(pieces, deltas, seen, text, emitted, emitted');
    SeenNext(pieces, Forward(deltas, text, emitted, emitted'), seen);
  }

  lemma {:induction false} LastDelta(pieces: seq<string>, text: string, deltas: seq<string>, seen: seq<nat>)
    requires Concat(deltas) == text[..Released(text)] && "" !in deltas && InStep(pieces, deltas, seen)
    ensures var out := if Find(text, META_MARKER).Some? then deltas else Forward(deltas, text, Released(text), |text|);
            Concat(out) == Prose(text) && "" !in out && InStep(pieces, out, seen)
  {
    ForwardExtends(deltas, text, Released(text), |text|);
    ForwardStaysInStep(pieces, deltas, seen, text, Released(text), |text|);
  }

  /**
   The forwarding loop. The pieces are what the model sends; `seen[k]` counts the
   deltas out once piece `k` is handled.
   */
  method SplitStream(pieces: seq<string>)
    returns (deltas: seq<string>, answer: string, meta: string, seen: seq<nat>)
    // Only the text matters, not how it was cut.
    ensures Concat(deltas) == Prose(Concat(pieces))
    ensures answer == Strip(Concat(deltas))
    ensures meta == Metadata(Concat(pieces))
    ensures "" !in deltas
    // The same holds at every moment of the stream.
    ensures |seen| == |pieces| && InStep(pieces, deltas, seen)
  {
    var buffer := "";
    var emitted: nat := 0;
    deltas, seen := [], [];
    for k := 0 to |pieces|
      invariant buffer == Concat(pieces[..k])
      invariant emitted == Released(buffer)
      invariant Concat(deltas) == buffer[..emitted] && "" !in deltas
      invariant |seen| == k && InStep(pieces, deltas, seen)
    {
      ghost var before, from := deltas, emitted;
      OneMorePiece(pieces, k);
      buffer, emitted, deltas := ForwardPiece(buffer, emitted, pieces[k], deltas);
      PieceStaysInStep(pieces, k, before, seen, from, emitted);
      seen := seen + [|deltas|];
    }
    assert pieces[..|pieces|] == pieces;
    LastDelta(pieces, buffer, deltas, seen);

    var markerIdx := Find(buffer, META_MARKER);
    if markerIdx.Some? {
      answer := Strip(buffer[..markerIdx.value]);
      meta := Strip(buffer[markerIdx.value + |META_MARKER|..]);
    } else {
      if |buffer| > emitted {
        deltas := deltas + [buffer[emitted..]];
      }
      answer := Strip(buffer);
      meta := "";
    }
  }
}
