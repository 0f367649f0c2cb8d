/**
 Server-sent events: the printer of the API and the reading loop of the console
 (sections 9.2.5 and 9.2.6 of the WHATWG HTML Standard). The reader is given the
 decoded text in chunks that need not respect frames, lines or fields.
 */
module Sse {
  import opened Wrappers
  import opened Text

  /** What `JSON.parse` yields; `Other` is a number, a boolean or a list, by its `String(...)`. */
  datatype Json = Null | Text(text: string) | Object(fields: map<string, Json>) | Other(shown: string)

  type Parser = string -> Option<Json>

  /** `String(data.name ?? fallback)`, for a `data` that is not null. */
  function StringField(data: Json, name: string, fallback: string): string {
    match Field(data, name)
    case Null => fallback
    case Text(s) => s
    case Object(_) => "[object Object]"
    case Other(s) => s
  }

  /** `data.name`, with Null for undefined. */
  function Field(data: Json, name: string): Json {
    if data.Object? && name in data.fields then data.fields[name] else Null
  }

  /** The calls to the handlers of the console. */
  datatype Call =
    | OnMeta(meta: Json)
    | OnStatus(stage: string)
    | OnDelta(text: string)
    | OnFinal(response: Json)
    | OnClarification(prompt: Json)
    | OnAbstention(response: Json)
    | OnStreamError(detail: string)

  /** What one frame leads to. Reading a field of a parsed `null` throws. */
  datatype Effect = Calls(call: Call) | Ignored | Throws

  function Terminal(data: Json): Call {
    var payload := if Field(data, "payload").Null? then Object(map[]) else Field(data, "payload");
    var kind := StringField(data, "kind", "");
    if kind == "clarification" then OnClarification(payload)
    else if kind == "abstention" then OnAbstention(payload)
    else OnFinal(payload)
  }

  /** The switch over the event type. */
  function Invoke(eventType: string, data: Json): Effect {
    if eventType == "meta" then Calls(OnMeta(data))
    else if eventType == "final" then Calls(OnFinal(data))
    else if eventType !in {"status", "delta", "terminal", "error"} then Ignored
    else if data.Null? then Throws
    else if eventType == "status" then Calls(OnStatus(StringField(data, "stage", "")))
    else if eventType == "delta" then Calls(OnDelta(StringField(data, "text", "")))
    else if eventType == "terminal" then Calls(Terminal(data))
    else Calls(OnStreamError(StringField(data, "detail", "Streaming failed.")))
  }

  predicate StartsWith(s: string, prefix: string) {
    prefix <= s
  }

  /** `frame.split("\n")`. */
  function Lines(frame: string): (lines: seq<string>)
    ensures |lines| >= 1
    decreases |frame|
  {
    match Find(frame, "\n")
    case None => [frame]
    case Some(i) => [frame[..i]] + Lines(frame[i + 1..])
  }

  /** The value of the last `event:` line. */
  function EventType(lines: seq<string>): string {
    if lines == [] then "message"
    else
      var last := lines[|lines| - 1];
      if StartsWith(last, "event:") then Trim(last[6..]) else EventType(lines[..|lines| - 1])
  }

  /** The values of the `data:` lines. */
  function DataLines(lines: seq<string>): seq<string> {
    if lines == [] then []
    else
      var last := lines[|lines| - 1];
      DataLines(lines[..|lines| - 1]) + if StartsWith(last, "data:") then [Trim(last[5..])] else []
  }

  function Join(lines: seq<string>): string {
    if lines == [] then ""
    else if |lines| == 1 then lines[0]
    else Join(lines[..|lines| - 1]) + "\n" + lines[|lines| - 1]
  }

  /** What a frame says. */
  function EffectOf(frame: string, parse: Parser): Effect {
    var data := DataLines(Lines(frame));
    if data == [] then Ignored
    else
      match parse(Join(data))
      case None => Ignored
      case Some(value) => Invoke(EventType(Lines(frame)), value)
  }

  method DispatchSseFrame(frame: string, parse: Parser) returns (effect: Effect)
    ensures effect == EffectOf(frame, parse)
  {
    var eventType := "message";
    var dataLines := [];
    var lines := Lines(frame);
    for k := 0 to |lines|
      invariant eventType == EventType(lines[..k])
      invariant dataLines == DataLines(lines[..k])
    {
      assert lines[..k + 1][..k] == lines[..k];
      var line := lines[k];
      assert StartsWith(line, "event:") ==> line[0] == 'e';
      assert StartsWith(line, "data:") ==> line[0] == 'd';
      if StartsWith(line, "event:") {
        eventType := Trim(line[6..]);
      } else if StartsWith(line, "data:") {
        dataLines := dataLines + [Trim(line[5..])];
      }
    }
    assert lines[..|lines|] == lines;
    if |dataLines| == 0 {
      return Ignored;
    }
    var data := parse(Join(dataLines));
    if data.None? {
      return Ignored;
    }
    effect := Invoke(eventType, data.value);
  }

  const BLANK_LINE := "\n\n"

  /** The frames of a text that blank lines end, and the part behind the last blank line. */
  function Frames(text: string): (r: (seq<string>, string))
    ensures Find(r.1, BLANK_LINE).None?
    decreases |text|
  {
    match Find(text, BLANK_LINE)
    case None => ([], text)
    case Some(i) => var rest := Frames(text[i + 2..]); ([text[..i]] + rest.0, rest.1)
  }

  /** All frames of a finished stream: an unended last one counts unless it is blank. */
  function AllFrames(text: string): seq<string> {
    var r := Frames(text);
    r.0 + if Trim(r.1) == "" then [] else [r.1]
  }

  /** The calls so far and whether an exception ended them, after one more effect. */
  function After(before: (seq<Call>, bool), effect: Effect): (seq<Call>, bool) {
    if before.1 then before
    else
      match effect
      case Throws => (before.0, true)
      case Ignored => before
      case Calls(call) => (before.0 + [call], false)
  }

  /** The handler calls of frames in order, up to the first that throws. */
  function Handled(frames: seq<string>, parse: Parser): (seq<Call>, bool) {
    if frames == [] then ([], false)
    else After(Handled(frames[..|frames| - 1], parse), EffectOf(frames[|frames| - 1], parse))
  }

  /** Once a frame throws, nothing behind it is handled. */
  lemma {:induction false} ThrowingEndsIt(frames: seq<string>, more: seq<string>, parse: Parser)
    requires Handled(frames, parse).1
    ensures Handled(frames + more, parse) == Handled(frames, parse)
  {
    if more == [] {
      assert frames + more == frames;
    } else {
      ThrowingEndsIt(frames, more[..|more| - 1], parse);
      assert (frames + more)[..|frames + more| - 1] == frames + more[..|more| - 1];
    }
  }

  lemma {:induction false} OneMoreFrame(frames: seq<string>, frame: string, parse: Parser)
    ensures Handled(frames + [frame], parse) == After(Handled(frames, parse), EffectOf(frame, parse))
  {
    assert (frames + [frame])[..|frames|] == frames;
  }

  /** Text that comes later can be split by itself: the tail is all that has to be kept. */
  lemma {:induction false} TailIsEnough(text: string, more: string)
    ensures Frames(text + more).0 == Frames(text).0 + Frames(Frames(text).1 + more).0
    ensures Frames(text + more).1 == Frames(Frames(text).1 + more).1
    decreases |text|
  {
    match Find(text, BLANK_LINE)
    case None =>
    case Some(i) =>
      var rest := text[i + 2..];
      assert Frames(text + more) == ([text[..i]] + Frames(rest + more).0, Frames(rest + more).1) by {
        FindStable(text, more, BLANK_LINE);
        assert (text + more)[..i] == text[..i];
        assert (text + more)[i + 2..] == rest + more;
      }
      TailIsEnough(rest, more);
      Associates([text[..i]], Frames(rest).0, Frames(Frames(rest).1 + more).0);
  }

  lemma {:induction false} Associates(a: seq<string>, b: seq<string>, c: seq<string>)
    ensures a + (b + c) == a + b + c
  {
  }

  /** An exception in the frames of a text decides the stream, whatever comes later. */
  lemma {:induction false} ThrowDecides(text: string, more: string, parse: Parser)
    requires Handled(Frames(text).0, parse).1
    ensures Handled(AllFrames(text + more), parse) == Handled(Frames(text).0, parse)
  {
    var handled := Frames(text).0;
    TailIsEnough(text, more);
    var later := AllFrames(text + more)[|handled|..];
    assert AllFrames(text + more) == handled + later;
    ThrowingEndsIt(handled, later, parse);
  }

  /** What is handled already and what the buffer completes make up what was there to handle. */
  ghost predicate Underway(all: seq<string>, tail: string, handled: seq<string>, buffer: string) {
    all == handled + Frames(buffer).0 && tail == Frames(buffer).1
  }

  lemma {:induction false} NextFrame(all: seq<string>, tail: string, handled: seq<string>, buffer: string)
    requires Underway(all, tail, handled, buffer)
    ensures match Find(buffer, BLANK_LINE)
            case None => all == handled && tail == buffer
            case Some(sep) => Underway(all, tail, handled + [buffer[..sep]], buffer[sep + 2..])
  {
    match Find(buffer, BLANK_LINE)
    case None => assert handled + [] == handled;
    case Some(sep) =>
      Associates(handled, [buffer[..sep]], Frames(buffer[sep + 2..]).0);
  }

  /** The inner loop: all frames the buffer completes, after the frames `done`. */
  method DrainBuffer(pending: string, before: seq<Call>, ghost done: seq<string>, parse: Parser)
    returns (buffer: string, calls: seq<Call>, failed: bool)
    requires Handled(done, parse) == (before, false)
    ensures (calls, failed) == Handled(done + Frames(pending).0, parse)
    ensures !failed ==> buffer == Frames(pending).1
  {
    buffer, calls, failed := pending, before, false;
    ghost var all, tail := done + Frames(pending).0, Frames(pending).1;
    ghost var handled := done;
    var sep := Find(buffer, BLANK_LINE);
    while sep.Some?
      invariant sep == Find(buffer, BLANK_LINE)
      invariant Handled(handled, parse) == (calls, false)
      invariant Underway(all, tail, handled, buffer)
      decreases |buffer|
    {
      var frame := buffer[..sep.value];
      NextFrame(all, tail, handled, buffer);
      OneMoreFrame(handled, frame, parse);
      buffer, handled := buffer[sep.value + 2..], handled + [frame];
      var effect := DispatchSseFrame(frame, parse);
      match effect {
        case Throws =>
          ThrowingEndsIt(handled, Frames(buffer).0, parse);
          failed := true;
          return;
        case Ignored =>
        case Calls(call) => calls := calls + [call];
      }
      sep := Find(buffer, BLANK_LINE);
    }
    NextFrame(all, tail, handled, buffer);
  }

  lemma {:induction false} OneMoreChunk(chunks: seq<string>, k: nat)
    requires k < |chunks|
    ensures Concat(chunks[..k + 1]) == Concat(chunks[..k]) + chunks[k]
    ensures Concat(chunks) == Concat(chunks[..k + 1]) + Concat(chunks[k + 1..])
  {
    assert chunks[..k + 1][..k] == chunks[..k];
    ConcatSplit(chunks[..k + 1], chunks[k + 1..]);
    assert chunks[..k + 1] + chunks[k + 1..] == chunks;
  }

  lemma {:induction false} LastFrame(text: string, handled: seq<string>, buffer: string)
    requires Frames(text) == (handled, buffer)
    ensures AllFrames(text) == if Trim(buffer) == "" then handled else handled + [buffer]
  {
    assert handled + [] == handled;
  }

  /**
   The reading loop. The calls made, and whether the loop is left by an exception,
   depend on the text alone and not on how it was cut into chunks.
   */
  method ReadStream(chunks: seq<string>, parse: Parser) returns (calls: seq<Call>, failed: bool)
    ensures (calls, failed) == Handled(AllFrames(Concat(chunks)), parse)
  {
    var buffer := "";
    calls, failed := [], false;
    for k := 0 to |chunks|
      invariant buffer == Frames(Concat(chunks[..k])).1
      invariant Handled(Frames(Concat(chunks[..k])).0, parse) == (calls, false)
    {
      ghost var text := Concat(chunks[..k]);
      OneMoreChunk(chunks, k);
      TailIsEnough(text, chunks[k]);
      buffer, calls, failed := DrainBuffer(buffer + chunks[k], calls, Frames(text).0, parse);
      if failed {
        ThrowDecides(Concat(chunks[..k + 1]), Concat(chunks[k + 1..]), parse);
        return;
      }
    }
    assert chunks[..|chunks|] == chunks;
    ghost var handled := Frames(Concat(chunks)).0;
    LastFrame(Concat(chunks), handled, buffer);
    if Trim(buffer) != "" {
      OneMoreFrame(handled, buffer, parse);
      var effect := DispatchSseFrame(buffer, parse);
      match effect {
        case Throws => failed := true;
        case Ignored =>
        case Calls(call) => calls := calls + [call];
      }
    }
  }

  /** `_format_sse`: an event by its type and its serialized form. */
  datatype Event = Event(kind: string, payload: string)

  function FrameOf(e: Event): string {
    "event: " + e.kind + "\ndata: " + e.payload
  }

  function FormatSse(e: Event): string {
    FrameOf(e) + BLANK_LINE
  }

  function Printed(events: seq<Event>): string {
    if events == [] then "" else FormatSse(events[0]) + Printed(events[1..])
  }

  /** What serialization promises: one line, and no white space around it. */
  predicate OneLine(s: string) {
    '\n' !in s && Trim(s) == s
  }

  lemma {:induction false} NoLineBreak(s: string)
    requires '\n' !in s
    ensures Find(s, "\n").None?
  {
    forall i: nat | i < |s| ensures !OccursAt(s, "\n", i) {
      assert s[i..i + 1][0] == s[i];
    }
  }

  /** A line break behind text without one is the first. */
  lemma {:induction false} FirstBreak(line: string, more: string)
    requires '\n' !in line
    ensures Find(line + "\n" + more, "\n") == Some(|line|)
  {
    var s := line + "\n" + more;
    assert s[|line|..|line| + 1] == "\n";
    assert OccursAt(s, "\n", |line|);
    forall i: nat | i < |line| ensures !OccursAt(s, "\n", i) {
      assert s[i..i + 1][0] == line[i];
    }
  }

  lemma {:induction false} PrintedFrame(e: Event)
    requires '\n' !in e.kind && '\n' !in e.payload
    ensures Lines(FrameOf(e)) == ["event: " + e.kind, "data: " + e.payload]
    ensures forall more :: Find(FormatSse(e) + more, BLANK_LINE) == Some(|FrameOf(e)|)
  {
    var first, second := "event: " + e.kind, "data: " + e.payload;
    assert FrameOf(e) == first + "\n" + second;
    FirstBreak(first, second);
    assert FrameOf(e)[..|first|] == first && FrameOf(e)[|first| + 1..] == second;
    NoLineBreak(second);
    forall more ensures Find(FormatSse(e) + more, BLANK_LINE) == Some(|FrameOf(e)|) {
      BlankLineEndsIt(first, second, more);
      assert FormatSse(e) + more == first + "\n" + second + BLANK_LINE + more;
    }
  }

  lemma {:induction false} BlankLineEndsIt(first: string, second: string, more: string)
    requires '\n' !in first && '\n' !in second && second != ""
    ensures Find(first + "\n" + second + BLANK_LINE + more, BLANK_LINE) == Some(|first| + 1 + |second|)
  {
    var s := first + "\n" + second + BLANK_LINE + more;
    var n := |first| + 1 + |second|;
    assert s[n..n + 2] == BLANK_LINE;
    assert OccursAt(s, BLANK_LINE, n);
    forall i: nat | i < n ensures !OccursAt(s, BLANK_LINE, i) {
      var cut := s[i..i + 2];
      assert cut[0] == s[i] && cut[1] == s[i + 1];
      assert s[|first| + 1] == second[0];
      assert i != |first| ==> s[i] == if i < |first| then first[i] else second[i - |first| - 1];
    }
  }

  lemma {:induction false} TrimSkipsBlank(s: string)
    ensures Trim(" " + s) == Trim(s)
  {
    assert (" " + s)[1..] == s;
  }

  /** What an event asks of the client. */
  function Said(e: Event, parse: Parser): Effect {
    match parse(e.payload)
    case None => Ignored
    case Some(data) => Invoke(e.kind, data)
  }

  lemma {:induction false} FrameSaysEvent(e: Event, parse: Parser)
    requires OneLine(e.kind) && OneLine(e.payload)
    ensures EffectOf(FrameOf(e), parse) == Said(e, parse)
  {
    PrintedFrame(e);
    var first, second := "event: " + e.kind, "data: " + e.payload;
    assert first[6..] == " " + e.kind && second[5..] == " " + e.payload;
    TrimSkipsBlank(e.kind);
    TrimSkipsBlank(e.payload);
    assert StartsWith(first, "event:") && first[0] == 'e';
    assert StartsWith(second, "data:") && second[0] == 'd';
    var lines := [first, second];
    assert lines[..1] == [first] && lines[..1][..0] == [];
    assert DataLines([first]) == [] && EventType([first]) == e.kind;
    assert DataLines(lines) == [e.payload] && EventType(lines) == e.kind;
  }

  function FramesOf(events: seq<Event>): (frames: seq<string>)
    ensures |frames| == |events|
  {
    if events == [] then [] else [FrameOf(events[0])] + FramesOf(events[1..])
  }

  /** A printed stream splits into exactly the frames printed. */
  lemma {:induction false} PrintedSplits(events: seq<Event>)
    requires forall e :: e in events ==> OneLine(e.kind) && OneLine(e.payload)
    ensures Frames(Printed(events)) == (FramesOf(events), "")
  {
    if events != [] {
      var e := events[0];
      PrintedFrame(e);
      PrintedSplits(events[1..]);
      assert Printed(events)[..|FrameOf(e)|] == FrameOf(e);
      assert Printed(events)[|FrameOf(e)| + 2..] == Printed(events[1..]);
    }
  }

  /** What a run of events asks of the client. */
  function SaidAll(events: seq<Event>, parse: Parser): (seq<Call>, bool) {
    if events == [] then ([], false)
    else After(SaidAll(events[..|events| - 1], parse), Said(events[|events| - 1], parse))
  }

  lemma {:induction false} FramesOfPrefix(events: seq<Event>)
    requires events != []
    ensures FramesOf(events) == FramesOf(events[..|events| - 1]) + [FrameOf(events[|events| - 1])]
  {
    if |events| > 1 {
      var n := |events| - 1;
      FramesOfPrefix(events[1..]);
      assert events[1..][..n - 1] == events[1..n];
      assert events[..n][1..] == events[1..n];
    }
  }

  lemma {:induction false} FramesSayEvents(events: seq<Event>, parse: Parser)
    requires forall e :: e in events ==> OneLine(e.kind) && OneLine(e.payload)
    ensures Handled(FramesOf(events), parse) == SaidAll(events, parse)
  {
    if events != [] {
      FramesSayEvents(events[..|events| - 1], parse);
      FramesOfPrefix(events);
      FrameSaysEvent(events[|events| - 1], parse);
      OneMoreFrame(FramesOf(events[..|events| - 1]), FrameOf(events[|events| - 1]), parse);
    }
  }

  /** A printed stream, cut anywhere, is read back as the events that were printed. */
  lemma {:induction false} PrintedStreamReadsBack(events: seq<Event>, chunks: seq<string>, parse: Parser)
    requires forall e :: e in events ==> OneLine(e.kind) && OneLine(e.payload)
    requires Concat(chunks) == Printed(events)
    ensures Handled(AllFrames(Concat(chunks)), parse) == SaidAll(events, parse)
  {
    PrintedSplits(events);
    LastFrame(Printed(events), FramesOf(events), "");
    FramesSayEvents(events, parse);
  }

  /** Events of known types carrying objects, as the API sends, all arrive and in order. */
  lemma {:induction false} ServedEventsAllArrive(events: seq<Event>, parse: Parser)
    requires forall e :: e in events ==>
      && e.kind in {"meta", "status", "delta", "final", "terminal", "error"}
      && parse(e.payload).Some? && parse(e.payload).value.Object?
    ensures var r := SaidAll(events, parse);
            && !r.1 && |r.0| == |events|
            && forall k :: 0 <= k < |events| ==>
                 Calls(r.0[k]) == Invoke(events[k].kind, parse(events[k].payload).value)
  {
    if events != [] {
      ServedEventsAllArrive(events[..|events| - 1], parse);
      assert events[|events| - 1] in events;
    }
  }

  // Which handler gets what

  /** The field as a text: as it is, or what `String` makes of it, or the fallback if there is none. */
  ghost predicate ReadsAs(fields: map<string, Json>, name: string, fallback: string, shown: string) {
    if name !in fields || fields[name] == Null then shown == fallback
    else match fields[name]
      case Text(text) => shown == text
      case Other(text) => shown == text
      case _ => shown == "[object Object]"
  }

  /** The payload of a terminal event; without one, an empty object. */
  ghost predicate IsPayload(fields: map<string, Json>, payload: Json) {
    if "payload" in fields && fields["payload"] != Null then payload == fields["payload"] else payload == Object(map[])
  }

  /** What an event of each type hands to which handler, its data being an object. */
  ghost predicate HandsOver(kind: string, fields: map<string, Json>, call: Call) {
    match call
    case OnMeta(meta) => kind == "meta" && meta == Object(fields)
    case OnStatus(stage) => kind == "status" && ReadsAs(fields, "stage", "", stage)
    case OnDelta(text) => kind == "delta" && ReadsAs(fields, "text", "", text)
    case OnStreamError(detail) => kind == "error" && ReadsAs(fields, "detail", "Streaming failed.", detail)
    case OnClarification(prompt) =>
      kind == "terminal" && ReadsAs(fields, "kind", "", "clarification") && IsPayload(fields, prompt)
    case OnAbstention(response) =>
      kind == "terminal" && ReadsAs(fields, "kind", "", "abstention") && IsPayload(fields, response)
    case OnFinal(response) =>
      || (kind == "final" && response == Object(fields))
      || (kind == "terminal" && IsPayload(fields, response)
          && !ReadsAs(fields, "kind", "", "clarification") && !ReadsAs(fields, "kind", "", "abstention"))
  }

  /** Events of the known types that carry objects each make one call, in order, and it gets their fields. */
  lemma {:induction false} ServedEventsHandOver(events: seq<Event>, parse: Parser)
    requires forall e :: e in events ==>
      && e.kind in {"meta", "status", "delta", "final", "terminal", "error"}
      && parse(e.payload).Some? && parse(e.payload).value.Object?
    ensures var r := SaidAll(events, parse);
            && !r.1 && |r.0| == |events|
            && forall k :: 0 <= k < |events| ==>
                 HandsOver(events[k].kind, parse(events[k].payload).value.fields, r.0[k])
  {
    ServedEventsAllArrive(events, parse);
    var calls := SaidAll(events, parse).0;
    forall k | 0 <= k < |events| ensures HandsOver(events[k].kind, parse(events[k].payload).value.fields, calls[k]) {
      assert events[k] in events;
      assert Calls(calls[k]) == Invoke(events[k].kind, parse(events[k].payload).value);
    }
  }

  /** An unknown type is ignored; `null` throws where a field of it is read, and is handed on where it is not. */
  lemma {:induction false} OddEvents(kind: string, data: Json)
    ensures kind !in {"meta", "status", "delta", "final", "terminal", "error"} <==> Invoke(kind, data) == Ignored
    ensures Invoke(kind, data) == Throws <==> data == Null && kind in {"status", "delta", "terminal", "error"}
    ensures Invoke("meta", Null) == Calls(OnMeta(Null)) && Invoke("final", Null) == Calls(OnFinal(Null))
  {
  }

  // The lines of a frame

  lemma {:induction false} JoinCons(first: string, rest: seq<string>)
    requires rest != []
    ensures Join([first] + rest) == first + "\n" + Join(rest)
  {
    var all, n := [first] + rest, |rest| - 1;
    assert all[..n + 1] == [first] + rest[..n];
    if n > 0 {
      JoinCons(first, rest[..n]);
    } else {
      assert [first] + rest[..n] == [first];
    }
  }

  lemma {:induction false} NoBreakFound(text: string, n: nat)
    requires n <= |text| && forall k: nat :: k < n ==> !OccursAt(text, "\n", k)
    ensures '\n' !in text[..n]
  {
    forall k | 0 <= k < n ensures text[..n][k] != '\n' {
      assert !OccursAt(text, "\n", k);
      assert text[k..k + 1] == [text[k]];
    }
  }

  lemma {:induction false} CutAtBreak(text: string, i: nat)
    requires OccursAt(text, "\n", i)
    ensures text == text[..i] + "\n" + text[i + 1..]
  {
    assert text[i..i + 1] == "\n";
  }

  /** The lines of a text, put together again, are the text. */
  lemma {:induction false} LinesRejoin(text: string)
    ensures Join(Lines(text)) == text
    decreases |text|
  {
    if Find(text, "\n").Some? {
      var i := Find(text, "\n").value;
      var first, rest := text[..i], text[i + 1..];
      LinesRejoin(rest);
      JoinCons(first, Lines(rest));
      CutAtBreak(text, i);
    }
  }

  /** No line has a line break in it. */
  lemma {:induction false} LinesAreLines(text: string)
    ensures forall line :: line in Lines(text) ==> '\n' !in line
    decreases |text|
  {
    match Find(text, "\n")
    case None =>
      NoBreakFound(text, |text|);
      assert text[..|text|] == text;
    case Some(i) =>
      NoBreakFound(text, i);
      LinesAreLines(text[i + 1..]);
  }

  /** The last `event:` line gives the type, whatever stands around it; without one it is `message`. */
  lemma {:induction false} LastTypeWins(lines: seq<string>, i: nat)
    requires i <= |lines| && forall k :: i <= k < |lines| ==> !StartsWith(lines[k], "event:")
    requires i > 0 ==> StartsWith(lines[i - 1], "event:")
    ensures EventType(lines) == if i == 0 then "message" else Trim(lines[i - 1][6..])
  {
    if i < |lines| {
      LastTypeWins(lines[..|lines| - 1], i);
    }
  }

  /** Every `data:` line is kept, behind those in front of it, and nothing else is. */
  lemma {:induction false} AllDataIsKept(lines: seq<string>, i: nat)
    requires i < |lines|
    ensures DataLines(lines[..i]) <= DataLines(lines)
    ensures |DataLines(lines[..i + 1])| == |DataLines(lines[..i])| + if StartsWith(lines[i], "data:") then 1 else 0
    ensures StartsWith(lines[i], "data:") ==>
              |DataLines(lines[..i])| < |DataLines(lines)| &&
              DataLines(lines)[|DataLines(lines[..i])|] == Trim(lines[i][5..])
  {
    assert lines[..i + 1][..i] == lines[..i];
    DataOfPrefix(lines, i + 1);
    DataOfPrefix(lines, i);
  }

  lemma {:induction false} DataOfPrefix(lines: seq<string>, i: nat)
    requires i <= |lines|
    ensures DataLines(lines[..i]) <= DataLines(lines)
  {
    if i < |lines| {
      DataOfPrefix(lines[..|lines| - 1], i);
      assert lines[..|lines| - 1][..i] == lines[..i];
    } else {
      assert lines[..i] == lines;
    }
  }
}
