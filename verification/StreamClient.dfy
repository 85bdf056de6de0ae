/** `inferenceApi.streamChatCompletion`: the incremental reader of the event stream. */
module StreamClient {
  import opened Wrappers
  import opened CodeUnits
  import opened JsonText

  /** A call of onChunk, onDone or onError. `content` is whatever truthy value the server sent. */
  datatype Event = Chunk(content: Json) | Done | Error(message: Text)

  /** How reading ends, unless a [DONE] line ends it before. */
  datatype Ending =
    | Closed                    // reader.read() reports done
    | AbortSeen                 // signal.aborted is set before a read
    | AbortThrown               // fetch or read throws an AbortError
    | Failed(message: Text)     // fetch or read throws anything else

  datatype Response =
    | NoResponse(ending: Ending)
    | Unauthorized
    | HttpError(message: Text)
    | Stream(chunks: seq<Text>, ending: Ending)

  // ---------------------------------------------------------------- one data line

  datatype JsValue = Undefined | Value(json: Json)

  /** `v[key]` for the keys the reader uses, with None for the TypeError on null and undefined. */
  function Property(v: JsValue, key: Text): Option<JsValue> {
    match v
    case Undefined => None
    case Value(Null) => None
    case Value(Obj(members)) => Some(if Lookup(members, key).Some? then Value(Lookup(members, key).value) else Undefined)
    case Value(Arr(items)) => Some(if key == U("0") && items != [] then Value(items[0]) else Undefined)
    case Value(Str(s)) => Some(if key == U("0") && s != [] then Value(Str([s[0]])) else Undefined)
    case Value(_) => Some(Undefined)
  }

  predicate Nullish(v: JsValue) {
    v == Undefined || v == Value(Null)
  }

  predicate Truthy(v: JsValue) {
    match v
    case Undefined => false
    case Value(Null) => false
    case Value(Bool(b)) => b
    case Value(Str(s)) => s != []
    case Value(Num(lexeme)) => NonZero(lexeme)
    case Value(_) => true
  }

  /** `chunk.choices[0]?.delta?.content`, with None when an access throws. */
  function ContentOf(chunk: Json): Option<JsValue> {
    match Property(Value(chunk), U("choices"))
    case None => None
    case Some(choices) =>
      match Property(choices, U("0"))
      case None => None
      case Some(first) =>
        if Nullish(first) then Some(Undefined)
        else match Property(first, U("delta"))
          case None => None
          case Some(delta) => if Nullish(delta) then Some(Undefined) else Property(delta, U("content"))
  }

  /** What a payload hands to onChunk; malformed payloads and empty contents are skipped. */
  function Emitted(data: Text): Option<Json> {
    match Parse(data)
    case None => None
    case Some(chunk) =>
      var content := ContentOf(chunk);
      if content.Some? && Truthy(content.value) && content.value.Value? then Some(content.value.json) else None
  }

  const DATA: Text := U("data: ")

  datatype LineResult = Skip | Emit(content: Json) | Stop

  function ReadData(data: Text): LineResult {
    if data == U("[DONE]") then Stop
    else match Emitted(data)
      case None => Skip
      case Some(v) => Emit(v)
  }

  function ReadLine(raw: Text): LineResult {
    var line := Trim(raw);
    if StartsWith(line, DATA) then ReadData(Trim(line[|DATA|..])) else Skip
  }

  // ---------------------------------------------------------------- a whole text at once

  function Newline(text: Text): (k: int)
    ensures -1 <= k < |text|
    ensures k >= 0 ==> text[k] == NEWLINE && NEWLINE !in text[..k]
    ensures k == -1 ==> NEWLINE !in text
  {
    if text == [] then -1
    else if text[0] == NEWLINE then 0
    else var k := Newline(text[1..]); if k == -1 then -1 else k + 1
  }

  /** The lines that a newline completes, and the unfinished rest. */
  function Lines(text: Text): seq<Text>
    decreases |text|
  {
    var k := Newline(text);
    if k == -1 then [] else [text[..k]] + Lines(text[k + 1..])
  }

  function Rest(text: Text): Text
    decreases |text|
  {
    var k := Newline(text);
    if k == -1 then text else Rest(text[k + 1..])
  }

  /** The chunks emitted by the lines before the first [DONE]. */
  function Chunks(lines: seq<Text>): seq<Event> {
    if lines == [] || ReadLine(lines[0]).Stop? then []
    else (match ReadLine(lines[0]) case Emit(v) => [Chunk(v)] case _ => []) + Chunks(lines[1..])
  }

  /** Some line is [DONE]. */
  predicate Stops(lines: seq<Text>) {
    lines != [] && (ReadLine(lines[0]).Stop? || Stops(lines[1..]))
  }

  function Terminal(ending: Ending): Event {
    if ending.Failed? then Error(ending.message) else Done
  }

  /** The calls made for a stream: chunks of its complete lines, then one terminal call. */
  function StreamEvents(text: Text, ending: Ending): seq<Event> {
    Chunks(Lines(text)) + [if Stops(Lines(text)) then Done else Terminal(ending)]
  }

  function ResponseEvents(response: Response): seq<Event> {
    match response
    case NoResponse(ending) => [Terminal(ending)]
    case Unauthorized => [Error(U("Unauthorized"))]
    case HttpError(message) => [Error(message)]
    case Stream(chunks, ending) => StreamEvents(Concat(chunks), ending)
  }

  // ---------------------------------------------------------------- independence of chunk boundaries

  lemma {:induction false} NewlineAppend(a: Text, b: Text)
    requires Newline(a) >= 0
    ensures Newline(a + b) == Newline(a)
  {
    assert (a + b)[0] == a[0] && (a + b)[1..] == a[1..] + b;
    if a[0] != NEWLINE {
      NewlineAppend(a[1..], b);
    }
  }

  lemma {:induction false} LinesStep(text: Text)
    ensures var k := Newline(text);
            if k == -1 then Lines(text) == [] && Rest(text) == text
            else Lines(text) == [text[..k]] + Lines(text[k + 1..]) && Rest(text) == Rest(text[k + 1..])
  {}

  /** Reading more text leaves the complete lines alone and continues from the unfinished rest. */
  lemma {:induction false} LinesAppend(a: Text, b: Text)
    ensures Lines(a + b) == Lines(a) + Lines(Rest(a) + b)
    ensures Rest(a + b) == Rest(Rest(a) + b)
    decreases |a|
  {
    hide Newline, Lines, Rest;
    var k := Newline(a);
    LinesStep(a);
    if k >= 0 {
      NewlineAppend(a, b);
      LinesStep(a + b);
      assert (a + b)[..k] == a[..k] && (a + b)[k + 1..] == a[k + 1..] + b;
      LinesAppend(a[k + 1..], b);
    }
  }

  lemma {:induction false} ChunksAppend(a: seq<Text>, b: seq<Text>)
    ensures Stops(a) ==> Chunks(a + b) == Chunks(a)
    ensures !Stops(a) ==> Chunks(a + b) == Chunks(a) + Chunks(b)
    ensures Stops(a + b) <==> Stops(a) || Stops(b)
  {
    hide ReadLine;
    if a == [] {
      assert a + b == b;
    } else {
      assert (a + b)[1..] == a[1..] + b;
      ChunksAppend(a[1..], b);
    }
  }

  /** The lines read so far decide the rest of the run once one of them stops it. */
  lemma {:induction false} StopDecides(text: Text, more: Text, seen: seq<Text>, ahead: seq<Text>)
    requires Lines(text) == seen + ahead && Stops(seen)
    ensures Stops(Lines(text + more)) && Chunks(Lines(text + more)) == Chunks(seen)
  {
    hide Lines, Rest, Stops, Chunks;
    LinesAppend(text, more);
    ChunksAppend(seen, ahead);
    ChunksAppend(seen + ahead, Lines(Rest(text) + more));
  }

  /** One line more at the end. */
  lemma {:induction false} ChunksPush(seen: seq<Text>, line: Text)
    requires !Stops(seen)
    ensures Stops(seen + [line]) <==> ReadLine(line).Stop?
    ensures Chunks(seen + [line]) == Chunks(seen) + (if ReadLine(line).Emit? then [Chunk(ReadLine(line).content)] else [])
  {
    hide ReadLine;
    ChunksAppend(seen, [line]);
    assert Chunks([line][1..]) == [] && !Stops([line][1..]);
  }

  method StreamChatCompletion(response: Response) returns (events: seq<Event>, loggedOut: bool)
    ensures events == ResponseEvents(response)
    ensures loggedOut <==> response.Unauthorized?
    ensures response.Unauthorized? ==> events == [Error(U("Unauthorized"))]
    ensures response.HttpError? ==> events == [Error(response.message)]
    ensures response.NoResponse? ==> events == [if response.ending.Failed? then Error(response.ending.message) else Done]
  {
    hide Trim, Emitted, Newline, Lines, Rest, Chunks, Stops;
    events, loggedOut := [], false;
    if response.NoResponse? {
      return [Terminal(response.ending)], false;
    }
    if response.Unauthorized? {
      return [Error(U("Unauthorized"))], true;
    }
    if response.HttpError? {
      return [Error(response.message)], false;
    }
    var chunks := response.chunks;
    var buffer: Text := [];
    ghost var text: Text := [];
    ghost var seen: seq<Text> := [];
    LinesStep([]);
    NothingRead();
    var i := 0;
    while i < |chunks|
      invariant i <= |chunks|
      invariant Concat(chunks) == text + Concat(chunks[i..])
      invariant seen == Lines(text) && buffer == Rest(text) && Lines(buffer) == []
      invariant events == Chunks(seen) && !Stops(seen)
    {
      var value := chunks[i];
      assert chunks[i..][1..] == chunks[i + 1..];
      LinesAppend(text, value);
      text := text + value;
      i := i + 1;
      buffer := buffer + value;
      var newlineIndex := Newline(buffer);
      while newlineIndex >= 0
        invariant newlineIndex == Newline(buffer)
        invariant Lines(text) == seen + Lines(buffer) && Rest(text) == Rest(buffer)
        invariant events == Chunks(seen) && !Stops(seen)
        decreases |buffer|
      {
        LinesStep(buffer);
        var raw := buffer[..newlineIndex];
        ghost var before := seen;
        ChunksPush(seen, raw);
        seen := seen + [raw];
        buffer := buffer[newlineIndex + 1..];
        assert Lines(text) == seen + Lines(buffer);
        newlineIndex := Newline(buffer);
        var line := Trim(raw);
        if StartsWith(line, DATA) {
          var data := Trim(line[|DATA|..]);
          if data == U("[DONE]") {
            assert ReadLine(raw).Stop?;
            StopDecides(text, Concat(chunks[i..]), seen, Lines(buffer));
            assert Concat(chunks) == text + Concat(chunks[i..]);
            assert Chunks(seen) == events;
            return events + [Done], false;
          }
          var content := Emitted(data);
          if content.Some? {
            events := events + [Chunk(content.value)];
          }
        }
      }
      LinesStep(buffer);
    }
    assert Concat(chunks) == text;
    return events + [Terminal(response.ending)], false;
  }

  lemma {:induction false} NothingRead()
    ensures Chunks([]) == [] && !Stops([])
  {}

  // ---------------------------------------------------------------- what every run does

  lemma {:induction false} ChunksAreChunks(lines: seq<Text>)
    ensures forall i :: 0 <= i < |Chunks(lines)| ==> Chunks(lines)[i].Chunk?
  {
    hide ReadLine;
    if lines != [] {
      ChunksAreChunks(lines[1..]);
    }
  }

  /** Every run makes exactly one terminal call, and it is the last call. */
  lemma {:induction false} OneTerminalCall(response: Response)
    ensures var events := ResponseEvents(response);
            events != [] && forall i :: 0 <= i < |events| ==> (events[i].Chunk? <==> i < |events| - 1)
  {
    hide Lines, Chunks, Stops, ReadLine, Concat;
    if response.Stream? {
      ChunksAreChunks(Lines(Concat(response.chunks)));
    }
  }

  /** A stream cut short emits a prefix of the chunks that the whole stream emits. */
  lemma {:induction false} CutEmitsPrefix(cut: Text, whole: Text)
    requires cut <= whole
    ensures Chunks(Lines(cut)) <= Chunks(Lines(whole))
  {
    var tail := whole[|cut|..];
    assert whole == cut + tail;
    LinesAppend(cut, tail);
    ChunksAppend(Lines(cut), Lines(Rest(cut) + tail));
  }
}
