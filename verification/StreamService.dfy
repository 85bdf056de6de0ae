/** `InferenceService.stream_chat_completion`: Ollama's lines become server-sent events. */
module StreamService {
  import opened Wrappers
  import opened CodeUnits
  import opened JsonText

  /** A line of Ollama's answer: empty, not JSON, an object, or JSON on which one of the `get` calls raises. */
  datatype LineRead = Blank | Malformed | Record(content: Json, done: bool, doneReason: Json) | Misshapen

  type Line = l: LineRead | l.Record? ==> Printable(l.content) && Printable(l.doneReason) witness Blank

  /** Python's truth of a JSON value. */
  predicate PythonTruthy(v: Json) {
    match v
    case Null => false
    case Bool(b) => b
    case Num(lexeme) => NonZero(lexeme)
    case Str(s) => s != []
    case Arr(items) => items != []
    case Obj(members) => members != []
  }

  function GetOr(members: seq<Member>, key: Text, default: Json): Json {
    match Lookup(members, key)
    case None => default
    case Some(v) => v
  }

  /** The `get` calls on a parsed line. */
  function ReadChunk(chunk: Json): (l: LineRead)
    ensures l.Record? || l.Misshapen?
  {
    if !chunk.Obj? then Misshapen
    else
      var message := GetOr(chunk.members, U("message"), Obj([]));
      if !message.Obj? then Misshapen
      else Record(GetOr(message.members, U("content"), Str([])),
                  PythonTruthy(GetOr(chunk.members, U("done"), Bool(false))),
                  GetOr(chunk.members, U("done_reason"), Null))
  }

  lemma {:induction false} ChunkReadsPrintable(chunk: Json)
    requires Printable(chunk)
    ensures var l := ReadChunk(chunk); l.Record? ==> Printable(l.content) && Printable(l.doneReason)
  {
    hide Lookup;
    if chunk.Obj? {
      LookupPrintable(chunk.members, U("message"));
      LookupPrintable(chunk.members, U("done_reason"));
      var message := GetOr(chunk.members, U("message"), Obj([]));
      if message.Obj? {
        LookupPrintable(message.members, U("content"));
      }
    }
  }

  lemma {:induction false} ParseReadsPrintable(raw: Text)
    requires Parse(raw).Some?
    ensures var l := ReadChunk(Parse(raw).value); l.Record? ==> Printable(l.content) && Printable(l.doneReason)
  {
    hide ParseValue, Printable, ReadChunk;
    ParsedIsPrintable(raw);
    ChunkReadsPrintable(Parse(raw).value);
  }

  /** What the loop makes of a line of text. */
  function Classify(raw: Text): Line {
    if raw == [] then Blank
    else match Parse(raw)
      case None => Malformed
      case Some(chunk) => ParseReadsPrintable(raw); ReadChunk(chunk)
  }

  function Classified(raws: seq<Text>): (lines: seq<Line>)
    ensures |lines| == |raws| && forall i :: 0 <= i < |raws| ==> lines[i] == Classify(raws[i])
  {
    seq(|raws|, i requires 0 <= i < |raws| => Classify(raws[i]))
  }

  /** What httpx hands over: no connection, an error status, or lines and perhaps a read error after them. */
  datatype Upstream = Unreachable | BadStatus | Answer(lines: seq<Text>, broken: bool)

  /** How the generator ends. */
  datatype Ending = Finished | Unavailable | Raised

  function FinishReason(r: Line): Json
    requires r.Record?
  {
    if r.done then r.doneReason else Null
  }

  function Payload(id: Text, model: Text, r: Line): Json
    requires r.Record?
  {
    Obj([Member(U("id"), Str(id)),
         Member(U("object"), Str(U("chat.completion.chunk"))),
         Member(U("model"), Str(model)),
         Member(U("choices"), Arr([Choice(r)]))])
  }

  function Choice(r: Line): Json
    requires r.Record?
  {
    Obj([Member(U("index"), Num(U("0"))),
         Member(U("delta"), Delta(r)),
         Member(U("finish_reason"), FinishReason(r))])
  }

  function Delta(r: Line): Json
    requires r.Record?
  {
    Obj([Member(U("role"), Str(U("assistant"))), Member(U("content"), r.content)])
  }

  function Frame(data: Text): Text {
    U("data: ") + data + [NEWLINE, NEWLINE]
  }

  function RecordFrame(id: Text, model: Text, r: Line): Text
    requires r.Record?
  {
    Frame(Dumps(Payload(id, model, r)))
  }

  const DONE: Text := U("[DONE]")

  /** The usable lines, up to and including the first that is done or before one that raises. */
  function Answered(lines: seq<Line>): (rs: seq<Line>)
    ensures forall i :: 0 <= i < |rs| ==> rs[i].Record?
  {
    if lines == [] || lines[0].Misshapen? then []
    else if !lines[0].Record? then Answered(lines[1..])
    else if lines[0].done then [lines[0]]
    else [lines[0]] + Answered(lines[1..])
  }

  /** Reading stops at a record that is done, before any line that raises and before a read error. */
  predicate Completes(lines: seq<Line>, broken: bool) {
    if lines == [] then !broken
    else if lines[0].Misshapen? then false
    else (lines[0].Record? && lines[0].done) || Completes(lines[1..], broken)
  }

  function RecordFrames(id: Text, model: Text, rs: seq<Line>): (fs: seq<Text>)
    requires forall i :: 0 <= i < |rs| ==> rs[i].Record?
  {
    if rs == [] then [] else [RecordFrame(id, model, rs[0])] + RecordFrames(id, model, rs[1..])
  }

  /** Everything the generator yields for an answer. */
  function Frames(id: Text, model: Text, lines: seq<Line>, broken: bool): seq<Text> {
    RecordFrames(id, model, Answered(lines)) + (if Completes(lines, broken) then [Frame(DONE)] else [])
  }

  method StreamChatCompletion(id: Text, model: Text, allowedModels: set<Text>, upstream: Upstream)
    returns (frames: seq<Text>, ending: Ending)
    ensures model !in allowedModels || upstream.Unreachable? ==> ending == Unavailable && frames == []
    ensures model in allowedModels && upstream.BadStatus? ==> ending == Raised && frames == []
    ensures model in allowedModels && upstream.Answer? ==>
      frames == Frames(id, model, Classified(upstream.lines), upstream.broken)
      && ending == if Completes(Classified(upstream.lines), upstream.broken) then Finished else Raised
  {
    hide Dumps, Parse, Frame, Payload, ReadChunk, Answered, Completes, RecordFrames;
    frames := [];
    if model !in allowedModels || upstream.Unreachable? {
      return frames, Unavailable;
    }
    if upstream.BadStatus? {
      return frames, Raised;
    }
    var raws := upstream.lines;
    ghost var lines := Classified(raws);
    ghost var all, completes := RecordFrames(id, model, Answered(lines)), Completes(lines, upstream.broken);
    assert lines[0..] == lines;
    var i := 0;
    var done := false;
    while i < |raws| && !done
      invariant i <= |raws|
      invariant done ==> completes && frames == all
      invariant !done ==> completes == Completes(lines[i..], upstream.broken)
      invariant !done ==> all == frames + RecordFrames(id, model, Answered(lines[i..]))
    {
      var raw := raws[i];
      NextLine(id, model, lines[i..], upstream.broken);
      assert lines[i..][1..] == lines[i + 1..] && lines[i..][0] == Classify(raw);
      i := i + 1;
      if raw == [] {
        continue;
      }
      var parsed := Parse(raw);
      if parsed.None? {
        continue;
      }
      ParseReadsPrintable(raw);
      var line: Line := ReadChunk(parsed.value);
      if line.Misshapen? {
        return frames, Raised;
      }
      var data := Payload(id, model, line);
      frames := frames + [Frame(Dumps(data))];
      if line.done {
        done := true;
      }
    }
    if !done {
      assert lines[i..] == [];
      NoMoreLines(id, model, upstream.broken);
    }
    if !done && upstream.broken {
      return frames, Raised;
    }
    return frames + [Frame(DONE)], Finished;
  }

  /** What one line adds to the frames. */
  lemma {:induction false} NextLine(id: Text, model: Text, lines: seq<Line>, broken: bool)
    requires lines != []
    ensures var line, fs := lines[0], RecordFrames(id, model, Answered(lines));
            && (line.Misshapen? ==> fs == [] && !Completes(lines, broken))
            && (line.Blank? || line.Malformed? ==>
                  fs == RecordFrames(id, model, Answered(lines[1..])) && Completes(lines, broken) == Completes(lines[1..], broken))
            && (line.Record? && line.done ==> fs == [RecordFrame(id, model, line)] && Completes(lines, broken))
            && (line.Record? && !line.done ==>
                  fs == [RecordFrame(id, model, line)] + RecordFrames(id, model, Answered(lines[1..]))
                  && Completes(lines, broken) == Completes(lines[1..], broken))
  {
    hide RecordFrame;
    var line := lines[0];
    if line.Record? {
      assert [line][1..] == [];
      assert ([line] + Answered(lines[1..]))[1..] == Answered(lines[1..]);
    }
  }

  lemma {:induction false} NoMoreLines(id: Text, model: Text, broken: bool)
    ensures RecordFrames(id, model, Answered([])) == [] && Completes([], broken) == !broken
  {}
}
