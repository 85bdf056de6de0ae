/** The service and the client of the stream, end to end. */
module StreamFidelity {
  import opened Wrappers
  import opened CodeUnits
  import opened JsonText
  import Service = StreamService
  import opened StreamClient

  type Record = r: Service.Line | r.Record? witness Service.Record(Null, false, Null)

  /** The chunks the client should see: the contents that are not falsy, in order. */
  function Contents(rs: seq<Record>): seq<Event> {
    if rs == [] then []
    else (if Truthy(Value(rs[0].content)) then [Chunk(rs[0].content)] else []) + Contents(rs[1..])
  }

  // ---------------------------------------------------------------- one frame

  lemma {:induction false} MembersPrintable(members: seq<Member>)
    requires |members| <= 4
    requires |members| > 0 ==> Printable(members[0].value)
    requires |members| > 1 ==> Printable(members[1].value)
    requires |members| > 2 ==> Printable(members[2].value)
    requires |members| > 3 ==> Printable(members[3].value)
    ensures Printable(Obj(members))
  {}

  lemma {:induction false} PayloadPrintable(id: Text, model: Text, r: Record)
    ensures Printable(Service.Payload(id, model, r))
  {
    assert DigitRun(U("0")[1..]) == 0;
    assert IsNumber(U("0"));
    MembersPrintable(Service.Delta(r).members);
    MembersPrintable(Service.Choice(r).members);
    assert Printable(Arr([Service.Choice(r)]));
    MembersPrintable(Service.Payload(id, model, r).members);
  }

  lemma {:induction false} LookupLast(before: seq<Member>, m: Member)
    ensures Lookup(before + [m], m.key) == Some(m.value)
    ensures forall key :: key != m.key ==> Lookup(before + [m], key) == Lookup(before, key)
  {
    var all := before + [m];
    assert all[..|all| - 1] == before;
  }

  lemma {:induction false} PayloadContent(id: Text, model: Text, r: Record)
    ensures ContentOf(Service.Payload(id, model, r)) == Some(Value(r.content))
  {
    hide Lookup;
    var p, c, d := Service.Payload(id, model, r), Service.Choice(r), Service.Delta(r);
    assert p.members == p.members[..3] + [p.members[3]];
    LookupLast(p.members[..3], p.members[3]);
    assert U("choices") != U("0") && U("delta") != U("finish_reason");
    assert c.members == c.members[..2] + [c.members[2]];
    LookupLast(c.members[..2], c.members[2]);
    assert c.members[..2] == c.members[..1] + [c.members[1]];
    LookupLast(c.members[..1], c.members[1]);
    assert d.members == d.members[..1] + [d.members[1]];
    LookupLast(d.members[..1], d.members[1]);
  }

  /** A data line whose payload is printable ASCII without outer spaces reaches the reader as it was sent. */
  lemma {:induction false} DataLine(data: Text)
    requires data != [] && AsciiLine(data) && data[0] != 32 && data[|data| - 1] != 32
    ensures ReadLine(DATA + data) == ReadData(data)
  {
    hide ReadData, Trim;
    var line := DATA + data;
    assert line[0] == 100 && line[|line| - 1] == data[|data| - 1];
    TrimIdle(line);
    TrimIdle(data);
    assert line[..|DATA|] == DATA && line[|DATA|..] == data;
  }

  lemma {:induction false} RecordLine(id: Text, model: Text, r: Record)
    ensures ReadLine(DATA + Dumps(Service.Payload(id, model, r)))
            == if Truthy(Value(r.content)) then Emit(r.content) else Skip
  {
    hide Trim, ContentOf, Parse;
    var p := Service.Payload(id, model, r);
    var data := Dumps(p);
    PayloadPrintable(id, model, r);
    DumpsIsAsciiLine(p);
    ParseDumps(p);
    PayloadContent(id, model, r);
    assert data[0] == OPENOBJ && data[|data| - 1] == CLOSEOBJ;
    assert U("[DONE]")[0] == OPENARR;
    DataLine(data);
  }

  lemma {:induction false} DoneLine()
    ensures ReadLine(DATA + Service.DONE) == Stop
  {
    assert AsciiLine(Service.DONE);
    DataLine(Service.DONE);
  }

  lemma {:induction false} EmptyLine()
    ensures ReadLine([]) == Skip
  {}

  lemma {:induction false} NewlineAt(line: Text, more: Text)
    requires NEWLINE !in line
    ensures Newline(line + [NEWLINE] + more) == |line|
  {
    var t := line + [NEWLINE] + more;
    assert t[|line|] == NEWLINE && t[..|line|] == line;
  }

  /** A frame is two complete lines: the data line and an empty one. */
  lemma {:induction false} FrameLines(data: Text, more: Text)
    requires AsciiLine(data)
    ensures Lines(Service.Frame(data) + more) == [DATA + data, []] + Lines(more)
    ensures Rest(Service.Frame(data) + more) == Rest(more)
  {
    hide Newline, Lines, Rest;
    var line := DATA + data;
    var t := Service.Frame(data) + more;
    var u := [NEWLINE] + more;
    assert t == line + [NEWLINE] + u && u == [] + [NEWLINE] + more;
    NewlineAt(line, u);
    LinesStep(t);
    assert t[..|line|] == line && t[|line| + 1..] == u;
    NewlineAt([], more);
    LinesStep(u);
    assert u[..0] == [] && u[1..] == more;
    assert [line] + ([[]] + Lines(more)) == [line, []] + Lines(more);
  }

  /** Reading a frame is reading its data line. */
  lemma {:induction false} FrameRead(data: Text, more: Text)
    requires AsciiLine(data)
    ensures var lines, r := Lines(Service.Frame(data) + more), ReadLine(DATA + data);
            if r.Stop? then Stops(lines) && Chunks(lines) == []
            else (Stops(lines) <==> Stops(Lines(more)))
                 && Chunks(lines) == (if r.Emit? then [Chunk(r.content)] else []) + Chunks(Lines(more))
  {
    hide ReadLine, Lines;
    FrameLines(data, more);
    EmptyLine();
    var lines := [DATA + data, []] + Lines(more);
    assert lines[1..] == [[]] + Lines(more) && lines[1..][1..] == Lines(more);
    assert Chunks(lines[1..]) == Chunks(Lines(more));
  }

  // ---------------------------------------------------------------- a whole stream

  lemma {:induction false} RecordFramesRead(id: Text, model: Text, rs: seq<Record>, more: Text)
    ensures var lines := Lines(Concat(Service.RecordFrames(id, model, rs)) + more);
            (Stops(lines) <==> Stops(Lines(more))) && Chunks(lines) == Contents(rs) + Chunks(Lines(more))
  {
    hide ReadLine, Lines, Stops, Chunks, Dumps, Service.Payload, Service.Frame;
    if rs == [] {
      assert Concat(Service.RecordFrames(id, model, rs)) + more == more;
      assert Contents(rs) + Chunks(Lines(more)) == Chunks(Lines(more));
    } else {
      var data := Dumps(Service.Payload(id, model, rs[0]));
      var tail := Concat(Service.RecordFrames(id, model, rs[1..])) + more;
      assert Concat(Service.RecordFrames(id, model, rs)) + more == Service.Frame(data) + tail;
      PayloadPrintable(id, model, rs[0]);
      DumpsIsAsciiLine(Service.Payload(id, model, rs[0]));
      FrameRead(data, tail);
      RecordLine(id, model, rs[0]);
      RecordFramesRead(id, model, rs[1..], more);
    }
  }

  /** Everything the client reads in everything the service yields. */
  lemma {:induction false} WireRead(id: Text, model: Text, lines: seq<Service.Line>, broken: bool)
    ensures var read := Lines(Concat(Service.Frames(id, model, lines, broken)));
            Chunks(read) == Contents(Service.Answered(lines))
            && (Stops(read) <==> Service.Completes(lines, broken))
  {
    hide ReadLine, Lines, Dumps, Service.Payload, Service.Frame;
    var rs := Service.Answered(lines);
    var frames, end := Service.RecordFrames(id, model, rs), if Service.Completes(lines, broken) then [Service.Frame(Service.DONE)] else [];
    ConcatSplits(frames, end);
    RecordFramesRead(id, model, rs, Concat(end));
    LinesStep([]);
    if end == [] {
      assert Concat(end) == [];
    } else {
      assert Concat(end[1..]) == [];
      assert Concat(end) == Service.Frame(Service.DONE) + [];
      assert AsciiLine(Service.DONE);
      FrameRead(Service.DONE, []);
      DoneLine();
    }
  }

  /**
    End-to-end fidelity: for every answer of Ollama and every way of cutting the wire text into
    network chunks, the client calls onChunk with the truthy contents of the usable lines up to
    the first that is done, in order, and then makes its one terminal call, onDone whenever the
    service finished.
   */
  lemma {:induction false} StreamFidelity(id: Text, model: Text, lines: seq<Service.Line>, broken: bool, chunks: seq<Text>, ending: Ending)
    requires Concat(chunks) == Concat(Service.Frames(id, model, lines, broken))
    ensures ResponseEvents(Stream(chunks, ending))
            == Contents(Service.Answered(lines)) + [if Service.Completes(lines, broken) then Done else Terminal(ending)]
  {
    hide Lines, Chunks, Stops, Service.Frames, Service.Answered, Service.Completes;
    WireRead(id, model, lines, broken);
  }

  /** If the stream is cut anywhere, the client has seen a prefix of those chunks when it makes its terminal call. */
  lemma {:induction false} CutStreamFidelity(id: Text, model: Text, lines: seq<Service.Line>, broken: bool, chunks: seq<Text>, ending: Ending)
    requires Concat(chunks) <= Concat(Service.Frames(id, model, lines, broken))
    ensures var events := ResponseEvents(Stream(chunks, ending));
            events != [] && events[..|events| - 1] <= Contents(Service.Answered(lines))
            && events[|events| - 1] in {Done, Terminal(ending)}
  {
    hide Lines, Chunks, Stops, Service.Frames, Service.Answered, Service.Completes;
    WireRead(id, model, lines, broken);
    var cut := Lines(Concat(chunks));
    CutEmitsPrefix(Concat(chunks), Concat(Service.Frames(id, model, lines, broken)));
    var last := if Stops(cut) then Done else Terminal(ending);
    assert (Chunks(cut) + [last])[..|Chunks(cut)|] == Chunks(cut);
  }

  // ---------------------------------------------------------------- what a listener hears

  /**
    What appending a content to a string adds: a string itself, any other value as JavaScript
    converts it, which `convert` says. A conversion that throws adds nothing: the reader catches it.
   */
  function Shown(content: Json, convert: Json -> Text): Text {
    if content.Str? then content.s else convert(content)
  }

  /** What each chunk adds. */
  function Texts(events: seq<Event>, convert: Json -> Text): seq<Text> {
    if events == [] then []
    else (if events[0].Chunk? then [Shown(events[0].content, convert)] else []) + Texts(events[1..], convert)
  }

  /** The text a listener accumulates. */
  function Heard(events: seq<Event>, convert: Json -> Text): Text {
    Concat(Texts(events, convert))
  }

  /** The truthy contents, one after the other. */
  function Said(rs: seq<Record>, convert: Json -> Text): Text {
    if rs == [] then []
    else (if Truthy(Value(rs[0].content)) then Shown(rs[0].content, convert) else []) + Said(rs[1..], convert)
  }

  lemma {:induction false} TextsSplit(a: seq<Event>, b: seq<Event>, convert: Json -> Text)
    ensures Texts(a + b, convert) == Texts(a, convert) + Texts(b, convert)
    ensures Heard(a + b, convert) == Heard(a, convert) + Heard(b, convert)
  {
    if a == [] {
      assert a + b == b;
    } else {
      assert (a + b)[1..] == a[1..] + b;
      TextsSplit(a[1..], b, convert);
    }
    ConcatSplits(Texts(a, convert), Texts(b, convert));
  }

  lemma {:induction false} HeardOne(e: Event, convert: Json -> Text)
    ensures Heard([e], convert) == if e.Chunk? then Shown(e.content, convert) else []
  {
    assert [e][1..] == [] && Texts([], convert) == [];
    if e.Chunk? {
      var text := Shown(e.content, convert);
      assert Texts([e], convert) == [text];
      assert Concat([text][1..]) == [];
    }
  }

  lemma {:induction false} ContentsHeard(rs: seq<Record>, convert: Json -> Text)
    ensures Heard(Contents(rs), convert) == Said(rs, convert)
  {
    hide Heard, Shown, Truthy;
    if rs == [] {
      HeardNothing(convert);
    } else {
      ContentsHeard(rs[1..], convert);
      var e := Chunk(rs[0].content);
      assert [] + Contents(rs[1..]) == Contents(rs[1..]);
      assert [] + Said(rs[1..], convert) == Said(rs[1..], convert);
      HeardOne(e, convert);
      TextsSplit([e], Contents(rs[1..]), convert);
    }
  }

  lemma {:induction false} HeardNothing(convert: Json -> Text)
    ensures Heard([], convert) == []
  {}

  /** What is heard is what was said: the concatenated texts agree, however contents that are no strings are converted. */
  lemma {:induction false} HeardIsSaid(
    id: Text, model: Text, lines: seq<Service.Line>, broken: bool, chunks: seq<Text>, ending: Ending, convert: Json -> Text)
    requires Concat(chunks) == Concat(Service.Frames(id, model, lines, broken))
    ensures Heard(ResponseEvents(Stream(chunks, ending)), convert) == Said(Service.Answered(lines), convert)
  {
    hide Heard, Contents, Said, Service.Answered, Service.Completes, ResponseEvents;
    StreamFidelity(id, model, lines, broken, chunks, ending);
    var last := if Service.Completes(lines, broken) then Done else Terminal(ending);
    ContentsHeard(Service.Answered(lines), convert);
    HeardOne(last, convert);
    TextsSplit(Contents(Service.Answered(lines)), [last], convert);
  }

  predicate WireUnit(u: CodeUnit) {
    u == NEWLINE || 32 <= u <= 126
  }

  lemma {:induction false} ConcatKeeps(parts: seq<Text>)
    requires forall p :: p in parts ==> forall i :: 0 <= i < |p| ==> WireUnit(p[i])
    ensures forall i :: 0 <= i < |Concat(parts)| ==> WireUnit(Concat(parts)[i])
  {
    if parts != [] {
      assert parts[0] in parts;
      ConcatKeeps(parts[1..]);
    }
  }

  lemma {:induction false} RecordFramesAscii(id: Text, model: Text, rs: seq<Record>)
    ensures forall p :: p in Service.RecordFrames(id, model, rs) ==> forall i :: 0 <= i < |p| ==> WireUnit(p[i])
  {
    hide Dumps, Service.Payload;
    if rs != [] {
      PayloadPrintable(id, model, rs[0]);
      DumpsIsAsciiLine(Service.Payload(id, model, rs[0]));
      RecordFramesAscii(id, model, rs[1..]);
    }
  }

  /** The wire text is printable ASCII and newlines, so each byte decodes to one code unit wherever the network cuts. */
  lemma {:induction false} WireIsAscii(id: Text, model: Text, lines: seq<Service.Line>, broken: bool)
    ensures var wire := Concat(Service.Frames(id, model, lines, broken));
            forall i :: 0 <= i < |wire| ==> WireUnit(wire[i])
  {
    hide Dumps, Service.Payload, Service.Answered, Service.Completes, Service.RecordFrames, Concat;
    RecordFramesAscii(id, model, Service.Answered(lines));
    ConcatKeeps(Service.Frames(id, model, lines, broken));
  }
}
