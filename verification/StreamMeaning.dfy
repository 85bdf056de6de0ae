/** What the lines of Ollama say, and that the stream carries it: stated on the texts of lines and frames. */
module StreamMeaning {
  import opened Wrappers
  import opened CodeUnits
  import opened JsonText
  import Service = StreamService
  import Client = StreamClient
  import Fidelity = StreamFidelity

  // ---------------------------------------------------------------- what a line says

  /** The last member with the key has this value; a missing key has the default. */
  ghost predicate FieldIs(members: seq<Member>, key: Text, default: Json, v: Json) {
    HasLast(members, key, v) || (HasNone(members, key) && v == default)
  }

  /** An object whose message, an object, has content `v`, and whose end mark and reason are `d` and `r`. */
  ghost predicate Tells(chunk: Json, v: Json, d: Json, r: Json) {
    && chunk.Obj?
    && (exists message :: FieldIs(chunk.members, U("message"), Obj([]), Obj(message)) && FieldIs(message, U("content"), Str([]), v))
    && FieldIs(chunk.members, U("done"), Bool(false), d)
    && FieldIs(chunk.members, U("done_reason"), Null, r)
  }

  ghost predicate Says(raw: Text, v: Json, d: Json, r: Json) {
    raw != [] && Parse(raw).Some? && Tells(Parse(raw).value, v, d, r)
  }

  /** An empty line, or one that is no JSON. */
  predicate Silent(raw: Text) {
    raw == [] || Parse(raw).None?
  }

  /** JSON that is no object, or an object whose message is none. */
  ghost predicate Raises(raw: Text) {
    raw != [] && Parse(raw).Some?
    && (!Parse(raw).value.Obj? || exists m: Json :: !m.Obj? && FieldIs(Parse(raw).value.members, U("message"), Obj([]), m))
  }

  /** Python's truth: everything but null, false, zero and what is empty. */
  lemma {:induction false} PythonTruth(v: Json)
    ensures Service.PythonTruthy(v) <==>
      v !in {Null, Bool(false), Str([]), Arr([]), Obj([])} && (v.Num? ==> Mantissa(v.lexeme) != 0)
  {
    if v.Num? {
      NonZeroIsNotZero(v.lexeme);
    }
  }

  /** JavaScript's truth: everything but null, false, zero and the empty string. */
  lemma {:induction false} JavaScriptTruth(v: Json)
    ensures Client.Truthy(Client.Value(v)) <==> v !in {Null, Bool(false), Str([])} && (v.Num? ==> Mantissa(v.lexeme) != 0)
  {
    if v.Num? {
      NonZeroIsNotZero(v.lexeme);
    }
  }

  lemma {:induction false} FieldFound(members: seq<Member>, key: Text, default: Json, v: Json)
    ensures FieldIs(members, key, default, v) <==> Service.GetOr(members, key, default) == v
  {
    hide Lookup, HasLast, HasNone;
    LookupIsLast(members, key, v);
    LookupIsLast(members, key, Service.GetOr(members, key, default));
  }

  lemma {:induction false} TellingIsReading(chunk: Json, v: Json, d: Json, r: Json)
    ensures Tells(chunk, v, d, r) ==> Service.ReadChunk(chunk) == Service.Record(v, Service.PythonTruthy(d), r)
  {
    hide FieldIs, Service.GetOr, Service.PythonTruthy;
    if Tells(chunk, v, d, r) {
      var message :| FieldIs(chunk.members, U("message"), Obj([]), Obj(message)) && FieldIs(message, U("content"), Str([]), v);
      FieldFound(chunk.members, U("message"), Obj([]), Obj(message));
      FieldFound(message, U("content"), Str([]), v);
      FieldFound(chunk.members, U("done"), Bool(false), d);
      FieldFound(chunk.members, U("done_reason"), Null, r);
    }
  }

  lemma {:induction false} SayingIsReading(raw: Text, v: Json, d: Json, r: Json)
    requires Says(raw, v, d, r)
    ensures Service.Classify(raw) == Service.Record(v, Service.PythonTruthy(d), r)
  {
    hide Parse, Service.ReadChunk, Tells;
    TellingIsReading(Parse(raw).value, v, d, r);
  }

  lemma {:induction false} RaisingIsMisshapen(raw: Text)
    requires Raises(raw)
    ensures Service.Classify(raw).Misshapen?
  {
    hide Parse, FieldIs, Service.GetOr;
    var chunk := Parse(raw).value;
    if chunk.Obj? {
      var m: Json :| !m.Obj? && FieldIs(chunk.members, U("message"), Obj([]), m);
      FieldFound(chunk.members, U("message"), Obj([]), m);
    }
  }

  /** Every line is silent, raises, or says some content, end mark and reason. */
  lemma {:induction false} EveryLine(raw: Text) returns (v: Json, d: Json, r: Json)
    ensures Silent(raw) || Raises(raw) || Says(raw, v, d, r)
  {
    hide Parse, FieldIs, Service.GetOr;
    v, d, r := Null, Null, Null;
    if !Silent(raw) && !Raises(raw) {
      var members := Parse(raw).value.members;
      var m := Service.GetOr(members, U("message"), Obj([]));
      FieldFound(members, U("message"), Obj([]), m);
      v, d, r := Service.GetOr(m.members, U("content"), Str([])), Service.GetOr(members, U("done"), Bool(false)),
                 Service.GetOr(members, U("done_reason"), Null);
      FieldFound(m.members, U("content"), Str([]), v);
      FieldFound(members, U("done"), Bool(false), d);
      FieldFound(members, U("done_reason"), Null, r);
      assert Tells(Parse(raw).value, v, d, r);
    }
  }

  /** A line says what the object says that it prints. */
  lemma {:induction false} PrintedLineSays(chunk: Json, v: Json, d: Json, r: Json)
    requires Printable(chunk) && Tells(chunk, v, d, r)
    ensures Says(Dumps(chunk), v, d, r)
  {
    hide Dumps, Parse, Tells;
    ParseDumps(chunk);
    DumpsHead(chunk);
  }

  // ---------------------------------------------------------------- what a frame carries

  ghost predicate IsCompletionChunk(p: Json, id: Text, model: Text, content: Json, finish: Json) {
    && p.Obj?
    && HasLast(p.members, U("id"), Str(id))
    && HasLast(p.members, U("object"), Str(U("chat.completion.chunk")))
    && HasLast(p.members, U("model"), Str(model))
    && exists choice, delta ::
         && HasLast(p.members, U("choices"), Arr([Obj(choice)]))
         && HasLast(choice, U("index"), Num(U("0")))
         && HasLast(choice, U("finish_reason"), finish)
         && HasLast(choice, U("delta"), Obj(delta))
         && HasLast(delta, U("role"), Str(U("assistant")))
         && HasLast(delta, U("content"), content)
  }

  /** One event: `data: `, a JSON text without newline, and two newlines. */
  ghost predicate Carries(frame: Text, id: Text, model: Text, content: Json, finish: Json) {
    exists data: Text ::
      && frame == U("data: ") + data + [10, 10] && 10 !in data
      && Parse(data).Some? && IsCompletionChunk(Parse(data).value, id, model, content, finish)
  }

  lemma {:induction false} MemberIsLast(members: seq<Member>, i: nat)
    requires i < |members| && forall j :: i < j < |members| ==> members[j].key != members[i].key
    ensures HasLast(members, members[i].key, members[i].value)
  {
    assert LastAt(members, members[i].key, members[i].value, i);
  }

  lemma {:induction false} DeltaHolds(line: Fidelity.Record)
    ensures var delta := Service.Delta(line).members;
            HasLast(delta, U("role"), Str(U("assistant"))) && HasLast(delta, U("content"), line.content)
  {
    hide HasLast;
    var delta := Service.Delta(line);
    assert |U("role")| == 4 && |U("content")| == 7;
    MemberIsLast(delta.members, 0);
    MemberIsLast(delta.members, 1);
  }

  lemma {:induction false} ChoiceHolds(line: Fidelity.Record)
    ensures var choice := Service.Choice(line).members;
            HasLast(choice, U("index"), Num(U("0"))) && HasLast(choice, U("delta"), Service.Delta(line))
            && HasLast(choice, U("finish_reason"), Service.FinishReason(line))
  {
    hide HasLast, Service.Delta, Service.FinishReason;
    var choice := Service.Choice(line);
    assert U("index")[0] == 105 && U("delta")[0] == 100 && U("finish_reason")[0] == 102;
    MemberIsLast(choice.members, 0);
    MemberIsLast(choice.members, 1);
    MemberIsLast(choice.members, 2);
  }

  lemma {:induction false} PayloadHolds(id: Text, model: Text, line: Fidelity.Record)
    ensures var p := Service.Payload(id, model, line).members;
            HasLast(p, U("id"), Str(id)) && HasLast(p, U("object"), Str(U("chat.completion.chunk"))) && HasLast(p, U("model"), Str(model))
            && HasLast(p, U("choices"), Arr([Service.Choice(line)]))
  {
    hide HasLast, Service.Choice;
    var p := Service.Payload(id, model, line);
    assert U("id")[0] == 105 && U("object")[0] == 111 && U("model")[0] == 109 && U("choices")[0] == 99;
    MemberIsLast(p.members, 0);
    MemberIsLast(p.members, 1);
    MemberIsLast(p.members, 2);
    MemberIsLast(p.members, 3);
  }

  lemma {:induction false} PayloadIsChunk(id: Text, model: Text, line: Fidelity.Record)
    ensures IsCompletionChunk(Service.Payload(id, model, line), id, model, line.content, Service.FinishReason(line))
  {
    hide HasLast;
    PayloadHolds(id, model, line);
    ChoiceHolds(line);
    DeltaHolds(line);
  }

  lemma {:induction false} RecordFrameCarries(id: Text, model: Text, line: Fidelity.Record)
    ensures Carries(Service.RecordFrame(id, model, line), id, model, line.content, Service.FinishReason(line))
  {
    hide Parse, Dumps, IsCompletionChunk, Service.Payload;
    var p := Service.Payload(id, model, line);
    Fidelity.PayloadPrintable(id, model, line);
    ParseDumps(p);
    DumpsIsAsciiLine(p);
    PayloadIsChunk(id, model, line);
  }

  // ---------------------------------------------------------------- what the service yields

  /** One frame that carries this, then the others. */
  ghost predicate Yields(frames: seq<Text>, id: Text, model: Text, content: Json, finish: Json, others: seq<Text>) {
    frames != [] && Carries(frames[0], id, model, content, finish) && frames[1..] == others
  }

  /**
    What the service yields for lines of Ollama. A line that says content `v` becomes one frame that
    carries exactly `v`; a truthy end mark ends the stream with [DONE], the frame then carries the
    reason, and otherwise none, and the rest of the lines follows.
   */
  lemma {:induction false} LineBecomesFrame(id: Text, model: Text, raws: seq<Text>, broken: bool, v: Json, d: Json, r: Json)
    requires raws != [] && Says(raws[0], v, d, r)
    ensures var frames, rest := Service.Frames(id, model, Service.Classified(raws), broken), Service.Classified(raws[1..]);
            if Service.PythonTruthy(d) then
              Yields(frames, id, model, v, r, [U("data: [DONE]") + [10, 10]]) && Service.Completes(Service.Classified(raws), broken)
            else
              Yields(frames, id, model, v, Null, Service.Frames(id, model, rest, broken))
              && Service.Completes(Service.Classified(raws), broken) == Service.Completes(rest, broken)
  {
    hide Says, Carries, Service.Classify, Service.RecordFrame, Service.RecordFrames, Service.Answered, Service.Completes, Service.PythonTruthy;
    SayingIsReading(raws[0], v, d, r);
    var lines := Service.Classified(raws);
    ClassifiedFirst(raws);
    RecordFrameCarries(id, model, lines[0]);
    Service.NextLine(id, model, lines, broken);
    assert U("data: [DONE]") == U("data: ") + U("[DONE]");
  }

  /** Silent lines yield nothing; a line that raises ends the stream without [DONE], and so does a broken connection. */
  lemma {:induction false} OtherLines(id: Text, model: Text, raws: seq<Text>, broken: bool)
    ensures var frames, completes := Service.Frames(id, model, Service.Classified(raws), broken), Service.Completes(Service.Classified(raws), broken);
            && (raws == [] ==> frames == (if broken then [] else [U("data: [DONE]") + [10, 10]]) && completes == !broken)
            && (raws != [] && Raises(raws[0]) ==> frames == [] && !completes)
            && (raws != [] && Silent(raws[0]) ==>
                  frames == Service.Frames(id, model, Service.Classified(raws[1..]), broken)
                  && completes == Service.Completes(Service.Classified(raws[1..]), broken))
  {
    hide Raises, Parse, Service.RecordFrame;
    var lines := Service.Classified(raws);
    assert U("data: [DONE]") == U("data: ") + U("[DONE]");
    if raws != [] {
      assert lines[0] == Service.Classify(raws[0]) && lines[1..] == Service.Classified(raws[1..]);
      Service.NextLine(id, model, lines, broken);
      if Raises(raws[0]) {
        RaisingIsMisshapen(raws[0]);
      }
    } else {
      Service.NoMoreLines(id, model, broken);
    }
  }

  // ---------------------------------------------------------------- the contents of an answer

  /** The contents that the lines say, in order, up to the first end mark or before a line that raises. */
  ghost predicate Tell(raws: seq<Text>, contents: seq<Json>)
    decreases |raws|
  {
    if raws == [] then contents == []
    else if Silent(raws[0]) then Tell(raws[1..], contents)
    else
      (Raises(raws[0]) && contents == [])
      || exists v, d, r :: Says(raws[0], v, d, r)
           && if Service.PythonTruthy(d) then contents == [v] else contents != [] && contents[0] == v && Tell(raws[1..], contents[1..])
  }

  /** Reading ends well: at an end mark, or at the end of an unbroken answer, and before any line that raises. */
  ghost predicate EndsWell(raws: seq<Text>, broken: bool)
    decreases |raws|
  {
    if raws == [] then !broken
    else if Silent(raws[0]) then EndsWell(raws[1..], broken)
    else exists v, d, r :: Says(raws[0], v, d, r) && (Service.PythonTruthy(d) || EndsWell(raws[1..], broken))
  }

  function ContentsOf(rs: seq<Service.Line>): (vs: seq<Json>)
    requires forall i :: 0 <= i < |rs| ==> rs[i].Record?
    ensures |vs| == |rs| && forall i :: 0 <= i < |rs| ==> vs[i] == rs[i].content
  {
    seq(|rs|, i requires 0 <= i < |rs| => rs[i].content)
  }

  lemma {:induction false} ClassifiedFirst(raws: seq<Text>)
    requires raws != []
    ensures Service.Classified(raws)[0] == Service.Classify(raws[0])
    ensures Service.Classified(raws)[1..] == Service.Classified(raws[1..])
  {
    hide Service.Classify;
  }

  /** The contents of the usable lines are those told, and no others. */
  lemma {:induction false} AnswerTells(raws: seq<Text>, contents: seq<Json>)
    ensures Tell(raws, contents) <==> contents == ContentsOf(Service.Answered(Service.Classified(raws)))
    decreases |raws|
  {
    hide Says, Raises, Parse, Service.Classify;
    if raws != [] {
      var lines, rest := Service.Classified(raws), raws[1..];
      ClassifiedFirst(raws);
      var told := ContentsOf(Service.Answered(lines));
      if Silent(raws[0]) {
        SilentIsSkipped(raws[0]);
        AnswerTells(rest, contents);
      } else {
        ReadingIsOne(raws[0]);
        if Raises(raws[0]) {
          RaisingIsMisshapen(raws[0]);
        } else {
          var v, d, r := EveryLine(raws[0]);
          SayingIsReading(raws[0], v, d, r);
          if contents != [] {
            AnswerTells(rest, contents[1..]);
          }
          var more := ContentsOf(Service.Answered(Service.Classified(rest)));
          assert told == [v] + if Service.PythonTruthy(d) then [] else more;
          if Tell(raws, contents) {
            var v', d', r' :| Says(raws[0], v', d', r')
              && if Service.PythonTruthy(d') then contents == [v'] else contents != [] && contents[0] == v' && Tell(rest, contents[1..]);
            SayingIsReading(raws[0], v', d', r');
            assert contents == [contents[0]] + contents[1..];
          }
        }
      }
    }
  }

  lemma {:induction false} SilentIsSkipped(raw: Text)
    requires Silent(raw)
    ensures Service.Classify(raw).Blank? || Service.Classify(raw).Malformed?
  {
    hide Parse;
  }

  /** A line that raises says nothing. */
  lemma {:induction false} ReadingIsOne(raw: Text)
    ensures Raises(raw) ==> forall v, d, r :: !Says(raw, v, d, r)
  {
    hide Says, Raises;
    if Raises(raw) {
      RaisingIsMisshapen(raw);
      forall v, d, r ensures !Says(raw, v, d, r) {
        if Says(raw, v, d, r) {
          SayingIsReading(raw, v, d, r);
        }
      }
    }
  }

  lemma {:induction false} EndingIsCompleting(raws: seq<Text>, broken: bool)
    ensures EndsWell(raws, broken) <==> Service.Completes(Service.Classified(raws), broken)
    decreases |raws|
  {
    hide Says, Raises, Parse, Service.Classify;
    if raws != [] {
      ClassifiedFirst(raws);
      EndingIsCompleting(raws[1..], broken);
      if Silent(raws[0]) {
        SilentIsSkipped(raws[0]);
      } else {
        ReadingIsOne(raws[0]);
        if Raises(raws[0]) {
          RaisingIsMisshapen(raws[0]);
        } else {
          var v, d, r := EveryLine(raws[0]);
          SayingIsReading(raws[0], v, d, r);
          forall v', d', r' | Says(raws[0], v', d', r') ensures Service.PythonTruthy(d') == Service.PythonTruthy(d) {
            SayingIsReading(raws[0], v', d', r');
          }
        }
      }
    }
  }

  /** The truthy contents one after the other: strings as they are, other values as `convert` says. */
  function Spoken(contents: seq<Json>, convert: Json -> Text): Text {
    if contents == [] then []
    else (if Client.Truthy(Client.Value(contents[0])) then Fidelity.Shown(contents[0], convert) else []) + Spoken(contents[1..], convert)
  }

  lemma {:induction false} SaidIsSpoken(rs: seq<Fidelity.Record>, contents: seq<Json>, convert: Json -> Text)
    requires contents == ContentsOf(rs)
    ensures Fidelity.Said(rs, convert) == Spoken(contents, convert)
  {
    if rs != [] {
      assert contents[1..] == ContentsOf(rs[1..]);
      SaidIsSpoken(rs[1..], contents[1..], convert);
    }
  }

  /** An answer in strings speaks their concatenation. */
  lemma {:induction false} StringsAreSpoken(texts: seq<Text>, contents: seq<Json>, convert: Json -> Text)
    requires |contents| == |texts| && forall i :: 0 <= i < |texts| ==> contents[i] == Str(texts[i])
    ensures Spoken(contents, convert) == Concat(texts)
  {
    if texts != [] {
      StringsAreSpoken(texts[1..], contents[1..], convert);
    }
  }

  /**
    End-to-end fidelity on texts: for every answer of Ollama and every way of cutting the wire, the
    client calls onChunk with the truthy contents its lines tell, in order, and then makes its one
    terminal call, onDone whenever reading ended well.
   */
  lemma {:induction false} ToldIsCalled(
    id: Text, model: Text, raws: seq<Text>, contents: seq<Json>, broken: bool, chunks: seq<Text>, ending: Client.Ending)
    requires Tell(raws, contents)
    requires Concat(chunks) == Concat(Service.Frames(id, model, Service.Classified(raws), broken))
    ensures Client.ResponseEvents(Client.Stream(chunks, ending))
            == Calls(contents) + [if EndsWell(raws, broken) then Client.Done else Client.Terminal(ending)]
  {
    hide Tell, EndsWell, Calls, Service.Frames, Service.Answered, Service.Classified, Service.Completes, Client.ResponseEvents;
    var lines := Service.Classified(raws);
    AnswerTells(raws, contents);
    EndingIsCompleting(raws, broken);
    CallsAreContents(Service.Answered(lines), contents);
    Fidelity.StreamFidelity(id, model, lines, broken, chunks, ending);
  }

  function Calls(contents: seq<Json>): seq<Client.Event> {
    if contents == [] then []
    else (if Client.Truthy(Client.Value(contents[0])) then [Client.Chunk(contents[0])] else []) + Calls(contents[1..])
  }

  lemma {:induction false} CallsAreContents(rs: seq<Fidelity.Record>, contents: seq<Json>)
    requires contents == ContentsOf(rs)
    ensures Fidelity.Contents(rs) == Calls(contents)
  {
    if rs != [] {
      assert contents[1..] == ContentsOf(rs[1..]);
      CallsAreContents(rs[1..], contents[1..]);
    }
  }

  // ---------------------------------------------------------------- what the client reads

  /** `choices[0].delta.content` of the payload is `v`; choices may be a list or an object with the key 0. */
  ghost predicate HasContent(chunk: Json, v: Json) {
    chunk.Obj? && exists choices, first, delta ::
      && HasLast(chunk.members, U("choices"), choices)
      && ((choices.Arr? && choices.items != [] && choices.items[0] == Obj(first)) || (choices.Obj? && HasLast(choices.members, U("0"), Obj(first))))
      && HasLast(first, U("delta"), Obj(delta)) && HasLast(delta, U("content"), v)
  }

  lemma {:induction false} PropertyIsLast(members: seq<Member>, key: Text, v: Json)
    ensures Client.Property(Client.Value(Obj(members)), key) == Some(Client.Value(v)) <==> HasLast(members, key, v)
  {
    hide Lookup, HasLast;
    LookupIsLast(members, key, v);
  }

  /** A truthy content is handed over exactly when the payload is JSON that has it at its place. */
  lemma {:induction false} EmittedExactly(data: Text, v: Json)
    ensures Client.Emitted(data) == Some(v)
            <==> Parse(data).Some? && HasContent(Parse(data).value, v) && Client.Truthy(Client.Value(v))
  {
    hide Parse, HasLast, Lookup, Client.Truthy;
    if Parse(data).Some? {
      ContentIsAtItsPlace(Parse(data).value, v);
    }
  }

  /** Only an object has a value under a key other than 0. */
  lemma {:induction false} PropertyOfObject(v: Client.JsValue, key: Text, w: Json)
    requires Client.Property(v, key) == Some(Client.Value(w)) && key != U("0")
    ensures v.Value? && v.json.Obj? && HasLast(v.json.members, key, w)
  {
    hide HasLast, Lookup;
    if v.Value? && v.json.Obj? {
      LookupIsLast(v.json.members, key, w);
    }
  }

  lemma {:induction false} PlaceIsFound(chunk: Json, v: Json)
    requires Client.ContentOf(chunk) == Some(Client.Value(v))
    ensures HasContent(chunk, v)
  {
    hide HasLast, Lookup, Client.Property;
    assert U("choices")[0] == 99 && U("delta")[0] == 100 && U("content")[0] == 99 && U("0")[0] == 48;
    var choices := Client.Property(Client.Value(chunk), U("choices")).value;
    var first := Client.Property(choices, U("0")).value;
    var delta := Client.Property(first, U("delta")).value;
    PropertyOfObject(delta, U("content"), v);
    PropertyOfObject(first, U("delta"), delta.json);
    FirstChoice(choices, first.json);
    PropertyOfObject(Client.Value(chunk), U("choices"), choices.json);
  }

  lemma {:induction false} FirstChoice(choices: Client.JsValue, first: Json)
    requires Client.Property(choices, U("0")) == Some(Client.Value(first)) && first.Obj?
    ensures choices.Value?
    ensures (choices.json.Arr? && choices.json.items != [] && choices.json.items[0] == first)
            || (choices.json.Obj? && HasLast(choices.json.members, U("0"), first))
  {
    hide HasLast, Lookup;
    if choices.Value? && choices.json.Obj? {
      LookupIsLast(choices.json.members, U("0"), first);
    }
  }

  lemma {:induction false} ContentIsAtItsPlace(chunk: Json, v: Json)
    ensures Client.ContentOf(chunk) == Some(Client.Value(v)) <==> HasContent(chunk, v)
  {
    hide HasLast, Lookup;
    if HasContent(chunk, v) {
      var choices, first, delta :|
        && HasLast(chunk.members, U("choices"), choices)
        && ((choices.Arr? && choices.items != [] && choices.items[0] == Obj(first)) || (choices.Obj? && HasLast(choices.members, U("0"), Obj(first))))
        && HasLast(first, U("delta"), Obj(delta)) && HasLast(delta, U("content"), v);
      PropertyIsLast(chunk.members, U("choices"), choices);
      if choices.Obj? {
        PropertyIsLast(choices.members, U("0"), Obj(first));
      }
      PropertyIsLast(first, U("delta"), Obj(delta));
      PropertyIsLast(delta, U("content"), v);
    }
    if Client.ContentOf(chunk) == Some(Client.Value(v)) {
      PlaceIsFound(chunk, v);
    }
  }

  // ---------------------------------------------------------------- which lines the client heeds

  /** The line is white space, `data: `, `data` between white space, and white space. */
  ghost predicate IsDataLine(raw: Text, data: Text) {
    data != [] && Bare(data)
    && exists a, b, c :: AllSpace(a) && AllSpace(b) && AllSpace(c) && raw == a + (U("data: ") + b + data) + c
  }

  lemma {:induction false} DataLineIsRead(raw: Text, data: Text)
    requires IsDataLine(raw, data)
    ensures Client.ReadLine(raw) == Client.ReadData(data)
  {
    hide Trim, Client.ReadData, IsSpace;
    DataLineTrims(raw, data);
  }

  lemma {:induction false} SpaceIsNoLetter()
    ensures !IsSpace(100) && IsSpace(32)
  {}

  lemma {:induction false} RestIsNotSpace(line: Text, rest: Text)
    requires Bare(line) && line == U("data: ") + rest
    ensures rest != [] && !IsSpace(rest[|rest| - 1])
  {
    SpaceIsNoLetter();
    var last := line[|line| - 1];
    assert last == if rest == [] then 32 else rest[|rest| - 1];
  }

  lemma {:induction false} SpaceAtEnd(front: Text, tail: Text)
    requires AllSpace(tail) && tail != []
    ensures IsSpace((front + tail)[|front + tail| - 1])
  {}

  /**
    The client heeds data lines only: one with [DONE] stops it, one whose payload has a truthy
    content hands that over, every other line is skipped.
   */
  lemma {:induction false} LineIsHeeded(raw: Text)
    ensures Client.ReadLine(raw).Stop? <==> IsDataLine(raw, U("[DONE]"))
    ensures forall v :: (Client.ReadLine(raw) == Client.Emit(v)
                         <==> exists data :: IsDataLine(raw, data) && data != U("[DONE]") && Hands(data, v))
  {
    hide Client.ReadLine, IsDataLine, Hands, Bare;
    if data :| IsDataLine(raw, data) {
      DataLineIsRead(raw, data);
      forall other | IsDataLine(raw, other) ensures other == data {
        OneDataLine(raw, data, other);
      }
      forall v ensures Client.ReadData(data) == Client.Emit(v) <==> data != U("[DONE]") && Hands(data, v) {
        DataHands(data, v);
      }
    } else {
      if Client.ReadLine(raw) != Client.Skip {
        ReadIsDataLine(raw);
      }
    }
  }

  /** The payload is JSON whose content at its place is `v`, which is truthy. */
  ghost predicate Hands(data: Text, v: Json) {
    Parse(data).Some? && HasContent(Parse(data).value, v) && Client.Truthy(Client.Value(v))
  }

  lemma {:induction false} DataHands(data: Text, v: Json)
    ensures Client.ReadData(data) == Client.Emit(v) <==> data != U("[DONE]") && Hands(data, v)
  {
    hide Parse, HasContent, Client.Truthy, Client.Emitted;
    EmittedExactly(data, v);
  }

  lemma {:induction false} OneDataLine(raw: Text, data: Text, other: Text)
    requires IsDataLine(raw, data) && IsDataLine(raw, other)
    ensures data == other
  {
    hide Trim, IsSpace;
    DataLineTrims(raw, data);
    DataLineTrims(raw, other);
  }

  lemma {:induction false} DataLineTrims(raw: Text, data: Text)
    requires IsDataLine(raw, data)
    ensures U("data: ") <= Trim(raw) && Trim(Trim(raw)[6..]) == data
  {
    hide Trim, IsSpace;
    var a, b, c :| AllSpace(a) && AllSpace(b) && AllSpace(c) && raw == a + (U("data: ") + b + data) + c;
    var line := U("data: ") + b + data;
    assert line[0] == 100 && line[|line| - 1] == data[|data| - 1] && !IsSpace(100) by { SpaceIsNoLetter(); }
    TrimIs(a, line, c);
    assert line[..6] == U("data: ") && line[6..] == b + data + [];
    TrimIs(b, data, []);
  }

  lemma {:induction false} ReadIsDataLine(raw: Text)
    requires Client.ReadLine(raw) != Client.Skip
    ensures exists data :: IsDataLine(raw, data)
  {
    hide Trim, Client.ReadData, IsSpace, Bare;
    var a, c := TrimParts(raw);
    var line := Trim(raw);
    var b, e := TrimParts(line[6..]);
    var data := Trim(line[6..]);
    var rest := b + data + e;
    assert line == U("data: ") + rest;
    RestIsNotSpace(line, rest);
    assert rest == (b + data) + e && (e == [] && data == [] ==> rest == [] + b);
    if e != [] {
      SpaceAtEnd(b + data, e);
    } else if data == [] {
      SpaceAtEnd([], b);
    }
    assert b + data + e == b + data;
    assert raw == a + (U("data: ") + b + data) + c;
    assert IsDataLine(raw, data);
  }

  /** The lines that a newline ended, and the unfinished rest: joined they are the text, and none holds a newline. */
  lemma {:induction false} LinesRejoin(text: Text)
    ensures JoinLines(Client.Lines(text) + [Client.Rest(text)]) == text && 10 !in Client.Rest(text)
    ensures forall i :: 0 <= i < |Client.Lines(text)| ==> 10 !in Client.Lines(text)[i]
    decreases |text|
  {
    hide Client.Lines, Client.Rest;
    var k := Client.Newline(text);
    Client.LinesStep(text);
    if k >= 0 {
      var more := text[k + 1..];
      LinesRejoin(more);
      assert text == text[..k] + [10] + more;
      var parts := Client.Lines(more) + [Client.Rest(more)];
      assert Client.Lines(text) + [Client.Rest(text)] == [text[..k]] + parts;
      assert ([text[..k]] + parts)[1..] == parts;
    }
  }

  ghost predicate HasDone(lines: seq<Text>) {
    exists i :: 0 <= i < |lines| && IsDataLine(lines[i], U("[DONE]"))
  }

  /** The last call is onError exactly when the connection failed before any [DONE] line, and brings its message. */
  lemma {:induction false} LastCall(chunks: seq<Text>, ending: Client.Ending)
    ensures var events, lines := Client.ResponseEvents(Client.Stream(chunks, ending)), Client.Lines(Concat(chunks));
            && events != []
            && events[|events| - 1]
               == match ending
                  case Failed(message) =>
                    if HasDone(lines) then Client.Done else Client.Error(message)
                  case _ => Client.Done
  {
    hide Client.Lines, Client.Chunks, Client.Stops, Concat, HasDone;
    var lines := Client.Lines(Concat(chunks));
    StopsExactly(lines);
    var calls, last := Client.Chunks(lines), if Client.Stops(lines) then Client.Done else Client.Terminal(ending);
    assert Client.ResponseEvents(Client.Stream(chunks, ending)) == calls + [last];
  }

  lemma {:induction false} StopsExactly(lines: seq<Text>)
    ensures Client.Stops(lines) <==> HasDone(lines)
  {
    hide IsDataLine, Client.ReadLine;
    if lines != [] {
      LineIsHeeded(lines[0]);
      StopsExactly(lines[1..]);
      assert forall i :: 0 < i < |lines| ==> lines[i] == lines[1..][i - 1];
      if i :| 0 <= i < |lines[1..]| && IsDataLine(lines[1..][i], U("[DONE]")) {
        assert IsDataLine(lines[i + 1], U("[DONE]"));
      }
    }
  }
}
