/** From a line of Ollama to a message in the store. */
module EndToEnd {
  import opened Wrappers
  import opened CodeUnits
  import opened JsonText
  import Service = StreamService
  import Client = StreamClient
  import Fidelity = StreamFidelity
  import opened ChatState
  import opened ChatTheorems
  import opened StreamMeaning

  /** What the onChunk calls of a run add to the display, in order. */
  function ChunkTexts(steps: seq<Step>): seq<Text> {
    if steps == [] then []
    else (if steps[0].StepChunk? then [steps[0].chunk] else []) + ChunkTexts(steps[1..])
  }

  lemma {:induction false} ChunkTextsHeard(steps: seq<Step>)
    ensures Concat(ChunkTexts(steps)) == Heard(steps)
  {
    if steps != [] {
      ChunkTextsHeard(steps[1..]);
      if steps[0].StepChunk? {
        assert ChunkTexts(steps)[1..] == ChunkTexts(steps[1..]);
      } else {
        assert [] + ChunkTexts(steps[1..]) == ChunkTexts(steps[1..]);
        assert [] + Heard(steps[1..]) == Heard(steps[1..]);
      }
    }
  }

  lemma {:induction false} CallsHeard(steps: seq<Step>, events: seq<Client.Event>, convert: Json -> Text)
    requires ChunkTexts(steps) == Fidelity.Texts(events, convert)
    ensures Heard(steps) == Fidelity.Heard(events, convert)
  {
    ChunkTextsHeard(steps);
  }

  /** The texts of a prefix are a prefix of the texts. */
  lemma {:induction false} HeardPrefix(a: seq<Client.Event>, b: seq<Client.Event>, convert: Json -> Text)
    requires a <= b
    ensures Fidelity.Heard(a, convert) <= Fidelity.Heard(b, convert)
  {
    var tail := b[|a|..];
    assert b == a + tail;
    Fidelity.TextsSplit(a, tail, convert);
  }

  /** The state after the terminal call. */
  function Ended(c: Chat, last: Client.Event): Chat
    requires c.streams != []
  {
    match last
    case Error(message) => OnError(c, 0, message)
    case _ => OnDone(c, 0)
  }

  /**
    What was heard of an answer is what the chat keeps, also of an answer that was stopped or cut. A
    stream has just begun; Ollama answers it with lines that tell `contents`; the client reads any
    part of the wire, in any chunks, until [DONE], the end, an abort or a broken connection ends it
    with its last call, onDone or onError; the page does anything else in between. What the store
    hears is the start of what the contents say. If the call ended with onDone, the session that
    asked, if it still exists, holds what was sent and one reply with exactly that text; only a blank
    text or a newChat in between leaves no reply. If it ended with onError, it holds what was sent.
   */
  lemma {:induction false} StoredReplyIsWhatWasHeard(
    c: Chat, steps: seq<Step>, raws: seq<Text>, contents: seq<Json>, broken: bool, id: Text, model: Text,
    chunks: seq<Text>, ending: Client.Ending, convert: Json -> Text)
    requires Inv(c) && c.streams != [] && c.streams[0].heard == [] && !c.streams[0].orphaned
    requires CanRun(c, steps) && forall i :: 0 <= i < |steps| ==> !EndsStream(steps[i])
    requires Tell(raws, contents)
    requires Concat(chunks) <= Concat(Service.Frames(id, model, Service.Classified(raws), broken))
    requires ChunkTexts(steps) == Fidelity.Texts(Client.ResponseEvents(Client.Stream(chunks, ending)), convert)
    ensures Heard(steps) <= Spoken(contents, convert)
    ensures var f, before, text, events := c.streams[0], Run(c, steps), Heard(steps), Client.ResponseEvents(Client.Stream(chunks, ending));
            before.streams != [] && events != []
            && var last := events[|events| - 1];
            var owner := SessionAt(Ended(before, last), f.user, f.session);
            && !last.Chunk?
            && (owner.Some? <==> SessionAt(before, f.user, f.session).Some?)
            && (owner.Some? ==>
                  owner.value.messages
                  == f.sent + (if last.Error? || HasNewChat(steps) || Blank(text) then [] else [Message(Assistant, text)]))
  {
    hide Inv, CanRun, Run, EndsStream, Blank, OnDone, OnError, SessionAt, HasNewChat, Heard, ChunkTexts, Concat, Tell, Spoken,
         Service.Frames, Service.Answered, Service.Classified, Fidelity.Heard, Fidelity.Texts, Fidelity.Said, Fidelity.Contents,
         Client.ResponseEvents;
    var f, lines := c.streams[0], Service.Classified(raws);
    var events := Client.ResponseEvents(Client.Stream(chunks, ending));
    Fidelity.CutStreamFidelity(id, model, lines, broken, chunks, ending);
    var n := |events| - 1;
    CallsHeard(steps, events, convert);
    HeardBeforeLast(events, convert);
    HeardPrefix(events[..n], Fidelity.Contents(Service.Answered(lines)), convert);
    Fidelity.ContentsHeard(Service.Answered(lines), convert);
    AnswerTells(raws, contents);
    SaidIsSpoken(Service.Answered(lines), contents, convert);
    assert f.heard + Heard(steps) == Heard(steps);
    StreamConservation(c, steps, f.user, f.session);
    RunKeeps(c, steps);
    StreamTrackedOverRun(c, steps);
    if events[n].Error? {
      ErrorKeepsSent(Run(c, steps), events[n].message);
    }
  }

  /** The last call adds no text. */
  lemma {:induction false} HeardBeforeLast(events: seq<Client.Event>, convert: Json -> Text)
    requires events != [] && !events[|events| - 1].Chunk?
    ensures Fidelity.Heard(events, convert) == Fidelity.Heard(events[..|events| - 1], convert)
  {
    hide Fidelity.Heard;
    var n := |events| - 1;
    assert events == events[..n] + [events[n]];
    Fidelity.TextsSplit(events[..n], [events[n]], convert);
    Fidelity.HeardOne(events[n], convert);
  }

  /**
    When the whole answer reached the client and ended well, the reply is all that its contents say:
    for contents that are strings, their concatenation.
   */
  lemma {:induction false} StoredReplyIsTheAnswer(
    c: Chat, steps: seq<Step>, raws: seq<Text>, contents: seq<Json>, broken: bool, id: Text, model: Text,
    chunks: seq<Text>, ending: Client.Ending, convert: Json -> Text)
    requires Inv(c) && c.streams != [] && c.streams[0].heard == [] && !c.streams[0].orphaned
    requires CanRun(c, steps) && forall i :: 0 <= i < |steps| ==> !EndsStream(steps[i])
    requires Tell(raws, contents)
    requires Concat(chunks) == Concat(Service.Frames(id, model, Service.Classified(raws), broken))
    requires ChunkTexts(steps) == Fidelity.Texts(Client.ResponseEvents(Client.Stream(chunks, ending)), convert)
    ensures var f, before, answer := c.streams[0], Run(c, steps), Spoken(contents, convert);
            before.streams != []
            && var last := if EndsWell(raws, broken) then Client.Done else Client.Terminal(ending);
            var owner := SessionAt(Ended(before, last), f.user, f.session);
            && (owner.Some? <==> SessionAt(before, f.user, f.session).Some?)
            && (owner.Some? ==>
                  owner.value.messages
                  == f.sent + (if last.Error? || HasNewChat(steps) || Blank(answer) then [] else [Message(Assistant, answer)]))
            && forall texts: seq<Text> ::
                 |texts| == |contents| && (forall i :: 0 <= i < |texts| ==> contents[i] == Str(texts[i])) ==> answer == Concat(texts)
  {
    hide Inv, CanRun, Run, OnDone, OnError, SessionAt, EndsStream, Blank, HasNewChat, Service.Frames, Service.Answered, Service.Classified,
         Service.Completes, Fidelity.Said, Fidelity.Contents, Fidelity.Texts, Client.ResponseEvents, Tell, Spoken, EndsWell, Calls, Concat;
    var lines := Service.Classified(raws);
    StoredReplyIsWhatWasHeard(c, steps, raws, contents, broken, id, model, chunks, ending, convert);
    ToldIsCalled(id, model, raws, contents, broken, chunks, ending);
    Fidelity.HeardIsSaid(id, model, lines, broken, chunks, ending, convert);
    AnswerTells(raws, contents);
    SaidIsSpoken(Service.Answered(lines), contents, convert);
    CallsHeard(steps, Client.ResponseEvents(Client.Stream(chunks, ending)), convert);
    forall texts: seq<Text> | |texts| == |contents| && (forall i :: 0 <= i < |texts| ==> contents[i] == Str(texts[i]))
      ensures Spoken(contents, convert) == Concat(texts)
    {
      StringsAreSpoken(texts, contents, convert);
    }
  }
}
