/** What holds in every reachable state of the chat store, and what a stream leaves behind. */
module ChatTheorems {
  import opened Wrappers
  import opened CodeUnits
  import opened ChatState

  // ---------------------------------------------------------------- conversations

  /** A conversation opens with the user and never holds two replies in a row. */
  ghost predicate Conversation(messages: seq<Message>) {
    && (messages != [] ==> messages[0].role == User)
    && (forall i :: 0 <= i < |messages| ==> messages[i].role != System)
    && (forall i :: 0 <= i < |messages| - 1 ==> messages[i].role == User || messages[i + 1].role == User)
  }

  predicate EndsWithUser(messages: seq<Message>) {
    messages != [] && messages[|messages| - 1].role == User
  }

  /** The title is the truncation of the first message, or the placeholder. */
  predicate Titled(s: Session) {
    s.title == if s.messages == [] then NEW_CHAT else TitleOf(s.messages[0].content)
  }

  ghost predicate GoodSessions(ss: seq<Session>, issued: set<SessionId>) {
    && (forall i, j :: 0 <= i < j < |ss| ==> ss[i].id != ss[j].id)
    && (forall s :: s in ss ==> s.id in issued && Conversation(s.messages) && Titled(s))
  }

  /** The one call in flight owns the display unless newChat took it away, and its session stores what it sent. */
  ghost predicate Owns(c: Chat, f: InFlight) {
    && f.session in c.issued && Conversation(f.sent) && EndsWithUser(f.sent)
    && (forall s :: s in SessionsOf(c.sessions, f.user) && s.id == f.session ==> s.messages == f.sent)
    && c.streamingSession == (if f.orphaned then None else Some(f.session))
    && c.streamingContent == (if f.orphaned then [] else f.heard)
  }

  ghost predicate Inv(c: Chat) {
    && (forall u :: u in c.sessions ==> GoodSessions(c.sessions[u], c.issued))
    && |c.streams| <= 1
    && (c.isStreaming <==> c.controller.Some?)
    && (c.isStreaming <==> c.streams != [])
    && (c.streams != [] ==> Owns(c, c.streams[0]))
    && (c.streams == [] ==> c.streamingContent == [] && c.streamingSession == None)
  }

  // ---------------------------------------------------------------- the list operations

  lemma {:induction false} PrependKeeps(ss: seq<Session>, id: SessionId, issued: set<SessionId>)
    requires GoodSessions(ss, issued) && id !in issued
    ensures GoodSessions([Session(id, NEW_CHAT, [])] + ss, issued + {id})
  {
    var all := [Session(id, NEW_CHAT, [])] + ss;
    forall s | s in all ensures s == all[0] || s in ss {}
  }

  lemma {:induction false} WithoutKeeps(ss: seq<Session>, id: SessionId, issued: set<SessionId>)
    requires GoodSessions(ss, issued)
    ensures GoodSessions(Without(ss, id), issued)
  {
    hide Conversation, Titled;
    if ss != [] {
      var tail := Without(ss[1..], id);
      WithoutKeeps(ss[1..], id, issued);
      forall j | 0 <= j < |tail| && ss[0].id != id ensures tail[j].id != ss[0].id {
        assert tail[j] in ss[1..];
      }
    }
  }

  lemma {:induction false} WithMessagesKeeps(ss: seq<Session>, id: SessionId, messages: seq<Message>, title: Text, issued: set<SessionId>)
    requires GoodSessions(ss, issued) && Conversation(messages) && Titled(Session(id, title, messages))
    ensures GoodSessions(WithMessages(ss, id, messages, title), issued)
  {
    hide Conversation, Titled;
    var r := WithMessages(ss, id, messages, title);
    forall i | 0 <= i < |r| ensures r[i].id == ss[i].id && r[i].id in issued && Conversation(r[i].messages) && Titled(r[i]) {
      assert ss[i] in ss;
    }
  }

  lemma {:induction false} WithReplyKeeps(ss: seq<Session>, id: SessionId, content: Text, issued: set<SessionId>)
    requires GoodSessions(ss, issued)
    requires forall s :: s in ss && s.id == id ==> EndsWithUser(s.messages)
    ensures GoodSessions(WithReply(ss, id, Message(Assistant, content)), issued)
  {
    hide Conversation, Titled, EndsWithUser;
    var r := WithReply(ss, id, Message(Assistant, content));
    forall i | 0 <= i < |r| ensures r[i].id == ss[i].id && r[i].id in issued && Conversation(r[i].messages) && Titled(r[i]) {
      assert ss[i] in ss;
      if ss[i].id == id {
        ReplyKeeps(ss[i], Message(Assistant, content));
      }
    }
  }

  /** A reply after a user message keeps a conversation and its title. */
  lemma {:induction false} ReplyKeeps(s: Session, reply: Message)
    requires Conversation(s.messages) && EndsWithUser(s.messages) && Titled(s) && reply.role == Assistant
    ensures Conversation(s.messages + [reply]) && Titled(s.(messages := s.messages + [reply]))
  {}

  // ---------------------------------------------------------------- every step keeps the invariant

  lemma {:induction false} BeginKeeps(c: Chat, id: SessionId, messages: seq<Message>, title: Text)
    requires Inv(c) && !c.isStreaming && id in c.issued
    requires Conversation(messages) && EndsWithUser(messages) && Titled(Session(id, title, messages))
    ensures Inv(Begin(c, id, messages, title))
    ensures Begin(c, id, messages, title).streams == [InFlight(c.user, id, messages, [], false)]
  {
    var ss := SessionsOf(c.sessions, c.user);
    var c' := Begin(c, id, messages, title);
    WithMessagesKeeps(ss, id, messages, title, c.issued);
    assert c'.sessions[c.user] == WithMessages(ss, id, messages, title);
  }

  lemma {:induction false} AddSessionKeeps(c: Chat, id: SessionId)
    requires Inv(c) && id !in c.issued
    ensures Inv(AddSession(c, id))
  {
    var ss, c' := SessionsOf(c.sessions, c.user), AddSession(c, id);
    PrependKeeps(ss, id, c.issued);
    forall u | u in c'.sessions ensures GoodSessions(c'.sessions[u], c'.issued) {
      if u != c.user {
        assert c'.sessions[u] == c.sessions[u];
      }
    }
    if c.streams != [] {
      var f := c.streams[0];
      forall s | s in SessionsOf(c'.sessions, f.user) && s.id == f.session ensures s.messages == f.sent {
        assert s in SessionsOf(c.sessions, f.user);
      }
    }
  }

  lemma {:induction false} FoundIsGood(c: Chat)
    requires Inv(c) && CurrentSession(c).Some?
    ensures var s := CurrentSession(c).value;
            s.id in c.issued && Conversation(s.messages) && Titled(s)
  {}

  lemma {:induction false} SendKeeps(c: Chat, content: Text, id: SessionId)
    requires Inv(c) && id !in c.issued
    ensures Inv(SendMessage(c, content, id))
  {
    hide AddSession, CurrentSession, Begin, GoodSessions;
    if !c.isStreaming {
      var found := CurrentSession(c);
      if found.None? {
        AddSessionKeeps(c, id);
        assert AddSession(c, id).issued == c.issued + {id} && !AddSession(c, id).isStreaming by { AddSessionFrame(c, id); }
        BeginKeeps(AddSession(c, id), id, [] + [Message(User, content)], TitleOf(content));
      } else {
        FoundIsGood(c);
        var s := found.value;
        BeginKeeps(c, s.id, s.messages + [Message(User, content)], if s.messages == [] then TitleOf(content) else s.title);
      }
    }
  }

  lemma {:induction false} AddSessionFrame(c: Chat, id: SessionId)
    ensures var c' := AddSession(c, id);
            c'.issued == c.issued + {id} && c'.isStreaming == c.isStreaming && c'.user == c.user && c'.streams == c.streams
  {}

  lemma {:induction false} RetryKeeps(c: Chat)
    requires Inv(c)
    ensures Inv(RetryLastMessage(c))
  {
    hide CurrentSession, Begin, GoodSessions;
    var found := CurrentSession(c);
    if !c.isStreaming && found.Some? && RetryMessages(found.value.messages).Some? {
      FoundIsGood(c);
      BeginKeeps(c, found.value.id, RetryMessages(found.value.messages).value, found.value.title);
    }
  }

  lemma {:induction false} EditKeeps(c: Chat, index: int, content: Text)
    requires Inv(c)
    ensures Inv(EditMessage(c, index, content))
  {
    hide CurrentSession, Begin, GoodSessions;
    var found := CurrentSession(c);
    if !c.isStreaming && found.Some? && 0 <= index < |found.value.messages| {
      FoundIsGood(c);
      var s := found.value;
      BeginKeeps(c, s.id, s.messages[..index] + [Message(User, content)], if index == 0 then TitleOf(content) else s.title);
    }
  }

  lemma {:induction false} NewChatKeeps(c: Chat, id: SessionId)
    requires Inv(c) && id !in c.issued
    ensures Inv(NewChat(c, id))
  {
    AddSessionKeeps(c, id);
  }

  lemma {:induction false} DeleteKeeps(c: Chat, id: SessionId)
    requires Inv(c)
    ensures Inv(DeleteSession(c, id))
  {
    WithoutKeeps(SessionsOf(c.sessions, c.user), id, c.issued);
    var c' := DeleteSession(c, id);
    forall u | u in c'.sessions ensures GoodSessions(c'.sessions[u], c'.issued) {
      if u != c.user {
        assert c'.sessions[u] == c.sessions[u];
      }
    }
  }

  lemma {:induction false} DoneKeeps(c: Chat, k: nat)
    requires Inv(c) && k < |c.streams|
    ensures Inv(OnDone(c, k))
  {
    var f, c' := c.streams[k], OnDone(c, k);
    var ss := SessionsOf(c.sessions, f.user);
    WithReplyKeeps(ss, f.session, c.streamingContent, c.issued);
    forall u | u in c'.sessions ensures GoodSessions(c'.sessions[u], c'.issued) {
      if u != f.user {
        assert c'.sessions[u] == c.sessions[u];
      }
    }
  }

  /** The invariant of the store is kept by every action, callback, change of user and reload. */
  lemma {:induction false} StepKeeps(c: Chat, step: Step)
    requires Inv(c) && Enabled(c, step)
    ensures Inv(Apply(c, step))
  {
    hide GoodSessions, AddSession, SendMessage, RetryLastMessage, EditMessage, NewChat, DeleteSession, OnDone;
    match step
    case StepNewChat(id) => NewChatKeeps(c, id);
    case StepSelect(_) =>
    case StepDelete(id) => DeleteKeeps(c, id);
    case StepStop =>
    case StepSend(content, id) => SendKeeps(c, content, id);
    case StepRetry => RetryKeeps(c);
    case StepEdit(index, content) => EditKeeps(c, index, content);
    case StepChunk(_, _) =>
    case StepDone(k) => DoneKeeps(c, k);
    case StepError(_, _) =>
    case StepUser(_) =>
    case StepReload =>
    case StepClearError =>
  }

  lemma {:induction false} RunKeeps(c: Chat, steps: seq<Step>)
    requires Inv(c) && CanRun(c, steps)
    ensures Inv(Run(c, steps))
    decreases |steps|
  {
    hide Inv, Enabled, Apply;
    if steps != [] {
      StepKeeps(c, steps[0]);
      RunKeeps(Apply(c, steps[0]), steps[1..]);
    }
  }

  /** The invariant holds in every reachable state. */
  lemma {:induction false} ReachableStates(steps: seq<Step>)
    requires CanRun(FRESH, steps)
    ensures Inv(Run(FRESH, steps))
  {
    RunKeeps(FRESH, steps);
  }

  // ---------------------------------------------------------------- the current chat

  ghost predicate HasSession(ss: seq<Session>, id: SessionId) {
    exists s :: s in ss && s.id == id
  }

  /** Every current id is null or names a session of its user. */
  ghost predicate CurrentExists(c: Chat) {
    forall u :: CurrentOf(c.current, u).Some? ==> HasSession(SessionsOf(c.sessions, u), CurrentOf(c.current, u).value)
  }

  /** A selection names a session of the signed-in user, as every click in the page does. */
  ghost predicate SelectsExisting(c: Chat, step: Step) {
    step.StepSelect? ==> HasSession(SessionsOf(c.sessions, c.user), step.id)
  }

  lemma {:induction false} BeginKeepsIds(c: Chat, id: SessionId, messages: seq<Message>, title: Text, u: UserId, other: SessionId)
    requires HasSession(SessionsOf(c.sessions, u), other)
    ensures HasSession(SessionsOf(Begin(c, id, messages, title).sessions, u), other)
  {
    var ss := SessionsOf(c.sessions, u);
    if u == c.user {
      var s :| s in ss && s.id == other;
      var i :| 0 <= i < |ss| && ss[i] == s;
      assert WithMessages(ss, id, messages, title)[i].id == other;
      assert WithMessages(ss, id, messages, title)[i] in SessionsOf(Begin(c, id, messages, title).sessions, u);
    }
  }

  lemma {:induction false} BeginKeepsCurrent(c: Chat, id: SessionId, messages: seq<Message>, title: Text)
    requires CurrentExists(c)
    ensures CurrentExists(Begin(c, id, messages, title))
  {
    var c' := Begin(c, id, messages, title);
    forall u | CurrentOf(c'.current, u).Some?
      ensures HasSession(SessionsOf(c'.sessions, u), CurrentOf(c'.current, u).value)
    {
      BeginKeepsIds(c, id, messages, title, u, CurrentOf(c.current, u).value);
    }
  }

  lemma {:induction false} AddSessionKeepsCurrent(c: Chat, id: SessionId)
    requires CurrentExists(c)
    ensures CurrentExists(AddSession(c, id))
  {
    var c' := AddSession(c, id);
    forall u | CurrentOf(c'.current, u).Some?
      ensures HasSession(SessionsOf(c'.sessions, u), CurrentOf(c'.current, u).value)
    {
      if u == c.user {
        assert c'.sessions[u][0] in c'.sessions[u];
      } else {
        assert CurrentOf(c'.current, u) == CurrentOf(c.current, u) && SessionsOf(c'.sessions, u) == SessionsOf(c.sessions, u);
      }
    }
  }

  lemma {:induction false} DeleteKeepsCurrent(c: Chat, id: SessionId)
    requires CurrentExists(c)
    ensures CurrentExists(DeleteSession(c, id))
  {
    var c' := DeleteSession(c, id);
    var remaining := c'.sessions[c.user];
    forall u | CurrentOf(c'.current, u).Some?
      ensures HasSession(SessionsOf(c'.sessions, u), CurrentOf(c'.current, u).value)
    {
      var current := CurrentOf(c'.current, u).value;
      if u == c.user {
        if CurrentOf(c.current, u) == Some(id) {
          assert remaining[0] in remaining;
        } else {
          var s :| s in SessionsOf(c.sessions, u) && s.id == current;
          assert s in remaining;
        }
      } else {
        assert CurrentOf(c.current, u).Some?;
        assert SessionsOf(c'.sessions, u) == SessionsOf(c.sessions, u);
      }
    }
  }

  lemma {:induction false} DoneKeepsCurrent(c: Chat, k: nat)
    requires CurrentExists(c) && k < |c.streams|
    ensures CurrentExists(OnDone(c, k))
  {
    var f, c' := c.streams[k], OnDone(c, k);
    forall u | CurrentOf(c'.current, u).Some?
      ensures HasSession(SessionsOf(c'.sessions, u), CurrentOf(c'.current, u).value)
    {
      var ss := SessionsOf(c.sessions, u);
      if u == f.user && !Blank(c.streamingContent) {
        var s :| s in ss && s.id == CurrentOf(c.current, u).value;
        var i :| 0 <= i < |ss| && ss[i] == s;
        assert c'.sessions[u][i].id == s.id && c'.sessions[u][i] in c'.sessions[u];
      } else {
        assert SessionsOf(c'.sessions, u) == ss;
      }
    }
  }

  /** No step leaves a current id dangling, as long as selections name existing sessions. */
  lemma {:induction false} StepKeepsCurrent(c: Chat, step: Step)
    requires CurrentExists(c) && Enabled(c, step) && SelectsExisting(c, step)
    ensures CurrentExists(Apply(c, step))
  {
    hide AddSession, Begin, DeleteSession, OnDone, CurrentSession;
    match step
    case StepNewChat(id) =>
      AddSessionKeepsCurrent(c, id);
    case StepSelect(_) =>
    case StepDelete(id) => DeleteKeepsCurrent(c, id);
    case StepSend(content, id) =>
      if !c.isStreaming {
        var found := CurrentSession(c);
        AddSessionKeepsCurrent(c, id);
        var session := if found.None? then Session(id, NEW_CHAT, []) else found.value;
        BeginKeepsCurrent(if found.None? then AddSession(c, id) else c, session.id, session.messages + [Message(User, content)],
                          if session.messages == [] then TitleOf(content) else session.title);
      }
    case StepRetry =>
      var found := CurrentSession(c);
      if !c.isStreaming && found.Some? && RetryMessages(found.value.messages).Some? {
        BeginKeepsCurrent(c, found.value.id, RetryMessages(found.value.messages).value, found.value.title);
      }
    case StepEdit(index, content) =>
      var found := CurrentSession(c);
      if !c.isStreaming && found.Some? && 0 <= index < |found.value.messages| {
        BeginKeepsCurrent(c, found.value.id, found.value.messages[..index] + [Message(User, content)],
                          if index == 0 then TitleOf(content) else found.value.title);
      }
    case StepDone(k) => DoneKeepsCurrent(c, k);
    case _ =>
  }

  /** Every selection of the run names a session that exists at that moment. */
  ghost predicate RunSelectsExisting(c: Chat, steps: seq<Step>)
    requires CanRun(c, steps)
    decreases |steps|
  {
    steps == [] || (SelectsExisting(c, steps[0]) && RunSelectsExisting(Apply(c, steps[0]), steps[1..]))
  }

  lemma {:induction false} RunKeepsCurrent(c: Chat, steps: seq<Step>)
    requires CanRun(c, steps) && CurrentExists(c) && RunSelectsExisting(c, steps)
    ensures CurrentExists(Run(c, steps))
    decreases |steps|
  {
    hide CurrentExists, SelectsExisting, Enabled, Apply;
    if steps != [] {
      StepKeepsCurrent(c, steps[0]);
      RunKeepsCurrent(Apply(c, steps[0]), steps[1..]);
    }
  }

  // ---------------------------------------------------------------- one stream from begin to end

  /** The step ends a stream: a terminal callback, or a reload that kills the page. */
  predicate EndsStream(step: Step) {
    step.StepDone? || step.StepError? || step.StepReload?
  }

  /** The texts that the chunks of a run bring. */
  function Heard(steps: seq<Step>): Text {
    if steps == [] then [] else (if steps[0].StepChunk? then steps[0].chunk else []) + Heard(steps[1..])
  }

  predicate HasNewChat(steps: seq<Step>) {
    steps != [] && (steps[0].StepNewChat? || HasNewChat(steps[1..]))
  }

  /** While a stream is in flight no other begins, and it remembers what its chunks brought. */
  lemma {:induction false} StreamTracked(c: Chat, step: Step)
    requires Inv(c) && c.streams != [] && Enabled(c, step) && !EndsStream(step)
    ensures Apply(c, step).streams == [c.streams[0].(
              heard := c.streams[0].heard + Heard([step]),
              orphaned := c.streams[0].orphaned || step.StepNewChat?)]
  {
    hide GoodSessions, CurrentSession;
    assert c.streams == [c.streams[0]];
    assert [step][1..] == [];
    assert Heard([step]) == if step.StepChunk? then step.chunk else [];
    assert c.streams[0].heard + [] == c.streams[0].heard;
    if step.StepNewChat? {
      assert AddSession(c, step.id).streams == c.streams;
    }
  }

  lemma {:induction false} StreamTrackedOverRun(c: Chat, steps: seq<Step>)
    requires Inv(c) && c.streams != [] && CanRun(c, steps)
    requires forall i :: 0 <= i < |steps| ==> !EndsStream(steps[i])
    ensures var f := c.streams[0];
            Run(c, steps).streams == [f.(heard := f.heard + Heard(steps), orphaned := f.orphaned || HasNewChat(steps))]
    decreases |steps|
  {
    hide Inv, Enabled, Apply;
    if steps == [] {
      OneStream(c);
      assert c.streams[0].heard + [] == c.streams[0].heard;
    } else {
      var step, rest := steps[0], steps[1..];
      StepKeeps(c, step);
      StreamTracked(c, step);
      HeardFirst(steps);
      assert c.streams[0].heard + Heard([step]) + Heard(rest) == c.streams[0].heard + Heard(steps);
      StreamTrackedOverRun(Apply(c, step), rest);
    }
  }

  lemma {:induction false} HeardFirst(steps: seq<Step>)
    requires steps != []
    ensures Heard(steps) == Heard([steps[0]]) + Heard(steps[1..])
  {
    assert [steps[0]][1..] == [];
  }

  lemma {:induction false} OneStream(c: Chat)
    requires Inv(c)
    ensures |c.streams| <= 1
  {}

  /** A session of a user, by id. */
  function SessionAt(c: Chat, user: UserId, id: SessionId): Option<Session> {
    FindSession(SessionsOf(c.sessions, user), id)
  }

  lemma {:induction false} FindAfterReply(ss: seq<Session>, id: SessionId, reply: Message, other: SessionId)
    ensures FindSession(WithReply(ss, id, reply), other)
            == match FindSession(ss, other)
               case None => None
               case Some(s) => Some(if other == id then s.(messages := s.messages + [reply]) else s)
  {
    if ss != [] {
      assert WithReply(ss, id, reply)[1..] == WithReply(ss[1..], id, reply);
      FindAfterReply(ss[1..], id, reply, other);
    }
  }

  /** What onDone leaves in each session of each user: a reply in the owner's session, if there is anything to say. */
  lemma {:induction false} DoneWrites(c: Chat, k: nat, user: UserId, id: SessionId)
    requires k < |c.streams|
    ensures var f := c.streams[k];
            SessionAt(OnDone(c, k), user, id)
            == match SessionAt(c, user, id)
               case None => None
               case Some(s) =>
                 Some(if user == f.user && id == f.session && !Blank(c.streamingContent)
                      then s.(messages := s.messages + [Message(Assistant, c.streamingContent)]) else s)
  {
    var f := c.streams[k];
    FindAfterReply(SessionsOf(c.sessions, f.user), f.session, Message(Assistant, c.streamingContent), id);
  }

  lemma {:induction false} BlankNothing()
    ensures Blank([])
  {}

  /**
    Stream conservation. Take any state with a stream in flight, let anything happen short of the
    end of the stream or a reload, then let it end by onDone. If its session is still there, it
    holds what was sent plus one reply made of all the stream brought, or nothing more when that
    is blank or newChat has run since; every other session is as it was; and the lock is free.
   */
  lemma {:induction false} StreamConservation(c: Chat, steps: seq<Step>, user: UserId, id: SessionId)
    requires Inv(c) && c.streams != [] && CanRun(c, steps)
    requires forall i :: 0 <= i < |steps| ==> !EndsStream(steps[i])
    ensures var f, before := c.streams[0], Run(c, steps);
            before.streams != []
            && var after, text := OnDone(before, 0), f.heard + Heard(steps);
            && (SessionAt(after, user, id).Some? <==> SessionAt(before, user, id).Some?)
            && ((user, id) != (f.user, f.session) ==> SessionAt(after, user, id) == SessionAt(before, user, id))
            && ((user, id) == (f.user, f.session) && SessionAt(after, user, id).Some? ==>
                  SessionAt(after, user, id).value.messages
                  == f.sent + (if f.orphaned || HasNewChat(steps) || Blank(text) then [] else [Message(Assistant, text)]))
            && !after.isStreaming && after.controller == None && after.streams == []
  {
    hide GoodSessions, Apply, Enabled, Blank;
    StreamTrackedOverRun(c, steps);
    RunKeeps(c, steps);
    var before := Run(c, steps);
    DoneWrites(before, 0, user, id);
    BlankNothing();
    if SessionAt(before, user, id).Some? && (user, id) == (c.streams[0].user, c.streams[0].session) {
      assert SessionAt(before, user, id).value.messages == c.streams[0].sent;
    }
  }

  // ---------------------------------------------------------------- what send, retry and edit store

  lemma {:induction false} FindAfterWrite(ss: seq<Session>, id: SessionId, messages: seq<Message>, title: Text, other: SessionId)
    ensures FindSession(WithMessages(ss, id, messages, title), other)
            == match FindSession(ss, other)
               case None => None
               case Some(s) => Some(if other == id then Session(id, title, messages) else s)
  {
    if ss != [] {
      assert WithMessages(ss, id, messages, title)[1..] == WithMessages(ss[1..], id, messages, title);
      FindAfterWrite(ss[1..], id, messages, title, other);
    }
  }

  /** Only the session that begins a stream is written, and it stores exactly what is sent. */
  lemma {:induction false} BeginWrites(c: Chat, id: SessionId, messages: seq<Message>, title: Text, user: UserId, other: SessionId)
    ensures SessionAt(Begin(c, id, messages, title), user, other)
            == match SessionAt(c, user, other)
               case None => None
               case Some(s) => Some(if user == c.user && other == id then Session(id, title, messages) else s)
  {
    FindAfterWrite(SessionsOf(c.sessions, c.user), id, messages, title, other);
  }

  /**
    A send with no stream in flight adds the user's message at the end of the current chat, or of a
    new one, starts one stream with that history, and touches no other session.
   */
  lemma {:induction false} SendAppends(c: Chat, content: Text, id: SessionId, user: UserId, other: SessionId)
    requires Inv(c) && !c.isStreaming && id !in c.issued
    ensures var found, after := CurrentSession(c), SendMessage(c, content, id);
            var target := if found.Some? then found.value.id else id;
            var history := (if found.Some? then found.value.messages else []) + [Message(User, content)];
            && after.streams == [InFlight(c.user, target, history, [], false)]
            && SessionAt(after, c.user, target).Some? && SessionAt(after, c.user, target).value.messages == history
            && CurrentOf(after.current, c.user) == Some(target)
            && ((user, other) != (c.user, target) ==> SessionAt(after, user, other) == SessionAt(c, user, other))
  {
    hide GoodSessions;
    var found := CurrentSession(c);
    if found.Some? {
      var s := found.value;
      var title := if s.messages == [] then TitleOf(content) else s.title;
      BeginWrites(c, s.id, s.messages + [Message(User, content)], title, user, other);
      BeginWrites(c, s.id, s.messages + [Message(User, content)], title, c.user, s.id);
    } else {
      var c' := AddSession(c, id);
      assert c'.sessions[c.user][1..] == SessionsOf(c.sessions, c.user);
      BeginWrites(c', id, [] + [Message(User, content)], TitleOf(content), user, other);
      BeginWrites(c', id, [] + [Message(User, content)], TitleOf(content), c.user, id);
    }
  }

  lemma {:induction false} RetryTakesBackReply(sent: seq<Message>, content: Text)
    requires EndsWithUser(sent)
    ensures RetryMessages(sent) == Some(sent)
    ensures RetryMessages(sent + [Message(Assistant, content)]) == Some(sent)
  {
    assert (sent + [Message(Assistant, content)])[..|sent|] == sent;
  }

  /**
    Retrying resends what was sent. When a call has ended, by either callback and with or without a
    reply, and its session is the current one, a retry takes back the reply, if there is one, and
    starts one stream with the very history that the call had sent.
   */
  lemma {:induction false} RetryResendsWhatWasSent(c: Chat, end: Step)
    requires Inv(c) && c.streams != [] && Enabled(c, end) && (end.StepDone? || end.StepError?)
    requires c.user == c.streams[0].user
    requires CurrentSession(c).Some? && CurrentSession(c).value.id == c.streams[0].session
    ensures var f, after := c.streams[0], RetryLastMessage(Apply(c, end));
            && after.streams == [InFlight(f.user, f.session, f.sent, [], false)]
            && SessionAt(after, f.user, f.session) == SessionAt(c, f.user, f.session)
  {
    hide GoodSessions, Begin;
    var f, mid := c.streams[0], Apply(c, end);
    var s := CurrentSession(c).value;
    RetryTakesBackReply(f.sent, c.streamingContent);
    StepKeeps(c, end);
    if end.StepDone? {
      DoneWrites(c, end.k, f.user, f.session);
    }
    assert CurrentSession(mid) == SessionAt(mid, f.user, f.session);
    var m := CurrentSession(mid).value;
    assert m.title == s.title && RetryMessages(m.messages) == Some(f.sent);
    BeginWrites(mid, f.session, f.sent, m.title, f.user, f.session);
    BeginStreams(mid, f.session, f.sent, m.title);
  }

  lemma {:induction false} BeginStreams(c: Chat, id: SessionId, messages: seq<Message>, title: Text)
    ensures Begin(c, id, messages, title).streams == c.streams + [InFlight(c.user, id, messages, [], false)]
  {}

  /** In a reachable state a retry of a non-empty chat always has something to send, so its late guards never fire. */
  lemma {:induction false} RetryAlwaysSends(c: Chat)
    requires Inv(c) && CurrentSession(c).Some?
    ensures RetryMessages(CurrentSession(c).value.messages).Some? <==> CurrentSession(c).value.messages != []
  {
    hide Inv, CurrentSession, RetryMessages;
    FoundIsGood(c);
    ConversationRetries(CurrentSession(c).value.messages);
  }

  lemma {:induction false} ConversationRetries(m: seq<Message>)
    requires Conversation(m)
    ensures RetryMessages(m).Some? <==> m != []
  {
    if m != [] && m[|m| - 1].role == Assistant {
      assert m[0].role == User;
      var i := |m| - 2;
      assert m[i + 1] == m[|m| - 1];
    }
  }

  /** An edit cuts the current chat before the edited message, puts the new text there and sends that. */
  lemma {:induction false} EditRewrites(c: Chat, index: nat, content: Text)
    requires Inv(c) && !c.isStreaming && CurrentSession(c).Some? && index < |CurrentSession(c).value.messages|
    ensures var s, after := CurrentSession(c).value, EditMessage(c, index, content);
            var history := s.messages[..index] + [Message(User, content)];
            && after.streams == [InFlight(c.user, s.id, history, [], false)]
            && SessionAt(after, c.user, s.id).Some? && SessionAt(after, c.user, s.id).value.messages == history
  {
    hide GoodSessions;
    var s := CurrentSession(c).value;
    BeginWrites(c, s.id, s.messages[..index] + [Message(User, content)], if index == 0 then TitleOf(content) else s.title, c.user, s.id);
  }

  /** A retry drops a final reply from the current chat and sends the rest. */
  lemma {:induction false} RetryRewrites(c: Chat)
    requires Inv(c) && !c.isStreaming && CurrentSession(c).Some? && CurrentSession(c).value.messages != []
    ensures var s, after := CurrentSession(c).value, RetryLastMessage(c);
            var m := s.messages;
            var history := if EndsWithUser(m) then m else m[..|m| - 1];
            && after.streams == [InFlight(c.user, s.id, history, [], false)]
            && SessionAt(after, c.user, s.id).Some? && SessionAt(after, c.user, s.id).value == s.(messages := history)
  {
    hide GoodSessions;
    var s := CurrentSession(c).value;
    RetryAlwaysSends(c);
    FoundIsGood(c);
    BeginWrites(c, s.id, RetryMessages(s.messages).value, s.title, c.user, s.id);
  }

  /** A call that fails leaves its session, if it still exists, with what was sent. */
  lemma {:induction false} ErrorKeepsSent(c: Chat, message: Text)
    requires Inv(c) && c.streams != []
    ensures var f := c.streams[0];
            var owner := SessionAt(OnError(c, 0, message), f.user, f.session);
            owner == SessionAt(c, f.user, f.session) && (owner.Some? ==> owner.value.messages == f.sent)
  {
    hide GoodSessions;
  }

  /** Either terminal callback frees the lock and leaves nothing on display. */
  lemma {:induction false} TerminalCallReleases(c: Chat, step: Step)
    requires Inv(c) && Enabled(c, step) && (step.StepDone? || step.StepError?)
    ensures var after := Apply(c, step);
            !after.isStreaming && after.controller == None && after.streams == []
            && after.streamingContent == [] && after.streamingSession == None
  {}

  // ---------------------------------------------------------------- what every step leaves alone

  /** The one session that the step may write, add or remove. */
  function Target(c: Chat, step: Step): Option<(UserId, SessionId)>
    requires Enabled(c, step)
  {
    match step
    case StepNewChat(id) => Some((c.user, id))
    case StepDelete(id) => Some((c.user, id))
    case StepSend(_, id) =>
      if c.isStreaming then None
      else Some((c.user, if CurrentSession(c).Some? then CurrentSession(c).value.id else id))
    case StepRetry => if c.isStreaming || CurrentSession(c).None? then None else Some((c.user, CurrentSession(c).value.id))
    case StepEdit(_, _) => if c.isStreaming || CurrentSession(c).None? then None else Some((c.user, CurrentSession(c).value.id))
    case StepDone(k) => Some((c.streams[k].user, c.streams[k].session))
    case _ => None
  }

  lemma {:induction false} FindAfterDelete(ss: seq<Session>, id: SessionId, other: SessionId)
    ensures FindSession(Without(ss, id), other) == if other == id then None else FindSession(ss, other)
  {
    if ss != [] {
      FindAfterDelete(ss[1..], id, other);
    }
  }

  /** A deletion removes the session it names. */
  lemma {:induction false} DeleteRemoves(c: Chat, id: SessionId)
    ensures SessionAt(DeleteSession(c, id), c.user, id) == None
  {
    FindAfterDelete(SessionsOf(c.sessions, c.user), id, id);
  }

  lemma {:induction false} AddLeavesOthers(c: Chat, id: SessionId, user: UserId, other: SessionId)
    requires (user, other) != (c.user, id)
    ensures SessionAt(AddSession(c, id), user, other) == SessionAt(c, user, other)
  {
    assert AddSession(c, id).sessions[c.user][1..] == SessionsOf(c.sessions, c.user);
  }

  /** No step changes a session of any user other than its target. */
  lemma {:induction false} OthersUntouched(c: Chat, step: Step, user: UserId, id: SessionId)
    requires Enabled(c, step) && Target(c, step) != Some((user, id))
    ensures SessionAt(Apply(c, step), user, id) == SessionAt(c, user, id)
  {
    hide AddSession, Begin, CurrentSession, OnDone;
    match step
    case StepNewChat(newId) => AddLeavesOthers(c, newId, user, id);
    case StepDelete(gone) => FindAfterDelete(SessionsOf(c.sessions, c.user), gone, id);
    case StepSend(content, newId) =>
      if !c.isStreaming {
        var found := CurrentSession(c);
        var c' := if found.None? then AddSession(c, newId) else c;
        var s := if found.None? then Session(newId, NEW_CHAT, []) else found.value;
        AddSessionFrame(c, newId);
        if found.None? {
          AddLeavesOthers(c, newId, user, id);
        }
        BeginWrites(c', s.id, s.messages + [Message(User, content)], if s.messages == [] then TitleOf(content) else s.title, user, id);
      }
    case StepRetry =>
      var found := CurrentSession(c);
      if !c.isStreaming && found.Some? && RetryMessages(found.value.messages).Some? {
        BeginWrites(c, found.value.id, RetryMessages(found.value.messages).value, found.value.title, user, id);
      }
    case StepEdit(index, content) =>
      var found := CurrentSession(c);
      if !c.isStreaming && found.Some? && 0 <= index < |found.value.messages| {
        BeginWrites(c, found.value.id, found.value.messages[..index] + [Message(User, content)],
                    if index == 0 then TitleOf(content) else found.value.title, user, id);
      }
    case StepDone(k) => DoneWrites(c, k, user, id);
    case _ =>
  }
}
