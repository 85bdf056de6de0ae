/** What each action of the chat store comes to: which chat is current, what is stored, shown and in flight. */
module ChatOutcomes {
  import opened Wrappers
  import opened CodeUnits
  import opened ChatState
  import opened ChatTheorems

  /** The two states agree on every stored chat of every user, in the same order. */
  ghost predicate SameChats(c: Chat, after: Chat) {
    forall u :: SessionsOf(after.sessions, u) == SessionsOf(c.sessions, u)
  }

  /** Other users keep their chats and their current one. */
  ghost predicate OthersKeep(c: Chat, after: Chat) {
    forall u :: u != c.user ==>
      SessionsOf(after.sessions, u) == SessionsOf(c.sessions, u) && CurrentOf(after.current, u) == CurrentOf(c.current, u)
  }

  /** What is streaming and what is on display are the same. */
  ghost predicate SameStream(c: Chat, after: Chat) {
    && after.streams == c.streams && after.isStreaming == c.isStreaming && after.controller == c.controller
    && after.streamingContent == c.streamingContent && after.streamingSession == c.streamingSession
  }

  // ---------------------------------------------------------------- select, then send

  /**
    A selection selects: the chat with the id becomes the current one of the user, whatever was
    current before; no chat and no stream changes, and other users keep their choice.
   */
  lemma {:induction false} SelectionSelects(c: Chat, id: SessionId)
    ensures var after := Apply(c, StepSelect(id));
            && CurrentOf(after.current, c.user) == Some(id) && CurrentSession(after) == SessionAt(c, c.user, id)
            && SameChats(c, after) && SameStream(c, after) && OthersKeep(c, after)
            && after.error == None && after.user == c.user && after.issued == c.issued
  {}

  /** A message sent after selecting an existing chat goes to that chat, with its history. */
  lemma {:induction false} SendGoesToSelected(c: Chat, id: SessionId, content: Text, newId: SessionId)
    requires Inv(c) && !c.isStreaming && newId !in c.issued && SessionAt(c, c.user, id).Some?
    ensures var after := Apply(Apply(c, StepSelect(id)), StepSend(content, newId));
            var history := SessionAt(c, c.user, id).value.messages + [Message(User, content)];
            && SessionAt(after, c.user, id).Some? && SessionAt(after, c.user, id).value.messages == history
            && after.streams == [InFlight(c.user, id, history, [], false)]
            && forall other :: other != id ==> SessionAt(after, c.user, other) == SessionAt(c, c.user, other)
  {
    hide Inv, SendMessage, SessionsOf;
    var mid := Apply(c, StepSelect(id));
    SelectionSelects(c, id);
    StepKeeps(c, StepSelect(id));
    forall other ensures other != id ==> SessionAt(Apply(mid, StepSend(content, newId)), c.user, other) == SessionAt(c, c.user, other) {
      SendAppends(mid, content, newId, c.user, other);
    }
    SendAppends(mid, content, newId, c.user, id);
  }

  // ---------------------------------------------------------------- new chat, deletion, stop

  /** A new chat is empty, untitled, first in the list and current; the display is cleared and the call in flight goes on. */
  lemma {:induction false} NewChatIsCurrent(c: Chat, id: SessionId)
    requires id !in c.issued
    ensures var after := Apply(c, StepNewChat(id));
            && SessionsOf(after.sessions, c.user) == [Session(id, U("New Chat"), [])] + SessionsOf(c.sessions, c.user)
            && CurrentOf(after.current, c.user) == Some(id) && CurrentSession(after) == Some(Session(id, U("New Chat"), []))
            && OthersKeep(c, after) && after.user == c.user && after.issued == c.issued + {id}
            && after.streamingContent == [] && after.streamingSession == None && after.error == None
            && after.isStreaming == c.isStreaming && after.controller == c.controller && |after.streams| == |c.streams|
            && forall i :: 0 <= i < |c.streams| ==> after.streams[i] == c.streams[i].(orphaned := true)
  {}

  /** Deleting takes one chat out of the list and leaves the others in order. */
  lemma {:induction false} WithoutCuts(front: seq<Session>, s: Session, back: seq<Session>)
    requires forall t :: t in front || t in back ==> t.id != s.id
    ensures Without(front + [s] + back, s.id) == front + back
    decreases |front|
  {
    var ss := front + [s] + back;
    if front == [] {
      assert ss[1..] == back;
      WithoutNothing(back, s.id);
      assert front + back == back;
    } else {
      assert ss[1..] == front[1..] + [s] + back;
      WithoutCuts(front[1..], s, back);
      assert [front[0]] + (front[1..] + back) == front + back;
    }
  }

  lemma {:induction false} WithoutNothing(ss: seq<Session>, id: SessionId)
    requires forall s :: s in ss ==> s.id != id
    ensures Without(ss, id) == ss
  {
    if ss != [] {
      WithoutNothing(ss[1..], id);
    }
  }

  /**
    Deleting the chat at position `i` leaves the others in order. If it was current, the first that
    is left becomes current, or none if none is left; otherwise the current chat stays.
   */
  lemma {:induction false} DeletionMovesOn(c: Chat, i: nat)
    requires Inv(c) && i < |SessionsOf(c.sessions, c.user)|
    ensures var ss := SessionsOf(c.sessions, c.user);
            var after, left := Apply(c, StepDelete(ss[i].id)), ss[..i] + ss[i + 1..];
            && SessionsOf(after.sessions, c.user) == left
            && (CurrentOf(c.current, c.user) == Some(ss[i].id) ==>
                  CurrentSession(after) == (if left == [] then None else Some(left[0])))
            && (CurrentOf(c.current, c.user) != Some(ss[i].id) ==> CurrentSession(after) == CurrentSession(c))
            && SameStream(c, after) && OthersKeep(c, after)
            && after.error == c.error && after.user == c.user && after.issued == c.issued
  {
    hide Inv, Without, FindSession;
    var ss := SessionsOf(c.sessions, c.user);
    var id := ss[i].id;
    RemovedFromList(c, i);
    var left := ss[..i] + ss[i + 1..];
    if left != [] {
      FirstIsFound(left);
    }
    var current := CurrentOf(c.current, c.user);
    if current.Some? && current != Some(id) {
      FindAfterDelete(ss, id, current.value);
    }
  }

  lemma {:induction false} RemovedFromList(c: Chat, i: nat)
    requires Inv(c) && i < |SessionsOf(c.sessions, c.user)|
    ensures var ss := SessionsOf(c.sessions, c.user);
            Without(ss, ss[i].id) == ss[..i] + ss[i + 1..]
  {
    hide Without;
    var ss := SessionsOf(c.sessions, c.user);
    assert GoodSessions(ss, c.issued);
    assert ss == ss[..i] + [ss[i]] + ss[i + 1..];
    WithoutCuts(ss[..i], ss[i], ss[i + 1..]);
  }

  lemma {:induction false} FirstIsFound(ss: seq<Session>)
    requires ss != []
    ensures FindSession(ss, ss[0].id) == Some(ss[0])
  {}

  /** Deleting a chat that does not exist, or is another user's, changes no chat. */
  lemma {:induction false} DeletionOfNothing(c: Chat, id: SessionId)
    requires SessionAt(c, c.user, id) == None && CurrentOf(c.current, c.user) != Some(id)
    ensures var after := Apply(c, StepDelete(id));
            SameChats(c, after) && SameStream(c, after) && OthersKeep(c, after) && CurrentSession(after) == CurrentSession(c)
  {
    WithoutNothing(SessionsOf(c.sessions, c.user), id);
  }

  /** A stop aborts the controller of the call in flight and waits for its callback: all else stays. */
  lemma {:induction false} StopAborts(c: Chat)
    ensures var after := Apply(c, StepStop);
            after == c.(controller := if c.controller.Some? then Some(AbortController(true)) else None)
  {}

  // ---------------------------------------------------------------- send, retry, edit

  /** A new call: the chat's messages as sent, the lock taken with a controller that is not aborted, an empty display. */
  ghost predicate Started(after: Chat, user: UserId, id: SessionId, history: seq<Message>) {
    && after.streams == [InFlight(user, id, history, [], false)]
    && after.isStreaming && after.controller == Some(AbortController(false))
    && after.streamingContent == [] && after.streamingSession == Some(id) && after.error == None
    && SessionAt(after, user, id).Some? && SessionAt(after, user, id).value.messages == history
  }

  /** A title: the message, or its first forty units and an ellipsis. */
  ghost predicate Entitles(title: Text, content: Text) {
    if |content| <= 40 then title == content
    else |title| == 41 && title[..40] == content[..40] && title[40] == 0x2026
  }

  lemma {:induction false} BeginStarts(c: Chat, id: SessionId, messages: seq<Message>, title: Text)
    requires c.streams == [] && SessionAt(c, c.user, id).Some?
    ensures Started(Begin(c, id, messages, title), c.user, id, messages)
    ensures SessionAt(Begin(c, id, messages, title), c.user, id).value.title == title
  {
    BeginWrites(c, id, messages, title, c.user, id);
  }

  /** A send starts a call on the current chat, or on a new one; the first message of a chat gives it its title. */
  lemma {:induction false} SendStarts(c: Chat, content: Text, id: SessionId)
    requires Inv(c) && !c.isStreaming && id !in c.issued
    ensures var found, after := CurrentSession(c), Apply(c, StepSend(content, id));
            var target := if found.Some? then found.value.id else id;
            var before := if found.Some? then found.value.messages else [];
            && Started(after, c.user, target, before + [Message(User, content)])
            && var title := SessionAt(after, c.user, target).value.title;
               if before == [] then Entitles(title, content) else title == found.value.title
  {
    hide GoodSessions, Begin;
    var found := CurrentSession(c);
    if found.Some? {
      var s := found.value;
      BeginStarts(c, s.id, s.messages + [Message(User, content)], if s.messages == [] then TitleOf(content) else s.title);
    } else {
      var c' := AddSession(c, id);
      AddSessionFrame(c, id);
      assert SessionAt(c', c.user, id) == Some(Session(id, NEW_CHAT, []));
      BeginStarts(c', id, [] + [Message(User, content)], TitleOf(content));
    }
  }

  /** An edit of message `index` drops it and all after it, and sends the new text in its place; the first message retitles. */
  lemma {:induction false} EditStarts(c: Chat, index: nat, content: Text)
    requires Inv(c) && !c.isStreaming && CurrentSession(c).Some? && index < |CurrentSession(c).value.messages|
    ensures var s, after := CurrentSession(c).value, Apply(c, StepEdit(index, content));
            && Started(after, c.user, s.id, s.messages[..index] + [Message(User, content)])
            && var title := SessionAt(after, c.user, s.id).value.title;
               if index == 0 then Entitles(title, content) else title == s.title
  {
    hide GoodSessions, Begin;
    var s := CurrentSession(c).value;
    BeginStarts(c, s.id, s.messages[..index] + [Message(User, content)], if index == 0 then TitleOf(content) else s.title);
  }

  /** A retry sends the chat again without a final reply, under its old title. */
  lemma {:induction false} RetryStarts(c: Chat)
    requires Inv(c) && !c.isStreaming && CurrentSession(c).Some? && CurrentSession(c).value.messages != []
    ensures var s, after := CurrentSession(c).value, Apply(c, StepRetry);
            var n := |s.messages|;
            && Started(after, c.user, s.id, if s.messages[n - 1].role == User then s.messages else s.messages[..n - 1])
            && SessionAt(after, c.user, s.id).value.title == s.title
  {
    hide GoodSessions, Begin, RetryMessages;
    var s := CurrentSession(c).value;
    RetryAlwaysSends(c);
    FoundIsGood(c);
    RetryRewrites(c);
    RetryKeepsTurn(s.messages);
    BeginStarts(c, s.id, RetryMessages(s.messages).value, s.title);
  }

  lemma {:induction false} RetryKeepsTurn(m: seq<Message>)
    requires Conversation(m) && m != [] && RetryMessages(m).Some?
    ensures RetryMessages(m).value == if m[|m| - 1].role == User then m else m[..|m| - 1]
  {}

  /** While a call is in flight, and where there is nothing to retry or edit, the three actions change nothing. */
  lemma {:induction false} NothingToDo(c: Chat, content: Text, id: SessionId, index: int)
    requires id !in c.issued
    ensures c.isStreaming ==>
      Apply(c, StepSend(content, id)) == c && Apply(c, StepRetry) == c && Apply(c, StepEdit(index, content)) == c
    ensures CurrentSession(c).None? ==> Apply(c, StepRetry) == c && Apply(c, StepEdit(index, content)) == c
    ensures CurrentSession(c).Some? && CurrentSession(c).value.messages == [] ==> Apply(c, StepRetry) == c
    ensures CurrentSession(c).Some? && !(0 <= index < |CurrentSession(c).value.messages|) ==> Apply(c, StepEdit(index, content)) == c
  {}

  // ---------------------------------------------------------------- callbacks, users, reload

  /** An error is shown, frees the lock, and changes no chat. */
  lemma {:induction false} ErrorIsShown(c: Chat, message: Text)
    requires Inv(c) && c.streams != []
    ensures var after := Apply(c, StepError(0, message));
            && after.error == Some(message) && SameChats(c, after) && OthersKeep(c, after)
            && CurrentOf(after.current, c.user) == CurrentOf(c.current, c.user)
            && !after.isStreaming && after.controller == None && after.streams == []
            && after.streamingContent == [] && after.streamingSession == None
  {}

  /** Text is blank, and no reply, exactly when it is all white space. */
  lemma {:induction false} BlankIsSpace(content: Text)
    ensures Blank(content) <==> AllSpace(content)
  {
    TrimNothing(content);
  }

  /** A reload keeps chats and choices of every user, and nothing else. */
  lemma {:induction false} ReloadKeepsChats(c: Chat)
    ensures var after := Apply(c, StepReload);
            && SameChats(c, after) && OthersKeep(c, after)
            && CurrentSession(after) == CurrentSession(c) && after.user == c.user && after.issued == c.issued
            && !after.isStreaming && after.controller == None && after.streams == []
            && after.streamingContent == [] && after.streamingSession == None && after.error == None
  {}

  /** Signing in as another user shows that user's chats and changes none; clearing an error clears only that. */
  lemma {:induction false} UserAndError(c: Chat, user: UserId)
    ensures Apply(c, StepUser(user)) == c.(user := user)
    ensures Apply(c, StepClearError) == c.(error := None)
    ensures CurrentOf(c.current, user).Some? ==>
      CurrentSession(Apply(c, StepUser(user))) == SessionAt(c, user, CurrentOf(c.current, user).value)
  {}
}
