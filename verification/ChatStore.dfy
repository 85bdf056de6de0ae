/** The zustand store of `chatStore.ts`: one object whose actions and callbacks update its fields. */
module ChatStoring {
  import opened Wrappers
  import opened CodeUnits
  import opened ChatState

  /** What an action passes to streamChatCompletion: the history, and the two ids its callbacks capture. */
  datatype Call = Call(user: UserId, session: SessionId, messages: seq<Message>)

  class ChatStore {
    var sessionsByUser: map<UserId, seq<Session>>
    var currentSessionIdByUser: map<UserId, Option<SessionId>>
    var streamingContent: Text
    var streamingSessionId: Option<SessionId>
    var isStreaming: bool
    var error: Option<Text>
    var abortController: Option<AbortController>
    var user: UserId                   // the auth store's user, 0 for 'anonymous'
    ghost var streams: seq<InFlight>   // the calls that have not ended
    ghost var issued: set<SessionId>   // the ids generated so far

    /** The state of the page as a value. */
    ghost function View(): Chat
      reads this
    {
      Chat(sessionsByUser, currentSessionIdByUser, streamingContent, streamingSessionId, isStreaming, error,
           abortController, user, streams, issued)
    }

    constructor ()
      ensures View() == FRESH
    {
      sessionsByUser, currentSessionIdByUser := map[], map[];
      streamingContent, streamingSessionId, isStreaming, error, abortController := [], None, false, None, None;
      user, streams, issued := 0, [], {};
    }

    /** A page that opens with what local storage kept. */
    constructor Rehydrated(stored: Persisted, user: UserId, ghost issued: set<SessionId>)
      ensures View() == Rehydrate(stored, user, issued)
    {
      sessionsByUser, currentSessionIdByUser := stored.sessions, stored.current;
      streamingContent, streamingSessionId, isStreaming, error, abortController := [], None, false, None, None;
      this.user, streams, this.issued := user, [], issued;
    }

    method PartializeState() returns (stored: Persisted)
      ensures stored == Partialize(View())
    {
      stored := Persisted(sessionsByUser, currentSessionIdByUser);
    }

    method SetUser(user: UserId)
      modifies this`user
      ensures View() == ChangeUser(old(View()), user)
    {
      this.user := user;
    }

    method GetSessions() returns (sessions: seq<Session>)
      ensures sessions == SessionsOf(View().sessions, user)
    {
      sessions := if user in sessionsByUser then sessionsByUser[user] else [];
    }

    /** The first session with the current id. */
    method FindCurrentSession() returns (session: Option<Session>)
      ensures session == CurrentSession(View())
    {
      var sessions := GetSessions();
      var currentId := CurrentOf(currentSessionIdByUser, user);
      var i := 0;
      while i < |sessions|
        invariant i <= |sessions|
        invariant currentId.Some? ==> FindSession(sessions, currentId.value) == FindSession(sessions[i..], currentId.value)
      {
        if currentId == Some(sessions[i].id) {
          return Some(sessions[i]);
        }
        i := i + 1;
      }
      return None;
    }

    method NewChatAction(id: SessionId)
      modifies this
      ensures View() == NewChat(old(View()), id)
    {
      var session := Session(id, NEW_CHAT, []);
      var userSessions := GetSessions();
      sessionsByUser := sessionsByUser[user := [session] + userSessions];
      currentSessionIdByUser := currentSessionIdByUser[user := Some(session.id)];
      streamingContent, streamingSessionId, error := [], None, None;
      streams := seq(|streams|, i requires 0 <= i < |streams| reads this => Orphan(streams[i]));
      issued := issued + {id};
      assert streams == NewChat(old(View()), id).streams;
    }

    method SelectSessionAction(id: SessionId)
      modifies this
      ensures View() == SelectSession(old(View()), id)
    {
      currentSessionIdByUser := currentSessionIdByUser[user := Some(id)];
      error := None;
    }

    method DeleteSessionAction(id: SessionId)
      modifies this
      ensures View() == DeleteSession(old(View()), id)
    {
      var userSessions := GetSessions();
      var currentId := CurrentOf(currentSessionIdByUser, user);
      var remaining := Without(userSessions, id);
      var newCurrentId := currentId;
      if currentId == Some(id) {
        newCurrentId := if |remaining| > 0 then Some(remaining[0].id) else None;
      }
      sessionsByUser := sessionsByUser[user := remaining];
      currentSessionIdByUser := currentSessionIdByUser[user := newCurrentId];
    }

    method StopInferenceAction()
      modifies this`abortController
      ensures View() == StopInference(old(View()))
    {
      if abortController.Some? {
        abortController := Some(AbortController(true));
      }
    }

    /** The last `set` of the three sending actions, and their call of streamChatCompletion. */
    method BeginStream(id: SessionId, updatedMessages: seq<Message>, title: Text) returns (call: Call)
      modifies this
      ensures View() == Begin(old(View()), id, updatedMessages, title)
      ensures call == Call(user, id, updatedMessages)
    {
      var userSessions := GetSessions();
      sessionsByUser := sessionsByUser[user := WithMessages(userSessions, id, updatedMessages, title)];
      isStreaming, streamingContent, streamingSessionId, error := true, [], Some(id), None;
      abortController := Some(AbortController(false));
      streams := streams + [InFlight(user, id, updatedMessages, [], false)];
      call := Call(user, id, updatedMessages);
    }

    /** `id` is the generated id, used only when there is no current session. */
    method SendMessageAction(content: Text, id: SessionId) returns (call: Option<Call>)
      modifies this
      ensures View() == SendMessage(old(View()), content, id)
      ensures call.Some? <==> !old(isStreaming)
      ensures call.Some? ==> |streams| > 0
                             && streams[|streams| - 1] == InFlight(call.value.user, call.value.session, call.value.messages, [], false)
    {
      if isStreaming {
        return None;
      }
      var found := FindCurrentSession();
      if found.None? {
        var newSession := Session(id, NEW_CHAT, []);
        var userSessions := GetSessions();
        sessionsByUser := sessionsByUser[user := [newSession] + userSessions];
        currentSessionIdByUser := currentSessionIdByUser[user := Some(newSession.id)];
        issued := issued + {id};
        found := Some(newSession);
      }
      var session := found.value;
      var updatedMessages := session.messages + [Message(User, content)];
      var isFirstMessage := |session.messages| == 0;
      var title := if isFirstMessage then TitleOf(content) else session.title;
      var started := BeginStream(session.id, updatedMessages, title);
      call := Some(started);
    }

    method RetryLastMessageAction() returns (call: Option<Call>)
      modifies this
      ensures View() == RetryLastMessage(old(View()))
      ensures call.Some? ==> |streams| > 0
                             && streams[|streams| - 1] == InFlight(call.value.user, call.value.session, call.value.messages, [], false)
      ensures call.None? ==> View() == old(View())
    {
      if isStreaming {
        return None;
      }
      var found := FindCurrentSession();
      if found.None? || |found.value.messages| == 0 {
        return None;
      }
      var updatedMessages := found.value.messages;
      var lastMsg := updatedMessages[|updatedMessages| - 1];
      if lastMsg.role == Assistant {
        updatedMessages := updatedMessages[..|updatedMessages| - 1];
      }
      if |updatedMessages| == 0 {
        return None;
      }
      var lastUserMsg := updatedMessages[|updatedMessages| - 1];
      if lastUserMsg.role != User {
        return None;
      }
      var started := BeginStream(found.value.id, updatedMessages, found.value.title);
      call := Some(started);
    }

    method EditMessageAction(index: int, newContent: Text) returns (call: Option<Call>)
      modifies this
      ensures View() == EditMessage(old(View()), index, newContent)
      ensures call.Some? ==> |streams| > 0
                             && streams[|streams| - 1] == InFlight(call.value.user, call.value.session, call.value.messages, [], false)
      ensures call.None? ==> View() == old(View())
    {
      if isStreaming {
        return None;
      }
      var found := FindCurrentSession();
      if found.None? || index < 0 || index >= |found.value.messages| {
        return None;
      }
      var updatedMessages := found.value.messages[..index];
      updatedMessages := updatedMessages + [Message(User, newContent)];
      var title := if index == 0 then TitleOf(newContent) else found.value.title;
      var started := BeginStream(found.value.id, updatedMessages, title);
      call := Some(started);
    }

    /** The callbacks of one call; `k` is its place among the calls in flight. */
    method OnChunkCallback(call: Call, ghost k: nat, chunk: Text)
      requires k < |streams| && streams[k].user == call.user && streams[k].session == call.session
      modifies this
      ensures View() == OnChunk(old(View()), k, chunk)
    {
      if streamingSessionId == Some(call.session) {
        streamingContent := streamingContent + chunk;
      }
      streams := streams[k := streams[k].(heard := streams[k].heard + chunk)];
    }

    method OnDoneCallback(call: Call, ghost k: nat)
      requires k < |streams| && streams[k].user == call.user && streams[k].session == call.session
      modifies this
      ensures View() == OnDone(old(View()), k)
    {
      var finalContent := streamingContent;
      if |Trim(finalContent)| > 0 {
        var assistantMsg := Message(Assistant, finalContent);
        var userSessions := SessionsOf(sessionsByUser, call.user);
        sessionsByUser := sessionsByUser[call.user := WithReply(userSessions, call.session, assistantMsg)];
        streamingContent, streamingSessionId, isStreaming, abortController := [], None, false, None;
      } else {
        streamingContent, streamingSessionId, isStreaming, abortController := [], None, false, None;
      }
      streams := streams[..k] + streams[k + 1..];
    }

    method OnErrorCallback(ghost k: nat, err: Text)
      requires k < |streams|
      modifies this
      ensures View() == OnError(old(View()), k, err)
    {
      error, isStreaming, streamingContent, streamingSessionId, abortController := Some(err), false, [], None, None;
      streams := streams[..k] + streams[k + 1..];
    }

    method ClearErrorAction()
      modifies this`error
      ensures View() == ClearError(old(View()))
    {
      error := None;
    }
  }
}
