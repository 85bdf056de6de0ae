/**
  The chat store on values: its fields, who is signed in, and the completions in flight. Every
  action and every callback is one atomic step, as in a single-threaded page. Timestamps are not
  modelled; session ids and texts are in code units.
 */
module ChatState {
  import opened Wrappers
  import opened CodeUnits

  type UserId = nat

  type SessionId = nat

  datatype Role = User | Assistant | System

  datatype Message = Message(role: Role, content: Text)

  datatype Session = Session(id: SessionId, title: Text, messages: seq<Message>)

  datatype AbortController = AbortController(aborted: bool)

  /**
    A call of streamChatCompletion that has not made its terminal call: the user and the session
    its callbacks captured and the messages it sent. `heard` is all it has received and `orphaned`
    tells whether newChat has run since it began; no code reads these two.
   */
  datatype InFlight = InFlight(user: UserId, session: SessionId, sent: seq<Message>, heard: Text, orphaned: bool)

  /** `issued` collects every session id ever generated. */
  datatype Chat = Chat(
    sessions: map<UserId, seq<Session>>,
    current: map<UserId, Option<SessionId>>,
    streamingContent: Text,
    streamingSession: Option<SessionId>,
    isStreaming: bool,
    error: Option<Text>,
    controller: Option<AbortController>,
    user: UserId,
    streams: seq<InFlight>,
    issued: set<SessionId>)

  const NEW_CHAT: Text := U("New Chat")

  /** The title of a chat: forty units and an ellipsis if there are more. */
  function TitleOf(content: Text): Text {
    if |content| > 40 then content[..40] + [0x2026] else content
  }

  predicate Blank(content: Text) {
    Trim(content) == []
  }

  // ---------------------------------------------------------------- lists of sessions

  function SessionsOf(sessions: map<UserId, seq<Session>>, user: UserId): seq<Session> {
    if user in sessions then sessions[user] else []
  }

  function CurrentOf(current: map<UserId, Option<SessionId>>, user: UserId): Option<SessionId> {
    if user in current then current[user] else None
  }

  function FindSession(ss: seq<Session>, id: SessionId): (r: Option<Session>)
    ensures r.Some? ==> r.value in ss && r.value.id == id
    ensures r.None? ==> forall s :: s in ss ==> s.id != id
  {
    if ss == [] then None else if ss[0].id == id then Some(ss[0]) else FindSession(ss[1..], id)
  }

  function Without(ss: seq<Session>, id: SessionId): (r: seq<Session>)
    ensures forall s :: s in r <==> s in ss && s.id != id
  {
    if ss == [] then []
    else if ss[0].id == id then Without(ss[1..], id)
    else [ss[0]] + Without(ss[1..], id)
  }

  /** The sessions with one of them given these messages and this title. */
  function WithMessages(ss: seq<Session>, id: SessionId, messages: seq<Message>, title: Text): seq<Session> {
    seq(|ss|, i requires 0 <= i < |ss| => if ss[i].id == id then Session(id, title, messages) else ss[i])
  }

  function WithReply(ss: seq<Session>, id: SessionId, reply: Message): seq<Session> {
    seq(|ss|, i requires 0 <= i < |ss| => if ss[i].id == id then ss[i].(messages := ss[i].messages + [reply]) else ss[i])
  }

  function CurrentSession(c: Chat): Option<Session> {
    var id := CurrentOf(c.current, c.user);
    if id.None? then None else FindSession(SessionsOf(c.sessions, c.user), id.value)
  }

  // ---------------------------------------------------------------- steps

  function AddSession(c: Chat, id: SessionId): Chat {
    c.(sessions := c.sessions[c.user := [Session(id, NEW_CHAT, [])] + SessionsOf(c.sessions, c.user)],
       current := c.current[c.user := Some(id)],
       issued := c.issued + {id})
  }

  function Orphan(f: InFlight): InFlight {
    f.(orphaned := true)
  }

  function NewChat(c: Chat, id: SessionId): Chat {
    AddSession(c, id).(streamingContent := [], streamingSession := None, error := None,
                       streams := seq(|c.streams|, i requires 0 <= i < |c.streams| => Orphan(c.streams[i])))
  }

  function SelectSession(c: Chat, id: SessionId): Chat {
    c.(current := c.current[c.user := Some(id)], error := None)
  }

  function DeleteSession(c: Chat, id: SessionId): Chat {
    var remaining := Without(SessionsOf(c.sessions, c.user), id);
    var current := CurrentOf(c.current, c.user);
    var newCurrent := if current == Some(id) then (if remaining == [] then None else Some(remaining[0].id)) else current;
    c.(sessions := c.sessions[c.user := remaining], current := c.current[c.user := newCurrent])
  }

  function StopInference(c: Chat): Chat {
    if c.controller.Some? then c.(controller := Some(AbortController(true))) else c
  }

  /** The common end of send, retry and edit: store the messages, take the lock and start the call. */
  function Begin(c: Chat, id: SessionId, messages: seq<Message>, title: Text): Chat {
    c.(sessions := c.sessions[c.user := WithMessages(SessionsOf(c.sessions, c.user), id, messages, title)],
       isStreaming := true, streamingContent := [], streamingSession := Some(id), error := None,
       controller := Some(AbortController(false)),
       streams := c.streams + [InFlight(c.user, id, messages, [], false)])
  }

  function SendMessage(c: Chat, content: Text, id: SessionId): Chat {
    if c.isStreaming then c
    else
      var found := CurrentSession(c);
      var c' := if found.None? then AddSession(c, id) else c;
      var session := if found.None? then Session(id, NEW_CHAT, []) else found.value;
      Begin(c', session.id, session.messages + [Message(User, content)],
            if session.messages == [] then TitleOf(content) else session.title)
  }

  /** The messages a retry sends: without a final assistant reply, if a user message is then last. */
  function RetryMessages(messages: seq<Message>): Option<seq<Message>> {
    if messages == [] then None
    else
      var kept := if messages[|messages| - 1].role == Assistant then messages[..|messages| - 1] else messages;
      if kept != [] && kept[|kept| - 1].role == User then Some(kept) else None
  }

  function RetryLastMessage(c: Chat): Chat {
    var found := CurrentSession(c);
    if c.isStreaming || found.None? || RetryMessages(found.value.messages).None? then c
    else Begin(c, found.value.id, RetryMessages(found.value.messages).value, found.value.title)
  }

  function EditMessage(c: Chat, index: int, content: Text): Chat {
    var found := CurrentSession(c);
    if c.isStreaming || found.None? || !(0 <= index < |found.value.messages|) then c
    else Begin(c, found.value.id, found.value.messages[..index] + [Message(User, content)],
               if index == 0 then TitleOf(content) else found.value.title)
  }

  /** Call `k`'s onChunk. */
  function OnChunk(c: Chat, k: nat, chunk: Text): Chat
    requires k < |c.streams|
  {
    var f := c.streams[k];
    var c' := c.(streams := c.streams[k := f.(heard := f.heard + chunk)]);
    if c.streamingSession == Some(f.session) then c'.(streamingContent := c.streamingContent + chunk) else c'
  }

  function Release(c: Chat, k: nat): Chat
    requires k < |c.streams|
  {
    c.(streamingContent := [], streamingSession := None, isStreaming := false, controller := None,
       streams := c.streams[..k] + c.streams[k + 1..])
  }

  function OnDone(c: Chat, k: nat): Chat
    requires k < |c.streams|
  {
    var f := c.streams[k];
    if Blank(c.streamingContent) then Release(c, k)
    else Release(c, k).(sessions :=
      c.sessions[f.user := WithReply(SessionsOf(c.sessions, f.user), f.session, Message(Assistant, c.streamingContent))])
  }

  function OnError(c: Chat, k: nat, message: Text): Chat
    requires k < |c.streams|
  {
    Release(c, k).(error := Some(message))
  }

  /** Another user signs in, or nobody is signed in any more. */
  function ChangeUser(c: Chat, user: UserId): Chat {
    c.(user := user)
  }

  /** What `partialize` writes to local storage; the model name aside. */
  datatype Persisted = Persisted(sessions: map<UserId, seq<Session>>, current: map<UserId, Option<SessionId>>)

  function Partialize(c: Chat): Persisted {
    Persisted(c.sessions, c.current)
  }

  /** A page that opens on stored sessions. */
  function Rehydrate(p: Persisted, user: UserId, issued: set<SessionId>): Chat {
    Chat(p.sessions, p.current, [], None, false, None, None, user, [], issued)
  }

  /** A page reload: the calls in flight die with the page. */
  function Reload(c: Chat): Chat {
    Rehydrate(Partialize(c), c.user, c.issued)
  }

  function ClearError(c: Chat): Chat {
    c.(error := None)
  }

  const FRESH: Chat := Chat(map[], map[], [], None, false, None, None, 0, [], {})

  datatype Step =
    | StepNewChat(id: SessionId)
    | StepSelect(id: SessionId)
    | StepDelete(id: SessionId)
    | StepStop
    | StepSend(content: Text, id: SessionId)
    | StepRetry
    | StepEdit(index: int, content: Text)
    | StepChunk(k: nat, chunk: Text)
    | StepDone(k: nat)
    | StepError(k: nat, message: Text)
    | StepUser(user: UserId)
    | StepReload
    | StepClearError

  /** Generated ids are new, and only a call in flight makes callbacks. */
  predicate Enabled(c: Chat, step: Step) {
    match step
    case StepNewChat(id) => id !in c.issued
    case StepSend(_, id) => id !in c.issued
    case StepChunk(k, _) => k < |c.streams|
    case StepDone(k) => k < |c.streams|
    case StepError(k, _) => k < |c.streams|
    case _ => true
  }

  function Apply(c: Chat, step: Step): Chat
    requires Enabled(c, step)
  {
    match step
    case StepNewChat(id) => NewChat(c, id)
    case StepSelect(id) => SelectSession(c, id)
    case StepDelete(id) => DeleteSession(c, id)
    case StepStop => StopInference(c)
    case StepSend(content, id) => SendMessage(c, content, id)
    case StepRetry => RetryLastMessage(c)
    case StepEdit(index, content) => EditMessage(c, index, content)
    case StepChunk(k, chunk) => OnChunk(c, k, chunk)
    case StepDone(k) => OnDone(c, k)
    case StepError(k, message) => OnError(c, k, message)
    case StepUser(user) => ChangeUser(c, user)
    case StepReload => Reload(c)
    case StepClearError => ClearError(c)
  }

  predicate CanRun(c: Chat, steps: seq<Step>)
    decreases |steps|
  {
    steps == [] || (Enabled(c, steps[0]) && CanRun(Apply(c, steps[0]), steps[1..]))
  }

  function Run(c: Chat, steps: seq<Step>): Chat
    requires CanRun(c, steps)
    decreases |steps|
  {
    if steps == [] then c else Run(Apply(c, steps[0]), steps[1..])
  }
}
