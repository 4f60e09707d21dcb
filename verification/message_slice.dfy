/** The active-conversation slice (src/redux/slices/messageSlice.ts): the
    history window, the request it assembles for the completion endpoint,
    and its reducers. */
module MessageSlice {
  import opened Wrappers
  import opened Types
  import opened Wire
  import opened Entity
  import Store
  import ChatSlice

  /** A conversation longer than this is cut down to a window. */
  const WindowLimit: nat := 11
  /** How many of the most recent messages a cut-down window keeps. */
  const RecentCount: nat := 10

  const SystemPrompt: string := "send messages in markdown format"

  /** The state a fresh app starts with: one system instruction. */
  const InitialState: seq<Message> := [Message("1", System, SystemPrompt, Some([]), None)]

  /** The first send of a fresh app forwards the system instruction, as a
      single text part, ahead of the new message. */
  lemma FirstRequestCarriesSystemPrompt(m: Message)
    ensures |Request(InitialState, m)| == 2
    ensures Request(InitialState, m)[0] == Turn(System, Parts([TextPart(SystemPrompt)]))
    ensures Request(InitialState, m)[1] == OutgoingTurn(m)
  {
    assert Window(InitialState) == InitialState;
  }

  /** The history forwarded with a new message: everything, or once there are
      more than 11 messages the first one followed by the 10 most recent. The
      window keeps the first message and a suffix of the conversation. */
  function Window(ms: seq<Message>): (w: seq<Message>)
    ensures |w| == (if |ms| <= WindowLimit then |ms| else WindowLimit)
    ensures |ms| > 0 ==> w[0] == ms[0]
    ensures forall k :: 1 <= k < |w| ==> w[k] == ms[|ms| - |w| + k]
  {
    if |ms| > WindowLimit then [ms[0]] + ms[|ms| - RecentCount..] else ms
  }

  /** A conversation of at most 11 messages is forwarded whole. */
  lemma WindowOfShortConversation(ms: seq<Message>)
    requires |ms| <= WindowLimit
    ensures Window(ms) == ms
  {
  }

  /** A longer one is forwarded as its first message and its last 10, 11 in all. */
  lemma WindowOfLongConversation(ms: seq<Message>)
    requires |ms| > WindowLimit
    ensures |Window(ms)| == WindowLimit
    ensures Window(ms) == [ms[0]] + ms[|ms| - RecentCount..]
  {
  }

  /** A window is its own window. */
  lemma WindowIdempotent(ms: seq<Message>)
    ensures Window(Window(ms)) == Window(ms)
  {
  }

  /** The most recent message is always forwarded. */
  lemma WindowEndsWithLatest(ms: seq<Message>, m: Message)
    ensures var w := Window(ms + [m]); |w| > 0 && w[|w| - 1] == m
  {
  }

  /** A history message as a turn: its role verbatim and a text part followed
      by one data-URI image part per image, in order. A message without
      images gets the text part alone. */
  function HistoryTurn(m: Message): (t: Turn)
    ensures t.role == m.role
    ensures t.content.Parts?
    ensures |t.content.parts| == 1 + |ImagesOf(m)|
    ensures t.content.parts[0] == TextPart(m.text)
    ensures forall i :: 0 <= i < |ImagesOf(m)| ==>
      t.content.parts[1 + i] == ImageUrlPart(DataUri(ImagesOf(m)[i]))
  {
    if m.images.Some? && |m.images.value| > 0 then
      Turn(m.role, Parts([TextPart(m.text)] + ImageParts(m.images.value)))
    else
      Turn(m.role, Parts([TextPart(m.text)]))
  }

  /** The new message as a turn: always in the user role, whatever its type;
      with images it has the same part list as a history turn, without images
      its content is the plain text. */
  function OutgoingTurn(m: Message): (t: Turn)
    ensures t.role == User
    ensures t.content.Plain? <==> |ImagesOf(m)| == 0
    ensures t.content.Plain? ==> t.content.s == m.text
    ensures t.content.Parts? ==> t.content == HistoryTurn(m).content
  {
    if m.images.Some? && |m.images.value| > 0 then
      Turn(User, Parts([TextPart(m.text)] + ImageParts(m.images.value)))
    else
      Turn(User, Plain(m.text))
  }

  /** Both turn shapes carry the message's text and images, which can be read back. */
  lemma TurnsCarryMessage(m: Message)
    ensures TextOf(HistoryTurn(m).content) == Some(m.text)
    ensures ImagesOfContent(HistoryTurn(m).content) == ImagesOf(m)
    ensures TextOf(OutgoingTurn(m).content) == Some(m.text)
    ensures ImagesOfContent(OutgoingTurn(m).content) == ImagesOf(m)
  {
    var parts := HistoryTurn(m).content.parts;
    assert parts == [TextPart(m.text)] + ImageParts(ImagesOf(m));
    TextThenImages(m.text, ImagesOf(m));
  }

  /** The request for sending `m` when the state holds `prior`: one history
      turn per windowed message, in order, then the outgoing turn. */
  function Request(prior: seq<Message>, m: Message): (turns: seq<Turn>)
    ensures |turns| == |Window(prior)| + 1
    ensures |turns| <= WindowLimit + 1
    ensures forall i :: 0 <= i < |turns| - 1 ==> turns[i] == HistoryTurn(Window(prior)[i])
    ensures turns[|turns| - 1] == OutgoingTurn(m)
  {
    var w := Window(prior);
    seq(|w|, i requires 0 <= i < |w| => HistoryTurn(w[i])) + [OutgoingTurn(m)]
  }

  /** Every turn of a request can be traced to its message: the same role
      (user for the last), the same text and the same images in order. */
  lemma RequestCarriesWindow(prior: seq<Message>, m: Message)
    ensures var turns := Request(prior, m); var w := Window(prior);
      && (forall i :: 0 <= i < |w| ==>
            && turns[i].role == w[i].role
            && TextOf(turns[i].content) == Some(w[i].text)
            && ImagesOfContent(turns[i].content) == ImagesOf(w[i]))
      && turns[|w|].role == User
      && TextOf(turns[|w|].content) == Some(m.text)
      && ImagesOfContent(turns[|w|].content) == ImagesOf(m)
  {
    var w := Window(prior);
    forall i | 0 <= i < |w| {
      TurnsCarryMessage(w[i]);
    }
    TurnsCarryMessage(m);
  }

  /** `addMessage`: appends at the end and leaves the earlier messages alone. */
  function AddMessage(state: seq<Message>, m: Message): (r: seq<Message>)
    ensures |r| == |state| + 1
    ensures r[..|state|] == state
    ensures r[|state|] == m
  {
    state + [m]
  }

  /** The assistant message the fulfilled reducer appends. */
  function AssistantReply(id: string, text: string): Message {
    Message(id, Assistant, text, Some([]), None)
  }

  /** `sendMessage.fulfilled`: appends an assistant message holding the
      payload text and no images; `id` is the clock reading. */
  function Fulfilled(state: seq<Message>, id: string, reply: string): (r: seq<Message>)
    ensures |r| == |state| + 1
    ensures r[..|state|] == state
    ensures r[|state|].role == Assistant && r[|state|].text == reply && r[|state|].images == Some([])
  {
    state + [AssistantReply(id, reply)]
  }

  /** `clearChat`: empties the conversation, the system instruction included. */
  function ClearChat(state: seq<Message>): (r: seq<Message>)
    ensures |r| == 0
  {
    []
  }

  /** After a clear the system prompt is gone too: the next request is the outgoing turn alone. */
  lemma ClearDropsSystemPrompt(state: seq<Message>, m: Message)
    ensures Request(ClearChat(state), m) == [OutgoingTurn(m)]
  {
  }

  /** What a send produces: the request it assembled and the state after it. */
  datatype SendResult = SendResult(request: seq<Turn>, state: seq<Message>)

  /** `sendMessage` as written: the thunk returns `''` before it reaches the
      completion call, so the fulfilled reducer always appends an empty
      assistant message, whatever the endpoint would have answered. */
  function SendMessageAsWritten(state: seq<Message>, m: Message, replyId: string): (r: SendResult)
    ensures r.request == Request(state, m)
    ensures |r.state| == |state| + 2
    ensures r.state[..|state|] == state && r.state[|state|] == m
    ensures r.state[|state| + 1] == AssistantReply(replyId, "")
  {
    SendResult(Request(state, m), Fulfilled(AddMessage(state, m), replyId, ""))
  }

  /** `sendMessage` as intended: the request is built from the state read
      before the new message is added; the reply of the endpoint (None when
      the call fails) is appended after it. */
  function SendMessage(state: seq<Message>, m: Message, replyId: string, reply: Option<string>): (r: SendResult)
    ensures r.request == Request(state, m)
    ensures |r.state| == |state| + (if reply.Some? then 2 else 1)
    ensures r.state[..|state|] == state && r.state[|state|] == m
    ensures reply.Some? ==> r.state[|state| + 1] == AssistantReply(replyId, reply.value)
  {
    var sent := AddMessage(state, m);
    SendResult(Request(state, m), if reply.Some? then Fulfilled(sent, replyId, reply.value) else sent)
  }

  /** Any non-empty reply is lost by the code as written. */
  lemma SendMessageAsWrittenLosesReply(state: seq<Message>, m: Message, replyId: string, reply: string)
    requires reply != ""
    ensures SendMessageAsWritten(state, m, replyId).state[|state| + 1].text == ""
    ensures SendMessage(state, m, replyId, Some(reply)).state[|state| + 1].text == reply
    ensures SendMessageAsWritten(state, m, replyId).state != SendMessage(state, m, replyId, Some(reply)).state
  {
  }

  /** The message sent is part of the window of the next send, whatever the
      endpoint answers: it ends the window after a failed call, and is
      followed only by the reply otherwise, as in the code as written. */
  lemma NextRequestIncludesSent(state: seq<Message>, m: Message, replyId: string, reply: Option<string>)
    ensures var w := Window(SendMessage(state, m, replyId, reply).state);
      var back := if reply.Some? then 2 else 1;
      |w| >= back && w[|w| - back] == m
    ensures var w := Window(SendMessageAsWritten(state, m, replyId).state);
      |w| >= 2 && w[|w| - 2] == m
  {
    var s := SendMessage(state, m, replyId, reply).state;
    var back := if reply.Some? then 2 else 1;
    assert s[|s| - back] == m;
    var t := SendMessageAsWritten(state, m, replyId).state;
    assert t[|t| - 2] == m;
  }

  /** `loadMessagesFromDB`: the stored messages of a chat, in stored order; no
      id (or the falsy id 0) and an unknown id both give none. */
  function LoadMessagesFromDB(db: Store.Db, chatId: Option<int>): (rows: seq<MessageRow>)
    ensures chatId.None? || chatId == Some(0) ==> rows == []
    ensures chatId.Some? && chatId.value !in db.chats ==> rows == []
    ensures chatId.Some? && chatId.value != 0 && chatId.value in db.chats ==>
      rows == db.chats[chatId.value].messages
  {
    if chatId.None? || chatId.value == 0 then []
    else match Store.Find(db, chatId.value)
      case None => []
      case Some(chat) => chat.messages
  }

  /** `loadMessagesFromDB.fulfilled`: the state becomes the loaded messages,
      each converted with `toMessage`, in the same order. */
  function LoadedMessages(state: seq<Message>, rows: seq<MessageRow>): (r: seq<Message>)
    ensures |r| == |rows|
    ensures forall i :: 0 <= i < |r| ==> r[i] == ToMessage(rows[i])
  {
    seq(|rows|, i requires 0 <= i < |rows| => ToMessage(rows[i]))
  }

  /** Saving a conversation and loading the new chat gives back the same
      messages, in the same order, each with its type, text and images. */
  lemma SaveThenLoad(db: Store.Db, title: string, ms: seq<Message>, createdAt: string, state: seq<Message>)
    requires Store.Valid(db)
    ensures
      var saved := ChatSlice.SaveChatToDB(db, title, ms, createdAt);
      var loaded := LoadedMessages(state, LoadMessagesFromDB(saved, Some(db.nextChatId)));
      && |loaded| == |ms|
      && forall i :: 0 <= i < |ms| ==>
           && loaded[i].role == ms[i].role
           && loaded[i].text == ms[i].text
           && loaded[i].images == Some(ImagesOf(ms[i]))
           && loaded[i].inDb.None?
  {
  }
}
