/** The earlier chat screen (src/ChatScreen/index.tsx), which keeps its own
    conversation in component state, with at most one attachment per message,
    and writes saved chats with SQL inserts. */
module ChatScreen {
  import opened Wrappers
  import opened Types
  import opened Wire
  import Seqs
  import Text

  /** A message of this screen: one optional base64 `image` instead of a list. */
  datatype ScreenMessage = ScreenMessage(id: string, role: Role, text: string, image: Option<string>)

  /** The screen state the send, clear and save handlers read and write:
      the conversation, the input box and the pending attachment. */
  datatype Screen = Screen(messages: seq<ScreenMessage>, input: string, attachment: Option<string>)

  const InitialMessages: seq<ScreenMessage> :=
    [ScreenMessage("1", System, "send messages in markdown format", Some(""))]

  const InitialScreen: Screen := Screen(InitialMessages, "", None)

  predicate IsSystemMessage(m: ScreenMessage) {
    m.role == System
  }

  predicate IsShown(m: ScreenMessage) {
    m.role != System
  }

  /** The list the screen renders: the conversation without its system messages. */
  function Displayed(ms: seq<ScreenMessage>): (r: seq<ScreenMessage>)
    ensures forall i :: 0 <= i < |r| ==> r[i].role != System && r[i] in ms
    ensures forall i :: 0 <= i < |ms| && ms[i].role != System ==> ms[i] in r
    ensures |ms| == 0 ==> r == []
    ensures |ms| == 1 ==> r == (if ms[0].role != System then ms else [])
  {
    Seqs.Filter(IsShown, ms)
  }

  /** The rendered list of a longer conversation is the rendered lists of its
      parts, in order: with the one-message case this fixes order and
      multiplicity of what is shown. */
  lemma DisplayedAppend(a: seq<ScreenMessage>, b: seq<ScreenMessage>)
    ensures Displayed(a + b) == Displayed(a) + Displayed(b)
  {
    Seqs.FilterAppend(IsShown, a, b);
  }

  /** A history message as a turn: role verbatim, content the plain text; its image is not sent. */
  function HistoryTurn(m: ScreenMessage): (t: Turn)
    ensures t.role == m.role && t.content == Plain(m.text)
    ensures ImagesOfContent(t.content) == []
  {
    Turn(m.role, Plain(m.text))
  }

  /** The new message as a turn: a text part, then an image part when an
      attachment is pending. */
  function OutgoingTurn(input: string, attachment: Option<string>): (t: Turn)
    ensures t.role == User && t.content.Parts?
    ensures |t.content.parts| == (if Truthy(attachment) then 2 else 1)
    ensures t.content.parts[0] == TextPart(input)
    ensures Truthy(attachment) ==> t.content.parts[1] == ImageUrlPart(DataUri(attachment.value))
  {
    if Truthy(attachment) then
      Turn(User, Parts([TextPart(input), ImageUrlPart(DataUri(attachment.value))]))
    else
      Turn(User, Parts([TextPart(input)]))
  }

  /** The request a send posts, built from the messages as they were before
      the new one was added. */
  function Request(s: Screen): (turns: seq<Turn>)
    ensures |turns| == |s.messages| + 1
    ensures forall i :: 0 <= i < |s.messages| ==> turns[i] == HistoryTurn(s.messages[i])
    ensures turns[|s.messages|] == OutgoingTurn(s.input, s.attachment)
  {
    seq(|s.messages|, i requires 0 <= i < |s.messages| => HistoryTurn(s.messages[i]))
      + [OutgoingTurn(s.input, s.attachment)]
  }

  /** The last turn carries the pending attachment, if any, and no other image. */
  lemma RequestCarriesAttachment(s: Screen)
    ensures var turns := Request(s);
      && TextOf(turns[|s.messages|].content) == Some(s.input)
      && ImagesOfContent(turns[|s.messages|].content) == (if Truthy(s.attachment) then [s.attachment.value] else [])
  {
    var last := OutgoingTurn(s.input, s.attachment);
    if Truthy(s.attachment) {
      assert last.content.parts == [TextPart(s.input)] + ImageParts([s.attachment.value]);
      TextThenImages(s.input, [s.attachment.value]);
    } else {
      assert last.content.parts == [TextPart(s.input)] + ImageParts([]);
      TextThenImages(s.input, []);
    }
  }

  /** The outcome of pressing send. */
  datatype SendOutcome =
    | Ignored
    | Sent(request: seq<Turn>, screen: Screen)

  function UserMessage(s: Screen, id: string): ScreenMessage {
    ScreenMessage(id, User, s.input, s.attachment)
  }

  function AssistantMessage(id: string, text: string): ScreenMessage {
    ScreenMessage(id, Assistant, text, None)
  }

  /** `handleSend`: ignored for blank input. Otherwise the user message (the
      input text and the pending attachment) is appended, the input is
      cleared, the request goes out, the reply (None when the call fails) is
      appended, and the attachment is reset either way. `id` and `replyId`
      are clock readings. */
  function HandleSend(s: Screen, id: string, replyId: string, reply: Option<string>): (r: SendOutcome)
    ensures r.Ignored? <==> Text.IsBlank(s.input)
    ensures r.Sent? ==>
      && r.request == Request(s)
      && |r.screen.messages| == |s.messages| + (if reply.Some? then 2 else 1)
      && r.screen.messages[..|s.messages|] == s.messages
      && r.screen.messages[|s.messages|] == ScreenMessage(id, User, s.input, s.attachment)
      && (reply.Some? ==> r.screen.messages[|s.messages| + 1] == ScreenMessage(replyId, Assistant, reply.value, None))
      && r.screen.input == ""
      && r.screen.attachment.None?
  {
    if Text.IsBlank(s.input) then Ignored
    else
      var sent := s.messages + [UserMessage(s, id)];
      var after := if reply.Some? then sent + [AssistantMessage(replyId, reply.value)] else sent;
      Sent(Request(s), Screen(after, "", None))
  }

  /** A fresh screen shows nothing, and clearing it changes nothing: its only
      message is the system instruction. */
  lemma InitialScreenIsClear()
    ensures Displayed(InitialScreen.messages) == []
    ensures ClearChat(InitialScreen) == InitialScreen
  {
    assert InitialScreen.messages[0].role == System;
  }

  /** A send shows the new messages after the ones already shown. */
  lemma SendAppendsToDisplay(s: Screen, id: string, replyId: string, reply: Option<string>)
    requires !Text.IsBlank(s.input)
    ensures var r := HandleSend(s, id, replyId, reply);
      Displayed(r.screen.messages) == Displayed(s.messages) + r.screen.messages[|s.messages|..]
  {
    var r := HandleSend(s, id, replyId, reply);
    var added := r.screen.messages[|s.messages|..];
    assert r.screen.messages == s.messages + added;
    DisplayedAppend(s.messages, added);
    Seqs.FilterKeepsAll(IsShown, added);
  }

  /** `clearChat`: keeps the system messages, in order, and drops the attachment. */
  function ClearChat(s: Screen): (r: Screen)
    ensures forall i :: 0 <= i < |r.messages| ==> r.messages[i].role == System && r.messages[i] in s.messages
    ensures forall i :: 0 <= i < |s.messages| && s.messages[i].role == System ==> s.messages[i] in r.messages
    ensures |s.messages| == 0 ==> r.messages == []
    ensures |s.messages| == 1 ==> r.messages == (if s.messages[0].role == System then s.messages else [])
    ensures r.input == s.input && r.attachment.None?
  {
    Screen(Seqs.Filter(IsSystemMessage, s.messages), s.input, None)
  }

  /** Clearing a longer conversation keeps the system messages of each part,
      in order: with the one-message case this fixes order and multiplicity
      of what is kept. */
  lemma ClearChatAppend(s: Screen, a: seq<ScreenMessage>, b: seq<ScreenMessage>)
    ensures ClearChat(s.(messages := a + b)).messages
      == ClearChat(s.(messages := a)).messages + ClearChat(s.(messages := b)).messages
  {
    Seqs.FilterAppend(IsSystemMessage, a, b);
  }

  /** After a clear nothing is shown; clearing again changes nothing; the
      kept and the shown messages together account for the whole conversation. */
  lemma ClearShowsNothing(s: Screen)
    ensures Displayed(ClearChat(s).messages) == []
    ensures ClearChat(ClearChat(s)) == ClearChat(s)
    ensures |ClearChat(s).messages| + |Displayed(s.messages)| == |s.messages|
  {
    Seqs.FilterKeepsNone(IsShown, ClearChat(s).messages);
    Seqs.FilterIdempotent(IsSystemMessage, s.messages);
    Seqs.FilterPartition(IsSystemMessage, IsShown, s.messages);
  }

  /** One SQL insert. */
  datatype SqlRow =
    | SessionInsert(id: string, title: string, createdAt: string)
    | MessageInsert(id: string, role: Role, text: string, createdAt: string, image: string)

  datatype SaveOutcome = TitleRejected | Written(rows: seq<SqlRow>)

  function MessageInsertOf(m: ScreenMessage, now: string): SqlRow {
    MessageInsert(m.id, m.role, m.text, now, m.image.GetOr(""))
  }

  /** `saveChat`: a blank title is rejected with nothing written. Otherwise
      one session row, then one row per non-system message in order, its
      image defaulting to `''`. `sessionId` and `now` are clock readings. */
  function SaveChat(messages: seq<ScreenMessage>, title: string, sessionId: string, now: string): (r: SaveOutcome)
    ensures r.TitleRejected? <==> Text.IsBlank(title)
    ensures r.Written? ==>
      var shown := Displayed(messages);
      && |r.rows| == 1 + |shown|
      && r.rows[0] == SessionInsert(sessionId, title, now)
      && forall i :: 0 <= i < |shown| ==>
           r.rows[1 + i] == MessageInsert(shown[i].id, shown[i].role, shown[i].text, now, shown[i].image.GetOr(""))
  {
    if Text.IsBlank(title) then TitleRejected
    else
      var shown := Displayed(messages);
      var rows := seq(|shown|, i requires 0 <= i < |shown| => MessageInsertOf(shown[i], now));
      assert forall i :: 0 <= i < |shown| ==> ([SessionInsert(sessionId, title, now)] + rows)[1 + i] == rows[i];
      Written([SessionInsert(sessionId, title, now)] + rows)
  }

  /** A saved chat holds exactly what the screen shows: no system message is
      written, and a conversation with only system messages writes the session row alone. */
  lemma SaveWritesShownMessages(messages: seq<ScreenMessage>, title: string, sessionId: string, now: string)
    requires !Text.IsBlank(title)
    ensures var r := SaveChat(messages, title, sessionId, now);
      && (forall i :: 1 <= i < |r.rows| ==> r.rows[i].MessageInsert? && r.rows[i].role != System)
      && ((forall i :: 0 <= i < |messages| ==> messages[i].role == System) ==> |r.rows| == 1)
  {
    var r := SaveChat(messages, title, sessionId, now);
    var shown := Displayed(messages);
    forall i | 1 <= i < |r.rows|
      ensures r.rows[i].MessageInsert? && r.rows[i].role != System
    {
      assert r.rows[i] == MessageInsert(shown[i - 1].id, shown[i - 1].role, shown[i - 1].text, now, shown[i - 1].image.GetOr(""));
    }
    if forall i :: 0 <= i < |messages| ==> messages[i].role == System {
      Seqs.FilterKeepsNone(IsShown, messages);
    }
  }
}
