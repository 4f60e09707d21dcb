/** The first version of the chat screen (App.tsx): messages without images,
    one pending attachment read from a file, and no persistence. */
module LegacyApp {
  import opened Wrappers
  import opened Types
  import opened Wire
  import Seqs
  import Text
  import ChatScreen

  /** A message of this screen: id, type and text only. */
  datatype AppMessage = AppMessage(id: string, role: Role, text: string)

  datatype AppScreen = AppScreen(messages: seq<AppMessage>, input: string, attachment: Option<string>)

  const InitialScreen: AppScreen :=
    AppScreen([AppMessage("1", System, "send messages in markdown format")], "", None)

  predicate IsSystemMessage(m: AppMessage) {
    m.role == System
  }

  predicate IsShown(m: AppMessage) {
    m.role != System
  }

  /** The rendered list: the conversation without its system messages. */
  function Displayed(ms: seq<AppMessage>): (r: seq<AppMessage>)
    ensures forall i :: 0 <= i < |r| ==> r[i].role != System && r[i] in ms
    ensures forall i :: 0 <= i < |ms| && ms[i].role != System ==> ms[i] in r
    ensures |ms| == 0 ==> r == []
    ensures |ms| == 1 ==> r == (if ms[0].role != System then ms else [])
  {
    Seqs.Filter(IsShown, ms)
  }

  /** The rendered list of a longer conversation is the rendered lists of its
      parts, in order: with the one-message case this fixes order and
      multiplicity of what is shown. */
  lemma DisplayedAppend(a: seq<AppMessage>, b: seq<AppMessage>)
    ensures Displayed(a + b) == Displayed(a) + Displayed(b)
  {
    Seqs.FilterAppend(IsShown, a, b);
  }

  /** The new message's turn as written: always two content elements, the
      second being `base64String && imagePart`, which is the falsy value
      itself (`null`, or `''` for an empty read) when there is no attachment. */
  function OutgoingTurnAsWritten(input: string, attachment: Option<string>): (t: Turn)
    ensures t.role == User && t.content.Parts? && |t.content.parts| == 2
    ensures t.content.parts[0] == TextPart(input)
    ensures t.content.parts[1].ImageUrlPart? <==> Truthy(attachment)
    ensures Truthy(attachment) ==> t.content.parts[1] == ImageUrlPart(DataUri(attachment.value))
    ensures attachment.None? ==> t.content.parts[1] == NullPart
    ensures attachment == Some("") ==> t.content.parts[1] == EmptyStringPart
  {
    var second :=
      if Truthy(attachment) then ImageUrlPart(DataUri(attachment.value))
      else if attachment.None? then NullPart
      else EmptyStringPart;
    Turn(User, Parts([TextPart(input), second]))
  }

  /** Without an attachment, the request as written holds a content element
      that is neither a text nor an image part. */
  lemma AsWrittenSendsNull(input: string)
    ensures var t := OutgoingTurnAsWritten(input, None);
      exists i :: 0 <= i < |t.content.parts| && t.content.parts[i] == NullPart
  {
    var t := OutgoingTurnAsWritten(input, None);
    assert t.content.parts[1] == NullPart;
  }

  /** The new message's turn as intended: the image part only when there is an attachment. */
  function OutgoingTurn(input: string, attachment: Option<string>): (t: Turn)
    ensures t.role == User && t.content.Parts?
    ensures |t.content.parts| == (if Truthy(attachment) then 2 else 1)
    ensures t.content.parts[0] == TextPart(input)
    ensures Truthy(attachment) ==> t.content.parts[1] == ImageUrlPart(DataUri(attachment.value))
    ensures forall i :: 0 <= i < |t.content.parts| ==> t.content.parts[i].TextPart? || t.content.parts[i].ImageUrlPart?
  {
    Turn(User, Parts([TextPart(input)] + (if Truthy(attachment) then [ImageUrlPart(DataUri(attachment.value))] else [])))
  }

  /** The corrected turn is what the later chat screen sends, and differs from
      the one as written only by the falsy element. */
  lemma OutgoingTurnMatchesLaterScreen(input: string, attachment: Option<string>)
    ensures OutgoingTurn(input, attachment) == ChatScreen.OutgoingTurn(input, attachment)
    ensures Truthy(attachment) ==> OutgoingTurn(input, attachment) == OutgoingTurnAsWritten(input, attachment)
    ensures !Truthy(attachment) ==>
      OutgoingTurn(input, attachment).content.parts == OutgoingTurnAsWritten(input, attachment).content.parts[..1]
  {
  }

  /** The request as written: each earlier message as role and plain text,
      then the new message's two-element turn, falsy element included. */
  function Request(s: AppScreen): (turns: seq<Turn>)
    ensures |turns| == |s.messages| + 1
    ensures forall i :: 0 <= i < |s.messages| ==>
      turns[i].role == s.messages[i].role && turns[i].content == Plain(s.messages[i].text)
    ensures turns[|s.messages|] == OutgoingTurnAsWritten(s.input, s.attachment)
  {
    seq(|s.messages|, i requires 0 <= i < |s.messages| => Turn(s.messages[i].role, Plain(s.messages[i].text)))
      + [OutgoingTurnAsWritten(s.input, s.attachment)]
  }

  /** The request as intended: the same history, then the corrected turn,
      which drops the falsy element. Only the last turn can differ from the
      request as written, and it does exactly when there is no usable attachment. */
  function CorrectedRequest(s: AppScreen): (turns: seq<Turn>)
    ensures |turns| == |Request(s)|
    ensures turns[..|s.messages|] == Request(s)[..|s.messages|]
    ensures turns[|s.messages|] == OutgoingTurn(s.input, s.attachment)
    ensures turns == Request(s) <==> Truthy(s.attachment)
  {
    OutgoingTurnMatchesLaterScreen(s.input, s.attachment);
    Request(s)[..|s.messages|] + [OutgoingTurn(s.input, s.attachment)]
  }

  datatype SendOutcome = Ignored | Sent(request: seq<Turn>, screen: AppScreen)

  /** `handleSend`: ignored for blank input; otherwise appends the user
      message (no image), clears the input, posts the request, appends the
      reply when there is one, and resets the attachment in every case. */
  function HandleSend(s: AppScreen, id: string, replyId: string, reply: Option<string>): (r: SendOutcome)
    ensures r.Ignored? <==> Text.IsBlank(s.input)
    ensures r.Sent? ==>
      && r.request == Request(s)
      && |r.screen.messages| == |s.messages| + (if reply.Some? then 2 else 1)
      && r.screen.messages[..|s.messages|] == s.messages
      && r.screen.messages[|s.messages|] == AppMessage(id, User, s.input)
      && (reply.Some? ==> r.screen.messages[|s.messages| + 1] == AppMessage(replyId, Assistant, reply.value))
      && r.screen.input == ""
      && r.screen.attachment.None?
  {
    if Text.IsBlank(s.input) then Ignored
    else
      var sent := s.messages + [AppMessage(id, User, s.input)];
      var after := if reply.Some? then sent + [AppMessage(replyId, Assistant, reply.value)] else sent;
      Sent(Request(s), AppScreen(after, "", None))
  }

  /** `handleImage`: the attachment becomes the file's base64 content, or
      null when the file cannot be read. */
  function HandleImage(s: AppScreen, read: Option<string>): (r: AppScreen)
    ensures r.attachment == read
    ensures r.messages == s.messages && r.input == s.input
  {
    s.(attachment := read)
  }

  /** A successfully read, non-empty image is sent with the next message; a
      failed or empty read sends the text alone. This holds for the request
      as written, whose falsy element carries no image, and for the corrected one. */
  lemma ReadImageIsSent(s: AppScreen, read: Option<string>, id: string, replyId: string, reply: Option<string>)
    requires !Text.IsBlank(s.input)
    ensures var r := HandleSend(HandleImage(s, read), id, replyId, reply);
      var last := r.request[|s.messages|];
      && TextOf(last.content) == Some(s.input)
      && ImagesOfContent(last.content) == (if Truthy(read) then [read.value] else [])
    ensures var last := CorrectedRequest(HandleImage(s, read))[|s.messages|];
      && TextOf(last.content) == Some(s.input)
      && ImagesOfContent(last.content) == (if Truthy(read) then [read.value] else [])
  {
    var parts := OutgoingTurnAsWritten(s.input, read).content.parts;
    assert parts[1..][1..] == [];
    if Truthy(read) {
      DataUriRoundTrip(read.value);
    }
    assert ImagesIn(parts) == ImagesIn(parts[1..]);
    var corrected := OutgoingTurn(s.input, read);
    if Truthy(read) {
      assert corrected.content.parts == [TextPart(s.input)] + ImageParts([read.value]);
      TextThenImages(s.input, [read.value]);
    } else {
      assert corrected.content.parts == [TextPart(s.input)] + ImageParts([]);
      TextThenImages(s.input, []);
    }
  }

  /** `clearChat`: keeps only the system messages and drops the attachment. */
  function ClearChat(s: AppScreen): (r: AppScreen)
    ensures forall i :: 0 <= i < |r.messages| ==> r.messages[i].role == System && r.messages[i] in s.messages
    ensures forall i :: 0 <= i < |s.messages| && s.messages[i].role == System ==> s.messages[i] in r.messages
    ensures |s.messages| == 0 ==> r.messages == []
    ensures |s.messages| == 1 ==> r.messages == (if s.messages[0].role == System then s.messages else [])
    ensures r.input == s.input && r.attachment.None?
  {
    AppScreen(Seqs.Filter(IsSystemMessage, s.messages), s.input, None)
  }

  /** Clearing a longer conversation keeps the system messages of each part,
      in order: with the one-message case this fixes order and multiplicity
      of what is kept. */
  lemma ClearChatAppend(s: AppScreen, a: seq<AppMessage>, b: seq<AppMessage>)
    ensures ClearChat(s.(messages := a + b)).messages
      == ClearChat(s.(messages := a)).messages + ClearChat(s.(messages := b)).messages
  {
    Seqs.FilterAppend(IsSystemMessage, a, b);
  }

  /** A fresh screen shows nothing, and clearing it changes nothing: its only
      message is the system instruction. */
  lemma InitialScreenIsClear()
    ensures Displayed(InitialScreen.messages) == []
    ensures ClearChat(InitialScreen) == InitialScreen
  {
    assert InitialScreen.messages[0].role == System;
  }

  /** After a clear nothing is shown, and the kept and the shown messages
      together account for the whole conversation. */
  lemma ClearShowsNothing(s: AppScreen)
    ensures Displayed(ClearChat(s).messages) == []
    ensures |ClearChat(s).messages| + |Displayed(s.messages)| == |s.messages|
  {
    Seqs.FilterKeepsNone(IsShown, ClearChat(s).messages);
    Seqs.FilterPartition(IsSystemMessage, IsShown, s.messages);
  }
}
