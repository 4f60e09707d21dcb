# Chat client core, modelled in Dafny

This project models the core logic of a React Native chat client for a hosted
language-model API. The model covers:

- **The active conversation** (`MessageSlice`). This includes the history
  window sent with each message, the mapping of messages to role-tagged
  request turns with inline JPEG data URIs, and the reducers that append,
  clear and reload messages.
- **The chat store** (`Store`, `ChatSlice`). Saved chats live in an abstract
  map from a generated integer key to a record. The record holds a title, a
  creation time and the chat's ordered message rows. The model covers the four
  thunks (save, update, delete, list) and their fulfilled reducers.
- **The message entity** (`Entity`). This is the mapping between a message and
  its persisted form.
- **Two earlier screens** (`ChatScreen`, `LegacyApp`). Each holds its own
  conversation and one pending attachment. ChatScreen stores the attachment on
  the sent message as an optional `image`; App.tsx's messages carry none. Their
  send, clear and display logic, and ChatScreen's save, are modelled separately
  from the slice version.
- **The pending-image list** (`ImagePicker`, `ImageList`). Picker results are
  appended to it, and images are removed from it by position.
- **The two-state theme** (`ThemeSlice`).

The shared modules are `Wrappers` (Option), `Seqs` (order-preserving filter),
`Text` (JavaScript `trim`), `Types` (the message record) and `Wire` (the
request format). Everything is pure functions over immutable datatypes.

The network, the database, the clock and the device pickers are replaced by
inputs:

- the reply text of the completion endpoint (`Option<string>`, None when the
  call fails);
- the success or failure of a store call;
- every `Date.now()` / `new Date()` reading;
- the picker response and the result of reading an image file.

## Model

| member | source | states |
|---|---|---|
| MessageSlice.FirstRequestCarriesSystemPrompt | src/redux/slices/messageSlice.ts:13-22 | The first send of a fresh app forwards the system instruction as one text part, then the new message's turn: two turns in all. |
| MessageSlice.Window | src/redux/slices/messageSlice.ts:36-39 | Its length is the conversation length, capped at 11. It starts with the first message. Every other element is the matching element of the conversation's suffix. |
| MessageSlice.WindowOfShortConversation | src/redux/slices/messageSlice.ts:36-37 | A conversation of at most 11 messages is forwarded whole. |
| MessageSlice.WindowOfLongConversation | src/redux/slices/messageSlice.ts:37-38 | A longer conversation is forwarded as its first message plus its last 10. That is exactly 11 messages. |
| MessageSlice.WindowIdempotent | src/redux/slices/messageSlice.ts:36-39 | Taking the window of a window changes nothing. |
| MessageSlice.WindowEndsWithLatest | src/redux/slices/messageSlice.ts:36-39 | The most recent message is always in the window. |
| MessageSlice.HistoryTurn | src/redux/slices/messageSlice.ts:41-69 | The role is the message type, verbatim. The content is a text part followed by one `data:image/jpeg;base64,` part per image, in image order. With no images there is one text part. |
| MessageSlice.OutgoingTurn | src/redux/slices/messageSlice.ts:71-94 | The role is always user. The content is plain text exactly when the message has no images. Otherwise it is the same part list as a history turn. |
| MessageSlice.TurnsCarryMessage | src/redux/slices/messageSlice.ts:41-94 | Both turn shapes give back the message's text and its images, in order. |
| MessageSlice.Request | src/redux/slices/messageSlice.ts:33-94 | It is built from the state read before the new message is added. It holds one history turn per windowed message, then the outgoing turn. Its length is the window length plus one, at most 12. |
| MessageSlice.RequestCarriesWindow | src/redux/slices/messageSlice.ts:41-94 | Each turn has the role, text and images of the windowed message at the same position. The last turn carries the new message in the user role. |
| MessageSlice.AddMessage | src/redux/slices/messageSlice.ts:28-30 | Appends at the end. Earlier messages stay as an unchanged prefix. |
| MessageSlice.Fulfilled | src/redux/slices/messageSlice.ts:111-118 | Appends one assistant message holding the payload text and an empty image list. The prefix is unchanged. |
| MessageSlice.ClearChat | src/redux/slices/messageSlice.ts:121-123 | The conversation becomes empty. |
| MessageSlice.ClearDropsSystemPrompt | src/redux/slices/messageSlice.ts:121-123 | After a clear the system prompt is gone too: the next request is the outgoing turn alone. |
| MessageSlice.SendMessageAsWritten | src/redux/slices/messageSlice.ts:31-119 | As written: the request is assembled, the user message is appended, and then an assistant message with empty text is appended. |
| MessageSlice.SendMessage | src/redux/slices/messageSlice.ts:31-119 | Corrected: the user message is appended, then the endpoint's reply when there is one. The request is built from the earlier state. |
| MessageSlice.SendMessageAsWrittenLosesReply | src/redux/slices/messageSlice.ts:95-104 | For any non-empty reply, the code as written stores `""` where the corrected send stores the reply. |
| MessageSlice.NextRequestIncludesSent | src/redux/slices/messageSlice.ts:33-39 | Whatever the endpoint answers, the message just sent is in the window of the following send. After a failed call it is the last element. After a reply, and always in the code as written, it is second to last, followed only by the assistant message. |
| MessageSlice.LoadMessagesFromDB | src/redux/slices/messageSlice.ts:124-133 | No id, the falsy id 0 and an unknown id all give no messages. Otherwise it gives the chat's stored messages in stored order. |
| MessageSlice.LoadedMessages | src/redux/slices/messageSlice.ts:135-138 | The state is replaced by the loaded rows, each mapped with `toMessage`, in the same order. |
| MessageSlice.SaveThenLoad | src/redux/slices/messageSlice.ts:124-138 | Saving a conversation and loading the new chat gives back the messages in order. Each keeps its type, text and images. `inDb` is left unset. |
| Entity.NewMessageEntity | src/db/entity/Message.ts:26-30 | Copies type and text. Images are copied, or `[]` when absent. No id is set. |
| Entity.ToMessage | src/db/entity/Message.ts:32-38 | Returns the stored key as id, and type, text and images unchanged. `inDb` is never set. |
| Entity.EntityRoundTrip | src/db/entity/Message.ts:26-39 | Constructing an entity and reading it back keeps type and text. Images come back as given, or empty when absent. |
| Entity.EntityIgnoresId | src/db/entity/Message.ts:26-30 | The constructor does not read the message id. |
| Store.ListBelow | src/redux/slices/chatSlice.ts:87-92 | Every listed summary is a stored chat's id, title and creation time, with no id listed twice. Every stored chat below the bound is listed. |
| Store.ListChatsComplete | src/redux/slices/chatSlice.ts:87-92 | In a valid store the listing has exactly one summary per stored chat. |
| ChatSlice.InitialStateListsEmptyStore | src/redux/slices/chatSlice.ts:11-13 | The slice starts with the listing of an empty store: no summaries. |
| ChatSlice.SaveChatToDB | src/redux/slices/chatSlice.ts:30-43 | Adds exactly one chat under a fresh key with the given title. Its messages are the given ones, in the given order. Other chats are unchanged. |
| ChatSlice.UpdateChat | src/redux/slices/chatSlice.ts:45-56 | An unknown id is a no-op. Otherwise the chat's messages become the stored ones followed by the new ones. The stored ones remain a prefix. |
| ChatSlice.UpdateTwiceAppendsTwice | src/redux/slices/chatSlice.ts:51-55 | Repeating an update with the same messages stores them again. There is no deduplication. |
| ChatSlice.DeleteChatFromDB | src/redux/slices/chatSlice.ts:58-75 | Removes the chat with that id. An unknown id or a failing removal leaves the store unchanged. The remaining chats are listed in every case. |
| ChatSlice.LoadChatsFromDB | src/redux/slices/chatSlice.ts:83-96 | One summary per stored chat, or none when reading fails. |
| ChatSlice.Dispatch | src/redux/slices/chatSlice.ts:26-104 | Save and update leave the slice's list unchanged, since they have no reducer. Delete and load replace the list wholesale. Store validity is preserved. |
| ChatSlice.SaveThenList | src/redux/slices/chatSlice.ts:30-43 | After a save the listing has one more entry: the new chat's id, title and creation time. |
| Text.TrimEmptyIffBlank | src/ChatScreen/index.tsx:106 | `trim()` yields `''` exactly when every character is white space, so both screens' guards can be read as "the input is blank". |
| ChatScreen.Displayed | src/ChatScreen/index.tsx:364 | The rendered list holds the non-system messages of the conversation, all of them and nothing else. A single message is shown exactly when it is not a system message. |
| ChatScreen.DisplayedAppend | src/ChatScreen/index.tsx:364 | The rendered list of a conversation is the rendered lists of its parts, one after the other. With the one-message case this fixes order and multiplicity. |
| ChatScreen.HistoryTurn | src/ChatScreen/index.tsx:118-121 | The role is the type and the content is plain text. The image is not sent. |
| ChatScreen.OutgoingTurn | src/ChatScreen/index.tsx:123-149 | A text part, then an image data-URI part exactly when an attachment is pending. The role is user. |
| ChatScreen.Request | src/ChatScreen/index.tsx:118-149 | One history turn per earlier message, without the new one, then the outgoing turn. |
| ChatScreen.RequestCarriesAttachment | src/ChatScreen/index.tsx:123-149 | The last turn carries the input text, plus the pending attachment if there is one. |
| ChatScreen.HandleSend | src/ChatScreen/index.tsx:105-173 | Blank input is ignored, and only blank input. Otherwise the user message is appended with the input and attachment, the input is cleared, and the reply is appended if any. The attachment is reset in every case. |
| ChatScreen.InitialScreenIsClear | src/ChatScreen/index.tsx:60-67 | A fresh screen holds only the system instruction: it shows nothing, and clearing it changes nothing. |
| ChatScreen.SendAppendsToDisplay | src/ChatScreen/index.tsx:114-165 | A send shows the new messages after the ones already shown. |
| ChatScreen.ClearChat | src/ChatScreen/index.tsx:265-270 | Exactly the system messages are kept, a single message exactly when it is one, and the attachment is cleared. |
| ChatScreen.ClearChatAppend | src/ChatScreen/index.tsx:265-270 | Clearing keeps the system messages of each part of the conversation, one part after the other, so the kept messages stay in conversation order. |
| ChatScreen.ClearShowsNothing | src/ChatScreen/index.tsx:265-270 | After a clear nothing is shown. Clearing is idempotent. The kept and shown messages add up to the whole conversation. |
| ChatScreen.SaveChat | src/ChatScreen/index.tsx:272-301 | A blank title is rejected with no writes, and only a blank title. Otherwise it writes one session row, then one row per shown message in order, with image defaulting to `''`. |
| ChatScreen.SaveWritesShownMessages | src/ChatScreen/index.tsx:285-300 | No system message is written. A conversation of only system messages writes the session row alone. |
| LegacyApp.Displayed | App.tsx:193 | The rendered list holds the non-system messages of the conversation, all of them and nothing else. A single message is shown exactly when it is not a system message. |
| LegacyApp.DisplayedAppend | App.tsx:193 | The rendered list of a conversation is the rendered lists of its parts, one after the other. |
| LegacyApp.OutgoingTurnAsWritten | App.tsx:59-73 | As written: always two elements. The second is an image part exactly when an attachment is pending. Otherwise it is `null`, or `''` after an empty read. |
| LegacyApp.AsWrittenSendsNull | App.tsx:66-71 | With no attachment, the content as written holds a `null` element. |
| LegacyApp.OutgoingTurn | App.tsx:59-73 | Corrected: a text part, plus the attachment's data-URI part only when an attachment is pending. Every element is a text or image part. |
| LegacyApp.OutgoingTurnMatchesLaterScreen | App.tsx:59-73 | The corrected turn equals the later screen's. It differs from the turn as written only by the falsy element. |
| LegacyApp.Request | App.tsx:54-74 | As written: each earlier message becomes role plus plain text. The new message's two-element turn comes last, with its falsy element when there is no attachment. |
| LegacyApp.CorrectedRequest | App.tsx:54-74 | Corrected: the same history, then the corrected turn. It equals the request as written exactly when an attachment is pending. |
| LegacyApp.HandleSend | App.tsx:38-92 | Blank input is ignored, and only blank input. Otherwise it posts the request as written, appends a user message without image, clears the input, and appends the reply if any. The attachment is reset in every case. |
| LegacyApp.HandleImage | App.tsx:159-166 | The attachment becomes the read base64 content, or null on a read failure. Nothing else changes. |
| LegacyApp.ReadImageIsSent | App.tsx:159-166 | A successful, non-empty read is sent with the next message. A failed or empty read sends the text and no image. This holds for both the request as written and the corrected one. |
| LegacyApp.ClearChat | App.tsx:168-173 | Exactly the system messages are kept, a single message exactly when it is one, and the attachment is cleared. |
| LegacyApp.ClearChatAppend | App.tsx:168-173 | Clearing keeps the system messages of each part of the conversation, one part after the other. |
| LegacyApp.InitialScreenIsClear | App.tsx:29-31 | A fresh screen holds only the system instruction: it shows nothing, and clearing it changes nothing. |
| LegacyApp.ClearShowsNothing | App.tsx:168-173 | After a clear nothing is shown. The kept and shown messages add up to the whole conversation. |
| ImagePicker.EncodedImages | src/components/ImagePickerModal.tsx:52 | Keeps the present, non-empty base64 strings in asset order and drops the rest. Every string comes from an asset. A single asset gives its string exactly when the string is usable. |
| ImagePicker.EncodedImagesAppend | src/components/ImagePickerModal.tsx:52 | The images of two asset batches are the images of the first followed by those of the second. With the one-asset case this fixes order and multiplicity. |
| ImagePicker.HandlePickerResponse | src/components/ImagePickerModal.tsx:45-55 | A cancel, checked first, or an error leaves the list unchanged, as do absent or empty assets. Otherwise the usable images are appended after an unchanged prefix. |
| ImagePicker.PickerGrowth | src/components/ImagePickerModal.tsx:51-53 | On success the list becomes the old list followed by the assets' images, at most one per asset. Within the gallery's selection limit it grows by at most 3. |
| ImagePicker.NoAttachmentCap | src/components/ImagePickerModal.tsx:51-53 | Three pending images plus one picked make four. Nothing caps the list. |
| ImageList.RemoveImage | src/components/ImageList.tsx:16-19 | For an index in range, the result is one shorter. Elements before it are unchanged and later ones shift left by one. An out-of-range index changes nothing. |
| ImageList.RemoveImageKeepsOthers | src/components/ImageList.tsx:17 | Every other position survives, equal strings included. |
| ImageList.RemoveImageMultiset | src/components/ImageList.tsx:17 | The removed image loses exactly one occurrence; every other string keeps its number of occurrences. |
| ThemeSlice.InitialTheme | src/redux/slices/themeSlice.ts:33-35 | The theme is dark exactly when the platform scheme is `'dark'`. |
| ThemeSlice.SetTheme | src/redux/slices/themeSlice.ts:41-43 | `'dark'` selects the dark theme. Any other value, null included, selects the light theme. |
| ThemeSlice.ToggleTheme | src/redux/slices/themeSlice.ts:44-46 | Selects the theme whose `dark` flag is the opposite of the current one. |
| ThemeSlice.InitialThemeIsSetTheme | src/redux/slices/themeSlice.ts:33-43 | The initial theme is the one `setTheme` picks for the same scheme, whatever the current theme. |
| ThemeSlice.SetThemeIdempotent | src/redux/slices/themeSlice.ts:41-43 | Setting the same scheme twice is the same as setting it once. |
| ThemeSlice.ToggleInvolution | src/redux/slices/themeSlice.ts:44-46 | On the two themes, toggling swaps them. Toggling twice is the identity. |

## Behaviour of the code worth knowing

- Nothing caps the pending image list. Only the gallery request asks for at
  most 3 images per pick (`ImagePicker.NoAttachmentCap`).
- `updateChat` writes every message it is given, including ones already stored
  (`ChatSlice.UpdateTwiceAppendsTwice`).
- `toMessage` never sets `inDb`, so loaded messages carry no persisted flag
  (`Entity.ToMessage`).
- The slice's `clearChat` empties the state, system instruction included
  (`MessageSlice.ClearDropsSystemPrompt`). Both earlier screens keep their
  system messages when clearing (`ChatScreen.ClearChat`, `LegacyApp.ClearChat`).
- `loadChatsFromDB` and the `finally` listing of `deleteChatFromDB` call
  `find()` with no ordering option, so the listing has no promised order
  (`Store.ListBelow`).
- Both earlier screens append the reply to the list that is current when it
  arrives (`setMessages(prev => …)`), with no check for a clear in between. The
  model takes a send as one step (`ChatScreen.HandleSend`, `LegacyApp.HandleSend`),
  so it does not model a clear during a send.

## Left out

- The completion call: the HTTP client, the model name and the temperature
  (a floating-point constant). The reply text is an input.
- SQLite and TypeORM plumbing: schema creation, SQL strings, the `updatedAt`
  column, and the `simple-array` column encoding of images. That encoding joins
  images with commas and splits them on read. It agrees with the modelled list
  for base64 strings, which are non-empty and contain no comma.
- Message ordering in the store: the store returns a chat's messages in
  insertion order. The ORM query has no ORDER BY, so this is an assumption about
  the database.
- Cascading deletion of a deleted chat's message rows: the relation is not
  loaded when a chat is removed. In the model, message rows are reachable only
  through their chat, so orphaned rows would be invisible to every modelled
  operation.
- ChatSlice.SaveChatToDB: a failing save is not modelled. What survives a
  failure depends on the ORM's transaction handling.
- ChatSlice.UpdateChat: a failing save is not modelled. The thunk has no catch,
  so it would reject.
- Entity.NewMessageEntity: a null message argument is not modelled. Every
  caller passes an element of a message array.
- Entity.ToMessage: defined only for stored rows, which have a key. An entity
  that was never saved would give an undefined id, and no caller does that.
- ChatScreen.SaveChat: one clock reading stands for the per-row timestamps.
  The rejection of an insert is not modelled. The rows omit the session id,
  exactly as the source's inserts do.
- Ids and timestamps from `Date.now()` and `new Date()` are parameters. Their
  uniqueness is not asserted.
- Device APIs are out: the camera and gallery launchers, the camera and gallery
  callbacks of the earlier screens, file reading, the clipboard, API-key
  storage and the appearance listener. Their outcomes are inputs where a
  modelled operation consumes them.
- The async-thunk lifecycle (pending and rejected actions) and any
  interleaving of concurrent actions are out. So are loading indicators,
  scrolling, alerts and modal visibility.
- The earlier screen's local theme toggle is out. So are the library theme
  colours beyond the four the app overrides.

## Findings

| source | as written | input that shows it | evidently intended | confidence | as-written member | corrected member |
|---|---|---|---|---|---|---|
| src/redux/slices/messageSlice.ts:95 | `return ''` comes before the completion call. The fulfilled reducer therefore always appends an assistant message with empty text, and the request is never posted. | Any message and any non-empty reply (`SendMessageAsWrittenLosesReply`) | Post the request and append the endpoint's reply. Append nothing when the call fails, as both earlier screens do. | high; not executed | MessageSlice.SendMessageAsWritten | MessageSlice.SendMessage |
| App.tsx:66-71 | `base64String && {image part}` is always the second content element. With no attachment it is `null`, or `''` after an empty read. | No pending attachment (`AsWrittenSendsNull`, and `CorrectedRequest` differs from `Request` exactly then) | Include the image part only when an attachment exists, as src/ChatScreen/index.tsx:123-148 does. | medium; not executed | LegacyApp.Request | LegacyApp.CorrectedRequest |
