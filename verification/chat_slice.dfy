/** The chat-list slice (src/redux/slices/chatSlice.ts): its four thunks
    against the store, and the reducers that run when they are fulfilled. */
module ChatSlice {
  import opened Wrappers
  import opened Types
  import opened Entity
  import opened Store

  /** The slice state: the chat summaries the history screen lists. */
  datatype ChatState = ChatState(value: seq<ChatSummary>)

  const InitialState: ChatState := ChatState([])

  /** The slice starts as the listing of an empty store. */
  lemma InitialStateListsEmptyStore()
    ensures InitialState.value == LoadChatsFromDB(Empty, false)
  {
    EmptyIsValid();
    ListChatsComplete(Empty);
  }

  /** `saveChatToDB`: a new chat with the given title and messages, in their
      given order, under a fresh key. The creation time is the store's clock,
      passed in. */
  function SaveChatToDB(db: Db, title: string, messages: seq<Message>, createdAt: string): (r: Db)
    requires Valid(db)
    ensures Valid(r)
    ensures db.nextChatId !in db.chats
    ensures r.chats.Keys == db.chats.Keys + {db.nextChatId}
    ensures forall id :: id in db.chats ==> r.chats[id] == db.chats[id]
    ensures r.chats[db.nextChatId].title == title
    ensures r.chats[db.nextChatId].createdAt == createdAt
    ensures |r.chats[db.nextChatId].messages| == |messages|
    ensures forall i :: 0 <= i < |messages| ==>
      r.chats[db.nextChatId].messages[i].entity == NewMessageEntity(messages[i])
  {
    var entities := seq(|messages|, i requires 0 <= i < |messages| => NewMessageEntity(messages[i]));
    InsertChat(db, title, createdAt, entities)
  }

  /** `updateChat`: appends the given messages after the chat's stored ones.
      An unknown id changes nothing. Nothing is deduplicated: messages already
      stored are written again. */
  function UpdateChat(db: Db, chatId: int, messages: seq<Message>): (r: Db)
    requires Valid(db)
    ensures Valid(r)
    ensures chatId !in db.chats ==> r == db
    ensures r.chats.Keys == db.chats.Keys
    ensures forall id :: id in db.chats && id != chatId ==> r.chats[id] == db.chats[id]
    ensures chatId in db.chats ==>
      && r.chats[chatId].title == db.chats[chatId].title
      && r.chats[chatId].createdAt == db.chats[chatId].createdAt
      && |r.chats[chatId].messages| == |db.chats[chatId].messages| + |messages|
      && r.chats[chatId].messages[..|db.chats[chatId].messages|] == db.chats[chatId].messages
      && forall i :: 0 <= i < |messages| ==>
           r.chats[chatId].messages[|db.chats[chatId].messages| + i].entity == NewMessageEntity(messages[i])
  {
    match Find(db, chatId)
    case None => db
    case Some(_) =>
      var entities := seq(|messages|, i requires 0 <= i < |messages| => NewMessageEntity(messages[i]));
      AppendMessages(db, chatId, entities)
  }

  /** What `deleteChatFromDB` resolves with, and the store it leaves. */
  datatype DeleteResult = DeleteResult(db: Db, chats: seq<ChatSummary>)

  /** `deleteChatFromDB`: removes the chat, then lists the remaining chats in
      the `finally` block, which runs also when the id is unknown or the
      removal throws (`removeFails`). */
  function DeleteChatFromDB(db: Db, chatId: int, removeFails: bool): (r: DeleteResult)
    requires Valid(db)
    ensures Valid(r.db)
    ensures removeFails ==> r.db == db
    ensures !removeFails ==> r.db.chats == db.chats - {chatId}
    ensures chatId !in db.chats ==> r.db == db
    ensures r.db.nextChatId == db.nextChatId
    ensures |r.chats| == |r.db.chats|
    ensures forall c :: c in r.chats <==> c.id in r.db.chats && c == Summarize(c.id, r.db.chats[c.id])
  {
    var after :=
      if removeFails then db
      else match Find(db, chatId)
        case None => db
        case Some(_) => RemoveChat(db, chatId);
    ListChatsComplete(after);
    DeleteResult(after, ListChats(after))
  }

  /** `loadChatsFromDB`: one summary per stored chat, or none when reading fails. */
  function LoadChatsFromDB(db: Db, readFails: bool): (r: seq<ChatSummary>)
    requires Valid(db)
    ensures readFails ==> r == []
    ensures !readFails ==> |r| == |db.chats|
    ensures !readFails ==> forall s :: s in r <==> s.id in db.chats && s == Summarize(s.id, db.chats[s.id])
  {
    ListChatsComplete(db);
    if readFails then [] else ListChats(db)
  }

  /** The thunks as dispatched from the screens. The clock and the failure
      of a store call are inputs. */
  datatype ChatAction =
    | SaveChat(title: string, messages: seq<Message>, createdAt: string)
    | Update(chatId: int, messages: seq<Message>)
    | DeleteChat(chatId: int, removeFails: bool)
    | LoadChats(readFails: bool)

  /** The store together with the slice state. */
  datatype World = World(db: Db, state: ChatState)

  /** Runs a thunk against the store, then the slice's fulfilled reducer, if
      the thunk has one. Only `deleteChatFromDB` and `loadChatsFromDB` have
      one, and both replace `value` with their result. */
  function Dispatch(w: World, a: ChatAction): (r: World)
    requires Valid(w.db)
    ensures Valid(r.db)
    ensures a.SaveChat? || a.Update? ==> r.state == w.state
    ensures a.DeleteChat? || a.LoadChats? ==> r.db.chats.Keys <= w.db.chats.Keys
    ensures a.DeleteChat? ==> a.chatId !in r.db.chats || a.removeFails
    ensures a.DeleteChat? || (a.LoadChats? && !a.readFails) ==>
      forall s :: s in r.state.value <==> s.id in r.db.chats && s == Summarize(s.id, r.db.chats[s.id])
    ensures a.LoadChats? ==> r.db == w.db
    ensures a.LoadChats? && a.readFails ==> r.state.value == []
  {
    match a
    case SaveChat(title, messages, createdAt) => World(SaveChatToDB(w.db, title, messages, createdAt), w.state)
    case Update(chatId, messages) => World(UpdateChat(w.db, chatId, messages), w.state)
    case DeleteChat(chatId, removeFails) =>
      var d := DeleteChatFromDB(w.db, chatId, removeFails);
      World(d.db, ChatState(d.chats))
    case LoadChats(readFails) => World(w.db, ChatState(LoadChatsFromDB(w.db, readFails)))
  }

  /** Updating twice with the same messages stores them twice: the update
      has no notion of a message already being in the store. */
  lemma UpdateTwiceAppendsTwice(db: Db, chatId: int, messages: seq<Message>)
    requires Valid(db)
    requires chatId in db.chats
    ensures var twice := UpdateChat(UpdateChat(db, chatId, messages), chatId, messages);
      |twice.chats[chatId].messages| == |db.chats[chatId].messages| + 2 * |messages|
  {
  }

  /** After a save, listing the chats shows one more entry: the new chat with its title and time. */
  lemma SaveThenList(db: Db, title: string, messages: seq<Message>, createdAt: string)
    requires Valid(db)
    ensures var r := SaveChatToDB(db, title, messages, createdAt);
      && |LoadChatsFromDB(r, false)| == |LoadChatsFromDB(db, false)| + 1
      && ChatSummary(db.nextChatId, title, createdAt) in LoadChatsFromDB(r, false)
  {
  }
}
