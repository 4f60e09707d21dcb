/** An abstract model of the chat database the ORM manages: chats keyed by a
    generated integer id, each owning its ordered message rows. Keys come
    from counters, as an autoincrement primary key never reuses a value. */
module Store {
  import opened Wrappers
  import opened Types
  import opened Entity

  /** A stored `ChatEntity`: title, creation time and its messages in insertion order. */
  datatype ChatRecord = ChatRecord(title: string, createdAt: string, messages: seq<MessageRow>)

  datatype Db = Db(chats: map<int, ChatRecord>, nextChatId: int, nextRowId: nat)

  /** A database with no chats. */
  const Empty: Db := Db(map[], 1, 1)

  /** Every chat key was handed out by the counter, which starts at 1. */
  predicate Valid(db: Db) {
    && db.nextChatId >= 1
    && forall id :: id in db.chats ==> 1 <= id < db.nextChatId
  }

  lemma EmptyIsValid()
    ensures Valid(Empty)
  {
  }

  /** Gives the entities consecutive fresh keys starting at `firstId`, keeping their order. */
  function KeyRows(entities: seq<MessageEntity>, firstId: nat): (rows: seq<MessageRow>)
    ensures |rows| == |entities|
    ensures forall i :: 0 <= i < |rows| ==> rows[i].entity == entities[i]
  {
    seq(|entities|, i requires 0 <= i < |entities| => MessageRow(firstId + i, entities[i]))
  }

  /** The chat with key `id`, if any (`find({where: {id}})`). */
  function Find(db: Db, id: int): Option<ChatRecord> {
    if id in db.chats then Some(db.chats[id]) else None
  }

  /** Saves a new chat and, by cascade, its message entities under the next key. */
  function InsertChat(db: Db, title: string, createdAt: string, entities: seq<MessageEntity>): Db {
    var rows := KeyRows(entities, db.nextRowId);
    Db(db.chats[db.nextChatId := ChatRecord(title, createdAt, rows)],
       db.nextChatId + 1,
       db.nextRowId + |entities|)
  }

  /** Saves an existing chat whose message list grew by `entities`: the new
      entities are inserted after the stored ones. */
  function AppendMessages(db: Db, id: int, entities: seq<MessageEntity>): Db
    requires id in db.chats
  {
    var c := db.chats[id];
    var rows := KeyRows(entities, db.nextRowId);
    Db(db.chats[id := c.(messages := c.messages + rows)], db.nextChatId, db.nextRowId + |entities|)
  }

  /** Removes the chat with key `id`. */
  function RemoveChat(db: Db, id: int): Db {
    db.(chats := db.chats - {id})
  }

  function Summarize(id: int, c: ChatRecord): ChatSummary {
    ChatSummary(id, c.title, c.createdAt)
  }

  /** The summaries of the chats whose key is below `n`, each once. */
  function ListBelow(chats: map<int, ChatRecord>, n: int): (r: seq<ChatSummary>)
    decreases n
    ensures forall i :: 0 <= i < |r| ==> r[i].id in chats && r[i].id < n && r[i] == Summarize(r[i].id, chats[r[i].id])
    ensures forall i, j :: 0 <= i < |r| && 0 <= j < |r| && i != j ==> r[i].id != r[j].id
    ensures forall id :: id in chats && 1 <= id < n ==> Summarize(id, chats[id]) in r
  {
    if n <= 1 then []
    else ListBelow(chats, n - 1) + (if n - 1 in chats then [Summarize(n - 1, chats[n - 1])] else [])
  }

  /** `find()` over all chats, mapped to summaries. The store promises no
      order; the model happens to list by key, and the contracts state only
      which summaries are listed and that none is listed twice. */
  function ListChats(db: Db): seq<ChatSummary> {
    ListBelow(db.chats, db.nextChatId)
  }

  function KeysBelow(chats: map<int, ChatRecord>, n: int): set<int> {
    set id | id in chats && 1 <= id < n
  }

  lemma KeysBelowStep(chats: map<int, ChatRecord>, n: int)
    requires n > 1
    ensures n - 1 in chats ==> KeysBelow(chats, n) == KeysBelow(chats, n - 1) + {n - 1}
    ensures n - 1 in chats ==> n - 1 !in KeysBelow(chats, n - 1)
    ensures n - 1 !in chats ==> KeysBelow(chats, n) == KeysBelow(chats, n - 1)
  {
  }

  lemma {:induction false} ListBelowSize(chats: map<int, ChatRecord>, n: int)
    decreases n
    ensures |ListBelow(chats, n)| == |KeysBelow(chats, n)|
  {
    if n <= 1 {
      assert KeysBelow(chats, n) == {} by {
        forall id | id in KeysBelow(chats, n) ensures false {}
      }
    } else {
      ListBelowSize(chats, n - 1);
      KeysBelowStep(chats, n);
      if n - 1 in chats {
        assert ListBelow(chats, n) == ListBelow(chats, n - 1) + [Summarize(n - 1, chats[n - 1])];
      } else {
        assert ListBelow(chats, n) == ListBelow(chats, n - 1);
      }
    }
  }

  /** The listing of a valid database holds exactly one summary per stored chat. */
  lemma ListChatsComplete(db: Db)
    requires Valid(db)
    ensures |ListChats(db)| == |db.chats|
    ensures forall s :: s in ListChats(db) <==> s.id in db.chats && s == Summarize(s.id, db.chats[s.id])
  {
    ListBelowSize(db.chats, db.nextChatId);
    assert KeysBelow(db.chats, db.nextChatId) == db.chats.Keys;
  }
}
