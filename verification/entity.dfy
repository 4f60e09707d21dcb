/** The persisted form of a message (src/db/entity/Message.ts). The
    constructor builds an entity with no key; the store gives it one when it
    is saved, which `MessageRow` records. */
module Entity {
  import opened Wrappers
  import opened Types
  import Text

  /** A `MessageEntity` as its constructor leaves it: type, text and images,
      and no id yet. */
  datatype MessageEntity = MessageEntity(role: Role, text: string, images: seq<string>)

  /** A message entity after the store assigned its generated key. */
  datatype MessageRow = MessageRow(id: nat, entity: MessageEntity)

  /** `new MessageEntity(m)`: copies type and text, defaults a missing image
      list to empty and leaves the key to the store. */
  function NewMessageEntity(m: Message): (e: MessageEntity)
    ensures e.role == m.role && e.text == m.text
    ensures m.images.Some? ==> e.images == m.images.value
    ensures m.images.None? ==> e.images == []
  {
    MessageEntity(m.role, m.text, m.images.GetOr([]))
  }

  /** `entity.toMessage()` of a stored entity: the key becomes the message id,
      type, text and images pass through, and `inDb` is never set. */
  function ToMessage(row: MessageRow): (m: Message)
    ensures m.id == Text.DecimalString(row.id)
    ensures m.role == row.entity.role && m.text == row.entity.text
    ensures m.images == Some(row.entity.images)
    ensures m.inDb.None?
  {
    Message(Text.DecimalString(row.id), row.entity.role, row.entity.text, Some(row.entity.images), None)
  }

  /** Storing a message and reading it back keeps its type, text and images
      (an absent image list comes back empty); only the id is the store's. */
  lemma EntityRoundTrip(m: Message, key: nat)
    ensures ToMessage(MessageRow(key, NewMessageEntity(m))).role == m.role
    ensures ToMessage(MessageRow(key, NewMessageEntity(m))).text == m.text
    ensures ToMessage(MessageRow(key, NewMessageEntity(m))).images == Some(ImagesOf(m))
    ensures m.images.Some? ==> ToMessage(MessageRow(key, NewMessageEntity(m))).images == m.images
  {
  }

  /** Two messages with the same type, text and image list build the same
      entity: the constructor reads nothing else, in particular not the id. */
  lemma EntityIgnoresId(m: Message, n: Message)
    requires m.role == n.role && m.text == n.text && ImagesOf(m) == ImagesOf(n)
    ensures NewMessageEntity(m) == NewMessageEntity(n)
  {
  }
}
