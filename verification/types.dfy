/** The records of the chat client: a conversation message and the summary of
    a saved chat (src/@types/index.d.ts). */
module Types {
  import opened Wrappers

  /** `Message.type`: who wrote the message. */
  datatype Role = User | Assistant | System

  /** A message of the conversation. `images` is optional because the source
      reads it as `m.images?.length` and `message?.images ?? []`; `inDb` is the
      optional persisted flag. */
  datatype Message = Message(
    id: string,
    role: Role,
    text: string,
    images: Option<seq<string>>,
    inDb: Option<bool>)

  /** The images of a message, an absent list read as empty. */
  function ImagesOf(m: Message): seq<string> {
    m.images.GetOr([])
  }

  /** What the chat list shows of a saved chat (`Chat`). */
  datatype ChatSummary = ChatSummary(id: int, title: string, createdAt: string)

  /** JavaScript truthiness of an optional string: present and non-empty. */
  predicate Truthy(s: Option<string>) {
    s.Some? && s.value != ""
  }
}
