/** The JSON shapes the React client keeps: users, chats and messages as the
    server sends them, and the outcome of an API call. */
module ClientTypes {
  import opened Common

  /** A (possibly partially populated) user; absent JSON fields are `None`. */
  datatype ClientUser = ClientUser(
    id: UserId,
    username: Option<string>,
    displayName: Option<string>,
    name: Option<string>,
    status: Option<string>)

  /** `message.chat`: a bare id, or a populated chat object carrying `_id`. */
  datatype ChatField = ChatRef(id: ChatId) | ChatObject(id: ChatId)

  datatype ClientMessage = ClientMessage(
    id: MessageId,
    chat: ChatField,
    sender: Option<ClientUser>,
    content: Option<string>,
    messageType: string,
    isDeleted: bool,
    createdAt: int)

  /** `updatedAt` is kept as the instant it denotes (`new Date(updatedAt)`). */
  datatype ClientChat = ClientChat(
    id: ChatId,
    isGroupChat: bool,
    name: Option<string>,
    participants: seq<ClientUser>,
    lastMessage: Option<ClientMessage>,
    updatedAt: int)

  /** One entry of `typingUsers[chatId]`. */
  datatype Typer = Typer(userId: UserId, username: string)

  /** An axios call: the payload, or the failure with the server's `message` if any. */
  datatype Api<T> = Success(value: T) | Failure(message: Option<string>)

  /** `{ success: true, ... }` or `{ success: false, message }` returned by a store action. */
  datatype Outcome<T> = Done(value: T) | Failed(message: string)

  /** `error.response?.data?.message || fallback` */
  function ErrorMessage(message: Option<string>, fallback: string): (r: string)
    ensures Truthy(message) ==> r == message.value
    ensures !Truthy(message) ==> r == fallback
  {
    OrElse(message, Some(fallback)).value
  }

  /** `message.chat?._id` is undefined for a bare id. */
  function ChatIdOf(m: ClientMessage): ChatId {
    m.chat.id
  }

  /** `sender?._id` */
  function SenderId(m: ClientMessage): Option<UserId> {
    if m.sender.Some? then Some(m.sender.value.id) else None
  }

  /** `participants.find(p => p._id !== me)`: with no signed-in user every
      participant differs from `undefined`, so the first one is taken. */
  function OtherUser(participants: seq<ClientUser>, me: Option<UserId>): (r: Option<ClientUser>)
    ensures r.Some? ==> r.value in participants && Some(r.value.id) != me
    ensures r.None? ==> forall p :: p in participants ==> Some(p.id) == me
    ensures r.Some? ==> exists i :: 0 <= i < |participants| && participants[i] == r.value &&
                          forall j :: 0 <= j < i ==> Some(participants[j].id) == me
  {
    if participants == [] then None
    else if Some(participants[0].id) != me then Some(participants[0])
    else OtherUser(participants[1..], me)
  }
}
