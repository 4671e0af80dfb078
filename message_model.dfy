/** The Message schema of server/src/models/Message.js: defaults, the
    `messageType` enum, the trimmed content, and the pre-save rule that a
    non-system message carries content or an attachment url. */
module MessageModel {
  import opened Common

  const MessageTypes: set<string> := {"text", "image", "file", "system"}

  datatype Attachment = Attachment(
    url: Option<string>,
    publicId: Option<string>,
    fileName: Option<string>,
    fileSize: Option<int>,
    fileType: Option<string>)

  const NoAttachment := Attachment(None, None, None, None, None)

  datatype ReadMark = ReadMark(user: UserId, readAt: int)

  datatype MessageRecord = MessageRecord(
    id: MessageId,
    chat: ChatId,
    sender: UserId,
    content: Option<string>,
    messageType: string,
    attachment: Attachment,
    readBy: seq<ReadMark>,
    isEdited: bool,
    isDeleted: bool,
    createdAt: int)

  /** The content setter trims strings and leaves `undefined` alone. */
  function TrimmedContent(content: Option<string>): (r: Option<string>)
    ensures r.Some? <==> content.Some?
    ensures content.Some? ==> r.value == Trim(content.value)
  {
    if content.Some? then Some(Trim(content.value)) else None
  }

  /** `new Message({...})`: `messageType` defaults to 'text', `readBy` to [],
      `isEdited` and `isDeleted` to false. */
  function NewMessage(id: MessageId, chat: ChatId, sender: UserId, content: Option<string>,
                      messageType: Option<string>, attachment: Attachment, now: int): (m: MessageRecord)
    ensures m.id == id && m.chat == chat && m.sender == sender && m.createdAt == now
    ensures m.messageType == (if messageType.Some? then messageType.value else "text")
    ensures m.readBy == [] && !m.isEdited && !m.isDeleted
    ensures m.content == TrimmedContent(content)
  {
    MessageRecord(id, chat, sender, TrimmedContent(content),
                  if messageType.Some? then messageType.value else "text",
                  attachment, [], false, false, now)
  }

  datatype MessageSaveError = InvalidMessageType | EmptyMessage

  /** What `message.save()` rejects: the enum validator runs first, then the
      pre-save hook. */
  function SaveFailure(m: MessageRecord): (e: Option<MessageSaveError>)
    ensures e.None? <==> m.messageType in MessageTypes &&
                         (m.messageType == "system" || Truthy(m.content) || Truthy(m.attachment.url))
    ensures e == Some(EmptyMessage) ==> m.messageType != "system"
  {
    if m.messageType !in MessageTypes then Some(InvalidMessageType)
    else if !Truthy(m.content) && !Truthy(m.attachment.url) && m.messageType != "system" then Some(EmptyMessage)
    else None
  }

  predicate SaveOk(m: MessageRecord) {
    SaveFailure(m).None?
  }

  /** Whitespace-only text without an attachment is trimmed to '' and rejected. */
  lemma WhitespaceOnlyTextRejected(id: MessageId, chat: ChatId, sender: UserId, text: string, now: int)
    requires AllSpace(text)
    ensures SaveFailure(NewMessage(id, chat, sender, Some(text), None, NoAttachment, now)) == Some(EmptyMessage)
  {
    TrimEmptyIff(text);
  }

  /** Text with a non-space character is saved. */
  lemma NonBlankTextAccepted(id: MessageId, chat: ChatId, sender: UserId, text: string, now: int)
    requires !AllSpace(text)
    ensures SaveOk(NewMessage(id, chat, sender, Some(text), None, NoAttachment, now))
  {
    TrimEmptyIff(text);
  }

  /** A system message is saved even without content. */
  lemma SystemMessageAlwaysSaves(m: MessageRecord)
    requires m.messageType == "system"
    ensures SaveOk(m)
  {
  }
}
