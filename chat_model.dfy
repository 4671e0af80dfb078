/** The Chat schema of server/src/models/Chat.js: defaults, the trimmed and
    bounded name, and the pre-save rule that a chat has at least two participants. */
module ChatModel {
  import opened Common

  const NameMaxLength: nat := 100
  const MinParticipants: nat := 2

  datatype GroupAvatar = GroupAvatar(url: string, publicId: string)

  datatype ChatRecord = ChatRecord(
    id: ChatId,
    name: Option<string>,
    isGroupChat: bool,
    participants: seq<UserId>,
    admins: seq<UserId>,
    groupAvatar: GroupAvatar,
    lastMessage: Option<MessageId>,
    createdBy: Option<UserId>,
    updatedAt: int)

  /** `new Chat({...})`: the name setter trims, `isGroupChat` defaults to
      false and both `groupAvatar` strings default to ''. */
  function NewChat(id: ChatId, name: Option<string>, isGroupChat: Option<bool>,
                   participants: seq<UserId>, admins: seq<UserId>,
                   createdBy: UserId, now: int): (c: ChatRecord)
    ensures c.id == id && c.participants == participants && c.admins == admins
    ensures c.isGroupChat <==> isGroupChat == Some(true)
    ensures c.groupAvatar == GroupAvatar("", "")
    ensures c.name.Some? <==> name.Some?
    ensures name.Some? ==> c.name.value == Trim(name.value)
    ensures c.lastMessage.None? && c.createdBy == Some(createdBy)
  {
    ChatRecord(
      id,
      if name.Some? then Some(Trim(name.value)) else None,
      if isGroupChat.Some? then isGroupChat.value else false,
      participants, admins, GroupAvatar("", ""), None, Some(createdBy), now)
  }

  /** `chat.name = n`: the schema setter trims. */
  function WithName(c: ChatRecord, n: string): (r: ChatRecord)
    ensures r.name == Some(Trim(n))
    ensures r.participants == c.participants && r.admins == c.admins && r.id == c.id
  {
    c.(name := Some(Trim(n)))
  }

  datatype ChatSaveError = NameTooLong | TooFewParticipants

  /** What `chat.save()` rejects: the `maxlength` validator (on UTF-16 length)
      runs first, then the
      pre-save hook on the participant count. */
  function SaveFailure(c: ChatRecord): (e: Option<ChatSaveError>)
    ensures e.None? <==> (c.name.Some? ==> Utf16Length(c.name.value) <= NameMaxLength) && |c.participants| >= MinParticipants
    ensures e == Some(TooFewParticipants) ==> |c.participants| < 2
  {
    if c.name.Some? && Utf16Length(c.name.value) > NameMaxLength then Some(NameTooLong)
    else if |c.participants| < MinParticipants then Some(TooFewParticipants)
    else None
  }

  predicate SaveOk(c: ChatRecord) {
    SaveFailure(c).None?
  }

  /** A chat with fewer than two participants is never saved, whatever its name. */
  lemma FewerThanTwoRejected(c: ChatRecord)
    requires |c.participants| < 2
    ensures !SaveOk(c)
  {
  }
}
