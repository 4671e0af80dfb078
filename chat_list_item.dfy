/** client/src/components/chat/ChatListItem.jsx: one row of the chat list —
    the title, the presence dot, the last-message preview, the typing line
    and the unread badge. */
module ChatListItem {
  import opened Common
  import opened ClientTypes
  import ChatView

  /** `activeChat?._id === chat._id` */
  predicate IsActive(active: Option<ClientChat>, chat: ClientChat) {
    active.Some? && active.value.id == chat.id
  }

  /** What `getDisplayInfo` returns. */
  datatype RowInfo = RowInfo(name: Option<string>, status: Option<string>, userId: Option<UserId>, isGroup: bool)

  /** `getDisplayInfo` */
  function RowDisplayInfo(chat: ClientChat, me: Option<UserId>): (r: RowInfo)
    ensures chat.isGroupChat ==> r == RowInfo(chat.name, None, None, true)
    ensures !chat.isGroupChat ==>
              var other := OtherUser(chat.participants, me);
              !r.isGroup && Truthy(r.name) &&
              r.userId == (if other.Some? then Some(other.value.id) else None) &&
              r.status == (if other.Some? then other.value.status else None)
  {
    if chat.isGroupChat then RowInfo(chat.name, None, None, true)
    else
      var other := OtherUser(chat.participants, me);
      if other.None? then RowInfo(Some("Unknown User"), None, None, false)
      else RowInfo(OrElse(OrElse(other.value.name, other.value.displayName), Some("Unknown User")),
                   other.value.status, Some(other.value.id), false)
  }

  /** `isOnline`: a direct chat whose other participant is listed online. */
  predicate IsOnline(info: RowInfo, onlineUsers: seq<UserId>): (online: bool)
    ensures online ==> info.userId.Some? && info.userId.value in onlineUsers
    ensures info.userId.Some? && info.userId.value != "" && info.userId.value in onlineUsers ==> online
    ensures info.userId.None? || onlineUsers == [] ==> !online
  {
    Truthy(info.userId) && info.userId.value in onlineUsers
  }

  /** The green dot of a row: a direct chat's row is online exactly when its
      other participant (with a non-empty id) is listed online, and a group's
      row never is. */
  lemma RowOnlineIffListed(chat: ClientChat, me: Option<UserId>, onlineUsers: seq<UserId>)
    ensures chat.isGroupChat ==> !IsOnline(RowDisplayInfo(chat, me), onlineUsers)
    ensures !chat.isGroupChat && OtherUser(chat.participants, me).Some? && OtherUser(chat.participants, me).value.id != "" ==>
              (IsOnline(RowDisplayInfo(chat, me), onlineUsers) <==> OtherUser(chat.participants, me).value.id in onlineUsers)
    ensures !chat.isGroupChat && OtherUser(chat.participants, me).None? ==> !IsOnline(RowDisplayInfo(chat, me), onlineUsers)
  {
  }

  /** A row and the header of the same direct chat agree on its title and
      on whether the other participant is online. */
  lemma RowAgreesWithHeader(chat: ClientChat, me: Option<UserId>, onlineUsers: seq<UserId>)
    requires !chat.isGroupChat
    requires forall p :: p in chat.participants ==> p.id != ""
    ensures RowDisplayInfo(chat, me).name == ChatView.DisplayInfo(Some(chat), me, onlineUsers).name
    ensures IsOnline(RowDisplayInfo(chat, me), onlineUsers) ==>
              ChatView.DisplayInfo(Some(chat), me, onlineUsers).status == Some("online")
    ensures !IsOnline(RowDisplayInfo(chat, me), onlineUsers) ==>
              ChatView.DisplayInfo(Some(chat), me, onlineUsers).status == RowDisplayInfo(chat, me).status
  {
  }

  /** The sender's label in a group preview: "You", or the first word of the
      sender's `name || displayName` (`undefined` when both are missing). */
  function SenderLabel(sender: Option<ClientUser>, me: Option<UserId>): (tag: string)
    ensures (if sender.Some? then Some(sender.value.id) else None) == me ==> tag == "You"
  {
    if (if sender.Some? then Some(sender.value.id) else None) == me then "You"
    else
      var n := if sender.Some? then OrElse(sender.value.name, sender.value.displayName) else None;
      if n.None? then "undefined" else FirstWord(n.value)
  }

  const ImageLabel: string := "\U{1F4F7} Image"
  const FileLabel: string := "\U{1F4CE} File"

  /** `getLastMessagePreview` */
  function Preview(chat: ClientChat, me: Option<UserId>): (p: string)
    ensures chat.lastMessage.None? ==> p == "No messages yet"
    ensures chat.lastMessage.Some? && chat.lastMessage.value.messageType == "image" ==> p == ImageLabel
    ensures chat.lastMessage.Some? && chat.lastMessage.value.messageType == "file" ==> p == FileLabel
    ensures (chat.lastMessage.Some? && chat.lastMessage.value.messageType !in {"image", "file"} &&
             chat.lastMessage.value.isDeleted) ==> p == "Message deleted"
    ensures (chat.lastMessage.Some? && chat.lastMessage.value.messageType !in {"image", "file"} &&
             !chat.lastMessage.value.isDeleted) ==>
              var m := chat.lastMessage.value;
              var content := if m.content.Some? then m.content.value else "";
              p == if chat.isGroupChat then SenderLabel(m.sender, me) + ": " + content else content
  {
    if chat.lastMessage.None? then "No messages yet"
    else
      var m := chat.lastMessage.value;
      if m.messageType == "image" then ImageLabel
      else if m.messageType == "file" then FileLabel
      else if m.isDeleted then "Message deleted"
      else
        var content := if m.content.Some? then m.content.value else "";
        if chat.isGroupChat then SenderLabel(m.sender, me) + ": " + content else content
  }

  /** A deleted attachment keeps its type, and the type is checked first:
      its preview is still the attachment label. */
  lemma DeletedImageStillPreviewsAsImage(chat: ClientChat, me: Option<UserId>)
    requires chat.lastMessage.Some? && chat.lastMessage.value.isDeleted && chat.lastMessage.value.messageType == "image"
    ensures Preview(chat, me) == ImageLabel && Preview(chat, me) != "Message deleted"
  {
  }

  /** A group preview of a message of one's own starts with "You: ". */
  lemma OwnMessagePreview(chat: ClientChat, me: UserId)
    requires chat.isGroupChat && chat.lastMessage.Some?
    requires chat.lastMessage.value.messageType !in {"image", "file"} && !chat.lastMessage.value.isDeleted
    requires SenderId(chat.lastMessage.value) == Some(me)
    ensures StartsWith(Preview(chat, Some(me)), "You: ")
  {
    var p := Preview(chat, Some(me));
    assert p[..5] == "You: ";
  }

  /** The unread bubble. */
  datatype Badge = Hidden | Count(n: int) | NinetyNinePlus

  /** `unreadCount > 0 && !isActive`, capped at "99+". */
  function UnreadBadge(unreadCount: int, isActive: bool): (b: Badge)
    ensures b != Hidden <==> unreadCount > 0 && !isActive
    ensures b.Count? ==> 0 < b.n <= 99 && b.n == unreadCount
    ensures b == NinetyNinePlus <==> unreadCount > 99 && !isActive
  {
    if unreadCount > 0 && !isActive then (if unreadCount > 99 then NinetyNinePlus else Count(unreadCount))
    else Hidden
  }

  /** The chat list renders rows without `unreadCount`, which defaults to 0:
      no row shows a badge. */
  lemma NoBadgeByDefault(isActive: bool)
    ensures UnreadBadge(0, isActive) == Hidden
  {
  }

  /** The typing line of a row. */
  function RowTypingText(typers: seq<Typer>): (t: Option<string>)
    ensures t.None? <==> typers == []
    ensures |typers| == 1 ==> t == Some(typers[0].username + " is typing...")
    ensures |typers| >= 2 ==> t == Some("Several people are typing...")
  {
    if typers == [] then None
    else if |typers| == 1 then Some(typers[0].username + " is typing...")
    else Some("Several people are typing...")
  }

  /** The row and the header agree except with two typers, whom the header
      names and the row does not. */
  lemma TypingLinesAgree(typers: seq<Typer>)
    ensures |typers| != 2 ==> RowTypingText(typers) == ChatView.TypingText(typers)
    ensures |typers| == 2 ==> RowTypingText(typers) == Some("Several people are typing...") &&
                              StartsWith(ChatView.TypingText(typers).value, typers[0].username + " and ")
  {
    if |typers| == 2 {
      var u := typers[0].username + " and ";
      assert ChatView.TypingText(typers).value[..|u|] == u;
    }
  }
}
