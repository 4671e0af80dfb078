/** The message endpoints of server/src/controllers/messageController.js:
    newest-first pagination, sending (with and without an attachment), read
    receipts, soft delete and text-only edit by the sender. */
module MessageController {
  import opened Common
  import opened ServerIo
  import opened ChatModel
  import opened MessageModel
  import opened Database
  import opened Http
  import Presence

  /** `Chat.findOne({ _id: chatId, participants: caller })` */
  predicate Participant(chats: map<ChatId, ChatRecord>, chatId: ChatId, caller: UserId) {
    chatId in chats && caller in chats[chatId].participants
  }

  // ----- getMessages -----

  function Reverse<T>(s: seq<T>): (r: seq<T>)
    ensures |r| == |s|
    ensures forall i :: 0 <= i < |s| ==> r[i] == s[|s| - 1 - i]
  {
    if s == [] then [] else Reverse(s[1..]) + [s[0]]
  }

  function Min(a: int, b: int): int { if a <= b then a else b }
  function Max(a: int, b: int): int { if a >= b then a else b }
  function Abs(a: int): nat { if a >= 0 then a else -a }

  /** `Message.find({ chat: chatId, isDeleted: false })`, in creation order. */
  function Visible(ms: seq<MessageRecord>, chatId: ChatId): (r: seq<MessageRecord>)
    ensures forall m :: m in r <==> m in ms && m.chat == chatId && !m.isDeleted
    ensures IsSubseq(r, ms)
  {
    Filter(ms, (m: MessageRecord) => m.chat == chatId && !m.isDeleted)
  }

  /** `.sort({ createdAt: -1 }).skip(skip).limit(limit)` followed by `.reverse()`.
      `limit(0)` means no limit and a negative limit takes its absolute value. */
  function PageOf(visible: seq<MessageRecord>, skip: nat, limit: int): (r: seq<MessageRecord>)
    ensures |r| <= |visible|
    ensures limit != 0 ==> |r| <= Abs(limit)
    ensures skip >= |visible| ==> r == []
  {
    var newest := Reverse(visible);
    var lo := Min(skip, |visible|);
    var hi := if limit == 0 then |visible| else Min(skip + Abs(limit), |visible|);
    Reverse(newest[lo..hi])
  }

  /** Reversing a window of the reversed list gives the mirrored window of the list. */
  lemma {:induction false} ReverseWindow<T>(v: seq<T>, lo: nat, hi: nat)
    requires lo <= hi <= |v|
    ensures Reverse(Reverse(v)[lo..hi]) == v[|v| - hi..|v| - lo]
  {
    var r := Reverse(v);
    var w := r[lo..hi];
    var rw := Reverse(w);
    assert |rw| == hi - lo;
    forall k | 0 <= k < hi - lo ensures rw[k] == v[|v| - hi + k] {
      assert rw[k] == w[hi - lo - 1 - k];
      assert w[hi - lo - 1 - k] == r[hi - 1 - k];
    }
    assert rw == v[|v| - hi..|v| - lo];
  }

  /** The first position of a page, oldest-first, among `n` visible messages. */
  function PageStart(n: nat, skip: nat, limit: int): nat {
    if limit == 0 then 0 else Max(0, n - skip - Abs(limit))
  }

  /** One past the last position of a page among `n` visible messages. */
  function PageEnd(n: nat, skip: nat): nat {
    Max(0, n - skip)
  }

  /** A page, read oldest-first, is one contiguous run of the visible messages:
      the `limit` messages that precede the newest `skip` ones. */
  lemma PageIsSlice(visible: seq<MessageRecord>, skip: nat, limit: int)
    ensures PageStart(|visible|, skip, limit) <= PageEnd(|visible|, skip) <= |visible|
    ensures PageOf(visible, skip, limit) == visible[PageStart(|visible|, skip, limit)..PageEnd(|visible|, skip)]
  {
    var n := |visible|;
    var lo := Min(skip, n);
    var hi := if limit == 0 then n else Min(skip + Abs(limit), n);
    WindowBounds(n, skip, limit);
    assert PageOf(visible, skip, limit) == Reverse(Reverse(visible)[lo..hi]);
    ReverseWindow(visible, lo, hi);
  }

  /** The newest-first window `[lo, hi)` mirrors to `[PageStart, PageEnd)`. */
  lemma WindowBounds(n: nat, skip: nat, limit: int)
    ensures var lo := Min(skip, n);
            var hi := if limit == 0 then n else Min(skip + Abs(limit), n);
            lo <= hi <= n && PageStart(n, skip, limit) == n - hi && PageEnd(n, skip) == n - lo
  {
  }

  /** Two consecutive pages of the same size tile the visible messages without
      gap or overlap. */
  lemma AdjacentPagesTile(visible: seq<MessageRecord>, skip: nat, limit: nat)
    requires limit >= 1
    ensures var n := |visible|;
            PageOf(visible, skip + limit, limit) + PageOf(visible, skip, limit) ==
              visible[Max(0, n - skip - 2 * limit)..Max(0, n - skip)]
  {
    var n := |visible|;
    AdjacentBounds(n, skip, limit);
    var a, b, c := PageStart(n, skip + limit, limit), PageEnd(n, skip + limit), PageEnd(n, skip);
    PageIsSlice(visible, skip + limit, limit);
    PageIsSlice(visible, skip, limit);
    SplitSlice(visible, a, b, c);
  }

  /** The older page ends where the newer one starts. */
  lemma AdjacentBounds(n: nat, skip: nat, limit: nat)
    requires limit >= 1
    ensures PageStart(n, skip + limit, limit) == Max(0, n - skip - 2 * limit)
    ensures PageEnd(n, skip + limit) == PageStart(n, skip, limit)
    ensures PageEnd(n, skip) == Max(0, n - skip)
  {
  }

  lemma SplitSlice<T>(v: seq<T>, a: nat, b: nat, c: nat)
    requires a <= b <= c <= |v|
    ensures v[a..b] + v[b..c] == v[a..c]
  {
  }

  /** `Math.ceil(total / limit)`: no page count for `limit` 0 (JSON `null`). */
  function Pages(total: nat, limit: int): (r: Option<int>)
    ensures r.None? <==> limit == 0
    ensures total == 0 && limit != 0 ==> r == Some(0)
  {
    if limit == 0 then None
    else if limit > 0 then Some((total + limit - 1) / limit)
    else Some(-(total / -limit))
  }

  /** For a positive limit the page count is the least count whose pages hold
      every visible message. */
  lemma PagesIsCeiling(total: nat, limit: int)
    requires limit > 0
    ensures var p := Pages(total, limit).value;
            p >= 0 && p * limit >= total && (total > 0 ==> (p - 1) * limit < total) && (p == 0 <==> total == 0)
  {
    var q := (total + limit - 1) / limit;
    var r := (total + limit - 1) % limit;
    assert q * limit + r == total + limit - 1;
    assert 0 <= r < limit;
    assert (q - 1) * limit == q * limit - limit;
    if q == 0 {
      assert total + limit - 1 == r;
    }
  }

  datatype MessagePage = MessagePage(messages: seq<MessageRecord>, page: int, limit: int, total: nat, pages: Option<int>)

  const DefaultPage: int := 1
  const DefaultLimit: int := 50

  /** `getMessages`: `page` and `limit` default to 1 and 50 when the query
      leaves them out; 404 outside the chat; a negative skip fails in the
      query (500). */
  function GetMessages(db: Db, caller: UserId, chatId: ChatId, page: Option<int>, limit: Option<int>)
    : (r: Reply<MessagePage>)
    reads db
    ensures var p := if page.Some? then page.value else DefaultPage;
            var l := if limit.Some? then limit.value else DefaultLimit;
            (!Participant(db.chats, chatId, caller) ==> r == Err(404, "Chat not found")) &&
            (Participant(db.chats, chatId, caller) && (p - 1) * l < 0 ==> r == Err(500, "Failed to get messages")) &&
            (Participant(db.chats, chatId, caller) && (p - 1) * l >= 0 ==>
               var v := Visible(db.messages, chatId);
               var skip := (p - 1) * l;
               r.Ok? && r.status == 200 &&
               r.data.total == |v| && r.data.pages == Pages(|v|, l) &&
               r.data.page == p && r.data.limit == l &&
               r.data.messages == v[PageStart(|v|, skip, l)..PageEnd(|v|, skip)] &&
               (forall m :: m in r.data.messages ==> m in db.messages && m.chat == chatId && !m.isDeleted))
  {
    var p := if page.Some? then page.value else DefaultPage;
    var l := if limit.Some? then limit.value else DefaultLimit;
    if !Participant(db.chats, chatId, caller) then Err(404, "Chat not found")
    else if (p - 1) * l < 0 then Err(500, "Failed to get messages")
    else
      var v := Visible(db.messages, chatId);
      var skip := (p - 1) * l;
      PageIsSlice(v, skip, l);
      Ok(200, "", MessagePage(PageOf(v, skip, l), p, l, |v|, Pages(|v|, l)))
  }

  /** The client's `fetchMessages` sends no query: a member gets the 50
      newest visible messages, oldest first, as page 1 of
      `ceil(total / 50)`. */
  lemma DefaultQueryIsNewestFifty(db: Db, caller: UserId, chatId: ChatId)
    requires Participant(db.chats, chatId, caller)
    ensures var r := GetMessages(db, caller, chatId, None, None);
            var v := Visible(db.messages, chatId);
            r.Ok? && r.data.page == 1 && r.data.limit == 50 &&
            r.data.messages == v[Max(0, |v| - 50)..] && r.data.pages == Some((|v| + 49) / 50)
  {
    var v := Visible(db.messages, chatId);
    assert PageStart(|v|, 0, 50) == Max(0, |v| - 50);
    assert PageEnd(|v|, 0) == |v|;
  }

  // ----- sendMessage / sendMessageWithAttachment -----

  /** The message `sendMessage` builds: `messageType` defaults to 'text' when absent. */
  function TextDraft(id: MessageId, chatId: ChatId, sender: UserId, content: Option<string>,
                     messageType: Option<string>, now: int): MessageRecord {
    MessageModel.NewMessage(id, chatId, sender, content, messageType, NoAttachment, now)
  }

  /** The message `sendMessageWithAttachment` builds: `content || ''` and `messageType || 'file'`. */
  function AttachmentDraft(id: MessageId, chatId: ChatId, sender: UserId, content: Option<string>,
                           messageType: Option<string>, attachment: Attachment, now: int): (m: MessageRecord)
    ensures m.content == Some(if Truthy(content) then Trim(content.value) else "")
    ensures m.messageType == (if Truthy(messageType) then messageType.value else "file")
    ensures m.attachment == attachment
  {
    MessageModel.NewMessage(id, chatId, sender, Some(if Truthy(content) then content.value else ""),
                            Some(if Truthy(messageType) then messageType.value else "file"), attachment, now)
  }

  /** Without content or type, an attachment message is a 'file' message with
      content '' and it saves exactly when the attachment has a url. */
  lemma AttachmentDefaults(id: MessageId, chatId: ChatId, sender: UserId, attachment: Attachment, now: int)
    ensures var m := AttachmentDraft(id, chatId, sender, None, None, attachment, now);
            m.content == Some("") && m.messageType == "file" &&
            (MessageModel.SaveOk(m) <==> Truthy(attachment.url))
  {
  }

  /** `chat.lastMessage = message._id; await chat.save()` */
  function WithLastMessage(c: ChatRecord, id: MessageId, now: int): (r: ChatRecord)
    ensures r.lastMessage == Some(id) && r.updatedAt == now
    ensures r.participants == c.participants && r.admins == c.admins && r.name == c.name && r.id == c.id
  {
    c.(lastMessage := Some(id), updatedAt := now)
  }

  /** Saving a message under a new id, pointing the chat's `lastMessage` at it
      and broadcasting it to the whole chat room. */
  method Post(db: Db, io: Presence.SocketServer, chatId: ChatId, m: MessageRecord, now: int)
    returns (reply: Reply<MessageRecord>)
    requires db.Valid() && chatId in db.chats && m.chat == chatId && m.createdAt == now
    requires FindMessage(db.messages, m.id).None? && NotAfter(db.messages, now)
    modifies db`chats, db`messages, io`log
    ensures db.Valid()
    ensures !MessageModel.SaveOk(m) ==>
              reply == Err(500, "Failed to send message") &&
              db.chats == old(db.chats) && db.messages == old(db.messages) && io.log == old(io.log)
    ensures MessageModel.SaveOk(m) ==>
              reply == Ok(201, "", m) &&
              db.messages == old(db.messages) + [m] &&
              db.chats == old(db.chats)[chatId := WithLastMessage(old(db.chats)[chatId], m.id, now)] &&
              io.log == old(io.log) + [Emission(ToRoom(ChatRoom(chatId)), NewMessage(chatId, m.id))]
  {
    if !MessageModel.SaveOk(m) {
      return Err(500, "Failed to send message");
    }
    AppendKeepsWellFormed(db.messages, m);
    db.messages := db.messages + [m];
    var chat := db.chats[chatId];
    chat := chat.(lastMessage := Some(m.id), updatedAt := now);
    assert ChatsWellFormed(db.chats[chatId := chat]);
    db.chats := db.chats[chatId := chat];
    io.EmitTo(ChatRoom(chatId), NewMessage(chatId, m.id));
    reply := Ok(201, "", m);
  }

  method SendMessage(db: Db, io: Presence.SocketServer, caller: UserId, chatId: ChatId,
                     content: Option<string>, messageType: Option<string>, id: MessageId, now: int)
    returns (reply: Reply<MessageRecord>)
    requires db.Valid() && FindMessage(db.messages, id).None? && NotAfter(db.messages, now)
    modifies db`chats, db`messages, io`log
    ensures db.Valid()
    ensures !Participant(old(db.chats), chatId, caller) ==>
              reply == Err(404, "Chat not found") &&
              db.chats == old(db.chats) && db.messages == old(db.messages) && io.log == old(io.log)
    ensures Participant(old(db.chats), chatId, caller) ==>
              var m := TextDraft(id, chatId, caller, content, messageType, now);
              (!MessageModel.SaveOk(m) ==>
                 reply == Err(500, "Failed to send message") &&
                 db.chats == old(db.chats) && db.messages == old(db.messages) && io.log == old(io.log)) &&
              (MessageModel.SaveOk(m) ==>
                 reply == Ok(201, "", m) && db.messages == old(db.messages) + [m] &&
                 db.chats == old(db.chats)[chatId := WithLastMessage(old(db.chats)[chatId], id, now)] &&
                 io.log == old(io.log) + [Emission(ToRoom(ChatRoom(chatId)), NewMessage(chatId, id))])
  {
    if !Participant(db.chats, chatId, caller) {
      return Err(404, "Chat not found");
    }
    reply := Post(db, io, chatId, TextDraft(id, chatId, caller, content, messageType, now), now);
  }

  method SendMessageWithAttachment(db: Db, io: Presence.SocketServer, caller: UserId, chatId: ChatId,
                                   content: Option<string>, messageType: Option<string>, attachment: Attachment,
                                   id: MessageId, now: int)
    returns (reply: Reply<MessageRecord>)
    requires db.Valid() && FindMessage(db.messages, id).None? && NotAfter(db.messages, now)
    modifies db`chats, db`messages, io`log
    ensures db.Valid()
    ensures !Participant(old(db.chats), chatId, caller) ==>
              reply == Err(404, "Chat not found") &&
              db.chats == old(db.chats) && db.messages == old(db.messages) && io.log == old(io.log)
    ensures Participant(old(db.chats), chatId, caller) ==>
              var m := AttachmentDraft(id, chatId, caller, content, messageType, attachment, now);
              (!MessageModel.SaveOk(m) ==>
                 reply == Err(500, "Failed to send message") &&
                 db.chats == old(db.chats) && db.messages == old(db.messages) && io.log == old(io.log)) &&
              (MessageModel.SaveOk(m) ==>
                 reply == Ok(201, "", m) && db.messages == old(db.messages) + [m] &&
                 db.chats == old(db.chats)[chatId := WithLastMessage(old(db.chats)[chatId], id, now)] &&
                 io.log == old(io.log) + [Emission(ToRoom(ChatRoom(chatId)), NewMessage(chatId, id))])
  {
    if !Participant(db.chats, chatId, caller) {
      return Err(404, "Chat not found");
    }
    reply := Post(db, io, chatId, AttachmentDraft(id, chatId, caller, content, messageType, attachment, now), now);
  }

  // ----- markAsRead -----

  predicate HasRead(marks: seq<ReadMark>, u: UserId) {
    exists k :: 0 <= k < |marks| && marks[k].user == u
  }

  /** At most one receipt per user. */
  predicate ReadOnce(marks: seq<ReadMark>) {
    forall k, l :: 0 <= k < l < |marks| ==> marks[k].user != marks[l].user
  }

  /** The `updateMany` filter: a message of the chat, not sent by the reader and
      without a receipt by the reader. */
  predicate Unread(m: MessageRecord, chatId: ChatId, reader: UserId) {
    m.chat == chatId && m.sender != reader && !HasRead(m.readBy, reader)
  }

  /** The `$push` applied to one message. */
  function MarkOne(m: MessageRecord, chatId: ChatId, reader: UserId, now: int): MessageRecord {
    if Unread(m, chatId, reader) then m.(readBy := m.readBy + [ReadMark(reader, now)]) else m
  }

  function MarkRead(ms: seq<MessageRecord>, chatId: ChatId, reader: UserId, now: int): (r: seq<MessageRecord>)
    ensures |r| == |ms|
    ensures forall i :: 0 <= i < |ms| ==> r[i] == MarkOne(ms[i], chatId, reader, now)
  {
    seq(|ms|, i requires 0 <= i < |ms| => MarkOne(ms[i], chatId, reader, now))
  }

  /** After `markAsRead`, every message of the chat that the reader did not send
      carries the reader's receipt; at most one receipt was added per message,
      only `readBy` changed, and messages of other chats are untouched. */
  lemma MarkReadEffect(ms: seq<MessageRecord>, chatId: ChatId, reader: UserId, now: int)
    ensures var r := MarkRead(ms, chatId, reader, now);
            forall i :: 0 <= i < |ms| ==>
              (ms[i].chat == chatId && ms[i].sender != reader ==> HasRead(r[i].readBy, reader)) &&
              r[i] == ms[i].(readBy := r[i].readBy) &&
              ms[i].readBy <= r[i].readBy && |r[i].readBy| <= |ms[i].readBy| + 1 &&
              (ms[i].chat != chatId ==> r[i] == ms[i])
  {
    var r := MarkRead(ms, chatId, reader, now);
    forall i | 0 <= i < |ms| && ms[i].chat == chatId && ms[i].sender != reader
      ensures HasRead(r[i].readBy, reader)
    {
      if !HasRead(ms[i].readBy, reader) {
        assert r[i].readBy[|ms[i].readBy|].user == reader;
      } else {
        var k :| 0 <= k < |ms[i].readBy| && ms[i].readBy[k].user == reader;
        assert r[i].readBy[k].user == reader;
      }
    }
  }

  /** Marking twice adds nothing the first call did not. */
  lemma MarkReadIdempotent(ms: seq<MessageRecord>, chatId: ChatId, reader: UserId, t1: int, t2: int)
    ensures MarkRead(MarkRead(ms, chatId, reader, t1), chatId, reader, t2) == MarkRead(ms, chatId, reader, t1)
  {
    var once := MarkRead(ms, chatId, reader, t1);
    forall i | 0 <= i < |ms| ensures MarkOne(once[i], chatId, reader, t2) == once[i] {
      if Unread(ms[i], chatId, reader) {
        assert once[i].readBy[|ms[i].readBy|].user == reader;
      }
    }
  }

  /** A message never holds two receipts by the same user. */
  lemma MarkReadKeepsReadOnce(ms: seq<MessageRecord>, chatId: ChatId, reader: UserId, now: int)
    requires forall i :: 0 <= i < |ms| ==> ReadOnce(ms[i].readBy)
    ensures var r := MarkRead(ms, chatId, reader, now);
            forall i :: 0 <= i < |r| ==> ReadOnce(r[i].readBy)
  {
  }

  lemma MarkReadKeepsWellFormed(ms: seq<MessageRecord>, chatId: ChatId, reader: UserId, now: int)
    requires MessagesWellFormed(ms)
    ensures MessagesWellFormed(MarkRead(ms, chatId, reader, now))
  {
    var r := MarkRead(ms, chatId, reader, now);
    forall i | 0 <= i < |r| ensures r[i].id == ms[i].id && r[i].createdAt == ms[i].createdAt && MessageModel.SaveOk(r[i]) {
    }
  }

  method MarkAsRead(db: Db, io: Presence.SocketServer, caller: UserId, chatId: ChatId, now: int)
    returns (reply: Reply<()>)
    requires db.Valid()
    modifies db`messages, io`log
    ensures db.Valid()
    ensures !Participant(db.chats, chatId, caller) ==>
              reply == Err(404, "Chat not found") && db.messages == old(db.messages) && io.log == old(io.log)
    ensures Participant(db.chats, chatId, caller) ==>
              reply == Ok(200, "Messages marked as read", ()) &&
              db.messages == MarkRead(old(db.messages), chatId, caller, now) &&
              io.log == old(io.log) + [Emission(ToRoom(ChatRoom(chatId)), MessagesRead(chatId, caller))]
  {
    if !Participant(db.chats, chatId, caller) {
      return Err(404, "Chat not found");
    }
    MarkReadKeepsWellFormed(db.messages, chatId, caller, now);
    db.messages := MarkRead(db.messages, chatId, caller, now);
    io.EmitTo(ChatRoom(chatId), MessagesRead(chatId, caller));
    reply := Ok(200, "Messages marked as read", ());
  }

  // ----- deleteMessage / editMessage -----

  const DeletedContent: string := "This message was deleted"

  /** Replacing a message by one with the same id and time that also saves keeps the collection well formed. */
  lemma ReplaceKeepsWellFormed(ms: seq<MessageRecord>, i: nat, m: MessageRecord)
    requires MessagesWellFormed(ms) && i < |ms|
    requires m.id == ms[i].id && m.createdAt == ms[i].createdAt && MessageModel.SaveOk(m)
    ensures MessagesWellFormed(ms[i := m])
  {
  }

  /** `Message.findOne({ _id: messageId, sender: caller })` */
  predicate SentBy(ms: seq<MessageRecord>, id: MessageId, caller: UserId) {
    FindMessage(ms, id).Some? && ms[FindMessage(ms, id).value].sender == caller
  }

  function SoftDeleted(m: MessageRecord): (r: MessageRecord)
    ensures r.isDeleted && r.content == Some(DeletedContent)
    ensures r == m.(isDeleted := true, content := Some(DeletedContent))
  {
    m.(isDeleted := true, content := Some(DeletedContent))
  }

  /** A soft-deleted message is never listed again by `getMessages`. */
  lemma DeletedNotVisible(ms: seq<MessageRecord>, i: nat, chatId: ChatId)
    requires i < |ms|
    ensures SoftDeleted(ms[i]) !in Visible(ms[i := SoftDeleted(ms[i])], chatId)
  {
  }

  method DeleteMessage(db: Db, io: Presence.SocketServer, caller: UserId, id: MessageId) returns (reply: Reply<()>)
    requires db.Valid()
    modifies db`messages, io`log
    ensures db.Valid()
    ensures !SentBy(old(db.messages), id, caller) ==>
              reply == Err(404, "Message not found or you are not the sender") &&
              db.messages == old(db.messages) && io.log == old(io.log)
    ensures SentBy(old(db.messages), id, caller) ==>
              var i := FindMessage(old(db.messages), id).value;
              reply == Ok(200, "Message deleted", ()) &&
              db.messages == old(db.messages)[i := SoftDeleted(old(db.messages)[i])] &&
              io.log == old(io.log) + [Emission(ToRoom(ChatRoom(old(db.messages)[i].chat)), MessageDeleted(id, old(db.messages)[i].chat))]
  {
    var found := FindMessage(db.messages, id);
    if found.None? || db.messages[found.value].sender != caller {
      return Err(404, "Message not found or you are not the sender");
    }
    var i := found.value;
    var m := db.messages[i];
    m := m.(isDeleted := true);
    m := m.(content := Some(DeletedContent));
    ReplaceKeepsWellFormed(db.messages, i, m);
    db.messages := db.messages[i := m];
    io.EmitTo(ChatRoom(m.chat), MessageDeleted(id, m.chat));
    reply := Ok(200, "Message deleted", ());
  }

  /** `Message.findOne({ _id: messageId, sender: caller, messageType: 'text' })` */
  predicate EditableBy(ms: seq<MessageRecord>, id: MessageId, caller: UserId) {
    SentBy(ms, id, caller) && ms[FindMessage(ms, id).value].messageType == "text"
  }

  function Edited(m: MessageRecord, content: Option<string>): (r: MessageRecord)
    ensures r.isEdited && r.content == TrimmedContent(content)
    ensures r.id == m.id && r.chat == m.chat && r.sender == m.sender && r.messageType == m.messageType
    ensures r.isDeleted == m.isDeleted && r.readBy == m.readBy && r.createdAt == m.createdAt
  {
    m.(content := TrimmedContent(content), isEdited := true)
  }

  /** Editing a text message to blank content fails its save. */
  lemma BlankEditRejected(m: MessageRecord, content: string)
    requires m.messageType == "text" && !Truthy(m.attachment.url) && AllSpace(content)
    ensures !MessageModel.SaveOk(Edited(m, Some(content)))
    ensures !MessageModel.SaveOk(Edited(m, None))
  {
    TrimEmptyIff(content);
  }

  method EditMessage(db: Db, io: Presence.SocketServer, caller: UserId, id: MessageId, content: Option<string>)
    returns (reply: Reply<MessageRecord>)
    requires db.Valid()
    modifies db`messages, io`log
    ensures db.Valid()
    ensures !EditableBy(old(db.messages), id, caller) ==>
              reply == Err(404, "Message not found or cannot be edited") &&
              db.messages == old(db.messages) && io.log == old(io.log)
    ensures EditableBy(old(db.messages), id, caller) ==>
              var i := FindMessage(old(db.messages), id).value;
              var m := Edited(old(db.messages)[i], content);
              (!MessageModel.SaveOk(m) ==>
                 reply == Err(500, "Failed to edit message") && db.messages == old(db.messages) && io.log == old(io.log)) &&
              (MessageModel.SaveOk(m) ==>
                 reply == Ok(200, "", m) && db.messages == old(db.messages)[i := m] &&
                 io.log == old(io.log) + [Emission(ToRoom(ChatRoom(m.chat)), MessageEdited(m.chat, id))])
  {
    var found := FindMessage(db.messages, id);
    if found.None? || db.messages[found.value].sender != caller || db.messages[found.value].messageType != "text" {
      return Err(404, "Message not found or cannot be edited");
    }
    var i := found.value;
    var m := db.messages[i];
    m := m.(content := TrimmedContent(content));
    m := m.(isEdited := true);
    if !MessageModel.SaveOk(m) {
      return Err(500, "Failed to edit message");
    }
    ReplaceKeepsWellFormed(db.messages, i, m);
    db.messages := db.messages[i := m];
    io.EmitTo(ChatRoom(m.chat), MessageEdited(m.chat, id));
    reply := Ok(200, "", m);
  }
}
