/** The membership rules of server/src/controllers/chatController.js: direct
    chat reuse, group creation, adding and removing participants, leaving a
    group and renaming it. Each endpoint reads and writes the abstract store
    and appends what it emits to the socket server's log. */
module ChatController {
  import opened Common
  import opened ServerIo
  import opened ChatModel
  import opened MessageModel
  import opened Database
  import opened Http
  import Presence

  // ----- list operations -----

  /** `[...new Set([creator, ...ids])]` */
  function GroupMembers(creator: UserId, ids: seq<UserId>): seq<UserId> {
    Dedup([creator] + ids)
  }

  /** The group members are duplicate-free, start with the creator and are
      exactly the creator together with the requested ids. */
  lemma GroupMembersShape(creator: UserId, ids: seq<UserId>)
    ensures var ps := GroupMembers(creator, ids);
            NoDups(ps) && ps != [] && ps[0] == creator &&
            forall u :: u in ps <==> u == creator || u in ids
  {
    DedupHead([creator] + ids);
  }

  /** A group has at least two members exactly when some requested id is not the creator. */
  lemma {:induction false} GroupSizeAtLeastTwo(creator: UserId, ids: seq<UserId>)
    ensures |GroupMembers(creator, ids)| >= 2 <==> exists u :: u in ids && u != creator
  {
    var ps := GroupMembers(creator, ids);
    GroupMembersShape(creator, ids);
    if exists u :: u in ids && u != creator {
      var u :| u in ids && u != creator;
      assert u in ps && ps[0] != u;
    }
    if |ps| >= 2 {
      assert ps[1] != ps[0];
      assert ps[1] in ids && ps[1] != creator;
    }
  }

  /** `participantIds.filter(id => !chat.participants.includes(id))` */
  function Joining(participants: seq<UserId>, ids: seq<UserId>): (r: seq<UserId>)
    ensures forall u :: u in r <==> u in ids && u !in participants
    ensures IsSubseq(r, ids)
  {
    Filter(ids, (u: UserId) => u !in participants)
  }

  /** The sole-admin guard of `removeParticipant`. */
  predicate IsLastAdmin(admins: seq<UserId>, u: UserId) {
    |admins| == 1 && admins[0] == u
  }

  /** The admins after `leaveGroup`: a sole admin first hands over to the first
      other participant (if any), then the caller is filtered out. */
  function AdminsAfterLeave(admins: seq<UserId>, participants: seq<UserId>, u: UserId): seq<UserId> {
    var others := RemoveAll(participants, u);
    var handed := if IsLastAdmin(admins, u) && |others| > 0 then [others[0]] else admins;
    RemoveAll(handed, u)
  }

  /** What a well-run group keeps: a non-empty, duplicate-free admin list inside the participants. */
  predicate AdminsWellFormed(participants: seq<UserId>, admins: seq<UserId>) {
    admins != [] && NoDups(admins) && forall a :: a in admins ==> a in participants
  }

  lemma RemoveAllNoDups(s: seq<UserId>, u: UserId)
    requires NoDups(s)
    ensures NoDups(RemoveAll(s, u))
  {
    SubseqNoDups(RemoveAll(s, u), s);
  }

  /** A new group is well formed: its creator is its only admin and a member. */
  lemma CreatedGroupWellFormed(creator: UserId, ids: seq<UserId>)
    ensures AdminsWellFormed(GroupMembers(creator, ids), [creator])
  {
    GroupMembersShape(creator, ids);
  }

  /** Adding participants keeps the admin structure and the old order. */
  lemma AddKeepsWellFormed(participants: seq<UserId>, admins: seq<UserId>, ids: seq<UserId>)
    requires AdminsWellFormed(participants, admins)
    ensures AdminsWellFormed(participants + Joining(participants, ids), admins)
    ensures (participants + Joining(participants, ids))[..|participants|] == participants
  {
  }

  /** When the guard lets a removal through, a well-formed group stays well formed. */
  lemma {:induction false} RemoveKeepsWellFormed(participants: seq<UserId>, admins: seq<UserId>, u: UserId)
    requires AdminsWellFormed(participants, admins) && !IsLastAdmin(admins, u)
    ensures AdminsWellFormed(RemoveAll(participants, u), RemoveAll(admins, u))
  {
    RemoveAllNoDups(admins, u);
    var a := admins[0];
    if a == u {
      assert |admins| >= 2 && admins[1] != u;
      assert admins[1] in RemoveAll(admins, u);
    } else {
      assert a in RemoveAll(admins, u);
    }
  }

  /** When someone remains after a leave, the group keeps a well-formed admin list. */
  lemma {:induction false} LeaveKeepsWellFormed(participants: seq<UserId>, admins: seq<UserId>, u: UserId)
    requires AdminsWellFormed(participants, admins) && RemoveAll(participants, u) != []
    ensures AdminsWellFormed(RemoveAll(participants, u), AdminsAfterLeave(admins, participants, u))
  {
    var others := RemoveAll(participants, u);
    if IsLastAdmin(admins, u) {
      assert others[0] in others;
      assert RemoveAll([others[0]], u) == [others[0]] by {
        RemoveAbsent([others[0]], u);
      }
    } else {
      RemoveKeepsWellFormed(participants, admins, u);
    }
  }

  /** The "deleted (no remaining members)" outcome needs a participant list that
      holds only the leaver, twice or more: a saved, duplicate-free group never reaches it. */
  lemma {:induction false} EmptyAfterLeaveNeedsDuplicates(participants: seq<UserId>, u: UserId)
    requires |participants| >= MinParticipants && RemoveAll(participants, u) == []
    ensures !NoDups(participants)
  {
    assert participants[0] !in RemoveAll(participants, u);
    assert participants[1] !in RemoveAll(participants, u);
    assert participants[0] == u && participants[1] == u;
  }

  /** Leaving a duplicate-free two-member group leaves one participant, which
      the Chat save hook refuses. */
  lemma {:induction false} LeavingPairFailsSave(c: ChatRecord, u: UserId)
    requires |c.participants| == 2 && NoDups(c.participants) && u in c.participants
    ensures |RemoveAll(c.participants, u)| == 1
    ensures !ChatModel.SaveOk(c.(participants := RemoveAll(c.participants, u)))
  {
    var ps := c.participants;
    var other := if ps[0] == u then ps[1] else ps[0];
    assert other != u && other in RemoveAll(ps, u);
    var r := RemoveAll(ps, u);
    assert forall y :: y in r ==> y == other by {
      forall y | y in r ensures y == other {
        assert y in ps && y != u;
      }
    }
    SubseqNoDups(r, ps);
    assert forall i :: 0 <= i < |r| ==> r[i] == other;
    assert |r| < 2;
  }

  // ----- emissions -----

  /** `ids.forEach(id => io.to(`user:${id}`).emit(e))` */
  function Announce(ids: seq<UserId>, e: ServerEvent): (r: seq<Emission>)
    ensures |r| == |ids|
  {
    if ids == [] then [] else [Emission(ToRoom(UserRoom(ids[0])), e)] + Announce(ids[1..], e)
  }

  /** The i-th emission goes to the i-th user's personal room. */
  lemma {:induction false} AnnounceAt(ids: seq<UserId>, e: ServerEvent, i: nat)
    requires i < |ids|
    ensures Announce(ids, e)[i] == Emission(ToRoom(UserRoom(ids[i])), e)
  {
    if i > 0 {
      AnnounceAt(ids[1..], e, i - 1);
    }
  }

  lemma {:induction false} AnnounceAppend(a: seq<UserId>, b: seq<UserId>, e: ServerEvent)
    ensures Announce(a + b, e) == Announce(a, e) + Announce(b, e)
  {
    if a != [] {
      assert (a + b)[1..] == a[1..] + b;
      AnnounceAppend(a[1..], b, e);
    } else {
      assert a + b == b;
    }
  }

  method AnnounceEach(io: Presence.SocketServer, ids: seq<UserId>, e: ServerEvent)
    modifies io`log
    ensures io.log == old(io.log) + Announce(ids, e)
  {
    var i := 0;
    while i < |ids|
      invariant 0 <= i <= |ids|
      invariant io.log == old(io.log) + Announce(ids[..i], e)
    {
      assert ids[..i + 1] == ids[..i] + [ids[i]];
      AnnounceAppend(ids[..i], [ids[i]], e);
      io.EmitTo(UserRoom(ids[i]), e);
      i := i + 1;
    }
    assert ids[..i] == ids;
  }

  /** Saving a valid chat under its own id keeps the chat collection well formed. */
  lemma StoreKeepsWellFormed(chats: map<ChatId, ChatRecord>, c: ChatRecord)
    requires ChatsWellFormed(chats) && ChatModel.SaveOk(c)
    ensures ChatsWellFormed(chats[c.id := c])
  {
  }

  // ----- createOrGetDirectChat -----

  /** The `findOne` filter: a non-group chat with exactly two participants containing both users. */
  predicate DirectBetween(c: ChatRecord, a: UserId, b: UserId) {
    !c.isGroupChat && |c.participants| == 2 && a in c.participants && b in c.participants
  }

  predicate HasDirectChat(chats: map<ChatId, ChatRecord>, a: UserId, b: UserId) {
    exists id :: id in chats && DirectBetween(chats[id], a, b)
  }

  function NewDirectChat(id: ChatId, caller: UserId, other: UserId, now: int): ChatRecord {
    ChatModel.NewChat(id, None, Some(false), [caller, other], [], caller, now)
  }

  /** Asking for a direct chat with oneself matches any direct chat of the caller:
      `$all: [me, me]` only asks that `me` be a member. */
  lemma SelfRequestMatchesAnyDirectChat(c: ChatRecord, me: UserId, other: UserId)
    requires !c.isGroupChat && c.participants == [me, other]
    ensures DirectBetween(c, me, me)
  {
  }

  method CreateOrGetDirectChat(db: Db, io: Presence.SocketServer, caller: UserId, participantId: Option<UserId>,
                               freshId: ChatId, now: int) returns (reply: Reply<ChatRecord>)
    requires db.Valid() && freshId !in db.chats
    modifies db`chats, io`log
    ensures db.Valid()
    ensures !Truthy(participantId) ==>
              reply == Err(400, "Participant ID is required") && db.chats == old(db.chats) && io.log == old(io.log)
    ensures Truthy(participantId) && FindUser(db.users, participantId.value).None? ==>
              reply == Err(404, "User not found") && db.chats == old(db.chats) && io.log == old(io.log)
    ensures Truthy(participantId) && FindUser(db.users, participantId.value).Some? &&
            HasDirectChat(old(db.chats), caller, participantId.value) ==>
              reply.Ok? && reply.status == 200 && reply.data in old(db.chats).Values &&
              DirectBetween(reply.data, caller, participantId.value) &&
              db.chats == old(db.chats) && io.log == old(io.log)
    ensures Truthy(participantId) && FindUser(db.users, participantId.value).Some? &&
            !HasDirectChat(old(db.chats), caller, participantId.value) ==>
              var c := NewDirectChat(freshId, caller, participantId.value, now);
              reply == Ok(201, "Chat created successfully", c) &&
              db.chats == old(db.chats)[freshId := c] &&
              io.log == old(io.log) + [Emission(ToRoom(UserRoom(participantId.value)), NewChat(freshId))]
  {
    if !Truthy(participantId) {
      return Err(400, "Participant ID is required");
    }
    var other := participantId.value;
    if FindUser(db.users, other).None? {
      return Err(404, "User not found");
    }
    if HasDirectChat(db.chats, caller, other) {
      var id :| id in db.chats && DirectBetween(db.chats[id], caller, other);
      return Ok(200, "", db.chats[id]);
    }
    var c := NewDirectChat(freshId, caller, other, now);
    db.chats := db.chats[freshId := c];
    io.EmitTo(UserRoom(other), NewChat(freshId));
    reply := Ok(201, "Chat created successfully", c);
  }

  // ----- createGroupChat -----

  /** The request guard: a truthy name and at least two requested ids, checked
      before the creator is added. */
  predicate GroupRequestOk(name: Option<string>, participantIds: Option<seq<UserId>>) {
    Truthy(name) && participantIds.Some? && |participantIds.value| >= 2
  }

  function GroupDraft(id: ChatId, creator: UserId, name: string, ids: seq<UserId>, now: int): ChatRecord {
    ChatModel.NewChat(id, Some(name), Some(true), GroupMembers(creator, ids), [creator], creator, now)
  }

  /** The system message: `${displayName} created the group "${name}"`, with the untrimmed name. */
  function CreationNotice(chatId: ChatId, id: MessageId, creator: UserId, creatorName: string,
                          name: string, now: int): MessageRecord {
    MessageModel.NewMessage(id, chatId, creator, Some(creatorName + " created the group \"" + name + "\""),
                            Some("system"), NoAttachment, now)
  }

  /** Naming oneself twice passes the request guard, yet the group has one
      member and its save fails. */
  lemma SelfOnlyGroupRejected(creator: UserId, name: string, id: ChatId, now: int)
    requires Utf16Length(Trim(name)) <= NameMaxLength
    ensures GroupRequestOk(Some(name), Some([creator, creator])) || name == ""
    ensures ChatModel.SaveFailure(GroupDraft(id, creator, name, [creator, creator], now)) == Some(TooFewParticipants)
  {
    GroupSizeAtLeastTwo(creator, [creator, creator]);
  }

  /** A whitespace-only name is truthy, passes the guard and is stored trimmed to ''. */
  lemma BlankGroupNameStored(creator: UserId, name: string, ids: seq<UserId>, id: ChatId, now: int)
    requires name != [] && AllSpace(name)
    ensures GroupRequestOk(Some(name), Some(ids)) <==> |ids| >= 2
    ensures GroupDraft(id, creator, name, ids, now).name == Some("")
  {
    TrimEmptyIff(name);
  }

  /** The saves and announcements of `createGroupChat` once the chat passed validation:
      the system message is stored, the chat points at it, and every member hears `newChat`. */
  method SaveGroup(db: Db, io: Presence.SocketServer, c: ChatRecord, notice: MessageRecord)
    requires db.Valid() && ChatModel.SaveOk(c) && MessageModel.SaveOk(notice)
    requires NotAfter(db.messages, notice.createdAt) && FindMessage(db.messages, notice.id).None?
    modifies db`chats, db`messages, io`log
    ensures db.Valid()
    ensures db.chats == old(db.chats)[c.id := c] && db.messages == old(db.messages) + [notice]
    ensures io.log == old(io.log) + Announce(c.participants, NewChat(c.id))
  {
    var chats, ms := db.chats, db.messages;
    AppendKeepsWellFormed(ms, notice);
    StoreKeepsWellFormed(chats, c);
    db.messages := ms + [notice];
    db.chats := chats[c.id := c];
    AnnounceEach(io, c.participants, NewChat(c.id));
  }

  method CreateGroupChat(db: Db, io: Presence.SocketServer, caller: UserId, callerDisplayName: string,
                         name: Option<string>, participantIds: Option<seq<UserId>>,
                         chatId: ChatId, messageId: MessageId, now: int) returns (reply: Reply<ChatRecord>)
    requires db.Valid() && chatId !in db.chats && FindMessage(db.messages, messageId).None?
    requires NotAfter(db.messages, now)
    modifies db`chats, db`messages, io`log
    ensures db.Valid()
    ensures !GroupRequestOk(name, participantIds) ==>
              reply == Err(400, "Group name and at least 2 participants are required") &&
              db.chats == old(db.chats) && db.messages == old(db.messages) && io.log == old(io.log)
    ensures GroupRequestOk(name, participantIds) &&
            !ChatModel.SaveOk(GroupDraft(chatId, caller, name.value, participantIds.value, now)) ==>
              reply == Err(500, "Failed to create group chat") &&
              db.chats == old(db.chats) && db.messages == old(db.messages) && io.log == old(io.log)
    ensures GroupRequestOk(name, participantIds) &&
            ChatModel.SaveOk(GroupDraft(chatId, caller, name.value, participantIds.value, now)) ==>
              var c := GroupDraft(chatId, caller, name.value, participantIds.value, now).(lastMessage := Some(messageId));
              reply == Ok(201, "Group chat created successfully", c) &&
              db.chats == old(db.chats)[chatId := c] &&
              db.messages == old(db.messages) + [CreationNotice(chatId, messageId, caller, callerDisplayName, name.value, now)] &&
              io.log == old(io.log) + Announce(c.participants, NewChat(chatId))
  {
    if !GroupRequestOk(name, participantIds) {
      return Err(400, "Group name and at least 2 participants are required");
    }
    var draft := GroupDraft(chatId, caller, name.value, participantIds.value, now);
    if !ChatModel.SaveOk(draft) {
      return Err(500, "Failed to create group chat");
    }
    var notice := CreationNotice(chatId, messageId, caller, callerDisplayName, name.value, now);
    var c := draft.(lastMessage := Some(messageId));
    SaveGroup(db, io, c, notice);
    reply := Ok(201, "Group chat created successfully", c);
  }

  // ----- admin-only lookups -----

  /** `Chat.findOne({ _id, isGroupChat: true, admins: caller })` */
  predicate AdminOf(chats: map<ChatId, ChatRecord>, chatId: ChatId, caller: UserId) {
    chatId in chats && chats[chatId].isGroupChat && caller in chats[chatId].admins
  }

  // ----- updateGroupChat -----

  /** The chat as `updateGroupChat` saves it: renamed only when the name is truthy. */
  function Renamed(c: ChatRecord, name: Option<string>, now: int): (r: ChatRecord)
    ensures Truthy(name) ==> r.name == Some(Trim(name.value)) && r.updatedAt == now
    ensures !Truthy(name) ==> r == c
    ensures r.participants == c.participants && r.admins == c.admins && r.id == c.id
  {
    if Truthy(name) then WithName(c, name.value).(updatedAt := now) else c
  }

  method UpdateGroupChat(db: Db, caller: UserId, chatId: ChatId, name: Option<string>, now: int)
    returns (reply: Reply<ChatRecord>)
    requires db.Valid()
    modifies db`chats
    ensures db.Valid()
    ensures !AdminOf(old(db.chats), chatId, caller) ==>
              reply == Err(404, "Group chat not found or you are not an admin") && db.chats == old(db.chats)
    ensures AdminOf(old(db.chats), chatId, caller) && !ChatModel.SaveOk(Renamed(old(db.chats)[chatId], name, now)) ==>
              reply == Err(500, "Failed to update group") && db.chats == old(db.chats)
    ensures AdminOf(old(db.chats), chatId, caller) && ChatModel.SaveOk(Renamed(old(db.chats)[chatId], name, now)) ==>
              reply == Ok(200, "Group updated successfully", Renamed(old(db.chats)[chatId], name, now)) &&
              db.chats == old(db.chats)[chatId := Renamed(old(db.chats)[chatId], name, now)]
  {
    if !AdminOf(db.chats, chatId, caller) {
      return Err(404, "Group chat not found or you are not an admin");
    }
    var chat := db.chats[chatId];
    if Truthy(name) {
      chat := WithName(chat, name.value).(updatedAt := now);
    }
    if !ChatModel.SaveOk(chat) {
      return Err(500, "Failed to update group");
    }
    db.chats := db.chats[chatId := chat];
    reply := Ok(200, "Group updated successfully", chat);
  }

  // ----- addParticipants -----

  method AddParticipants(db: Db, io: Presence.SocketServer, caller: UserId, chatId: ChatId,
                         participantIds: Option<seq<UserId>>, now: int) returns (reply: Reply<ChatRecord>)
    requires db.Valid()
    modifies db`chats, io`log
    ensures db.Valid()
    ensures !AdminOf(old(db.chats), chatId, caller) ==>
              reply == Err(404, "Group chat not found or you are not an admin") &&
              db.chats == old(db.chats) && io.log == old(io.log)
    ensures AdminOf(old(db.chats), chatId, caller) && participantIds.None? ==>
              reply == Err(500, "Failed to add participants") && db.chats == old(db.chats) && io.log == old(io.log)
    ensures AdminOf(old(db.chats), chatId, caller) && participantIds.Some? ==>
              var c := old(db.chats)[chatId];
              var joining := Joining(c.participants, participantIds.value);
              var updated := c.(participants := c.participants + joining, updatedAt := now);
              reply == Ok(200, "Participants added successfully", updated) &&
              db.chats == old(db.chats)[chatId := updated] &&
              io.log == old(io.log) + Announce(joining, AddedToGroup(chatId))
  {
    if !AdminOf(db.chats, chatId, caller) {
      return Err(404, "Group chat not found or you are not an admin");
    }
    if participantIds.None? {
      return Err(500, "Failed to add participants");
    }
    var chat := db.chats[chatId];
    var joining := Joining(chat.participants, participantIds.value);
    chat := chat.(participants := chat.participants + joining, updatedAt := now);
    db.chats := db.chats[chatId := chat];
    AnnounceEach(io, joining, AddedToGroup(chatId));
    reply := Ok(200, "Participants added successfully", chat);
  }

  /** An id already in the group is neither appended nor notified; an id
      repeated in the request is appended twice. */
  lemma JoiningSkipsMembers(participants: seq<UserId>, u: UserId, v: UserId)
    requires u in participants && v !in participants
    ensures Joining(participants, [u, v]) == [v]
    ensures Joining(participants, [v, v]) == [v, v]
  {
    assert [u, v][1..] == [v];
    assert [v, v][1..] == [v];
    assert [v][1..] == [];
  }

  // ----- removeParticipant -----

  function WithoutMember(c: ChatRecord, u: UserId, now: int): (r: ChatRecord)
    ensures u !in r.participants && u !in r.admins
    ensures forall v :: v != u ==> (v in r.participants <==> v in c.participants) && (v in r.admins <==> v in c.admins)
  {
    c.(participants := RemoveAll(c.participants, u), admins := RemoveAll(c.admins, u), updatedAt := now)
  }

  method RemoveParticipant(db: Db, io: Presence.SocketServer, caller: UserId, chatId: ChatId, userId: UserId, now: int)
    returns (reply: Reply<ChatRecord>)
    requires db.Valid()
    modifies db`chats, io`log
    ensures db.Valid()
    ensures !AdminOf(old(db.chats), chatId, caller) ==>
              reply == Err(404, "Group chat not found or you are not an admin") &&
              db.chats == old(db.chats) && io.log == old(io.log)
    ensures AdminOf(old(db.chats), chatId, caller) && IsLastAdmin(old(db.chats)[chatId].admins, userId) ==>
              reply == Err(400, "Cannot remove the last admin. Make someone else admin first.") &&
              db.chats == old(db.chats) && io.log == old(io.log)
    ensures AdminOf(old(db.chats), chatId, caller) && !IsLastAdmin(old(db.chats)[chatId].admins, userId) &&
            !ChatModel.SaveOk(WithoutMember(old(db.chats)[chatId], userId, now)) ==>
              reply == Err(500, "Failed to remove participant") && db.chats == old(db.chats) && io.log == old(io.log)
    ensures AdminOf(old(db.chats), chatId, caller) && !IsLastAdmin(old(db.chats)[chatId].admins, userId) &&
            ChatModel.SaveOk(WithoutMember(old(db.chats)[chatId], userId, now)) ==>
              var updated := WithoutMember(old(db.chats)[chatId], userId, now);
              reply == Ok(200, "Participant removed successfully", updated) &&
              db.chats == old(db.chats)[chatId := updated] &&
              io.log == old(io.log) + [Emission(ToRoom(UserRoom(userId)), RemovedFromGroup(chatId))]
  {
    if !AdminOf(db.chats, chatId, caller) {
      return Err(404, "Group chat not found or you are not an admin");
    }
    var chat := db.chats[chatId];
    if IsLastAdmin(chat.admins, userId) {
      return Err(400, "Cannot remove the last admin. Make someone else admin first.");
    }
    chat := chat.(participants := RemoveAll(chat.participants, userId));
    chat := chat.(admins := RemoveAll(chat.admins, userId), updatedAt := now);
    if !ChatModel.SaveOk(chat) {
      return Err(500, "Failed to remove participant");
    }
    db.chats := db.chats[chatId := chat];
    io.EmitTo(UserRoom(userId), RemovedFromGroup(chatId));
    reply := Ok(200, "Participant removed successfully", chat);
  }

  // ----- leaveGroup -----

  /** `Chat.findOne({ _id, isGroupChat: true, participants: caller })` */
  predicate MemberOfGroup(chats: map<ChatId, ChatRecord>, chatId: ChatId, caller: UserId) {
    chatId in chats && chats[chatId].isGroupChat && caller in chats[chatId].participants
  }

  function AfterLeave(c: ChatRecord, u: UserId, now: int): ChatRecord {
    c.(admins := AdminsAfterLeave(c.admins, c.participants, u),
       participants := RemoveAll(c.participants, u), updatedAt := now)
  }

  /** `Message.deleteMany({ chat: chatId })` */
  function DeleteChatMessages(ms: seq<MessageRecord>, chatId: ChatId): (r: seq<MessageRecord>)
    ensures forall m :: m in r <==> m in ms && m.chat != chatId
    ensures IsSubseq(r, ms)
  {
    Filter(ms, (m: MessageRecord) => m.chat != chatId)
  }

  /** Deleting a chat's messages keeps the collection well formed. */
  lemma FilterKeepsWellFormed(ms: seq<MessageRecord>, chatId: ChatId)
    requires MessagesWellFormed(ms)
    ensures MessagesWellFormed(DeleteChatMessages(ms, chatId))
  {
    var r := DeleteChatMessages(ms, chatId);
    var ordered := (x: MessageRecord, y: MessageRecord) => x.id != y.id && x.createdAt <= y.createdAt;
    assert Pairwise(ms, ordered);
    SubseqPairwise(r, ms, ordered);
    forall i | 0 <= i < |r| ensures MessageModel.SaveOk(r[i]) {
      assert r[i] in ms;
    }
  }

  /** `Message.deleteMany({ chat: chatId })` followed by `Chat.findByIdAndDelete(chatId)`. */
  method DeleteChat(db: Db, chatId: ChatId)
    requires db.Valid()
    modifies db`chats, db`messages
    ensures db.Valid()
    ensures db.chats == old(db.chats) - {chatId} && db.messages == DeleteChatMessages(old(db.messages), chatId)
  {
    var chats, ms := db.chats, db.messages;
    FilterKeepsWellFormed(ms, chatId);
    assert ChatsWellFormed(chats - {chatId});
    db.messages := DeleteChatMessages(ms, chatId);
    db.chats := chats - {chatId};
  }

  method LeaveGroup(db: Db, caller: UserId, chatId: ChatId, now: int) returns (reply: Reply<()>)
    requires db.Valid()
    modifies db`chats, db`messages
    ensures db.Valid()
    ensures !MemberOfGroup(old(db.chats), chatId, caller) ==>
              reply == Err(404, "Group chat not found") && db.chats == old(db.chats) && db.messages == old(db.messages)
    ensures MemberOfGroup(old(db.chats), chatId, caller) && RemoveAll(old(db.chats)[chatId].participants, caller) == [] ==>
              reply == Ok(200, "Left group and group was deleted (no remaining members)", ()) &&
              db.chats == old(db.chats) - {chatId} && db.messages == DeleteChatMessages(old(db.messages), chatId)
    ensures MemberOfGroup(old(db.chats), chatId, caller) && RemoveAll(old(db.chats)[chatId].participants, caller) != [] &&
            !ChatModel.SaveOk(AfterLeave(old(db.chats)[chatId], caller, now)) ==>
              reply == Err(500, "Failed to leave group") && db.chats == old(db.chats) && db.messages == old(db.messages)
    ensures MemberOfGroup(old(db.chats), chatId, caller) && RemoveAll(old(db.chats)[chatId].participants, caller) != [] &&
            ChatModel.SaveOk(AfterLeave(old(db.chats)[chatId], caller, now)) ==>
              reply == Ok(200, "Left group successfully", ()) &&
              db.chats == old(db.chats)[chatId := AfterLeave(old(db.chats)[chatId], caller, now)] &&
              db.messages == old(db.messages)
  {
    var chats, ms := db.chats, db.messages;
    if !MemberOfGroup(chats, chatId, caller) {
      return Err(404, "Group chat not found");
    }
    var chat := chats[chatId];
    if IsLastAdmin(chat.admins, caller) {
      var others := RemoveAll(chat.participants, caller);
      if |others| > 0 {
        chat := chat.(admins := [others[0]]);
      }
    }
    chat := chat.(participants := RemoveAll(chat.participants, caller));
    chat := chat.(admins := RemoveAll(chat.admins, caller), updatedAt := now);
    assert chat == AfterLeave(chats[chatId], caller, now);
    if |chat.participants| == 0 {
      DeleteChat(db, chatId);
      return Ok(200, "Left group and group was deleted (no remaining members)", ());
    }
    if !ChatModel.SaveOk(chat) {
      return Err(500, "Failed to leave group");
    }
    StoreKeepsWellFormed(chats, chat);
    db.chats := chats[chatId := chat];
    reply := Ok(200, "Left group successfully", ());
  }
}
