/** client/src/store/chatStore.js: the zustand store that reconciles REST
    replies and socket events. Every `set((state) => ...)` updater is a pure
    transition over `StoreState`; the async actions are methods of `Store`. */
module ChatStore {
  import opened Common
  import opened ClientTypes
  import Sorting

  datatype StoreState = StoreState(
    chats: seq<ClientChat>,
    activeChat: Option<ClientChat>,
    messages: seq<ClientMessage>,
    isLoadingChats: bool,
    isLoadingMessages: bool,
    typingUsers: map<ChatId, seq<Typer>>,
    onlineUsers: seq<UserId>,
    unreadCounts: map<ChatId, int>)

  /** The initial store, which `clearAll` restores on logout. */
  const Empty: StoreState := StoreState([], None, [], false, false, map[], [], map[])

  predicate ChatIdsDistinct(chats: seq<ClientChat>) {
    Sorting.KeysDistinct(chats, (c: ClientChat) => c.id)
  }

  predicate MessageIdsDistinct(ms: seq<ClientMessage>) {
    forall i, j :: 0 <= i < j < |ms| ==> ms[i].id != ms[j].id
  }

  predicate TypersDistinct(ts: seq<Typer>) {
    Sorting.KeysDistinct(ts, (t: Typer) => t.userId)
  }

  /** What the updaters keep: no chat twice, no message twice, no user twice
      among the online ids or among a chat's typers. */
  predicate Consistent(s: StoreState) {
    ChatIdsDistinct(s.chats) && MessageIdsDistinct(s.messages) && NoDups(s.onlineUsers) &&
    forall c :: c in s.typingUsers ==> TypersDistinct(s.typingUsers[c])
  }

  /** `clearAll` */
  function ClearAll(s: StoreState): (r: StoreState)
    ensures r.chats == [] && r.activeChat.None? && r.messages == [] && !r.isLoadingChats && !r.isLoadingMessages
    ensures r.typingUsers == map[] && r.onlineUsers == [] && r.unreadCounts == map[]
    ensures Consistent(r)
  {
    Empty
  }

  /** `setOnlineUsers`: the snapshot, or `[]` when it is not an array. */
  function SetOnlineUsers(s: StoreState, users: Option<seq<UserId>>): (r: StoreState)
    ensures users.None? ==> r == s.(onlineUsers := [])
    ensures users.Some? ==> r == s.(onlineUsers := users.value)
  {
    s.(onlineUsers := if users.Some? then users.value else [])
  }

  /** A snapshot built from a set (as the server sends one) has no duplicates. */
  lemma SetOnlineUsersKeepsConsistent(s: StoreState, users: Option<seq<UserId>>)
    requires Consistent(s) && (users.Some? ==> NoDups(users.value))
    ensures Consistent(SetOnlineUsers(s, users))
  {
  }

  /** `[...new Set([...xs, x])]` on a list without duplicates. */
  lemma {:induction false} DedupSnoc<T(!new)>(xs: seq<T>, x: T)
    requires NoDups(xs)
    ensures Dedup(xs + [x]) == if x in xs then xs else xs + [x]
  {
    DedupOfNoDups(xs);
    assert (xs + [x])[..|xs + [x]| - 1] == xs;
  }

  /** `addOnlineUser` */
  function AddOnlineUser(s: StoreState, id: UserId): (r: StoreState)
    ensures NoDups(r.onlineUsers)
    ensures forall u :: u in r.onlineUsers <==> u in s.onlineUsers || u == id
    ensures NoDups(s.onlineUsers) ==>
              r.onlineUsers == if id in s.onlineUsers then s.onlineUsers else s.onlineUsers + [id]
    ensures r == s.(onlineUsers := r.onlineUsers)
  {
    if NoDups(s.onlineUsers) then DedupSnoc(s.onlineUsers, id); s.(onlineUsers := Dedup(s.onlineUsers + [id]))
    else s.(onlineUsers := Dedup(s.onlineUsers + [id]))
  }

  /** `removeOnlineUser` */
  function RemoveOnlineUser(s: StoreState, id: UserId): (r: StoreState)
    ensures id !in r.onlineUsers
    ensures forall u :: u in r.onlineUsers <==> u in s.onlineUsers && u != id
    ensures IsSubseq(r.onlineUsers, s.onlineUsers)
    ensures NoDups(s.onlineUsers) ==> NoDups(r.onlineUsers)
    ensures r == s.(onlineUsers := r.onlineUsers)
  {
    var kept := RemoveAll(s.onlineUsers, id);
    if NoDups(s.onlineUsers) then SubseqNoDups(kept, s.onlineUsers); s.(onlineUsers := kept)
    else s.(onlineUsers := kept)
  }

  /** `state.unreadCounts[chatId] || 0` */
  function Unread(s: StoreState, chatId: ChatId): int {
    if chatId in s.unreadCounts then s.unreadCounts[chatId] else 0
  }

  /** `incrementUnread` */
  function IncrementUnread(s: StoreState, chatId: ChatId): (r: StoreState)
    ensures Unread(r, chatId) == Unread(s, chatId) + 1
    ensures forall c :: c != chatId ==> (c in r.unreadCounts <==> c in s.unreadCounts) && Unread(r, c) == Unread(s, c)
    ensures r == s.(unreadCounts := r.unreadCounts)
  {
    s.(unreadCounts := s.unreadCounts[chatId := Unread(s, chatId) + 1])
  }

  /** `clearUnread` */
  function ClearUnread(s: StoreState, chatId: ChatId): (r: StoreState)
    ensures chatId in r.unreadCounts && Unread(r, chatId) == 0
    ensures forall c :: c != chatId ==> (c in r.unreadCounts <==> c in s.unreadCounts) && Unread(r, c) == Unread(s, c)
    ensures r == s.(unreadCounts := r.unreadCounts)
  {
    s.(unreadCounts := s.unreadCounts[chatId := 0])
  }

  /** `state.typingUsers[chatId] || []` */
  function Typers(s: StoreState, chatId: ChatId): seq<Typer> {
    if chatId in s.typingUsers then s.typingUsers[chatId] else []
  }

  predicate IsTyping(ts: seq<Typer>, userId: UserId) {
    exists i :: 0 <= i < |ts| && ts[i].userId == userId
  }

  /** `setTypingUser`: a typer is added once, a stopped typer is removed, and
      no other chat's list changes. */
  function SetTypingUser(s: StoreState, chatId: ChatId, userId: UserId, username: string, isTyping: bool)
    : (r: StoreState)
    ensures isTyping ==> chatId in r.typingUsers && IsTyping(r.typingUsers[chatId], userId)
    ensures isTyping && IsTyping(Typers(s, chatId), userId) ==> r == s
    ensures isTyping && !IsTyping(Typers(s, chatId), userId) ==>
              r.typingUsers[chatId] == Typers(s, chatId) + [Typer(userId, username)]
    ensures !isTyping ==> chatId in r.typingUsers && !IsTyping(r.typingUsers[chatId], userId) &&
                          IsSubseq(r.typingUsers[chatId], Typers(s, chatId))
    ensures forall c :: c != chatId ==> (c in r.typingUsers <==> c in s.typingUsers) &&
                                        (c in r.typingUsers ==> r.typingUsers[c] == s.typingUsers[c])
    ensures TypersDistinct(Typers(s, chatId)) ==> TypersDistinct(Typers(r, chatId))
    ensures r == s.(typingUsers := r.typingUsers)
  {
    var cur := Typers(s, chatId);
    if isTyping then
      if IsTyping(cur, userId) then s
      else
        var next := cur + [Typer(userId, username)];
        assert next[|cur|].userId == userId;
        s.(typingUsers := s.typingUsers[chatId := next])
    else
      var next := Filter(cur, (t: Typer) => t.userId != userId);
      assert TypersDistinct(cur) ==> TypersDistinct(next) by {
        if TypersDistinct(cur) {
          SubseqKeepsKeysDistinct(next, cur, (t: Typer) => t.userId);
        }
      }
      s.(typingUsers := s.typingUsers[chatId := next])
  }

  /** Dropping elements never makes two keys equal. */
  lemma SubseqKeepsKeysDistinct<T, K>(a: seq<T>, b: seq<T>, key: T -> K)
    requires IsSubseq(a, b) && Sorting.KeysDistinct(b, key)
    ensures Sorting.KeysDistinct(a, key)
  {
    var differ := (x: T, y: T) => key(x) != key(y);
    assert Pairwise(b, differ);
    SubseqPairwise(a, b, differ);
  }

  /** The message belongs to the chat on screen. */
  predicate ForActiveChat(s: StoreState, m: ClientMessage) {
    s.activeChat.Some? && s.activeChat.value.id == ChatIdOf(m)
  }

  predicate HasMessage(ms: seq<ClientMessage>, id: MessageId) {
    exists i :: 0 <= i < |ms| && ms[i].id == id
  }

  /** `addMessage` as its comment intends: a message of the active chat is
      appended unless one with its id is already there. */
  function AddMessage(s: StoreState, m: ClientMessage): (r: StoreState)
    ensures !ForActiveChat(s, m) || HasMessage(s.messages, m.id) ==> r == s
    ensures ForActiveChat(s, m) && !HasMessage(s.messages, m.id) ==> r == s.(messages := s.messages + [m])
    ensures HasMessage(r.messages, m.id) <==> HasMessage(s.messages, m.id) || ForActiveChat(s, m)
    ensures MessageIdsDistinct(s.messages) ==> MessageIdsDistinct(r.messages)
  {
    if ForActiveChat(s, m) && !HasMessage(s.messages, m.id) then
      assert (s.messages + [m])[|s.messages|].id == m.id;
      s.(messages := s.messages + [m])
    else s
  }

  /** Receiving the same message twice (the REST reply and the socket echo)
      stores it once. */
  lemma AddMessageIdempotent(s: StoreState, m: ClientMessage)
    ensures AddMessage(AddMessage(s, m), m) == AddMessage(s, m)
  {
  }

  /** The guard of `addMessage` as written: `activeChat?._id === message.chat
      || activeChat?._id === message.chat?._id`. For a bare-id `chat`, the
      second test compares `undefined` with `undefined` when no chat is active. */
  predicate MatchesActiveAsWritten(s: StoreState, m: ClientMessage) {
    var active := if s.activeChat.Some? then Some(s.activeChat.value.id) else None;
    match m.chat
    case ChatRef(id) => active == Some(id) || active == None
    case ChatObject(id) => active == Some(id)
  }

  function AddMessageAsWritten(s: StoreState, m: ClientMessage): (r: StoreState)
    ensures !MatchesActiveAsWritten(s, m) || HasMessage(s.messages, m.id) ==> r == s
    ensures MatchesActiveAsWritten(s, m) && !HasMessage(s.messages, m.id) ==> r == s.(messages := s.messages + [m])
    ensures HasMessage(r.messages, m.id) <==> HasMessage(s.messages, m.id) || MatchesActiveAsWritten(s, m)
    ensures MessageIdsDistinct(s.messages) ==> MessageIdsDistinct(r.messages)
  {
    if MatchesActiveAsWritten(s, m) && !HasMessage(s.messages, m.id) then
      assert (s.messages + [m])[|s.messages|].id == m.id;
      s.(messages := s.messages + [m])
    else s
  }

  /** As written too, a message received twice is stored once: the id check
      comes after the guard, and the guard depends on the open chat only. */
  lemma AddMessageAsWrittenIdempotent(s: StoreState, m: ClientMessage)
    ensures AddMessageAsWritten(AddMessageAsWritten(s, m), m) == AddMessageAsWritten(s, m)
  {
  }

  /** With no chat open, a socket message (whose `chat` is a bare id) is
      appended by the code as written, and ignored by the intended guard. */
  lemma StrayMessageWithoutActiveChat(s: StoreState, m: ClientMessage)
    requires s.activeChat.None? && m.chat.ChatRef? && !HasMessage(s.messages, m.id)
    ensures AddMessageAsWritten(s, m).messages == s.messages + [m]
    ensures AddMessage(s, m) == s
  {
  }

  /** With a chat open, the written guard and the intended one agree. */
  lemma AddMessageAgreesWithActiveChat(s: StoreState, m: ClientMessage)
    requires s.activeChat.Some?
    ensures AddMessageAsWritten(s, m) == AddMessage(s, m)
  {
  }

  predicate HasChat(chats: seq<ClientChat>, id: ChatId) {
    exists i :: 0 <= i < |chats| && chats[i].id == id
  }

  lemma PrependKeepsDistinct(chats: seq<ClientChat>, c: ClientChat)
    requires ChatIdsDistinct(chats) && !HasChat(chats, c.id)
    ensures ChatIdsDistinct([c] + chats)
  {
    var r := [c] + chats;
    forall i, j | 0 <= i < j < |r| ensures r[i].id != r[j].id {
      assert r[j] == chats[j - 1];
      if i > 0 {
        assert r[i] == chats[i - 1];
      }
    }
  }

  /** `addChat`: prepend unless a chat with the same id is listed. */
  function AddChat(s: StoreState, c: ClientChat): (r: StoreState)
    ensures HasChat(s.chats, c.id) ==> r == s
    ensures !HasChat(s.chats, c.id) ==> r == s.(chats := [c] + s.chats)
    ensures HasChat(r.chats, c.id)
    ensures ChatIdsDistinct(s.chats) ==> ChatIdsDistinct(r.chats)
  {
    if HasChat(s.chats, c.id) then s
    else
      assert ([c] + s.chats)[0].id == c.id;
      if ChatIdsDistinct(s.chats) then PrependKeepsDistinct(s.chats, c); s.(chats := [c] + s.chats)
      else s.(chats := [c] + s.chats)
  }

  /** A repeated `newChat` or `addedToGroup` adds nothing. */
  lemma AddChatIdempotent(s: StoreState, c: ClientChat)
    ensures AddChat(AddChat(s, c), c) == AddChat(s, c)
  {
  }

  /** The comparator `new Date(b.updatedAt) - new Date(a.updatedAt)`: `a` may
      come first when it is at least as recent. */
  predicate NewerFirst(a: ClientChat, b: ClientChat) {
    a.updatedAt >= b.updatedAt
  }

  lemma NewerFirstIsTotalPreorder()
    ensures Sorting.TotalPreorder((a: ClientChat, b: ClientChat) => NewerFirst(a, b))
  {
  }

  /** The `map` step of `updateChatLastMessage`. */
  function Touch(chats: seq<ClientChat>, chatId: ChatId, message: ClientMessage, now: int): (r: seq<ClientChat>)
    ensures |r| == |chats|
    ensures forall i :: 0 <= i < |r| ==> r[i].id == chats[i].id
    ensures forall i :: 0 <= i < |r| ==>
              r[i] == if chats[i].id == chatId then chats[i].(lastMessage := Some(message), updatedAt := now) else chats[i]
  {
    seq(|chats|, i requires 0 <= i < |chats| =>
      if chats[i].id == chatId then chats[i].(lastMessage := Some(message), updatedAt := now) else chats[i])
  }

  /** `updateChatLastMessage`: stamp the chat with the message and the local
      clock `now`, then sort newest first. */
  function UpdateChatLastMessage(s: StoreState, chatId: ChatId, message: ClientMessage, now: int): (r: StoreState)
    ensures |r.chats| == |s.chats|
    ensures multiset(r.chats) == multiset(Touch(s.chats, chatId, message, now))
    ensures Sorting.Sorted(r.chats, (a: ClientChat, b: ClientChat) => NewerFirst(a, b))
    ensures ChatIdsDistinct(s.chats) ==> ChatIdsDistinct(r.chats)
    ensures r == s.(chats := r.chats)
  {
    var le := (a: ClientChat, b: ClientChat) => NewerFirst(a, b);
    var touched := Touch(s.chats, chatId, message, now);
    NewerFirstIsTotalPreorder();
    Sorting.SortSorted(touched, le);
    Sorting.SortPermutes(touched, le);
    assert ChatIdsDistinct(s.chats) ==> ChatIdsDistinct(touched) by {
      forall i, j | 0 <= i < j < |touched| ensures touched[i].id == s.chats[i].id && touched[j].id == s.chats[j].id { }
    }
    if ChatIdsDistinct(touched) then
      Sorting.SortKeepsKeysDistinct(touched, le, (c: ClientChat) => c.id);
      s.(chats := Sorting.Sort(touched, le))
    else s.(chats := Sorting.Sort(touched, le))
  }

  /** Stamping the chat at position `k` of a list with distinct ids changes
      that position only. */
  lemma TouchAt(chats: seq<ClientChat>, k: nat, message: ClientMessage, now: int)
    requires k < |chats| && ChatIdsDistinct(chats)
    ensures Touch(chats, chats[k].id, message, now) ==
              chats[..k] + [chats[k].(lastMessage := Some(message), updatedAt := now)] + chats[k + 1..]
  {
    var x := chats[k].(lastMessage := Some(message), updatedAt := now);
    var t := Touch(chats, chats[k].id, message, now);
    var u := chats[..k] + [x] + chats[k + 1..];
    forall i | 0 <= i < |t| ensures t[i] == u[i] {
      if i != k {
        assert chats[i].id != chats[k].id;
      }
    }
  }

  /** Dropping one element keeps a list newest-first. */
  lemma SortedWithout(chats: seq<ClientChat>, k: nat)
    requires k < |chats| && Sorting.Sorted(chats, (a: ClientChat, b: ClientChat) => NewerFirst(a, b))
    ensures Sorting.Sorted(chats[..k] + chats[k + 1..], (a: ClientChat, b: ClientChat) => NewerFirst(a, b))
  {
    var r := chats[..k] + chats[k + 1..];
    forall i, j | 0 <= i < j < |r| ensures NewerFirst(r[i], r[j]) {
      var i' := if i < k then i else i + 1;
      var j' := if j < k then j else j + 1;
      assert r[i] == chats[i'] && r[j] == chats[j'];
    }
  }

  /** On a list already newest-first, a message that is newer than every
      other chat moves its chat to the front and leaves the rest in order. */
  lemma NewMessageMovesChatToFront(s: StoreState, k: nat, message: ClientMessage, now: int)
    requires k < |s.chats| && ChatIdsDistinct(s.chats)
    requires Sorting.Sorted(s.chats, (a: ClientChat, b: ClientChat) => NewerFirst(a, b))
    requires forall i :: 0 <= i < |s.chats| && i != k ==> s.chats[i].updatedAt < now
    ensures UpdateChatLastMessage(s, s.chats[k].id, message, now).chats ==
              [s.chats[k].(lastMessage := Some(message), updatedAt := now)] + s.chats[..k] + s.chats[k + 1..]
  {
    var le := (a: ClientChat, b: ClientChat) => NewerFirst(a, b);
    var x := s.chats[k].(lastMessage := Some(message), updatedAt := now);
    var p := s.chats[..k];
    var q := s.chats[k + 1..];
    TouchAt(s.chats, k, message, now);
    SortedWithout(s.chats, k);
    assert forall i :: 0 <= i < |p| ==> !le(p[i], x) by {
      forall i | 0 <= i < |p| ensures !le(p[i], x) { assert p[i] == s.chats[i]; }
    }
    assert forall i :: 0 <= i < |q| ==> le(x, q[i]) by {
      forall i | 0 <= i < |q| ensures le(x, q[i]) { assert q[i] == s.chats[k + 1 + i]; }
    }
    Sorting.MovesToFront(p, x, q, le);
  }

  /** `createGroupChat` as written: the reply's chat is prepended without the
      check `addChat` makes. */
  function CreateGroupChatAsWritten(s: StoreState, chat: ClientChat): (r: StoreState)
    ensures r.chats == [chat] + s.chats && r.activeChat == Some(chat)
    ensures !HasChat(s.chats, chat.id) && ChatIdsDistinct(s.chats) ==> ChatIdsDistinct(r.chats)
    ensures r == s.(chats := r.chats, activeChat := r.activeChat)
  {
    if !HasChat(s.chats, chat.id) && ChatIdsDistinct(s.chats) then
      PrependKeepsDistinct(s.chats, chat);
      s.(chats := [chat] + s.chats, activeChat := Some(chat))
    else s.(chats := [chat] + s.chats, activeChat := Some(chat))
  }

  /** The server sends `newChat` to the creator's own room before it replies,
      so when that event is handled first the creator lists the group twice. */
  lemma GroupListedTwice(s: StoreState, chat: ClientChat)
    requires !HasChat(s.chats, chat.id)
    ensures !ChatIdsDistinct(CreateGroupChatAsWritten(AddChat(s, chat), chat).chats)
  {
    var r := CreateGroupChatAsWritten(AddChat(s, chat), chat).chats;
    assert r[0].id == r[1].id;
  }

  /** The reply of a chat creation: open the chat, and list it unless it is
      listed already (as `createDirectChat` does). */
  function OpenCreatedChat(s: StoreState, chat: ClientChat): (r: StoreState)
    ensures r.activeChat == Some(chat)
    ensures HasChat(s.chats, chat.id) ==> r.chats == s.chats
    ensures !HasChat(s.chats, chat.id) ==> r.chats == [chat] + s.chats
    ensures ChatIdsDistinct(s.chats) ==> ChatIdsDistinct(r.chats)
    ensures r == s.(chats := r.chats, activeChat := r.activeChat)
  {
    AddChat(s, chat).(activeChat := Some(chat))
  }

  /** Whichever of the reply and the `newChat` event is handled first, the
      group ends up listed once and open. */
  lemma CreationOrderIrrelevant(s: StoreState, chat: ClientChat)
    requires !HasChat(s.chats, chat.id)
    ensures OpenCreatedChat(AddChat(s, chat), chat) == AddChat(OpenCreatedChat(s, chat), chat)
  {
  }

  class Store {
    var state: StoreState

    constructor ()
      ensures state == Empty
    {
      state := Empty;
    }

    /** `clearAll` */
    method Clear()
      modifies this
      ensures state == ClearAll(old(state))
    {
      state := ClearAll(state);
    }

    /** `setChats` */
    method SetChats(chats: seq<ClientChat>)
      modifies this
      ensures state == old(state).(chats := chats)
    {
      state := state.(chats := chats);
    }

    /** `fetchChats`: loading flag, then the list or nothing. */
    method FetchChats(response: Api<seq<ClientChat>>)
      modifies this
      ensures response.Success? ==> state == old(state).(chats := response.value, isLoadingChats := false)
      ensures response.Failure? ==> state == old(state).(isLoadingChats := false)
    {
      state := state.(isLoadingChats := true);
      if response.Success? {
        state := state.(chats := response.value, isLoadingChats := false);
      } else {
        state := state.(isLoadingChats := false);
      }
    }

    /** `fetchMessages` */
    method FetchMessages(chatId: ChatId, response: Api<seq<ClientMessage>>)
      modifies this
      ensures response.Success? ==> state == old(state).(messages := response.value, isLoadingMessages := false)
      ensures response.Failure? ==> state == old(state).(isLoadingMessages := false)
    {
      state := state.(isLoadingMessages := true);
      if response.Success? {
        state := state.(messages := response.value, isLoadingMessages := false);
      } else {
        state := state.(isLoadingMessages := false);
      }
    }

    /** `setActiveChat`: always empties the messages; for a chat, starts the
        fetch of its messages and clears its unread count. `fetched` is the
        fetch's outcome. */
    method SetActiveChat(chat: Option<ClientChat>, fetched: Api<seq<ClientMessage>>)
      modifies this
      ensures state.activeChat == chat
      ensures chat.None? ==> state == old(state).(activeChat := None, messages := [])
      ensures chat.Some? ==>
                state == ClearUnread(old(state).(activeChat := chat, isLoadingMessages := false,
                                                 messages := if fetched.Success? then fetched.value else []),
                                     chat.value.id)
    {
      state := state.(activeChat := chat, messages := []);
      if chat.Some? {
        FetchMessages(chat.value.id, fetched);
        state := ClearUnread(state, chat.value.id);
      }
    }

    /** `sendMessage` and `sendMessageWithAttachment`: on success, add the
        message and restamp its chat at the local time `now`. */
    method SendMessage(chatId: ChatId, response: Api<ClientMessage>, now: int)
      returns (outcome: Outcome<ClientMessage>)
      modifies this
      ensures response.Failure? ==>
                state == old(state) && outcome == Failed(ErrorMessage(response.message, "Failed to send message"))
      ensures response.Success? ==>
                outcome == Done(response.value) &&
                state == UpdateChatLastMessage(AddMessageAsWritten(old(state), response.value), chatId, response.value, now)
    {
      if response.Failure? {
        return Failed(ErrorMessage(response.message, "Failed to send message"));
      }
      state := AddMessageAsWritten(state, response.value);
      state := UpdateChatLastMessage(state, chatId, response.value, now);
      outcome := Done(response.value);
    }

    /** `createDirectChat` */
    method CreateDirectChat(response: Api<ClientChat>) returns (outcome: Outcome<ClientChat>)
      modifies this
      ensures response.Failure? ==>
                state == old(state) && outcome == Failed(ErrorMessage(response.message, "Failed to create chat"))
      ensures response.Success? ==> outcome == Done(response.value) && state == OpenCreatedChat(old(state), response.value)
    {
      if response.Failure? {
        return Failed(ErrorMessage(response.message, "Failed to create chat"));
      }
      var chat := response.value;
      if HasChat(state.chats, chat.id) {
        state := state.(activeChat := Some(chat));
      } else {
        state := state.(chats := [chat] + state.chats, activeChat := Some(chat));
      }
      outcome := Done(chat);
    }

    /** `createGroupChat`: the reply's group is prepended and opened, with no
        existence check (see `GroupListedTwice`). */
    method CreateGroupChat(response: Api<ClientChat>) returns (outcome: Outcome<ClientChat>)
      modifies this
      ensures response.Failure? ==>
                state == old(state) && outcome == Failed(ErrorMessage(response.message, "Failed to create group"))
      ensures response.Success? ==>
                outcome == Done(response.value) && state == CreateGroupChatAsWritten(old(state), response.value)
    {
      if response.Failure? {
        return Failed(ErrorMessage(response.message, "Failed to create group"));
      }
      state := state.(chats := [response.value] + state.chats, activeChat := Some(response.value));
      outcome := Done(response.value);
    }
  }
}
