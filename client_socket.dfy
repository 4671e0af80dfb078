/** client/src/services/socket.js: the single Socket.IO connection of the
    client, the events it forwards to the chat store and the events it emits. */
module ClientSocket {
  import opened Common
  import opened ClientTypes
  import opened ChatStore
  import Sorting

  /** The server events the client subscribes to, with their payloads. */
  datatype IncomingEvent =
    | OnlineUsers(users: Option<seq<UserId>>)
    | UserOnline(userId: UserId)
    | UserOffline(userId: UserId)
    | UserTyping(chatId: ChatId, userId: UserId, username: string, isTyping: bool)
    | NewMessage(message: ClientMessage)
    | NewChat(chat: ClientChat)
    | AddedToGroup(chat: ClientChat)
    | RemovedFromGroup(chatId: ChatId)

  /** `removedFromGroup`: close the chat if it is open, then drop it from the list. */
  function RemoveChat(s: StoreState, chatId: ChatId): (r: StoreState)
    ensures !HasChat(r.chats, chatId)
    ensures IsSubseq(r.chats, s.chats)
    ensures forall c :: c in s.chats && c.id != chatId ==> c in r.chats
    ensures s.activeChat.Some? && s.activeChat.value.id == chatId ==> r.activeChat.None? && r.messages == []
    ensures !(s.activeChat.Some? && s.activeChat.value.id == chatId) ==>
              r.activeChat == s.activeChat && r.messages == s.messages
    ensures r == s.(chats := r.chats, activeChat := r.activeChat, messages := r.messages)
  {
    var closed := if s.activeChat.Some? && s.activeChat.value.id == chatId
                  then s.(activeChat := None, messages := []) else s;
    closed.(chats := Filter(s.chats, (c: ClientChat) => c.id != chatId))
  }

  /** What one event does to the store. A socket message carries the bare
      chat id; for a populated `chat` no listed chat matches it, and the list
      is only re-sorted. `now` is the local clock. */
  function Handle(s: StoreState, e: IncomingEvent, now: int): (r: StoreState)
    ensures r.activeChat == s.activeChat || (e.RemovedFromGroup? && r.activeChat.None?)
    ensures !e.NewMessage? && !e.RemovedFromGroup? ==> r.messages == s.messages
    ensures e.NewMessage? ==> |r.chats| == |s.chats|
    ensures r.unreadCounts == s.unreadCounts
  {
    match e
    case OnlineUsers(users) => SetOnlineUsers(s, users)
    case UserOnline(id) => AddOnlineUser(s, id)
    case UserOffline(id) => RemoveOnlineUser(s, id)
    case UserTyping(chatId, userId, username, isTyping) => SetTypingUser(s, chatId, userId, username, isTyping)
    case NewMessage(m) =>
      var s1 := AddMessageAsWritten(s, m);
      if m.chat.ChatRef? then UpdateChatLastMessage(s1, m.chat.id, m, now)
      else s1.(chats := Sorting.Sort(s1.chats, (a: ClientChat, b: ClientChat) => NewerFirst(a, b)))
    case NewChat(c) => AddChat(s, c)
    case AddedToGroup(c) => AddChat(s, c)
    case RemovedFromGroup(chatId) => RemoveChat(s, chatId)
  }

  /** The payload assumptions the server's emitters meet: the snapshot comes
      from a `Set`, so it has no duplicates. */
  predicate WellFormedEvent(e: IncomingEvent) {
    e.OnlineUsers? && e.users.Some? ==> NoDups(e.users.value)
  }

  /** Every event keeps the store consistent: no chat, message, online user
      or typer is listed twice. */
  lemma HandleKeepsConsistent(s: StoreState, e: IncomingEvent, now: int)
    requires Consistent(s) && WellFormedEvent(e)
    ensures Consistent(Handle(s, e, now))
  {
    match e
    case OnlineUsers(users) =>
    case UserOnline(id) =>
    case UserOffline(id) =>
    case UserTyping(chatId, userId, username, isTyping) =>
      TypingKeepsConsistent(s, chatId, userId, username, isTyping);
    case NewMessage(m) =>
      NewMessageKeepsConsistent(s, m, now);
    case NewChat(c) =>
    case AddedToGroup(c) =>
    case RemovedFromGroup(chatId) =>
      SubseqKeepsKeysDistinct(RemoveChat(s, chatId).chats, s.chats, (c: ClientChat) => c.id);
  }

  lemma TypingKeepsConsistent(s: StoreState, chatId: ChatId, userId: UserId, username: string, isTyping: bool)
    requires Consistent(s)
    ensures Consistent(SetTypingUser(s, chatId, userId, username, isTyping))
  {
    var r := SetTypingUser(s, chatId, userId, username, isTyping);
    forall c | c in r.typingUsers ensures TypersDistinct(r.typingUsers[c]) {
      if c == chatId {
        assert Typers(r, c) == r.typingUsers[c];
      }
    }
  }

  lemma NewMessageKeepsConsistent(s: StoreState, m: ClientMessage, now: int)
    requires Consistent(s)
    ensures Consistent(Handle(s, NewMessage(m), now))
  {
    var s1 := AddMessageAsWritten(s, m);
    if !m.chat.ChatRef? {
      var le := (a: ClientChat, b: ClientChat) => NewerFirst(a, b);
      Sorting.SortKeepsKeysDistinct(s1.chats, le, (c: ClientChat) => c.id);
    }
  }

  /** A member added to a group they already list (the event repeated, or
      the group fetched before the event) still lists it once. */
  lemma NoChatListedTwice(s: StoreState, c: ClientChat, now: int)
    requires ChatIdsDistinct(s.chats)
    ensures ChatIdsDistinct(Handle(s, NewChat(c), now).chats)
    ensures ChatIdsDistinct(Handle(s, AddedToGroup(c), now).chats)
    ensures Handle(Handle(s, AddedToGroup(c), now), NewChat(c), now) == Handle(s, AddedToGroup(c), now)
  {
  }

  /** The server sends a new message to the sender's room as well: its echo
      after `sendMessage` leaves the message list as the reply left it. */
  lemma EchoStoredOnce(s: StoreState, chatId: ChatId, m: ClientMessage, now: int, later: int)
    ensures Handle(UpdateChatLastMessage(AddMessageAsWritten(s, m), chatId, m, now), NewMessage(m), later).messages
            == AddMessageAsWritten(s, m).messages
  {
  }

  /** With no chat open, a socket message (whose `chat` is the bare id the
      server emits) is appended to the empty conversation anyway. */
  lemma StraySocketMessageStored(s: StoreState, m: ClientMessage, now: int)
    requires s.activeChat.None? && m.chat.ChatRef? && !HasMessage(s.messages, m.id)
    ensures Handle(s, NewMessage(m), now).messages == s.messages + [m]
  {
    StrayMessageWithoutActiveChat(s, m);
  }

  /** A user that goes offline is no longer listed online, and a user that
      comes online is listed once. */
  lemma PresenceEvents(s: StoreState, id: UserId, now: int)
    ensures id !in Handle(s, UserOffline(id), now).onlineUsers
    ensures id in Handle(s, UserOnline(id), now).onlineUsers
    ensures NoDups(Handle(s, UserOnline(id), now).onlineUsers)
  {
  }

  /** Coming online and then going offline restores the online list less
      that user. */
  lemma OnlineThenOffline(s: StoreState, id: UserId, now: int)
    requires NoDups(s.onlineUsers)
    ensures Handle(Handle(s, UserOnline(id), now), UserOffline(id), now).onlineUsers == RemoveAll(s.onlineUsers, id)
  {
    var added := AddOnlineUser(s, id);
    if id !in s.onlineUsers {
      assert added.onlineUsers == s.onlineUsers + [id];
      RemoveAllSnoc(s.onlineUsers, id);
    }
  }

  /** Forwards one event to the store, as the registered handlers do. */
  method Dispatch(store: Store, e: IncomingEvent, now: int)
    modifies store
    ensures store.state == Handle(old(store.state), e, now)
  {
    match e {
      case RemovedFromGroup(chatId) =>
        var before := store.state;
        if before.activeChat.Some? && before.activeChat.value.id == chatId {
          store.state := store.state.(activeChat := None, messages := []);
        }
        store.state := store.state.(chats := Filter(before.chats, (c: ClientChat) => c.id != chatId));
      case NewMessage(m) =>
        store.state := AddMessageAsWritten(store.state, m);
        if m.chat.ChatRef? {
          store.state := UpdateChatLastMessage(store.state, m.chat.id, m, now);
        } else {
          store.state := store.state.(chats := Sorting.Sort(store.state.chats, (a: ClientChat, b: ClientChat) => NewerFirst(a, b)));
        }
      case _ =>
        store.state := Handle(store.state, e, now);
    }
  }

  /** What the client emits to the server. */
  datatype OutgoingEvent =
    | JoinChat(chatId: ChatId)
    | LeaveChat(chatId: ChatId)
    | Typing(chatId: ChatId, isTyping: bool)
    | MessagesRead(chatId: ChatId)

  /** One `io(...)` connection; `connected` is set by the transport. */
  datatype Connection = Connection(serial: nat, token: Option<string>, connected: bool)

  /** The module-level `socket` variable, the connections created so far and
      the events emitted so far. */
  class SocketClient {
    var socket: Option<Connection>
    var created: nat
    var sent: seq<OutgoingEvent>

    constructor ()
      ensures socket.None? && created == 0 && sent == []
    {
      socket := None;
      created := 0;
      sent := [];
    }

    predicate Connected()
      reads this
    {
      socket.Some? && socket.value.connected
    }

    /** `initializeSocket`: reuse a connected socket, otherwise open a new
        one (which is not yet connected); a stale socket is replaced. */
    method Initialize(token: Option<string>) returns (conn: Connection)
      modifies this
      ensures old(Connected()) ==> conn == old(socket.value) && socket == old(socket) && created == old(created)
      ensures !old(Connected()) ==>
                conn == Connection(old(created), token, false) && socket == Some(conn) && created == old(created) + 1
      ensures socket == Some(conn) && sent == old(sent)
    {
      if Connected() {
        return socket.value;
      }
      conn := Connection(created, token, false);
      socket := Some(conn);
      created := created + 1;
    }

    /** The transport's `connect` and `disconnect`. */
    method SetConnected(connected: bool)
      modifies this
      ensures socket.None? ==> socket == old(socket)
      ensures socket.Some? ==> old(socket).Some? && socket == Some(old(socket.value).(connected := connected))
      ensures created == old(created) && sent == old(sent)
    {
      if socket.Some? {
        socket := Some(socket.value.(connected := connected));
      }
    }

    /** `disconnectSocket` */
    method Disconnect()
      modifies this
      ensures socket.None? && !Connected() && created == old(created) && sent == old(sent)
    {
      if socket.Some? {
        socket := None;
      }
    }

    /** `joinChat`, `leaveChat`, `emitTyping`, `emitMessagesRead`: sent only
        over a connected socket, silently dropped otherwise. */
    method Emit(e: OutgoingEvent)
      modifies this
      ensures old(Connected()) ==> sent == old(sent) + [e]
      ensures !old(Connected()) ==> sent == old(sent)
      ensures socket == old(socket) && created == old(created)
    {
      if Connected() {
        sent := sent + [e];
      }
    }
  }

  /** Two initialisations in a row, with the first socket connected in
      between, open one connection. */
  method InitializeTwice(client: SocketClient, token: Option<string>) returns (first: Connection, second: Connection)
    modifies client
    ensures client.created <= old(client.created) + 1
    ensures first.serial == second.serial
  {
    first := client.Initialize(token);
    client.SetConnected(true);
    second := client.Initialize(token);
  }
}
