/** The presence registry and the room relay of server/src/socket/index.js.

    The registry maps a user id to the set of that user's open socket ids. An
    entry is created on the first connection and deleted when its last socket
    disconnects; that deletion is the only trigger of `userOffline`. Unlike the
    offline broadcast, `userOnline` is broadcast on every connection. */
module Presence {
  import opened Common
  import opened ServerIo

  type Registry = map<UserId, set<SocketId>>

  /** No entry is ever an empty set: disconnect deletes the entry instead. */
  predicate EntriesNonEmpty(reg: Registry) {
    forall u :: u in reg ==> reg[u] != {}
  }

  /** Connection: create the entry if needed, then add the socket id. */
  function AddSocket(reg: Registry, u: UserId, s: SocketId): (r: Registry)
    ensures r.Keys == reg.Keys + {u}
    ensures s in r[u] && (u in reg ==> reg[u] <= r[u])
    ensures r[u] - {s} == (if u in reg then reg[u] - {s} else {})
    ensures forall v :: v in reg && v != u ==> r[v] == reg[v]
    ensures u in reg && s in reg[u] ==> r == reg
    ensures EntriesNonEmpty(reg) ==> EntriesNonEmpty(r)
  {
    var cur := if u in reg then reg[u] else {};
    assert u in reg && s in cur ==> cur + {s} == cur;
    reg[u := cur + {s}]
  }

  /** The disconnect of `s` empties the entry of `u`. */
  predicate GoesOffline(reg: Registry, u: UserId, s: SocketId) {
    u in reg && reg[u] - {s} == {}
  }

  /** Disconnection: remove the socket id, and delete the entry once it is empty. */
  function RemoveSocket(reg: Registry, u: UserId, s: SocketId): (r: Registry)
    ensures u !in reg ==> r == reg
    ensures u in r <==> u in reg && !GoesOffline(reg, u, s)
    ensures u in r ==> r[u] == reg[u] - {s}
    ensures forall v :: v != u ==> (v in r <==> v in reg) && (v in r ==> r[v] == reg[v])
    ensures EntriesNonEmpty(reg) ==> EntriesNonEmpty(r)
  {
    if u !in reg then reg
    else if reg[u] - {s} == {} then reg - {u}
    else reg[u := reg[u] - {s}]
  }

  /** Disconnects `ss` of user `u` one after the other; returns the final
      registry and how many `userOffline` broadcasts they caused. */
  function DisconnectEach(reg: Registry, u: UserId, ss: seq<SocketId>): (Registry, nat)
    decreases |ss|
  {
    if ss == [] then (reg, 0)
    else
      var rest := DisconnectEach(RemoveSocket(reg, u, ss[0]), u, ss[1..]);
      (rest.0, rest.1 + if GoesOffline(reg, u, ss[0]) then 1 else 0)
  }

  /** However many sockets a user has, closing all of them broadcasts exactly
      one `userOffline`, and only the last close removes the entry. */
  lemma {:induction false} ClosingAllSocketsOfflineOnce(reg: Registry, u: UserId, ss: seq<SocketId>)
    requires ss != [] && u in reg && reg[u] == set s | s in ss
    requires NoDups(ss)
    ensures DisconnectEach(reg, u, ss).1 == 1
    ensures u !in DisconnectEach(reg, u, ss).0
    decreases |ss|
  {
    var next := RemoveSocket(reg, u, ss[0]);
    if |ss| == 1 {
      assert reg[u] == {ss[0]};
      assert ss[1..] == [];
    } else {
      assert ss[1] in reg[u] - {ss[0]};
      assert next[u] == set s | s in ss[1..] by {
        forall s | s in next[u] ensures s in ss[1..] {
          var k :| 0 <= k < |ss| && ss[k] == s;
          assert k != 0;
          assert ss[1..][k - 1] == s;
        }
        forall s | s in ss[1..] ensures s in next[u] {
          var k :| 0 <= k < |ss| - 1 && ss[1..][k] == s;
          assert ss[k + 1] == s && ss[0] != s;
        }
      }
      assert NoDups(ss[1..]) by {
        forall i, j | 0 <= i < j < |ss| - 1 ensures ss[1..][i] != ss[1..][j] {
          assert ss[1..][i] == ss[i + 1] && ss[1..][j] == ss[j + 1];
        }
      }
      ClosingAllSocketsOfflineOnce(next, u, ss[1..]);
    }
  }

  /** Two devices of one user: closing the first broadcasts nothing, closing
      the second afterwards broadcasts `userOffline`. */
  lemma TwoDevices(reg: Registry, u: UserId, s1: SocketId, s2: SocketId)
    requires u !in reg && s1 != s2
    ensures var both := AddSocket(AddSocket(reg, u, s1), u, s2);
            !GoesOffline(both, u, s1) &&
            GoesOffline(RemoveSocket(both, u, s1), u, s2) &&
            u !in RemoveSocket(RemoveSocket(both, u, s1), u, s2)
  {
    var both := AddSocket(AddSocket(reg, u, s1), u, s2);
    assert both[u] == {s1, s2};
  }

  /** The socket.io server object together with the module-level `onlineUsers` map. */
  class SocketServer {
    /** `onlineUsers`: user id to open socket ids */
    var onlineUsers: Registry
    /** socket.io room membership */
    var rooms: Rooms
    /** every emission, in order */
    var log: seq<Emission>
    /** the `status` column as written by the connection handlers (`User.findByIdAndUpdate`) */
    var storedStatus: map<UserId, string>

    ghost predicate Valid()
      reads this
    {
      EntriesNonEmpty(onlineUsers)
    }

    constructor ()
      ensures Valid()
      ensures onlineUsers == map[] && rooms == map[] && log == [] && storedStatus == map[]
    {
      onlineUsers := map[];
      rooms := map[];
      log := [];
      storedStatus := map[];
    }

    /** The `connection` handler: register the socket, join `user:<id>`, store
        status `online`, broadcast `userOnline` to everyone (on every
        connection) and send the new socket the key set of the registry. */
    method Connect(s: SocketId, u: UserId, username: string)
      requires Valid()
      modifies this
      ensures Valid()
      ensures onlineUsers == AddSocket(old(onlineUsers), u, s)
      ensures rooms == JoinRoom(old(rooms), UserRoom(u), s)
      ensures storedStatus == old(storedStatus)[u := "online"]
      ensures log == old(log) + [Emission(Everyone, UserOnline(u, username)),
                                 Emission(ToSocket(s), OnlineUsers(onlineUsers.Keys))]
      ensures u in onlineUsers.Keys
    {
      if u !in onlineUsers {
        onlineUsers := onlineUsers[u := {}];
      }
      onlineUsers := onlineUsers[u := onlineUsers[u] + {s}];
      assert onlineUsers == AddSocket(old(onlineUsers), u, s);
      rooms := JoinRoom(rooms, UserRoom(u), s);
      storedStatus := storedStatus[u := "online"];
      log := log + [Emission(Everyone, UserOnline(u, username))];
      var snapshot := onlineUsers.Keys;
      log := log + [Emission(ToSocket(s), OnlineUsers(snapshot))];
    }

    /** `joinChat`: no check that the user belongs to the chat. */
    method JoinChat(s: SocketId, chatId: ChatId)
      modifies this`rooms
      ensures rooms == JoinRoom(old(rooms), ChatRoom(chatId), s)
    {
      rooms := JoinRoom(rooms, ChatRoom(chatId), s);
    }

    /** `leaveChat` */
    method LeaveChat(s: SocketId, chatId: ChatId)
      modifies this`rooms
      ensures rooms == LeaveRoom(old(rooms), ChatRoom(chatId), s)
    {
      rooms := LeaveRoom(rooms, ChatRoom(chatId), s);
    }

    /** `typing`: relayed to `chat:<id>` except the typing socket; no timer. */
    method Typing(s: SocketId, u: UserId, username: string, chatId: ChatId, isTyping: bool)
      modifies this`log
      ensures log == old(log) + [Emission(ToRoomExcept(ChatRoom(chatId), s), UserTyping(chatId, u, username, isTyping))]
    {
      log := log + [Emission(ToRoomExcept(ChatRoom(chatId), s), UserTyping(chatId, u, username, isTyping))];
    }

    /** Client-side `sendMessage`: relayed as `newMessage` to `chat:<message.chat>` except the sender. */
    method RelayMessage(s: SocketId, chatId: ChatId, messageId: MessageId)
      modifies this`log
      ensures log == old(log) + [Emission(ToRoomExcept(ChatRoom(chatId), s), NewMessage(chatId, messageId))]
    {
      log := log + [Emission(ToRoomExcept(ChatRoom(chatId), s), NewMessage(chatId, messageId))];
    }

    /** `messagesRead`: relayed to `chat:<id>` except the reader's socket. */
    method RelayMessagesRead(s: SocketId, u: UserId, chatId: ChatId)
      modifies this`log
      ensures log == old(log) + [Emission(ToRoomExcept(ChatRoom(chatId), s), MessagesRead(chatId, u))]
    {
      log := log + [Emission(ToRoomExcept(ChatRoom(chatId), s), MessagesRead(chatId, u))];
    }

    /** `updateStatus`: any status value is stored and broadcast; this path has no whitelist. */
    method UpdateStatus(u: UserId, status: string)
      modifies this`storedStatus, this`log
      ensures storedStatus == old(storedStatus)[u := status]
      ensures log == old(log) + [Emission(Everyone, UserStatusChanged(u, status))]
    {
      storedStatus := storedStatus[u := status];
      log := log + [Emission(Everyone, UserStatusChanged(u, status))];
    }

    /** The `disconnect` handler: drop the socket id; only when the set becomes
        empty delete the entry, store `offline` and broadcast `userOffline`.
        A user without an entry is left alone. */
    method Disconnect(s: SocketId, u: UserId, username: string)
      requires Valid()
      modifies this`onlineUsers, this`storedStatus, this`log
      ensures Valid()
      ensures onlineUsers == RemoveSocket(old(onlineUsers), u, s)
      ensures GoesOffline(old(onlineUsers), u, s) ==>
                storedStatus == old(storedStatus)[u := "offline"] &&
                log == old(log) + [Emission(Everyone, UserOffline(u, username))]
      ensures !GoesOffline(old(onlineUsers), u, s) ==>
                storedStatus == old(storedStatus) && log == old(log)
    {
      if u in onlineUsers {
        var remaining := onlineUsers[u] - {s};
        onlineUsers := onlineUsers[u := remaining];
        if remaining == {} {
          onlineUsers := onlineUsers - {u};
          storedStatus := storedStatus[u := "offline"];
          log := log + [Emission(Everyone, UserOffline(u, username))];
        }
      }
    }

    /** `io.to(room).emit(event)`, as the controllers use it. */
    method EmitTo(r: Room, e: ServerEvent)
      modifies this`log
      ensures log == old(log) + [Emission(ToRoom(r), e)]
    {
      log := log + [Emission(ToRoom(r), e)];
    }
  }

  /** The connected sockets: the union of the registry's entries. */
  function Connected(reg: Registry): (c: set<SocketId>)
    ensures forall u, s :: u in reg && s in reg[u] ==> s in c
  {
    set u, s | u in reg && s in reg[u] :: s
  }

  /** A second connection of an online user still broadcasts `userOnline`,
      and the snapshot it receives names its own user. */
  method SecondDeviceStillAnnounced(server: SocketServer, u: UserId, name: string, s1: SocketId, s2: SocketId)
    requires server.Valid() && u !in server.onlineUsers
    modifies server
    ensures server.Valid()
    ensures |server.log| == |old(server.log)| + 4
    ensures server.log[|old(server.log)|] == Emission(Everyone, UserOnline(u, name))
    ensures server.log[|old(server.log)| + 2] == Emission(Everyone, UserOnline(u, name))
    ensures server.log[|old(server.log)| + 3] == Emission(ToSocket(s2), OnlineUsers(server.onlineUsers.Keys))
    ensures u in server.onlineUsers.Keys
  {
    server.Connect(s1, u, name);
    server.Connect(s2, u, name);
  }
}
