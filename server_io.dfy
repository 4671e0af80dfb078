/** The socket.io surface of the server: rooms, emission targets and the
    events the server sends (server/src/socket/index.js and the `io.to(...).emit`
    calls of the controllers). Payloads are reduced to the identifiers they carry. */
module ServerIo {
  import opened Common

  /** The two room families: `user:<id>` (every socket of a user) and `chat:<id>`. */
  datatype Room = UserRoom(user: UserId) | ChatRoom(chat: ChatId)

  /** `io.emit`, `socket.emit`, `io.to(room).emit` and `socket.to(room).emit`. */
  datatype Target =
    | Everyone
    | ToSocket(socket: SocketId)
    | ToRoom(room: Room)
    | ToRoomExcept(room: Room, except: SocketId)

  datatype ServerEvent =
    | UserOnline(userId: UserId, username: string)
    | UserOffline(userId: UserId, username: string)
    | OnlineUsers(ids: set<UserId>)
    | UserTyping(chatId: ChatId, userId: UserId, username: string, isTyping: bool)
    | NewMessage(chatId: ChatId, messageId: MessageId)
    | MessagesRead(chatId: ChatId, userId: UserId)
    | UserStatusChanged(userId: UserId, status: string)
    | MessageDeleted(messageId: MessageId, chatId: ChatId)
    | MessageEdited(chatId: ChatId, messageId: MessageId)
    | NewChat(chatId: ChatId)
    | AddedToGroup(chatId: ChatId)
    | RemovedFromGroup(chatId: ChatId)

  datatype Emission = Emission(target: Target, event: ServerEvent)

  type Rooms = map<Room, set<SocketId>>

  function Members(rooms: Rooms, r: Room): set<SocketId> {
    if r in rooms then rooms[r] else {}
  }

  /** `socket.join(room)` */
  function JoinRoom(rooms: Rooms, r: Room, s: SocketId): (res: Rooms)
    ensures Members(res, r) == Members(rooms, r) + {s}
    ensures forall q :: q != r ==> Members(res, q) == Members(rooms, q)
    ensures s in Members(rooms, r) ==> res == rooms
  {
    var cur := Members(rooms, r);
    assert s in cur ==> cur + {s} == cur;
    rooms[r := cur + {s}]
  }

  /** `socket.leave(room)` */
  function LeaveRoom(rooms: Rooms, r: Room, s: SocketId): (res: Rooms)
    ensures Members(res, r) == Members(rooms, r) - {s}
    ensures forall q :: q != r ==> Members(res, q) == Members(rooms, q)
  {
    if r in rooms then rooms[r := rooms[r] - {s}] else rooms
  }

  /** The live sockets an emission reaches; socket.io never delivers to closed sockets. */
  function Recipients(t: Target, rooms: Rooms, connected: set<SocketId>): (res: set<SocketId>)
    ensures res <= connected
    ensures t.ToRoomExcept? ==> t.except !in res
    ensures t.ToSocket? ==> res == {t.socket} * connected
  {
    match t
    case Everyone => connected
    case ToSocket(s) => {s} * connected
    case ToRoom(r) => Members(rooms, r) * connected
    case ToRoomExcept(r, s) => (Members(rooms, r) - {s}) * connected
  }
}
