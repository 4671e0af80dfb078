# frostchat, modelled in Dafny

frostchat is a real-time chat application: an Express/Mongoose server with a
Socket.IO layer, and a React client with two zustand stores. This project
models its core and proves properties of the model.

Server side:

- **Presence registry and room relay** (`presence.dfy`, `server_io.dfy`).
  The registry maps a user to the set of that user's open sockets, and
  the relay forwards typing, message and read events to chat rooms. The
  socket server is a class. Its fields are the registry, the room
  membership, the stored status column and the log of every emission.
- **Mongoose models** (`chat_model.dfy`, `message_model.dfy`,
  `user_model.dfy`): defaults, trimming setters, validators and
  pre-save hooks. A user document that is saved is a class, because the
  hooks assign its fields in place.
- **Controllers**: chats, messages, users and uploads
  (`chat_controller.dfy`, `message_controller.dfy`,
  `user_controller.dfy`, `upload_controller.dfy`), plus the multer
  middleware and the Cloudinary option defaults
  (`upload_middleware.dfy`).
  - The Mongo collections are one abstract store (`database.dfy`): chats
    by id, messages in creation order and users in natural order.
  - Each endpoint is a method over that store. It returns the HTTP
    reply and appends what it emits to the socket server's log.
  - The store's invariant `Valid` is kept by every endpoint. It says
    that ids are unique, every stored document passed its save rules and
    creation times never decrease.

Client side:

- **The chat store** (`chat_store.dfy`). Every `set((state) => ...)`
  updater is a pure transition over `StoreState`. The asynchronous
  actions are methods of the class `Store`, with the server's answer
  as a parameter.
- **The socket service** (`client_socket.dfy`): the event handlers as
  store transitions, and the module-level socket as a class.
- **The auth store** (`auth_store.dfy`): the session, its persisted
  part and the API client's `Authorization` header.
- **The view logic** of `MessageList`, `ChatView`, `ChatListItem` and
  `Sidebar` (`message_list.dfy`, `chat_view.dfy`,
  `chat_list_item.dfy`, `sidebar.dfy`):
  - date grouping and avatars;
  - the header, the typing line and the composer;
  - list rows, previews and badges;
  - the conversation filter and the dialogs.

Shared helpers:

- `common.dfy` holds JavaScript's `trim`, `toLowerCase` (on ASCII
  letters only), `String.length` in UTF-16 code units, `Set`
  de-duplication and `filter`.
- `sorting.dfy` holds an insertion sort that stands for both
  `Array.prototype.sort` with a comparator and Mongo's `.sort()`. It is
  proved to permute and to order its input, to return an ordered list
  unchanged and to move a strict minimum to the front without reordering
  the rest.

Behaviours of the code that the model follows:

- `userOnline` is broadcast on every connection of a user, a second
  device included (`Presence.SecondDeviceStillAnnounced`);
- the server keeps no typing timeout: each typing event is relayed once;
- `removeParticipant` leaves the removed user's sockets in the chat room;
- the upload allow-list has thirteen types (`UploadMiddleware.AllowListSize`);
- `searchUsers` matches on the username and the email only, because its
  `name` clause tests a virtual that is never stored
  (`UserController.DisplayNameNotSearched`).

Clocks, generated ids, bcrypt hashes, Cloudinary answers and the
answers of HTTP requests made by the client are parameters of the
operations that use them.

## Model

| member | source | states |
|---|---|---|
| Presence.AddSocket | server/src/socket/index.js:38-45 | Registers the socket under its user. The entry is created on the user's first connection, the user's other sockets are kept and every other user's entry is unchanged. Re-adding a registered socket changes nothing, and no entry is ever left empty. |
| Presence.RemoveSocket | server/src/socket/index.js:115-138 | Removes the socket from its user's set. The entry disappears exactly when that socket was its last one, other users are untouched, a user without an entry is left alone, and no entry is ever left empty. |
| Presence.ClosingAllSocketsOfflineOnce | server/src/socket/index.js:115-138 | Closing every socket of a user one by one causes exactly one `userOffline` broadcast, however many sockets the user had, and removes the user's entry. |
| Presence.TwoDevices | server/src/socket/index.js:34-45 | A user with two devices stays online when the first disconnects. Closing the second afterwards takes the user offline and removes the entry. |
| Presence.SocketServer.constructor | server/src/socket/index.js:5 | The server starts with no registered users, no rooms, no stored statuses and no emissions. |
| Presence.SocketServer.Connect | server/src/socket/index.js:34-64 | A connection registers the socket, joins the user's personal room and stores status `online`. It broadcasts `userOnline` to everyone and then sends the new socket the set of online users, which includes its own user. The registry invariant is kept. |
| Presence.SocketServer.JoinChat | server/src/socket/index.js:67-70 | The socket joins `chat:<id>`, with no membership check. Every other room is unchanged. |
| Presence.SocketServer.LeaveChat | server/src/socket/index.js:73-76 | The socket leaves `chat:<id>`. Every other room is unchanged. |
| Presence.SocketServer.Typing | server/src/socket/index.js:79-86 | Typing is relayed to the chat room except the typing socket, as exactly one emission. No timer is involved. |
| Presence.SocketServer.RelayMessage | server/src/socket/index.js:89-91 | A client-sent message is relayed as `newMessage` to its chat room except the sender's socket. |
| Presence.SocketServer.RelayMessagesRead | server/src/socket/index.js:94-99 | A read receipt is relayed to the chat room except the reader's socket. |
| Presence.SocketServer.UpdateStatus | server/src/socket/index.js:102-112 | Any status string is stored and broadcast to everyone. This path has no whitelist. |
| Presence.SocketServer.Disconnect | server/src/socket/index.js:115-140 | Only the disconnect of a user's last socket stores `offline` and broadcasts `userOffline`. Any other disconnect only shrinks the user's socket set and emits nothing. |
| Presence.SocketServer.EmitTo | server/src/controllers/messageController.js:98 | `io.to(room).emit` appends exactly one emission addressed to the room. |
| Presence.SecondDeviceStillAnnounced | server/src/socket/index.js:51-64 | A second connection of a user who is already online still broadcasts `userOnline`. The snapshot sent to the second socket names the user. |
| ServerIo.JoinRoom | server/src/socket/index.js:48 | Joining adds the socket to that room only, and joining a room twice is idempotent. |
| ServerIo.LeaveRoom | server/src/socket/index.js:73-76 | Leaving removes the socket from that room only. |
| ChatModel.NewChat | server/src/models/Chat.js:3-42 | A new chat keeps its participants and admins and stores the name trimmed. `isGroupChat` is true only when it is given as true, and the group avatar strings default to `''`. It has no last message. |
| ChatModel.WithName | server/src/models/Chat.js:4-8 | Assigning a name stores it trimmed and changes neither the members nor the id. |
| Common.Utf16Length | server/src/models/Chat.js:7 | A string's length as the `maxlength` and `minlength` validators measure it lies between its number of characters and twice that. |
| Common.Utf16LengthOfBmp | server/src/models/Chat.js:7 | For characters of the Basic Multilingual Plane, the length is the number of characters. |
| Common.EmojiIsTwoUnits | server/src/models/Chat.js:7 | An emoji is one character but two units toward a length limit. |
| ChatModel.SaveFailure | server/src/models/Chat.js:4-54 | A save succeeds exactly when the name is at most 100 UTF-16 code units long and the chat has at least two participants. A participant-count failure implies fewer than two participants. |
| ChatModel.FewerThanTwoRejected | server/src/models/Chat.js:49-54 | No chat with fewer than two participants is ever saved, whatever its name. |
| MessageModel.TrimmedContent | server/src/models/Message.js:14-17 | Content is stored trimmed, and absent content stays absent. |
| MessageModel.NewMessage | server/src/models/Message.js:3-60 | A new message has type `text` unless another type is given, no receipts, and is neither edited nor deleted. Its content is trimmed. |
| MessageModel.SaveFailure | server/src/models/Message.js:18-72 | A save succeeds exactly when the type is in the enum and the message is a system message or carries non-empty content or an attachment url. |
| MessageModel.WhitespaceOnlyTextRejected | server/src/models/Message.js:67-72 | Whitespace-only text without an attachment is trimmed to `''` and refused by the pre-save hook. |
| MessageModel.NonBlankTextAccepted | server/src/models/Message.js:67-72 | Text with a non-space character is saved. |
| MessageModel.SystemMessageAlwaysSaves | server/src/models/Message.js:67-72 | A system message is saved even when it is empty. |
| UserModel.NewUser | server/src/models/User.js:5-59 | A new user has a trimmed username, the email lower-cased and then trimmed, a trimmed displayName when one is given, status `offline` (a member of the enum), an empty bio and avatar, and is unverified. `lastSeen` is the creation time. |
| UserModel.StoredEmailNormalised | server/src/models/User.js:14-20 | The stored email holds no ASCII capital and no surrounding whitespace, and two addresses that differ only in ASCII case are stored alike. |
| UserModel.WithDefaultDisplayName | server/src/models/User.js:83-88 | The hook keeps a non-empty displayName and replaces a missing or empty one with the username. |
| UserModel.Name | server/src/models/User.js:91-93 | `name` is the displayName when it is non-empty, otherwise the username. |
| UserModel.NameAfterDefault | server/src/models/User.js:83-93 | After the hook, `name` is the stored displayName, and the displayName is non-empty for any non-empty username. |
| UserModel.ToJson | server/src/models/User.js:96-109 | The JSON form keeps the identifying and profile fields, adds `name` and `isOnline` (true exactly for status `online`) and has no password field. |
| UserModel.UserDocument.constructor | server/src/models/User.js:65-66 | A new document counts its password as modified. |
| UserModel.UserDocument.SetPassword | server/src/models/User.js:65-66 | Assigning a password marks it modified and changes nothing else. |
| UserModel.UserDocument.Save | server/src/models/User.js:65-88 | Validation failure or hashing failure leaves the document unchanged. Otherwise the password is replaced by its hash only when it was modified, and then the displayName hook runs. An unmodified password is never rehashed. |
| ChatController.GroupMembersShape | server/src/controllers/chatController.js:89 | The group's members have no duplicates, start with the creator, and are exactly the creator together with the requested ids. |
| ChatController.GroupSizeAtLeastTwo | server/src/controllers/chatController.js:81-98 | A new group has two or more members exactly when some requested id differs from the creator. |
| ChatController.Joining | server/src/controllers/chatController.js:265-267 | The ids to add are exactly the requested ids that are not yet members, in request order. |
| ChatController.RemoveAllNoDups | server/src/controllers/chatController.js:322-324 | Filtering out a user keeps a duplicate-free list duplicate-free. |
| ChatController.CreatedGroupWellFormed | server/src/controllers/chatController.js:92-98 | A created group's admins, the creator alone, form a non-empty, duplicate-free subset of its members. |
| ChatController.AddKeepsWellFormed | server/src/controllers/chatController.js:265-270 | Adding participants keeps the admin structure and leaves existing members in order at the front. |
| ChatController.RemoveKeepsWellFormed | server/src/controllers/chatController.js:315-324 | When the sole-admin guard lets a removal through, the admins stay non-empty, duplicate-free and among the members. |
| ChatController.LeaveKeepsWellFormed | server/src/controllers/chatController.js:367-381 | When someone remains after a leave, the hand-over gives the group a non-empty, duplicate-free admin list among the remaining members. |
| ChatController.EmptyAfterLeaveNeedsDuplicates | server/src/controllers/chatController.js:384-391 | The "group deleted" branch can only be reached by a saved participant list that contains the leaver twice, so a duplicate-free group never takes it. |
| ChatController.LeavingPairFailsSave | server/src/controllers/chatController.js:376-393 | Leaving a two-member group leaves one participant, and the Chat save hook refuses that, so the leave fails with 500. |
| ChatController.Announce | server/src/controllers/chatController.js:122-124 | A notification produces one emission per user. |
| ChatController.AnnounceAt | server/src/controllers/chatController.js:122-124 | The i-th notification goes to the personal room of the i-th user. |
| ChatController.AnnounceAppend | server/src/controllers/chatController.js:277-279 | Notifying two lists of users in turn is notifying their concatenation. |
| ChatController.AnnounceEach | server/src/controllers/chatController.js:122-124 | The `forEach` loop appends exactly the per-user notifications, in order. |
| ChatController.StoreKeepsWellFormed | server/src/controllers/chatController.js:393 | Saving a valid chat under its own id keeps every stored chat valid and under its own id. |
| ChatController.SelfRequestMatchesAnyDirectChat | server/src/controllers/chatController.js:27-39 | Asking for a direct chat with oneself matches any existing direct chat of the caller, because `$all` with the caller twice only requires the caller to be a member. |
| ChatController.CreateOrGetDirectChat | server/src/controllers/chatController.js:6-74 | A missing participant gives 400 and an unknown user gives 404. An existing direct chat between the two users is returned with 200 and nothing is written. Otherwise a new two-member chat is stored and returned with 201, and only the other user is notified with `newChat`. The store stays valid. |
| ChatController.SelfOnlyGroupRejected | server/src/controllers/chatController.js:81-98 | Naming oneself twice passes the request guard, yet the group has one member and its save fails. |
| ChatController.BlankGroupNameStored | server/src/controllers/chatController.js:81-98 | A whitespace-only group name passes the guard and is stored trimmed to `''`. |
| ChatController.SaveGroup | server/src/controllers/chatController.js:100-124 | Once a group passes validation, it and its system message are stored, and every member hears `newChat`. The store stays valid. |
| ChatController.CreateGroupChat | server/src/controllers/chatController.js:77-139 | An invalid request gives 400 and an unsavable group gives 500; neither writes or emits anything. Otherwise the group is stored with its creation notice as last message, the notice is appended to the messages, every member is notified, and the reply is 201. The store stays valid. |
| ChatController.Renamed | server/src/controllers/chatController.js:223-224 | A truthy name renames the group, trimmed, and nothing else changes. Any other name leaves the chat as it was. |
| ChatController.UpdateGroupChat | server/src/controllers/chatController.js:205-243 | A caller who is not an admin of the group gets 404, and a name too long to save gives 500; neither changes anything. Otherwise the renamed chat is stored and returned. |
| ChatController.AddParticipants | server/src/controllers/chatController.js:246-294 | A caller who is not an admin gets 404 and nothing changes. Otherwise only the requested ids that are not yet members are appended, and exactly those users are notified with `addedToGroup`. |
| ChatController.JoiningSkipsMembers | server/src/controllers/chatController.js:265-270 | An id already in the group is neither appended nor notified. An id repeated in the request is appended twice. |
| ChatController.WithoutMember | server/src/controllers/chatController.js:322-324 | The removed user is no longer a member or an admin, and everyone else keeps both roles. |
| ChatController.RemoveParticipant | server/src/controllers/chatController.js:297-346 | A caller who is not an admin gets 404. Removing the sole admin gives 400 and an unsavable result gives 500. Otherwise the user loses membership and admin role and only that user is notified with `removedFromGroup`. The store stays valid. |
| ChatController.DeleteChatMessages | server/src/controllers/chatController.js:385 | Exactly the messages of other chats remain, in their order. |
| ChatController.FilterKeepsWellFormed | server/src/controllers/chatController.js:385 | Deleting a chat's messages keeps the message collection valid. |
| ChatController.DeleteChat | server/src/controllers/chatController.js:384-391 | The chat and all its messages are gone, and nothing else changes. |
| ChatController.LeaveGroup | server/src/controllers/chatController.js:349-407 | A caller who is not a member of the group gets 404. A leave that empties the group deletes it with its messages. Otherwise the caller leaves, with a hand-over if they were the sole admin, or the save fails with 500 and nothing changes. The store stays valid. |
| MessageController.Reverse | server/src/controllers/messageController.js:37-48 | The reversed list holds the same messages in mirrored positions. |
| MessageController.Visible | server/src/controllers/messageController.js:23-30 | The listable messages are exactly the chat's undeleted messages, in creation order. |
| MessageController.ReverseWindow | server/src/controllers/messageController.js:23-48 | Taking a window of the newest-first list and reversing it is the mirrored window of the oldest-first list. |
| MessageController.PageIsSlice | server/src/controllers/messageController.js:23-48 | A page, read oldest first, is one contiguous run of the visible messages: the `limit` messages just before the newest `skip`. |
| MessageController.AdjacentPagesTile | server/src/controllers/messageController.js:23-48 | Pages `p + 1` and `p` of the same size join without gap or overlap. |
| MessageController.AdjacentBounds | server/src/controllers/messageController.js:23-30 | The older page ends where the newer one starts. |
| MessageController.PagesIsCeiling | server/src/controllers/messageController.js:37-48 | For a positive limit, the page count is the least number of pages that hold every visible message, and it is zero exactly when there are no messages. |
| MessageController.GetMessages | server/src/controllers/messageController.js:5-57 | A missing `page` or `limit` defaults to 1 or 50. A non-member gets 404 and a negative skip gives 500. Otherwise the page holds only undeleted messages of the chat and is the slice `PageIsSlice` describes. The reply also carries the page, the limit, the visible total and the page count. |
| MessageController.DefaultQueryIsNewestFifty | server/src/controllers/messageController.js:8-29 | With no query, as the client's `fetchMessages` sends it, a member gets the 50 newest visible messages, oldest first, as page 1 of `ceil(total / 50)`. |
| MessageController.PageOf | server/src/controllers/messageController.js:23-29 | A page is never longer than the visible list or, for a non-zero limit, than the limit, and it is empty once the skip passes every message. |
| MessageController.Pages | server/src/controllers/messageController.js:45 | There is a page count exactly when the limit is non-zero, and it is 0 when there are no messages. |
| MessageController.AttachmentDraft | server/src/controllers/messageController.js:134-146 | An attachment message has content `''` when none is given and type `file` when none is given, and it carries the attachment. |
| MessageController.AttachmentDefaults | server/src/controllers/messageController.js:134-146 | An attachment message without content or type is a `file` message, and it saves exactly when its attachment has a url. |
| MessageController.WithLastMessage | server/src/controllers/messageController.js:89-90 | The chat points at the new message and is touched, and its members, admins and name are unchanged. |
| MessageController.Post | server/src/controllers/messageController.js:79-98 | A message that fails its save changes nothing and gives 500. Otherwise it is appended, its chat points at it, and it is broadcast to the chat room. The store stays valid. |
| MessageController.SendMessage | server/src/controllers/messageController.js:60-112 | A non-member gets 404 and nothing changes. Otherwise the text message, typed `text` by default, is stored and broadcast, or refused with 500 when it is blank. |
| MessageController.SendMessageWithAttachment | server/src/controllers/messageController.js:115-174 | The same as sending a message, for the attachment message and its defaults. |
| MessageController.MarkRead | server/src/controllers/messageController.js:195-206 | Every message gets the same read update in place, and the collection keeps its length. |
| MessageController.MarkReadEffect | server/src/controllers/messageController.js:195-206 | Afterwards every message of the chat that the reader did not send carries the reader's receipt. At most one receipt is added per message, only `readBy` changes, and other chats are untouched. |
| MessageController.MarkReadIdempotent | server/src/controllers/messageController.js:195-206 | Marking a chat read a second time changes nothing. |
| MessageController.MarkReadKeepsReadOnce | server/src/controllers/messageController.js:195-206 | No message ever holds two receipts by the same user. |
| MessageController.MarkReadKeepsWellFormed | server/src/controllers/messageController.js:195-206 | Marking messages read keeps the message collection valid. |
| MessageController.MarkAsRead | server/src/controllers/messageController.js:177-227 | A non-member gets 404 and nothing changes. Otherwise the chat is marked read and `messagesRead` is broadcast to the chat room. |
| MessageController.ReplaceKeepsWellFormed | server/src/controllers/messageController.js:246-248 | Replacing a message by a valid one with the same id and time keeps the collection valid. |
| MessageController.SoftDeleted | server/src/controllers/messageController.js:246-248 | A deleted message is flagged deleted and its content becomes the deletion notice. Nothing else changes. |
| MessageController.DeletedNotVisible | server/src/controllers/messageController.js:23-30 | A soft-deleted message is never listed again. |
| MessageController.DeleteMessage | server/src/controllers/messageController.js:230-269 | Only the sender may delete: anyone else gets 404 and nothing changes. Otherwise exactly that message is soft-deleted and `messageDeleted` goes to its chat room. |
| MessageController.Edited | server/src/controllers/messageController.js:290-292 | An edit replaces the content, trimmed, and sets the edited flag. The id, chat, sender, type, receipts and deletion flag are kept. |
| MessageController.BlankEditRejected | server/src/controllers/messageController.js:290-293 | Editing a text message to blank or missing content fails its save. |
| MessageController.EditMessage | server/src/controllers/messageController.js:272-313 | Only the sender of a text message may edit it: otherwise 404 and nothing changes. A blank edit gives 500 and nothing changes. Otherwise exactly that message is replaced and `messageEdited` goes to its chat room. |
| UserController.UpdateOf | server/src/controllers/userController.js:35-38 | The update holds exactly the body fields that are present, with their values. |
| UserController.BuildUpdate | server/src/controllers/userController.js:35-38 | Filling the update field by field yields exactly those present fields. |
| UserController.Applied | server/src/controllers/userController.js:40-44 | The update overwrites only the fields it names, with the displayName trimmed. The password and identity fields are never touched. |
| UserController.AppliedKeepsFieldsValid | server/src/controllers/userController.js:40-44 | A valid update keeps a valid user valid. |
| UserController.ProfileUpdateCanBlankDisplayName | server/src/controllers/userController.js:40-44 | Because the displayName hook runs only on save, a blank displayName is stored as `''` while `name` falls back to the username. |
| UserController.ReplaceUserKeepsWellFormed | server/src/controllers/userController.js:40-44 | Replacing a user by one with the same id keeps user ids unique. |
| UserController.UpdateProfile | server/src/controllers/userController.js:31-66 | An invalid update gives 500 whether or not the user exists. A missing user gives 404. Otherwise exactly the caller's record is updated and returned. |
| UserController.UpdateStatus | server/src/controllers/userController.js:180-209 | A status outside the enum gives 400. A valid status is stored with `lastSeen`, and a missing user still gets 200 with no user. |
| UserController.SearchUsers | server/src/controllers/userController.js:124-156 | An empty query answers nothing, and no answer holds more than 20 users. |
| UserController.SearchUsersSpec | server/src/controllers/userController.js:124-156 | An empty query answers nothing. Otherwise the answer holds at most 20 users, in stored order, never the caller, each matching the query on username or email, and every match when fewer than 20 come back. |
| UserController.DisplayNameNotSearched | server/src/controllers/userController.js:131-141 | A user whose username and email do not match the query is never returned, whatever their display name: the `name` clause tests a field that is not stored. |
| UserController.StrLeTotal | server/src/controllers/userController.js:161-163 | Any two display names are comparable. |
| UserController.StrLeTransitive | server/src/controllers/userController.js:161-163 | The display-name order is transitive. |
| UserController.DisplayNameOrder | server/src/controllers/userController.js:161-163 | Ordering by displayName, with missing names first, is a total preorder. |
| UserController.GetAllUsers | server/src/controllers/userController.js:159-177 | The contact list is everyone but the caller, each exactly once, sorted ascending by displayName. |
| UploadMiddleware.FileFilter | server/src/middleware/upload.js:16-36 | Only a type on the allow-list passes, and every such type is an image, application, text or video type. |
| UploadMiddleware.AllowListSize | server/src/middleware/upload.js:18-46 | The allow-list has thirteen distinct types, and the size limit is 50 MiB. |
| UploadMiddleware.ImageTypesAccepted | server/src/middleware/upload.js:18-36 | Among image types exactly jpeg, png, gif and webp pass the filter, so SVG and HEIC are refused. |
| UploadMiddleware.Multer | server/src/middleware/upload.js:16-46 | A request without a file passes with none. A file is refused exactly when its type is not allowed or it exceeds the limit, and a file that passes is unchanged. |
| UploadMiddleware.UploadOptions | server/src/middleware/upload.js:51-56 | Every caller option is kept as given. A missing folder, public id or resource type takes its default, and the default public id is built from the folder and the generated id. |
| UploadMiddleware.EmptyFolderKept | server/src/middleware/upload.js:51-56 | An explicit empty folder wins over the default, and the generated public id then starts with `file_`. |
| UploadMiddleware.DestroyResourceType | server/src/middleware/upload.js:69-77 | A deletion defaults to the `image` resource type. |
| UploadController.ResourceKind | server/src/controllers/uploadController.js:16-23 | Images are `image`, videos are `video` and everything else is `raw`, never `auto`. |
| UploadController.ResourceType | server/src/controllers/uploadController.js:16-23 | The reassigning if-chain computes the resource kind of the mimetype. |
| UploadController.UploadFile | server/src/controllers/uploadController.js:4-50 | No file gives 400 and no upload. Otherwise the file is uploaded with the file options, and the reply reports Cloudinary's url, id and resource type with the file's name, size and type, or 500 on failure. |
| UploadController.FileUploadOptionsShape | server/src/controllers/uploadController.js:13-29 | The folder defaults only when the body has none. The resource type is never `auto`, and the generated id starts with the folder. |
| UploadController.UploadImage | server/src/controllers/uploadController.js:53-99 | No file, or a non-image, gives 400 and no upload. An image is uploaded with the fixed image options and reported with its dimensions, or 500 on failure. |
| UploadController.ImageUploadOptionsShape | server/src/controllers/uploadController.js:71-77 | Images go to `frostchat/images`, Cloudinary chooses the resource type, and the id starts with the folder. |
| UploadController.DeleteFile | server/src/controllers/uploadController.js:102-127 | A missing public id gives 400 and no call. Otherwise exactly one destroy is requested, with type `image` by default, and the reply follows its outcome. |
| UploadController.PostFile | server/src/routes/upload.js:11-12 | A file that multer refuses reaches neither the controller nor Cloudinary and gets the error handler's reply. Any upload that does happen is of an allowed file within the limit. |
| ChatStore.ClearAll | client/src/store/chatStore.js:15-24 | Clearing restores the initial, empty state, which is consistent. |
| ChatStore.SetOnlineUsers | client/src/store/chatStore.js:28-33 | The online list becomes the snapshot, or empty when the payload is not an array. Nothing else changes. |
| ChatStore.SetOnlineUsersKeepsConsistent | client/src/store/chatStore.js:28-33 | A snapshot without duplicates keeps the store consistent. |
| ChatStore.DedupSnoc | client/src/store/chatStore.js:35-41 | De-duplicating a duplicate-free list with one more id appends that id only if it is new. |
| ChatStore.AddOnlineUser | client/src/store/chatStore.js:35-41 | The user is listed exactly once, the others are kept, and a duplicate-free list only grows by the new id. |
| ChatStore.RemoveOnlineUser | client/src/store/chatStore.js:43-51 | The user is no longer listed, everyone else keeps their place, and nothing else changes. |
| ChatStore.IncrementUnread | client/src/store/chatStore.js:53-60 | The chat's count goes up by one, counting from 0 when absent. Other chats are unchanged. |
| ChatStore.ClearUnread | client/src/store/chatStore.js:62-69 | The chat's count becomes 0, and other chats are unchanged. |
| ChatStore.SetTypingUser | client/src/store/chatStore.js:71-96 | A typing user is listed once in that chat, and a user who stopped is removed from it. No other chat's typers change, and no typer is listed twice. |
| ChatStore.SubseqKeepsKeysDistinct | client/src/store/chatStore.js:43-51 | Dropping elements never makes two keys equal. |
| ChatStore.AddMessage | client/src/store/chatStore.js:128-140 | (Corrected guard.) A message of the open chat is appended unless one with its id is there, anything else is ignored, and ids stay distinct. |
| ChatStore.AddMessageIdempotent | client/src/store/chatStore.js:128-140 | Receiving the same message twice, as the REST reply and then the socket echo, stores it once. |
| ChatStore.AddMessageAsWritten | client/src/store/chatStore.js:128-140 | The guard as written: a bare chat id also matches when no chat is open. A message is appended only when it passes the guard and is not there yet, and message ids stay distinct. |
| ChatStore.AddMessageAsWrittenIdempotent | client/src/store/chatStore.js:128-140 | As written too, a message received twice is stored once. |
| ChatStore.StrayMessageWithoutActiveChat | client/src/store/chatStore.js:131 | With no chat open, a socket message is appended by the code as written and ignored by the intended guard. |
| ChatStore.AddMessageAgreesWithActiveChat | client/src/store/chatStore.js:131 | With a chat open, the written guard and the intended one behave the same. |
| ChatStore.PrependKeepsDistinct | client/src/store/chatStore.js:142-148 | Prepending a chat that is not listed keeps chat ids distinct. |
| ChatStore.AddChat | client/src/store/chatStore.js:142-148 | A chat is prepended only if it is not already listed. Afterwards it is listed, and ids stay distinct. |
| ChatStore.AddChatIdempotent | client/src/store/chatStore.js:142-148 | A repeated `newChat` or `addedToGroup` adds nothing. |
| ChatStore.NewerFirstIsTotalPreorder | client/src/store/chatStore.js:156 | The newest-first comparator is a total preorder, so the sort orders the list. |
| ChatStore.Touch | client/src/store/chatStore.js:152-155 | Only the chat with that id gets the message and the new time. Positions and ids are unchanged. |
| ChatStore.UpdateChatLastMessage | client/src/store/chatStore.js:150-158 | The result is a newest-first permutation of the stamped list, the ids stay distinct, and nothing but the chat list changes. |
| ChatStore.TouchAt | client/src/store/chatStore.js:152-155 | With distinct ids, stamping a chat changes its own position only. |
| ChatStore.SortedWithout | client/src/store/chatStore.js:156 | Dropping one chat keeps a newest-first list newest-first. |
| ChatStore.NewMessageMovesChatToFront | client/src/store/chatStore.js:150-158 | On a newest-first list, a new message moves its chat to the front and leaves the other chats in their order. |
| ChatStore.CreateGroupChatAsWritten | client/src/store/chatStore.js:183-200 | As written, the created group is prepended unconditionally and opened, and nothing else changes. Chat ids stay distinct only when the group was not listed yet. |
| ChatStore.GroupListedTwice | client/src/store/chatStore.js:188-191 | When the creator's `newChat` event is handled before the reply, the code as written lists the group twice. |
| ChatStore.OpenCreatedChat | client/src/store/chatStore.js:166-172 | The reply of `createDirectChat`, and the corrected reply of `createGroupChat`. The chat is opened and listed once, and chat ids stay distinct. |
| ChatStore.CreationOrderIrrelevant | client/src/store/chatStore.js:166-172 | Whichever of the reply and the `newChat` event is handled first, the chat ends up listed once and open. |
| ChatStore.Store.constructor | client/src/store/chatStore.js:5-12 | The store starts in its initial state. |
| ChatStore.Store.Clear | client/src/store/chatStore.js:15-24 | `clearAll` resets the store. |
| ChatStore.Store.SetChats | client/src/store/chatStore.js:26 | Only the chat list is replaced. |
| ChatStore.Store.FetchChats | client/src/store/chatStore.js:98-107 | The fetched list replaces the chats, and a failure keeps them. Loading ends either way. |
| ChatStore.Store.FetchMessages | client/src/store/chatStore.js:117-126 | The fetched messages replace the list, and a failure keeps it. Loading ends either way. |
| ChatStore.Store.SetActiveChat | client/src/store/chatStore.js:109-126 | The chosen chat becomes active and the old messages are dropped. Opening a chat loads its messages and zeroes its unread count. |
| ChatStore.Store.SendMessage | client/src/store/chatStore.js:202-234 | A failure changes nothing and reports the server's message or the fallback. Otherwise the message is added through the guard as written (`AddMessageAsWritten`), and the chat is re-stamped and the list re-sorted newest first. |
| ChatStore.Store.CreateDirectChat | client/src/store/chatStore.js:160-181 | A failure changes nothing. Otherwise the chat is opened and listed once. |
| ChatStore.Store.CreateGroupChat | client/src/store/chatStore.js:183-200 | A failure changes nothing. Otherwise the group is prepended without an existence check and opened (`CreateGroupChatAsWritten`). |
| ClientSocket.RemoveChat | client/src/services/socket.js:68-76 | The chat is no longer listed and the others keep their order. If it was open, it is closed and its messages dropped; otherwise the open chat stays. |
| ClientSocket.Handle | client/src/services/socket.js:34-76 | Only `removedFromGroup` can close the open chat. Only `newMessage` and `removedFromGroup` touch the message list. A new message never changes the number of listed chats, and no event touches the unread counts. |
| ClientSocket.HandleKeepsConsistent | client/src/services/socket.js:34-76 | Every server event, handled as written, keeps the store consistent: no chat, message, online user or typer is listed twice. |
| ClientSocket.TypingKeepsConsistent | client/src/services/socket.js:47-49 | A typing event keeps the store consistent. |
| ClientSocket.NewMessageKeepsConsistent | client/src/services/socket.js:52-55 | A new-message event, with the `addMessage` guard as written, keeps the store consistent. |
| ClientSocket.NoChatListedTwice | client/src/services/socket.js:58-65 | `newChat` and `addedToGroup` never list a chat twice, and a `newChat` after `addedToGroup` for the same chat changes nothing. |
| ClientSocket.EchoStoredOnce | client/src/services/socket.js:52-55 | With the `addMessage` guard as written, the socket echo of one's own sent message leaves the message list as the reply left it. |
| ClientSocket.StraySocketMessageStored | client/src/services/socket.js:52-55 | With no chat open, a socket message whose chat is a bare id is appended to the message list. |
| ClientSocket.PresenceEvents | client/src/services/socket.js:38-44 | After `userOffline` the user is not listed. After `userOnline` the user is listed exactly once. |
| ClientSocket.OnlineThenOffline | client/src/services/socket.js:38-44 | Coming online and then going offline leaves the earlier online list without that user. |
| ClientSocket.Dispatch | client/src/services/socket.js:34-76 | Each registered handler applies exactly its event's transition (`Handle`, with the `addMessage` guard as written) to the store. |
| ClientSocket.SocketClient.constructor | client/src/services/socket.js:6 | There is no socket yet and nothing has been sent. |
| ClientSocket.SocketClient.Initialize | client/src/services/socket.js:8-79 | A connected socket is reused. Otherwise a new connection is opened with the token and replaces the stale one. Nothing is sent. |
| ClientSocket.SocketClient.SetConnected | client/src/services/socket.js:21-31 | The transport's connect and disconnect only flip the connected flag of the current socket. |
| ClientSocket.SocketClient.Disconnect | client/src/services/socket.js:83-88 | The socket is dropped, so later emits are not sent. |
| ClientSocket.SocketClient.Emit | client/src/services/socket.js:90-112 | Over a connected socket the event is sent once. Otherwise it is dropped silently. |
| ClientSocket.InitializeTwice | client/src/services/socket.js:8-19 | Two initialisations with the socket connected in between open one connection. |
| ClientTypes.ErrorMessage | client/src/store/chatStore.js:176-179 | The server's message is reported when it is non-empty, otherwise the fallback. |
| ClientTypes.OtherUser | client/src/components/chat/ChatView.jsx:45 | The other participant is the first one whose id differs from the signed-in user's. There is none only when every participant is that user. |
| AuthStore.MergeUser | client/src/store/authStore.js:79-83 | The merged user has the fields of both. The update's values win, and fields the update lacks keep their old values. |
| AuthStore.MergeUserIdempotent | client/src/store/authStore.js:79-83 | Applying the same profile update twice is applying it once. |
| AuthStore.Bearer | client/src/store/authStore.js:29 | The header is `Bearer ` followed by exactly the token. |
| AuthStore.AuthStore.constructor | client/src/store/authStore.js:119-127 | A page load restores the persisted token and user but is neither authenticated nor sending a header until checked. |
| AuthStore.AuthStore.Persist | client/src/store/authStore.js:119-122 | Only the token and the user are persisted. |
| AuthStore.AuthStore.SetLoading | client/src/store/authStore.js:14 | Only the loading flag changes. |
| AuthStore.AuthStore.SignIn | client/src/store/authStore.js:16-61 | A session signs in: the user, token, flag and header all change together. A failure changes nothing and reports the server's message or the fallback. |
| AuthStore.AuthStore.Logout | client/src/store/authStore.js:63-77 | Whatever the server answers, the socket is closed and the session, header and persisted part are cleared. |
| AuthStore.AuthStore.UpdateUser | client/src/store/authStore.js:79-83 | The user becomes the merge of the old user and the update, and the session is otherwise unchanged. |
| AuthStore.AuthStore.CheckAuth | client/src/store/authStore.js:85-111 | Without a truthy token nothing is asked and the session is kept. With one, the server's answer signs the user in with that token, or signs them out completely. Loading ends either way. |
| AuthStore.Reload | client/src/store/authStore.js:85-127 | After a page load and a check, the user is authenticated exactly when a non-empty token was stored and the server accepts it. |
| MessageList.DateKeysNoDups | client/src/components/chat/MessageList.jsx:26-44 | No date separator appears twice. |
| MessageList.DateKeysMembers | client/src/components/chat/MessageList.jsx:26-44 | A date has a separator exactly when some message carries it. |
| MessageList.GroupOf | client/src/components/chat/MessageList.jsx:37-40 | A date's group never holds more messages than the list. |
| MessageList.GroupOfMembers | client/src/components/chat/MessageList.jsx:26-44 | Every message is in the group of its own date and in no other. |
| MessageList.DateKeysSnoc | client/src/components/chat/MessageList.jsx:37-39 | One more message adds its date at the end exactly when the date is new. |
| MessageList.GroupOfSnoc | client/src/components/chat/MessageList.jsx:40 | One more message joins the end of its own date's group only. |
| MessageList.GroupOfAbsent | client/src/components/chat/MessageList.jsx:26-44 | A date without a separator has no messages. |
| MessageList.GroupsStep | client/src/components/chat/MessageList.jsx:29-41 | One step of the loop keeps the groups equal to those of the messages seen so far. |
| MessageList.GroupMessagesByDate | client/src/components/chat/MessageList.jsx:26-44 | The loop builds one group per date, with separators in order of first appearance, and each group holds exactly that date's messages in list order. |
| MessageList.RenderedAppendOther | client/src/components/chat/MessageList.jsx:75 | A message of another date does not change how the given dates render. |
| MessageList.RenderedAppendLast | client/src/components/chat/MessageList.jsx:75 | A message of the last date is rendered last. |
| MessageList.ContiguousInit | client/src/components/chat/MessageList.jsx:26-44 | A list whose dates are contiguous stays so without its last message. |
| MessageList.LastKeyIsLastDate | client/src/components/chat/MessageList.jsx:26-44 | For a list whose dates are contiguous, the last separator is the date of the last message. |
| MessageList.GroupingPreservesOrder | client/src/components/chat/MessageList.jsx:26-75 | For a list whose dates are contiguous, the grouped rendering shows every message exactly once, in list order. |
| MessageList.RenderedNewLast | client/src/components/chat/MessageList.jsx:75 | A message with a new date is rendered last, under its own separator. |
| MessageList.RenderedSnoc | client/src/components/chat/MessageList.jsx:75 | Rendering one more date appends that date's group. |
| MessageList.ShowAvatar | client/src/components/chat/MessageList.jsx:88-91 | A group's first message and every system message show an avatar. A message without one has the same sender as the message before it. |
| MessageList.ShouldMarkRead | client/src/components/chat/MessageList.jsx:19-23 | Messages are marked read when a chat with an id is open and the list is non-empty, and never without an open chat or with an empty list. |
| MessageList.AvatarOncePerRun | client/src/components/chat/MessageList.jsx:88-91 | In a run of non-system messages from one sender only the first shows an avatar, and a group's first message always shows one. |
| MessageList.Render | client/src/components/chat/MessageList.jsx:46-75 | While loading, the spinner shows even over a non-empty list. An empty list shows the empty state. Otherwise the grouped messages show. |
| ChatView.DisplayInfo | client/src/components/chat/ChatView.jsx:33-54 | Without an open chat the header is blank. A group shows its name and member count. A direct chat always has a non-empty title. |
| ChatView.DirectHeader | client/src/components/chat/ChatView.jsx:45-53 | A direct chat names the other participant. It shows them online exactly when they are in the online list, and otherwise shows their stored status. Without another participant it shows "Unknown User". |
| ChatView.TypingText | client/src/components/chat/ChatView.jsx:59-65 | No typers means no line. One or two typers are named, and more than two give "Several people are typing...". |
| ChatView.TypingLine | client/src/components/chat/ChatView.jsx:60 | The line is built from the open chat's typers. |
| ChatView.PlanUpload | client/src/components/chat/ChatView.jsx:113-135 | A missing file does nothing and a file over 50 MiB is refused. The image endpoint is used exactly for an `image/` file picked with the image button, and the file endpoint otherwise. |
| ChatView.ClientSizeCheckMatchesServer | client/src/components/chat/ChatView.jsx:118 | The client refuses a file exactly when the server's limit would. A file it sends to the image route with an allowed type passes multer. |
| ChatView.SvgRefusedAfterClientCheck | client/src/components/chat/ChatView.jsx:129-130 | An SVG passes the client's image check but is refused by the server's allow-list. |
| ChatView.AttachmentFor | client/src/components/chat/ChatView.jsx:137-145 | The attachment request carries the upload's url and id, empty content, and type `image` only for the image route. |
| ChatView.UploadToastAsWritten | client/src/components/chat/ChatView.jsx:137-149 | As written, the toast reports success whenever the upload succeeded, whatever became of the message. |
| ChatView.UploadToast | client/src/components/chat/ChatView.jsx:137-149 | (Corrected toast.) Success is reported exactly when both the upload and the message succeeded. |
| ChatView.FileSentDespiteRefusal | client/src/components/chat/ChatView.jsx:137-147 | An attachment that the server refuses, for example in a chat the user has left, still reports "File sent!" as written, and the corrected toast reports the failure. |
| ChatView.StopTypingAndSend | client/src/components/chat/ChatView.jsx:100-103 | Typing stops over a connected socket, then the store sends. The store changes only on success, as `Store.SendMessage` says. |
| ChatView.Composer.constructor | client/src/components/chat/ChatView.jsx:25-27 | The composer starts empty and idle. |
| ChatView.Composer.Edit | client/src/components/chat/ChatView.jsx:25 | Only the draft changes. |
| ChatView.Composer.Send | client/src/components/chat/ChatView.jsx:96-111 | A blank draft, or a send already in flight, does nothing. Otherwise typing stops and the trimmed draft is sent. Success clears the draft, and failure keeps it and shows an error. |
| ChatView.Composer.Upload | client/src/components/chat/ChatView.jsx:113-154 | Missing and oversized files do nothing or show the size error. A failed upload shows "Failed to upload file" and changes nothing. A successful upload is posted as an attachment and, as written, shows "File sent!" whether or not the message was stored; the store changes only when it was. |
| ChatListItem.RowDisplayInfo | client/src/components/chat/ChatListItem.jsx:13-29 | A group row shows the group's name. A direct row names the other participant, or "Unknown User", and carries that participant's id and status. |
| ChatListItem.IsOnline | client/src/components/chat/ChatListItem.jsx:33-36 | A row with a non-empty user id shows online exactly when that id is among the online users; a row without an id, or with an empty online list, never does. |
| ChatListItem.RowOnlineIffListed | client/src/components/chat/ChatListItem.jsx:21-36 | A direct chat's row is online exactly when its other participant, with a non-empty id, is listed online. A group's row, and a direct row with no other participant, never are. |
| ChatListItem.RowAgreesWithHeader | client/src/components/chat/ChatListItem.jsx:21-36 | A row and the open chat's header agree on a direct chat's title and on whether its other participant is online. |
| ChatListItem.SenderLabel | client/src/components/chat/ChatListItem.jsx:48-50 | One's own message is labelled "You". |
| ChatListItem.Preview | client/src/components/chat/ChatListItem.jsx:39-55 | No message, an image, a file and a deleted message each have a fixed label, in that order of precedence. Text shows its content, prefixed by the sender's label in groups. |
| ChatListItem.DeletedImageStillPreviewsAsImage | client/src/components/chat/ChatListItem.jsx:43-45 | Because the type is tested first, a deleted image still previews as an image. |
| ChatListItem.OwnMessagePreview | client/src/components/chat/ChatListItem.jsx:48-54 | A group preview of one's own text message starts with "You: ". |
| ChatListItem.UnreadBadge | client/src/components/chat/ChatListItem.jsx:111-115 | The badge shows exactly for a positive count on an inactive row, and is capped at "99+". |
| ChatListItem.NoBadgeByDefault | client/src/components/chat/Sidebar.jsx:175-183 | The chat list passes no count, so no row ever shows a badge. |
| ChatListItem.RowTypingText | client/src/components/chat/ChatListItem.jsx:58-59 | A row names a single typer, and two or more typers give "Several people are typing...". |
| ChatListItem.TypingLinesAgree | client/src/components/chat/ChatListItem.jsx:128-130 | The row's typing line and the header's agree except with exactly two typers, whom the header names and the row does not. |
| Sidebar.FilteredChats | client/src/components/chat/Sidebar.jsx:50-58 | Exactly the matching chats remain, in list order. |
| Sidebar.QueryCaseIgnored | client/src/components/chat/Sidebar.jsx:50-58 | Searching ignores the case of the query. |
| Sidebar.EmptyQueryShows | client/src/components/chat/Sidebar.jsx:50-58 | An empty search shows every chat except an unnamed group and a direct chat whose other participant has neither a displayName nor a username. |
| Sidebar.ToggleSelection | client/src/components/chat/Sidebar.jsx:95-101 | A selected user is deselected and an unselected one is appended. The selection stays free of duplicates. |
| Sidebar.ToggleTwice | client/src/components/chat/Sidebar.jsx:95-101 | Picking and then unpicking a user restores the selection. |
| Sidebar.Dialogs.constructor | client/src/components/chat/Sidebar.jsx:30-34 | The dialogs start closed with an empty form. |
| Sidebar.Dialogs.Toggle | client/src/components/chat/Sidebar.jsx:95-101 | Only the selection changes. |
| Sidebar.Dialogs.StartChat | client/src/components/chat/Sidebar.jsx:60-70 | On success the dialog closes, the chat opens and the page navigates to it. On failure the server's message is shown and nothing else changes. |
| Sidebar.Dialogs.CreateGroup | client/src/components/chat/Sidebar.jsx:72-93 | A blank name, then fewer than two members, are refused before any request. The request sends the name as typed. On success the form resets and the group is prepended and opened as `createGroupChat` does; on failure the form is kept. |
| Sorting.SortPermutes | client/src/store/chatStore.js:156 | The sort is a permutation of its input. |
| Sorting.SortSorted | client/src/store/chatStore.js:156 | With a total preorder, the sort orders its input. |
| Sorting.SortOfSorted | client/src/store/chatStore.js:156 | A list already in order is returned unchanged. |
| Sorting.MovesToFront | client/src/store/chatStore.js:156 | An element that strictly precedes everything else moves to the front, and the others keep their order. |
| Sorting.SortKeepsKeysDistinct | client/src/store/chatStore.js:156 | Sorting never makes two elements share a key. |

## Left out

- **I/O and libraries.** Express routing, HTTP, JWT verification in the auth middleware, MongoDB, bcrypt and Cloudinary are not modelled. Their results are parameters: the generated ids, the hash, the upload result and `uuidv4()`.
- **Interleaving.** Concurrency and the interleaving of asynchronous handlers are not modelled. Each handler runs to completion. In particular, the awaited status update at `server/src/socket/index.js:51` can race with a disconnect.
- **Timers.** The typing debounce and its cleanup in `ChatView.jsx:70-94` are timers and are not modelled.
- **Dates and locales.** The local date label of `MessageList.jsx:30-35` is a parameter (`dateKey`). `formatDistanceToNow` is not modelled.
- **Key order.** JavaScript object key order is modelled only for the date groups, where it decides the rendering. Maps elsewhere are unordered.
- **JSON encoding.** JSON `null` and `undefined` are both `None`. Populated documents (`populate`) are reduced to ids on the server side.
- **Ties.** Mongo's order among equal sort keys is taken to be natural order, except in `getMessages`. There the model reads `sort({ createdAt: -1 })` as the reverse of the stored order, so after `.reverse()` a page lists equal `createdAt` values in stored order. Under natural-order ties Mongo would keep them in stored order in the sort, and `.reverse()` would then list them newest-stored first.
- **Projections.** The `.select(...)` projections of `searchUsers` (`userController.js:144`) and `getAllUsers` (`userController.js:162`) are not modelled. Both return whole user records.
- **Query strings.** `page` and `limit` arrive as strings and go through JavaScript's coercion and `parseInt`. The model takes them as optional integers.
- **Omitted endpoints.** `getMyChats`, `getChat` (`chatController.js:142-202`), `getProfile` and `updateAvatar` (`userController.js:5-28`, `69-121`) only read or forward to Cloudinary and are not modelled. Neither are `comparePassword` (`User.js:78-80`) and `getSocket` (`socket.js:81`).
- **Search matching.** The case-insensitive regular-expression test of `searchUsers` against one stored string is a parameter (`regexMatch`). It is applied to the username and the email; the `name` clause never matches, since `name` is not stored.
- **Client `markAsRead`.** The client store's `markAsRead` (`chatStore.js:236-242`) only issues a request and is not modelled beyond `MessageList.ShouldMarkRead`.
- **Unhandled events.** The server events with no client handler (`messageDeleted`, `messageEdited`, `messagesRead`, `userStatusChanged`) are emitted but have no client-side effect in the model.
- **Unused store actions.** `clearAll`, `incrementUnread` and `unreadCount` are modelled but never used by the client.
- **Null senders.** `showAvatar` throws when a message's sender is null (`MessageList.jsx:90`). The model compares optional sender ids instead.
- ToLower: only the ASCII letters A to Z are folded, where JavaScript's `toLowerCase` folds every Unicode letter. So Sidebar.FilteredChats and Sidebar.QueryCaseIgnored miss matches such as `é` against `É`, and UserModel.NewUser keeps non-ASCII capitals in the email.
- Sidebar.FilteredChats: the case of non-ASCII letters is not ignored, as the ToLower line says.
- Sidebar.QueryCaseIgnored: holds for ASCII case only, as the ToLower line says.
- **Other files.** `client/src/services/upload.js` and `client/src/services/api.js` are not part of this model. Their replies are parameters.
- **Malformed ids and patterns.** Mongo casts every id taken from a request to an ObjectId, for example `Chat.findOne({ _id: chatId, ... })` at `messageController.js:11-14` and `User.findById(participantId)` at `chatController.js:18`. A string that is not an ObjectId throws, and the handler's catch answers 500. The model treats ids as opaque strings, so such a request takes the not-found branch (404) instead. Likewise a `q` that is not a valid regular expression makes `searchUsers` answer 500 "Search failed" (`userController.js:148-155`), while the model's `regexMatch` is total and always yields a list.
- ChatController.Announce: its own contract gives only the number of emissions. Their targets are stated by `ChatController.AnnounceAt`.
- MessageList.GroupOf: its own contract only bounds the group's size. What a group holds is stated by `MessageList.GroupOfMembers` and `MessageList.GroupOfSnoc`.
- UploadController.PostFile: for a file that passes multer, its contract states only that the call is of an allowed file within the limit. The controller's full reply is stated by `UploadController.UploadFile`.
- ChatListItem.SenderLabel: states only the "You" case. The first-word label of other senders is computed but not characterised.

## Findings

The store actions, the socket handlers and the composer follow the code as written. The corrected definitions stand beside them, with the intended property proved.

| source | as written | input that shows it | evidently intended | confidence | as-written member | corrected member |
|---|---|---|---|---|---|---|
| client/src/store/chatStore.js:131 | `activeChat?._id === message.chat?._id` is true when no chat is open and `message.chat` is a bare id (both sides `undefined`), so the message is appended | no active chat; a `newMessage` socket event whose `chat` is a bare id | append only messages of the open chat | not executed | ChatStore.StrayMessageWithoutActiveChat | ChatStore.AddMessage |
| client/src/store/chatStore.js:188-191 | `createGroupChat` prepends the new group without checking that it is listed | the creator's `newChat` event, which the server emits before replying, is handled before the reply | list the group once, as `createDirectChat` does | not executed | ChatStore.GroupListedTwice | ChatStore.CreationOrderIrrelevant |
| client/src/components/chat/ChatView.jsx:137-147 | `sendMessageWithAttachment` returns `{ success: false }` instead of throwing, and the result is ignored, so "File sent!" is shown | a successful upload to a chat the user has left: the attachment post answers 404 | report success only when the message was stored | not executed | ChatView.FileSentDespiteRefusal | ChatView.UploadToast |
