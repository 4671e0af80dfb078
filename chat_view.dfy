/** client/src/components/chat/ChatView.jsx: the header of the open chat,
    the typing line, the composer and the attachment flow. */
module ChatView {
  import opened Common
  import opened ClientTypes
  import ChatStore
  import ClientSocket
  import UploadMiddleware

  /** What `getDisplayInfo` returns; absent fields are `None`. */
  datatype Header = Header(name: Option<string>, status: Option<string>, isGroup: bool, memberCount: Option<nat>)

  /** `getDisplayInfo` */
  function DisplayInfo(active: Option<ClientChat>, me: Option<UserId>, onlineUsers: seq<UserId>): (h: Header)
    ensures active.None? ==> h == Header(Some(""), Some(""), false, None)
    ensures active.Some? && active.value.isGroupChat ==>
              h == Header(active.value.name, None, true, Some(|active.value.participants|))
    ensures active.Some? && !active.value.isGroupChat ==> !h.isGroup && h.memberCount.None? && Truthy(h.name)
  {
    if active.None? then Header(Some(""), Some(""), false, None)
    else if active.value.isGroupChat then
      Header(active.value.name, None, true, Some(|active.value.participants|))
    else
      var other := OtherUser(active.value.participants, me);
      var online := other.Some? && other.value.id in onlineUsers;
      var name := if other.Some? then OrElse(OrElse(other.value.name, other.value.displayName), Some("Unknown User"))
                  else Some("Unknown User");
      Header(name, if online then Some("online") else if other.Some? then other.value.status else None, false, None)
  }

  /** A direct chat's header names the other participant when they have a
      name, and calls them online exactly when they are in the online list. */
  lemma DirectHeader(chat: ClientChat, me: Option<UserId>, onlineUsers: seq<UserId>)
    requires !chat.isGroupChat
    ensures var h := DisplayInfo(Some(chat), me, onlineUsers);
            var other := OtherUser(chat.participants, me);
            (other.Some? && other.value.id in onlineUsers ==> h.status == Some("online")) &&
            (other.Some? && other.value.id !in onlineUsers ==> h.status == other.value.status) &&
            (other.Some? && Truthy(other.value.name) ==> h.name == other.value.name) &&
            (other.None? ==> h.name == Some("Unknown User") && h.status.None?)
  {
  }

  /** `getTypingText` */
  function TypingText(typers: seq<Typer>): (t: Option<string>)
    ensures t.None? <==> typers == []
    ensures |typers| == 1 ==> t == Some(typers[0].username + " is typing...")
    ensures |typers| == 2 ==> t == Some(typers[0].username + " and " + typers[1].username + " are typing...")
    ensures |typers| > 2 ==> t == Some("Several people are typing...")
  {
    if |typers| == 0 then None
    else if |typers| == 1 then Some(typers[0].username + " is typing...")
    else if |typers| == 2 then Some(typers[0].username + " and " + typers[1].username + " are typing...")
    else Some("Several people are typing...")
  }

  /** The typing line of the open chat, from the store. */
  function TypingLine(s: ChatStore.StoreState): (t: Option<string>)
    ensures s.activeChat.None? ==> t == TypingText(ChatStore.Typers(s, ""))
    ensures s.activeChat.Some? ==> t == TypingText(ChatStore.Typers(s, s.activeChat.value.id))
  {
    TypingText(ChatStore.Typers(s, if s.activeChat.Some? then s.activeChat.value.id else ""))
  }

  datatype Toast = ToastSuccess(text: string) | ToastError(text: string)

  /** What a picked file leads to. */
  datatype UploadPlan = NoFile | TooLarge | ViaImage | ViaFile

  /** The client-side checks of `handleFileUpload`: a file, at most 50 MiB,
      and the image endpoint only for an image picked with the image button. */
  function PlanUpload(file: Option<UploadMiddleware.File>, kind: string): (p: UploadPlan)
    ensures p == NoFile <==> file.None?
    ensures p == TooLarge <==> file.Some? && file.value.size > 50 * 1024 * 1024
    ensures p == ViaImage <==> file.Some? && file.value.size <= 50 * 1024 * 1024 &&
                               kind == "image" && StartsWith(file.value.mimetype, "image/")
  {
    if file.None? then NoFile
    else if file.value.size > 50 * 1024 * 1024 then TooLarge
    else if kind == "image" && StartsWith(file.value.mimetype, "image/") then ViaImage
    else ViaFile
  }

  /** The client's size bound is the server's: a file the client lets through
      is not refused by the upload limit, and one it refuses would be. */
  lemma ClientSizeCheckMatchesServer(file: UploadMiddleware.File, kind: string)
    ensures PlanUpload(Some(file), kind) != TooLarge <==> file.size <= UploadMiddleware.MaxFileSize
    ensures PlanUpload(Some(file), kind) == ViaImage && UploadMiddleware.FileFilter(file.mimetype) ==>
              UploadMiddleware.Multer(Some(file)) == UploadMiddleware.Passed(Some(file))
  {
    UploadMiddleware.AllowListSize();
  }

  /** The image route accepts any `image/` type, so an SVG the client sends
      there is refused by the server's allow-list. */
  lemma SvgRefusedAfterClientCheck(name: string)
    ensures var f := UploadMiddleware.File("image/svg+xml", 1, name);
            PlanUpload(Some(f), "image") == ViaImage && UploadMiddleware.Multer(Some(f)).Refused?
  {
    UploadMiddleware.ImageTypesAccepted("image/svg+xml");
  }

  /** `uploadFile`/`uploadImage`'s payload: the `data` of the upload reply. */
  datatype Uploaded = Uploaded(url: string, publicId: string, fileName: string, fileSize: nat, fileType: string)

  /** The body posted to `/messages/chat/:chatId/attachment`. */
  datatype AttachmentRequest = AttachmentRequest(
    content: string, attachmentUrl: string, attachmentPublicId: string, fileName: string,
    fileSize: nat, fileType: string, messageType: string)

  function AttachmentFor(u: Uploaded, plan: UploadPlan): (r: AttachmentRequest)
    ensures r.content == "" && r.attachmentUrl == u.url && r.attachmentPublicId == u.publicId
    ensures r.messageType == (if plan == ViaImage then "image" else "file")
  {
    AttachmentRequest("", u.url, u.publicId, u.fileName, u.fileSize, u.fileType,
                      if plan == ViaImage then "image" else "file")
  }

  /** The toast of `handleFileUpload` as written: `sendMessageWithAttachment`
      reports failure in its result instead of throwing, and the result is
      not looked at. */
  function UploadToastAsWritten(uploaded: Api<Uploaded>, sent: Outcome<ClientMessage>): (t: Toast)
    ensures uploaded.Failure? ==> t == ToastError("Failed to upload file")
    ensures uploaded.Success? ==> t == ToastSuccess("File sent!")
  {
    if uploaded.Failure? then ToastError("Failed to upload file") else ToastSuccess("File sent!")
  }

  /** The toast as intended: success only when the message was stored. */
  function UploadToast(uploaded: Api<Uploaded>, sent: Outcome<ClientMessage>): (t: Toast)
    ensures t.ToastSuccess? <==> uploaded.Success? && sent.Done?
    ensures t.ToastSuccess? ==> t.text == "File sent!"
    ensures t.ToastError? ==> t.text == "Failed to upload file"
  {
    if uploaded.Failure? || sent.Failed? then ToastError("Failed to upload file") else ToastSuccess("File sent!")
  }

  /** An upload whose attachment message the server refuses (a chat the user
      has left answers 404) still reports "File sent!" as written. */
  lemma FileSentDespiteRefusal(u: Uploaded)
    ensures UploadToastAsWritten(Success(u), Failed("Chat not found")) == ToastSuccess("File sent!")
    ensures UploadToast(Success(u), Failed("Chat not found")) == ToastError("Failed to upload file")
  {
  }

  /** The store after a sent message comes back from the server. */
  function Sent(s: ChatStore.StoreState, chatId: ChatId, m: ClientMessage, now: int): ChatStore.StoreState {
    ChatStore.UpdateChatLastMessage(ChatStore.AddMessageAsWritten(s, m), chatId, m, now)
  }

  /** The two effects of a send: the stop-typing emit, then the store action. */
  method StopTypingAndSend(chatId: ChatId, store: ChatStore.Store, socket: ClientSocket.SocketClient,
                           response: Api<ClientMessage>, now: int)
    returns (outcome: Outcome<ClientMessage>)
    modifies store, socket
    ensures outcome.Done? <==> response.Success?
    ensures old(socket.Connected()) ==> socket.sent == old(socket.sent) + [ClientSocket.Typing(chatId, false)]
    ensures !old(socket.Connected()) ==> socket.sent == old(socket.sent)
    ensures response.Success? ==> store.state == Sent(old(store.state), chatId, response.value, now)
    ensures response.Failure? ==> store.state == old(store.state)
  {
    socket.Emit(ClientSocket.Typing(chatId, false));
    outcome := store.SendMessage(chatId, response, now);
  }

  /** The composer's local state. */
  class Composer {
    var draft: string
    var isSending: bool
    var isUploading: bool

    constructor ()
      ensures draft == "" && !isSending && !isUploading
    {
      draft := "";
      isSending := false;
      isUploading := false;
    }

    /** `setMessage` */
    method Edit(text: string)
      modifies this
      ensures draft == text && isSending == old(isSending) && isUploading == old(isUploading)
    {
      draft := text;
    }

    /** `handleSendMessage` for the open chat `chatId`: a blank draft (one
        that trims to nothing) or a send in flight does nothing; otherwise
        typing stops, the trimmed draft is sent (`response` is the server's
        answer) and, on success, the draft is cleared. */
    method Send(chatId: ChatId, store: ChatStore.Store, socket: ClientSocket.SocketClient,
                response: Api<ClientMessage>, now: int)
      returns (sentContent: Option<string>, toast: Option<Toast>)
      modifies this, store, socket
      ensures Trim(old(draft)) == "" || old(isSending) ==>
                sentContent.None? && toast.None? && draft == old(draft) && isSending == old(isSending) &&
                store.state == old(store.state) && socket.sent == old(socket.sent)
      ensures !(Trim(old(draft)) == "" || old(isSending)) ==>
                sentContent == Some(Trim(old(draft))) && !isSending &&
                (old(socket.Connected()) ==> socket.sent == old(socket.sent) + [ClientSocket.Typing(chatId, false)]) &&
                (!old(socket.Connected()) ==> socket.sent == old(socket.sent)) &&
                (response.Success? ==> draft == "" && toast.None? && store.state == Sent(old(store.state), chatId, response.value, now)) &&
                (response.Failure? ==>
                   draft == old(draft) && toast == Some(ToastError("Failed to send message")) && store.state == old(store.state))
      ensures isUploading == old(isUploading)
    {
      var content := Trim(draft);
      if content == "" || isSending {
        return None, None;
      }
      isSending := true;
      sentContent := Some(content);
      var outcome := StopTypingAndSend(chatId, store, socket, response, now);
      if outcome.Done? {
        draft := "";
        toast := None;
      } else {
        toast := Some(ToastError("Failed to send message"));
      }
      isSending := false;
    }

    /** `handleFileUpload` for the open chat `chatId`: `uploaded` is the
        upload endpoint's answer and `response` the attachment message's. */
    method Upload(chatId: ChatId, store: ChatStore.Store, file: Option<UploadMiddleware.File>, kind: string,
                  uploaded: Api<Uploaded>, response: Api<ClientMessage>, now: int)
      returns (plan: UploadPlan, posted: Option<AttachmentRequest>, toast: Option<Toast>)
      modifies this, store
      ensures plan == PlanUpload(file, kind)
      ensures plan == NoFile ==> toast.None? && posted.None? && store.state == old(store.state)
      ensures plan == TooLarge ==>
                toast == Some(ToastError("File size must be less than 50MB")) && posted.None? &&
                store.state == old(store.state)
      ensures (plan == ViaImage || plan == ViaFile) && uploaded.Failure? ==>
                posted.None? && toast == Some(ToastError("Failed to upload file")) && store.state == old(store.state)
      ensures (plan == ViaImage || plan == ViaFile) && uploaded.Success? ==>
                posted == Some(AttachmentFor(uploaded.value, plan)) && toast == Some(ToastSuccess("File sent!")) &&
                (response.Success? ==> store.state == Sent(old(store.state), chatId, response.value, now)) &&
                (response.Failure? ==> store.state == old(store.state))
      ensures draft == old(draft) && isSending == old(isSending)
      ensures isUploading == if plan == NoFile || plan == TooLarge then old(isUploading) else false
    {
      plan := PlanUpload(file, kind);
      if plan == NoFile {
        return plan, None, None;
      }
      if plan == TooLarge {
        return plan, None, Some(ToastError("File size must be less than 50MB"));
      }
      isUploading := true;
      if uploaded.Failure? {
        posted := None;
        toast := Some(UploadToastAsWritten(uploaded, Failed("")));
      } else {
        var request := AttachmentFor(uploaded.value, plan);
        posted := Some(request);
        var outcome := store.SendMessage(chatId, response, now);
        toast := Some(UploadToastAsWritten(uploaded, outcome));
      }
      isUploading := false;
    }
  }
}
