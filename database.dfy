/** The HTTP replies of the Express controllers. */
module Http {
  /** `res.status(s).json({ success: true, message, data })` or `{ success: false, message }`. */
  datatype Reply<T> = Ok(status: nat, message: string, data: T) | Err(status: nat, message: string)
}

/** The Mongo collections the controllers read and write, as one abstract store:
    chats by id, messages in creation order, users in natural order. */
module Database {
  import opened Common
  import opened ChatModel
  import opened MessageModel
  import opened UserModel

  /** Message ids are unique and creation times never decrease along the collection. */
  predicate MessagesWellFormed(ms: seq<MessageRecord>) {
    (forall i, j :: 0 <= i < j < |ms| ==> ms[i].id != ms[j].id && ms[i].createdAt <= ms[j].createdAt) &&
    (forall i :: 0 <= i < |ms| ==> MessageModel.SaveOk(ms[i]))
  }

  /** Every stored chat sits under its own id and passed the Chat save rules. */
  predicate ChatsWellFormed(chats: map<ChatId, ChatRecord>) {
    forall id :: id in chats ==> chats[id].id == id && ChatModel.SaveOk(chats[id])
  }

  predicate UsersWellFormed(users: seq<UserRecord>) {
    forall i, j :: 0 <= i < j < |users| ==> users[i].id != users[j].id
  }

  /** `Model.findById` over the users collection. */
  function FindUser(users: seq<UserRecord>, id: UserId): (r: Option<nat>)
    ensures r.Some? ==> r.value < |users| && users[r.value].id == id
    ensures r.None? ==> forall i :: 0 <= i < |users| ==> users[i].id != id
  {
    if users == [] then None
    else if users[0].id == id then Some(0)
    else
      var r := FindUser(users[1..], id);
      if r.Some? then Some(r.value + 1) else None
  }

  /** The position of the message with id `id`, if any. */
  function FindMessage(ms: seq<MessageRecord>, id: MessageId): (r: Option<nat>)
    ensures r.Some? ==> r.value < |ms| && ms[r.value].id == id
    ensures r.None? ==> forall i :: 0 <= i < |ms| ==> ms[i].id != id
  {
    if ms == [] then None
    else if ms[0].id == id then Some(0)
    else
      var r := FindMessage(ms[1..], id);
      if r.Some? then Some(r.value + 1) else None
  }

  /** No stored message was created after `now`. */
  predicate NotAfter(ms: seq<MessageRecord>, now: int) {
    forall i :: 0 <= i < |ms| ==> ms[i].createdAt <= now
  }

  /** Appending a valid message with a new id and a current timestamp keeps the collection well formed. */
  lemma AppendKeepsWellFormed(ms: seq<MessageRecord>, m: MessageRecord)
    requires MessagesWellFormed(ms) && NotAfter(ms, m.createdAt) && MessageModel.SaveOk(m)
    requires forall i :: 0 <= i < |ms| ==> ms[i].id != m.id
    ensures MessagesWellFormed(ms + [m])
  {
    var r := ms + [m];
    forall i, j | 0 <= i < j < |r| ensures r[i].id != r[j].id && r[i].createdAt <= r[j].createdAt {
      if j == |ms| {
        assert r[i] == ms[i] && r[j] == m;
      } else {
        assert r[i] == ms[i] && r[j] == ms[j];
      }
    }
  }

  class Db {
    var chats: map<ChatId, ChatRecord>
    var messages: seq<MessageRecord>
    var users: seq<UserRecord>

    ghost predicate Valid()
      reads this
    {
      ChatsWellFormed(chats) && MessagesWellFormed(messages) && UsersWellFormed(users)
    }

    constructor ()
      ensures Valid() && chats == map[] && messages == [] && users == []
    {
      chats := map[];
      messages := [];
      users := [];
    }
  }
}
