/** client/src/components/chat/Sidebar.jsx: the conversation search, the
    new-chat and new-group dialogs and the member picker. */
module Sidebar {
  import opened Common
  import opened ClientTypes
  import ChatStore

  /** `s?.toLowerCase().includes(q)`, false for a missing `s`. */
  predicate FieldMatches(s: Option<string>, lowerQuery: string) {
    s.Some? && Contains(ToLower(s.value), lowerQuery)
  }

  /** The `filter` callback: a group by its name, a direct chat by the other
      participant's displayName or username, case-insensitively. */
  predicate ChatMatches(chat: ClientChat, me: Option<UserId>, query: string) {
    var q := ToLower(query);
    if chat.isGroupChat then FieldMatches(chat.name, q)
    else
      var other := OtherUser(chat.participants, me);
      other.Some? && (FieldMatches(other.value.displayName, q) || FieldMatches(other.value.username, q))
  }

  /** `filteredChats` */
  function FilteredChats(chats: seq<ClientChat>, me: Option<UserId>, query: string): (r: seq<ClientChat>)
    ensures forall c :: c in r <==> c in chats && ChatMatches(c, me, query)
    ensures IsSubseq(r, chats)
  {
    Filter(chats, (c: ClientChat) => ChatMatches(c, me, query))
  }

  /** Searching is case-insensitive in the query. */
  lemma QueryCaseIgnored(chat: ClientChat, me: Option<UserId>, query: string)
    ensures ChatMatches(chat, me, query) <==> ChatMatches(chat, me, ToLower(query))
  {
    LowerIdempotent(query);
  }

  lemma LowerIdempotent(s: string)
    ensures ToLower(ToLower(s)) == ToLower(s)
  {
  }

  /** With an empty search box every chat is shown except a group without a
      name and a direct chat whose other participant has neither a
      displayName nor a username. */
  lemma EmptyQueryShows(chat: ClientChat, me: Option<UserId>)
    ensures ChatMatches(chat, me, "") <==>
              if chat.isGroupChat then chat.name.Some?
              else
                var other := OtherUser(chat.participants, me);
                other.Some? && (other.value.displayName.Some? || other.value.username.Some?)
  {
    assert ToLower("") == "";
    if chat.name.Some? {
      ContainsEmpty(ToLower(chat.name.value));
    }
    var other := OtherUser(chat.participants, me);
    if other.Some? {
      if other.value.displayName.Some? {
        ContainsEmpty(ToLower(other.value.displayName.value));
      }
      if other.value.username.Some? {
        ContainsEmpty(ToLower(other.value.username.value));
      }
    }
  }

  /** `toggleUserSelection` */
  function ToggleSelection(selected: seq<UserId>, id: UserId): (r: seq<UserId>)
    ensures id in selected ==> id !in r && forall u :: u != id ==> (u in r <==> u in selected)
    ensures id !in selected ==> r == selected + [id]
    ensures NoDups(selected) ==> NoDups(r)
  {
    if id in selected then
      var r := RemoveAll(selected, id);
      if NoDups(selected) then SubseqNoDups(r, selected); r else r
    else selected + [id]
  }

  /** Picking and unpicking a user restores the selection. */
  lemma ToggleTwice(selected: seq<UserId>, id: UserId)
    requires id !in selected
    ensures ToggleSelection(ToggleSelection(selected, id), id) == selected
  {
    RemoveAllSnoc(selected, id);
    RemoveAbsent(selected, id);
  }

  /** The dialogs' local state. */
  class Dialogs {
    var groupName: string
    var selectedUsers: seq<UserId>
    var isCreating: bool
    var isNewChatOpen: bool
    var isGroupOpen: bool

    constructor ()
      ensures groupName == "" && selectedUsers == [] && !isCreating && !isNewChatOpen && !isGroupOpen
    {
      groupName := "";
      selectedUsers := [];
      isCreating := false;
      isNewChatOpen := false;
      isGroupOpen := false;
    }

    method Toggle(id: UserId)
      modifies this
      ensures selectedUsers == ToggleSelection(old(selectedUsers), id)
      ensures groupName == old(groupName) && isCreating == old(isCreating)
      ensures isNewChatOpen == old(isNewChatOpen) && isGroupOpen == old(isGroupOpen)
    {
      selectedUsers := ToggleSelection(selectedUsers, id);
    }

    /** `handleStartChat`: on success the dialog closes and the chat opens. */
    method StartChat(store: ChatStore.Store, response: Api<ClientChat>)
      returns (navigateTo: Option<ChatId>, toast: Option<string>)
      modifies this, store
      ensures response.Success? ==>
                navigateTo == Some(response.value.id) && toast.None? && !isNewChatOpen &&
                store.state == ChatStore.OpenCreatedChat(old(store.state), response.value)
      ensures response.Failure? ==>
                navigateTo.None? && toast == Some(ErrorMessage(response.message, "Failed to create chat")) &&
                isNewChatOpen == old(isNewChatOpen) && store.state == old(store.state)
      ensures !isCreating && groupName == old(groupName) && selectedUsers == old(selectedUsers)
      ensures isGroupOpen == old(isGroupOpen)
    {
      isCreating := true;
      var outcome := store.CreateDirectChat(response);
      if outcome.Done? {
        isNewChatOpen := false;
        navigateTo := Some(outcome.value.id);
        toast := None;
      } else {
        navigateTo := None;
        toast := Some(outcome.message);
      }
      isCreating := false;
    }

    /** `handleCreateGroup`: a blank name, then fewer than two members, are
        refused before any request; the request sends the name as typed. On
        success the form is reset and the group opens. */
    method CreateGroup(store: ChatStore.Store, response: Api<ClientChat>)
      returns (request: Option<(string, seq<UserId>)>, navigateTo: Option<ChatId>, toast: Option<string>)
      modifies this, store
      ensures Trim(old(groupName)) == "" ==>
                request.None? && navigateTo.None? && toast == Some("Please enter a group name") &&
                store.state == old(store.state) && groupName == old(groupName) &&
                selectedUsers == old(selectedUsers) && isCreating == old(isCreating)
      ensures Trim(old(groupName)) != "" && |old(selectedUsers)| < 2 ==>
                request.None? && navigateTo.None? && toast == Some("Please select at least 2 members") &&
                store.state == old(store.state) && groupName == old(groupName) &&
                selectedUsers == old(selectedUsers) && isCreating == old(isCreating)
      ensures Trim(old(groupName)) != "" && |old(selectedUsers)| >= 2 ==>
                request == Some((old(groupName), old(selectedUsers))) && !isCreating
      ensures Trim(old(groupName)) != "" && |old(selectedUsers)| >= 2 && response.Success? ==>
                navigateTo == Some(response.value.id) && toast.None? &&
                groupName == "" && selectedUsers == [] && !isGroupOpen &&
                store.state == ChatStore.CreateGroupChatAsWritten(old(store.state), response.value)
      ensures Trim(old(groupName)) != "" && |old(selectedUsers)| >= 2 && response.Failure? ==>
                navigateTo.None? && toast == Some(ErrorMessage(response.message, "Failed to create group")) &&
                groupName == old(groupName) && selectedUsers == old(selectedUsers) && store.state == old(store.state)
      ensures isNewChatOpen == old(isNewChatOpen)
    {
      var trimmed := Trim(groupName);
      if trimmed == "" {
        return None, None, Some("Please enter a group name");
      }
      if |selectedUsers| < 2 {
        return None, None, Some("Please select at least 2 members");
      }
      isCreating := true;
      request := Some((groupName, selectedUsers));
      var outcome := store.CreateGroupChat(response);
      if outcome.Done? {
        isGroupOpen := false;
        groupName := "";
        selectedUsers := [];
        navigateTo := Some(outcome.value.id);
        toast := None;
      } else {
        navigateTo := None;
        toast := Some(outcome.message);
      }
      isCreating := false;
    }
  }
}
