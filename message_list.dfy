/** client/src/components/chat/MessageList.jsx: the messages of the open
    chat, grouped under date separators, with one avatar per run of messages
    from the same sender. */
module MessageList {
  import opened Common
  import opened ClientTypes

  /** The date labels in order of first appearance: the key order of the
      object `groupMessagesByDate` builds. */
  function DateKeys(ms: seq<ClientMessage>, dateKey: ClientMessage -> string): seq<string>
    decreases |ms|
  {
    if ms == [] then []
    else
      var ks := DateKeys(ms[..|ms| - 1], dateKey);
      var d := dateKey(ms[|ms| - 1]);
      if d in ks then ks else ks + [d]
  }

  /** No date label appears twice. */
  lemma {:induction false} DateKeysNoDups(ms: seq<ClientMessage>, dateKey: ClientMessage -> string)
    ensures NoDups(DateKeys(ms, dateKey))
    decreases |ms|
  {
    if ms != [] {
      DateKeysNoDups(ms[..|ms| - 1], dateKey);
    }
  }

  /** A date is listed exactly when some message carries it. */
  lemma {:induction false} DateKeysMembers(ms: seq<ClientMessage>, dateKey: ClientMessage -> string, d: string)
    ensures d in DateKeys(ms, dateKey) <==> exists i :: 0 <= i < |ms| && dateKey(ms[i]) == d
    decreases |ms|
  {
    if ms != [] {
      var init := ms[..|ms| - 1];
      DateKeysMembers(init, dateKey, d);
      if exists i :: 0 <= i < |ms| && dateKey(ms[i]) == d {
        var i :| 0 <= i < |ms| && dateKey(ms[i]) == d;
        if i < |init| {
          assert init[i] == ms[i];
        }
      }
      if exists i :: 0 <= i < |init| && dateKey(init[i]) == d {
        var i :| 0 <= i < |init| && dateKey(init[i]) == d;
        assert init[i] == ms[i];
      }
    }
  }

  /** The messages dated `d`, in their order in the list. */
  function GroupOf(ms: seq<ClientMessage>, dateKey: ClientMessage -> string, d: string): (g: seq<ClientMessage>)
    ensures |g| <= |ms|
    decreases |ms|
  {
    if ms == [] then []
    else
      var last := ms[|ms| - 1];
      GroupOf(ms[..|ms| - 1], dateKey, d) + if dateKey(last) == d then [last] else []
  }

  /** Every message sits in the group of its own date and in no other. */
  lemma {:induction false} GroupOfMembers(ms: seq<ClientMessage>, dateKey: ClientMessage -> string, d: string, m: ClientMessage)
    ensures m in GroupOf(ms, dateKey, d) <==> m in ms && dateKey(m) == d
    decreases |ms|
  {
    if ms != [] {
      var init := ms[..|ms| - 1];
      GroupOfMembers(init, dateKey, d, m);
      assert ms == init + [ms[|ms| - 1]];
    }
  }

  /** One more message adds its date at the end if the date is new. */
  lemma DateKeysSnoc(ms: seq<ClientMessage>, m: ClientMessage, dateKey: ClientMessage -> string)
    ensures DateKeys(ms + [m], dateKey) ==
              if dateKey(m) in DateKeys(ms, dateKey) then DateKeys(ms, dateKey) else DateKeys(ms, dateKey) + [dateKey(m)]
  {
    assert (ms + [m])[..|ms + [m]| - 1] == ms;
  }

  /** One more message joins the end of its own date's group only. */
  lemma GroupOfSnoc(ms: seq<ClientMessage>, m: ClientMessage, dateKey: ClientMessage -> string, d: string)
    ensures GroupOf(ms + [m], dateKey, d) == GroupOf(ms, dateKey, d) + if dateKey(m) == d then [m] else []
  {
    assert (ms + [m])[..|ms + [m]| - 1] == ms;
  }

  /** A date without messages has an empty group. */
  lemma {:induction false} GroupOfAbsent(ms: seq<ClientMessage>, dateKey: ClientMessage -> string, d: string)
    requires d !in DateKeys(ms, dateKey)
    ensures GroupOf(ms, dateKey, d) == []
    decreases |ms|
  {
    if ms != [] {
      GroupOfAbsent(ms[..|ms| - 1], dateKey, d);
    }
  }

  /** The groups built so far are those of `ms`. */
  ghost predicate GroupsOf(groups: map<string, seq<ClientMessage>>, keys: seq<string>, ms: seq<ClientMessage>,
                     dateKey: ClientMessage -> string) {
    keys == DateKeys(ms, dateKey) &&
    (forall d :: d in groups <==> d in keys) &&
    forall d :: d in groups ==> groups[d] == GroupOf(ms, dateKey, d)
  }

  /** One step of the `forEach`: open the group if needed, then push. */
  lemma GroupsStep(groups: map<string, seq<ClientMessage>>, keys: seq<string>, ms: seq<ClientMessage>,
                   m: ClientMessage, dateKey: ClientMessage -> string)
    requires GroupsOf(groups, keys, ms, dateKey)
    ensures var d := dateKey(m);
            var withD := if d in groups then groups else groups[d := []];
            GroupsOf(withD[d := withD[d] + [m]], if d in groups then keys else keys + [d], ms + [m], dateKey)
  {
    var d := dateKey(m);
    var withD := if d in groups then groups else groups[d := []];
    var next := withD[d := withD[d] + [m]];
    var keys' := if d in groups then keys else keys + [d];
    DateKeysSnoc(ms, m, dateKey);
    assert keys' == DateKeys(ms + [m], dateKey);
    if d !in groups {
      GroupOfAbsent(ms, dateKey, d);
    }
    assert withD[d] == GroupOf(ms, dateKey, d);
    forall e | e in next ensures next[e] == GroupOf(ms + [m], dateKey, e) {
      GroupOfSnoc(ms, m, dateKey, e);
    }
  }

  /** `groupMessagesByDate`: a `forEach` that opens a group at a date's first
      message and pushes every message onto the group of its date. */
  method GroupMessagesByDate(messages: seq<ClientMessage>, dateKey: ClientMessage -> string)
    returns (keys: seq<string>, groups: map<string, seq<ClientMessage>>)
    ensures keys == DateKeys(messages, dateKey)
    ensures forall d :: d in groups <==> d in keys
    ensures forall d :: d in groups ==> groups[d] == GroupOf(messages, dateKey, d)
  {
    keys := [];
    groups := map[];
    for i := 0 to |messages|
      invariant GroupsOf(groups, keys, messages[..i], dateKey)
    {
      var m := messages[i];
      var d := dateKey(m);
      GroupsStep(groups, keys, messages[..i], m, dateKey);
      assert messages[..i + 1] == messages[..i] + [m];
      var withD := if d in groups then groups else groups[d := []];
      keys := if d in groups then keys else keys + [d];
      groups := withD[d := withD[d] + [m]];
    }
    assert messages[..|messages|] == messages;
  }

  /** The messages in the order they are rendered: group after group. */
  function Rendered(ks: seq<string>, ms: seq<ClientMessage>, dateKey: ClientMessage -> string): seq<ClientMessage> {
    if ks == [] then [] else GroupOf(ms, dateKey, ks[0]) + Rendered(ks[1..], ms, dateKey)
  }

  /** Messages of one date are never separated by a message of another date
      (as when the list is in time order and the date is a function of time). */
  predicate DatesContiguous(ms: seq<ClientMessage>, dateKey: ClientMessage -> string) {
    forall i, j, k :: 0 <= i < j < k < |ms| && dateKey(ms[i]) == dateKey(ms[k]) ==> dateKey(ms[j]) == dateKey(ms[i])
  }

  /** Appending a message of a date not among `ks` does not change the groups
      of `ks`. */
  lemma {:induction false} RenderedAppendOther(ks: seq<string>, ms: seq<ClientMessage>, m: ClientMessage,
                                               dateKey: ClientMessage -> string)
    requires dateKey(m) !in ks
    ensures Rendered(ks, ms + [m], dateKey) == Rendered(ks, ms, dateKey)
  {
    if ks != [] {
      GroupOfSnoc(ms, m, dateKey, ks[0]);
      RenderedAppendOther(ks[1..], ms, m, dateKey);
    }
  }

  /** Appending a message of the last date adds it at the end of the rendering. */
  lemma {:induction false} RenderedAppendLast(ks: seq<string>, ms: seq<ClientMessage>, m: ClientMessage,
                                              dateKey: ClientMessage -> string)
    requires ks != [] && dateKey(m) == ks[|ks| - 1] && dateKey(m) !in ks[..|ks| - 1]
    ensures Rendered(ks, ms + [m], dateKey) == Rendered(ks, ms, dateKey) + [m]
  {
    var g := GroupOf(ms, dateKey, ks[0]);
    var restNew := Rendered(ks[1..], ms + [m], dateKey);
    var restOld := Rendered(ks[1..], ms, dateKey);
    assert Rendered(ks, ms + [m], dateKey) == GroupOf(ms + [m], dateKey, ks[0]) + restNew;
    assert Rendered(ks, ms, dateKey) == g + restOld;
    GroupOfSnoc(ms, m, dateKey, ks[0]);
    if |ks| == 1 {
      assert restNew == [] && restOld == [];
      assert GroupOf(ms + [m], dateKey, ks[0]) == g + [m];
    } else {
      assert ks[0] == ks[..|ks| - 1][0];
      assert GroupOf(ms + [m], dateKey, ks[0]) == g;
      assert ks[1..][..|ks[1..]| - 1] == ks[1..|ks| - 1];
      RenderedAppendLast(ks[1..], ms, m, dateKey);
      assert restNew == restOld + [m];
      assert g + (restOld + [m]) == (g + restOld) + [m];
    }
  }

  lemma ContiguousInit(ms: seq<ClientMessage>, dateKey: ClientMessage -> string)
    requires ms != [] && DatesContiguous(ms, dateKey)
    ensures DatesContiguous(ms[..|ms| - 1], dateKey)
  {
    var init := ms[..|ms| - 1];
    forall a, b, c | 0 <= a < b < c < |init| && dateKey(init[a]) == dateKey(init[c])
      ensures dateKey(init[b]) == dateKey(init[a])
    {
      assert init[a] == ms[a] && init[b] == ms[b] && init[c] == ms[c];
    }
  }

  /** The last date label is the date of the last message. */
  lemma {:induction false} LastKeyIsLastDate(ms: seq<ClientMessage>, dateKey: ClientMessage -> string)
    requires ms != [] && DatesContiguous(ms, dateKey)
    ensures DateKeys(ms, dateKey) != [] && DateKeys(ms, dateKey)[|DateKeys(ms, dateKey)| - 1] == dateKey(ms[|ms| - 1])
    decreases |ms|
  {
    var init := ms[..|ms| - 1];
    var d := dateKey(ms[|ms| - 1]);
    var ks := DateKeys(init, dateKey);
    if d in ks {
      DateKeysMembers(init, dateKey, d);
      var i :| 0 <= i < |init| && dateKey(init[i]) == d;
      assert |init| > 0;
      ContiguousInit(ms, dateKey);
      LastKeyIsLastDate(init, dateKey);
      if i < |init| - 1 {
        assert init[i] == ms[i] && init[|init| - 1] == ms[|ms| - 2];
        assert dateKey(ms[|ms| - 2]) == dateKey(ms[i]);
      }
    }
  }

  /** For a list whose dates are contiguous, the grouped rendering shows
      every message once, in list order. */
  lemma {:induction false} GroupingPreservesOrder(ms: seq<ClientMessage>, dateKey: ClientMessage -> string)
    requires DatesContiguous(ms, dateKey)
    ensures Rendered(DateKeys(ms, dateKey), ms, dateKey) == ms
    decreases |ms|
  {
    if ms != [] {
      var init := ms[..|ms| - 1];
      var m := ms[|ms| - 1];
      assert ms == init + [m];
      ContiguousInit(ms, dateKey);
      GroupingPreservesOrder(init, dateKey);
      var ks := DateKeys(init, dateKey);
      if dateKey(m) in ks {
        DateKeysMembers(init, dateKey, dateKey(m));
        var i :| 0 <= i < |init| && dateKey(init[i]) == dateKey(m);
        LastKeyIsLastDate(init, dateKey);
        DateKeysNoDups(init, dateKey);
        assert dateKey(m) !in ks[..|ks| - 1] by {
          forall j | 0 <= j < |ks| - 1 ensures ks[j] != ks[|ks| - 1] { }
        }
        if i < |init| - 1 {
          assert init[i] == ms[i] && init[|init| - 1] == ms[|ms| - 2];
        }
        RenderedAppendLast(ks, init, m, dateKey);
      } else {
        RenderedAppendOther(ks, init, m, dateKey);
        RenderedNewLast(ks, init, m, dateKey);
      }
    }
  }

  /** A message with a new date is rendered last, alone in its group. */
  lemma RenderedNewLast(ks: seq<string>, ms: seq<ClientMessage>, m: ClientMessage, dateKey: ClientMessage -> string)
    requires ks == DateKeys(ms, dateKey) && dateKey(m) !in ks
    requires Rendered(ks, ms + [m], dateKey) == Rendered(ks, ms, dateKey)
    ensures Rendered(ks + [dateKey(m)], ms + [m], dateKey) == Rendered(ks, ms, dateKey) + [m]
  {
    RenderedSnoc(ks, dateKey(m), ms + [m], dateKey);
    GroupOfSnoc(ms, m, dateKey, dateKey(m));
    GroupOfAbsent(ms, dateKey, dateKey(m));
  }

  lemma {:induction false} RenderedSnoc(ks: seq<string>, d: string, ms: seq<ClientMessage>, dateKey: ClientMessage -> string)
    ensures Rendered(ks + [d], ms, dateKey) == Rendered(ks, ms, dateKey) + GroupOf(ms, dateKey, d)
  {
    if ks == [] {
      assert Rendered([d], ms, dateKey) == GroupOf(ms, dateKey, d) + Rendered([], ms, dateKey);
    } else {
      assert (ks + [d])[1..] == ks[1..] + [d];
      RenderedSnoc(ks[1..], d, ms, dateKey);
    }
  }

  /** `showAvatar`: the first message of a group, a message whose sender
      differs from the previous one's, and every system message. */
  function ShowAvatar(group: seq<ClientMessage>, index: nat): (show: bool)
    requires index < |group|
    ensures index == 0 || group[index].messageType == "system" ==> show
    ensures !show ==> SenderId(group[index - 1]) == SenderId(group[index])
  {
    index == 0 || SenderId(group[index - 1]) != SenderId(group[index]) || group[index].messageType == "system"
  }

  /** In a run of ordinary messages from one sender only the first carries
      an avatar; each group starts with one. */
  lemma AvatarOncePerRun(group: seq<ClientMessage>, start: nat, end: nat)
    requires start < end <= |group|
    requires forall i :: start <= i < end ==> SenderId(group[i]) == SenderId(group[start]) && group[i].messageType != "system"
    ensures forall i :: start < i < end ==> !ShowAvatar(group, i)
    ensures start == 0 ==> ShowAvatar(group, 0)
  {
  }

  /** The mark-as-read effect: an open chat with at least one message. */
  predicate ShouldMarkRead(activeChat: Option<ClientChat>, messages: seq<ClientMessage>): (mark: bool)
    ensures activeChat.None? || messages == [] ==> !mark
    ensures activeChat.Some? && activeChat.value.id != "" && messages != [] ==> mark
  {
    activeChat.Some? && activeChat.value.id != "" && |messages| > 0
  }

  datatype View =
    | Loading
    | NoMessagesYet
    | Groups(keys: seq<string>, groups: map<string, seq<ClientMessage>>)

  /** What the component renders: the spinner while loading, even over a
      non-empty list; the empty state; the groups. */
  method Render(messages: seq<ClientMessage>, isLoadingMessages: bool, dateKey: ClientMessage -> string)
    returns (view: View)
    ensures isLoadingMessages ==> view == Loading
    ensures !isLoadingMessages && messages == [] ==> view == NoMessagesYet
    ensures !isLoadingMessages && messages != [] ==>
              view.Groups? && view.keys == DateKeys(messages, dateKey) &&
              forall d :: d in view.groups ==> view.groups[d] == GroupOf(messages, dateKey, d)
  {
    var keys, groups := GroupMessagesByDate(messages, dateKey);
    if isLoadingMessages {
      return Loading;
    }
    if |messages| == 0 {
      return NoMessagesYet;
    }
    view := Groups(keys, groups);
  }
}
