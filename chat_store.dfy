/** The client chat store: the conversation list, the active conversation
    and, per conversation id, the usernames currently typing. Each action
    replaces fields of the store, so the store is an object whose methods
    assign its fields. Dates are integer timestamps; the current time is a
    parameter. */
module ChatStore {
  import opened Common

  datatype User = User(id: string, username: string, avatar: Option<string>, name: Option<string>)

  datatype Member = Member(user: User)

  /** A message preview; `createdAt` is None when the field is missing or
      empty. */
  datatype LastMessage = LastMessage(content: string, createdAt: Option<int>, senderId: Option<string>)

  /** `messages` is [] when the server sent none. */
  datatype Conversation = Conversation(
    id: string,
    isGroup: bool,
    name: Option<string>,
    members: seq<Member>,
    updatedAt: int,
    messages: seq<LastMessage>)

  predicate Listed(conversations: seq<Conversation>, id: string) {
    exists i :: 0 <= i < |conversations| && conversations[i].id == id
  }

  predicate DistinctIds(conversations: seq<Conversation>) {
    forall i, j :: 0 <= i < j < |conversations| ==> conversations[i].id != conversations[j].id
  }

  predicate NoDuplicates(names: seq<string>) {
    forall i, j :: 0 <= i < j < |names| ==> names[i] != names[j]
  }

  // ---------------------------------------------------------------------
  // setTyping

  /** The typing list of a conversation; a missing entry reads as []. */
  function TypingIn(typingUsers: map<string, seq<string>>, conversationId: string): seq<string> {
    if conversationId in typingUsers then typingUsers[conversationId] else []
  }

  /** The list `setTyping` stores: the name pushed when it is not there yet,
      or every occurrence of it filtered out. */
  function TypingAfter(current: seq<string>, username: string, isTyping: bool): seq<string> {
    if isTyping then
      if username in current then current else current + [username]
    else
      Filter(current, (u: string) => u != username)
  }

  /** Starting to type leaves the name in the list exactly once, keeps the
      list free of duplicates, and a repeated start changes nothing. */
  lemma TypingStartOnce(current: seq<string>, username: string)
    requires NoDuplicates(current)
    ensures multiset(TypingAfter(current, username, true))[username] == 1
    ensures NoDuplicates(TypingAfter(current, username, true))
    ensures TypingAfter(TypingAfter(current, username, true), username, true) == TypingAfter(current, username, true)
  {
    if username in current {
      var k :| 0 <= k < |current| && current[k] == username;
      assert current == current[..k] + [username] + current[k + 1..];
      assert username !in current[..k] && username !in current[k + 1..];
      assert multiset(current[..k])[username] == 0 && multiset(current[k + 1..])[username] == 0;
    } else {
      assert multiset(current)[username] == 0;
    }
  }

  /** Stopping removes every occurrence of the name and keeps the other
      names, each as often as before and in their order. */
  lemma TypingStopRemoves(current: seq<string>, username: string)
    ensures username !in TypingAfter(current, username, false)
    ensures IsSubsequence(TypingAfter(current, username, false), current)
    ensures forall v :: v != username ==> multiset(TypingAfter(current, username, false))[v] == multiset(current)[v]
    ensures NoDuplicates(current) ==> NoDuplicates(TypingAfter(current, username, false))
  {
    var keep := (u: string) => u != username;
    FilterIsSubsequence(current, keep);
    forall v | v != username ensures multiset(Filter(current, keep))[v] == multiset(current)[v] {
      FilterCount(current, keep, v);
    }
    if NoDuplicates(current) {
      FilterNoDuplicates(current, keep);
    }
  }

  lemma {:induction false} FilterNoDuplicates(s: seq<string>, keep: string -> bool)
    requires NoDuplicates(s)
    ensures NoDuplicates(Filter(s, keep))
  {
    if s != [] {
      FilterNoDuplicates(s[1..], keep);
      assert s[0] !in s[1..];
    }
  }

  /** A start followed by a stop leaves the list as it was when the name was
      not typing before; in particular an empty list stays empty. */
  lemma {:induction false} TypingStartThenStop(current: seq<string>, username: string)
    requires username !in current
    ensures TypingAfter(TypingAfter(current, username, true), username, false) == current
  {
    var keep := (u: string) => u != username;
    FilterAppendLast(current, username, keep);
    FilterKeepsAll(current, keep);
  }

  lemma {:induction false} FilterAppendLast(s: seq<string>, x: string, keep: string -> bool)
    requires !keep(x)
    ensures Filter(s + [x], keep) == Filter(s, keep)
  {
    if s != [] {
      assert (s + [x])[1..] == s[1..] + [x];
      FilterAppendLast(s[1..], x, keep);
    }
  }

  // ---------------------------------------------------------------------
  // updateConversationLastMessage

  /** The `map` step: the conversation with the id gets the message as its
      only preview and the current time as `updatedAt`. */
  function WithLastMessage(conversations: seq<Conversation>, id: string, message: LastMessage, now: int): (r: seq<Conversation>)
    ensures |r| == |conversations|
    ensures forall i :: 0 <= i < |r| ==> r[i].id == conversations[i].id
    ensures forall i :: 0 <= i < |r| && conversations[i].id == id ==>
      r[i] == conversations[i].(messages := [message], updatedAt := now)
    ensures forall i :: 0 <= i < |r| && conversations[i].id != id ==> r[i] == conversations[i]
  {
    seq(|conversations|, i requires 0 <= i < |conversations| =>
      if conversations[i].id == id then conversations[i].(messages := [message], updatedAt := now) else conversations[i])
  }

  /** Most recently updated first. */
  predicate ByRecency(s: seq<Conversation>) {
    forall i, j :: 0 <= i < j < |s| ==> s[i].updatedAt >= s[j].updatedAt
  }

  /** The in-place `sort` with comparator `b.updatedAt - a.updatedAt`, as a
      stable insertion sort: the result is ordered by recency and is a
      permutation of the input, and an input already in that order is left
      as it is, which is why the second identical sort changes nothing. */
  method SortByRecency(a: array<Conversation>)
    modifies a
    ensures ByRecency(a[..])
    ensures multiset(a[..]) == multiset(old(a[..]))
    ensures ByRecency(old(a[..])) ==> a[..] == old(a[..])
  {
    ghost var swapped := false;
    var i := 0;
    while i < a.Length
      invariant 0 <= i <= a.Length
      invariant ByRecency(a[..i])
      invariant multiset(a[..]) == multiset(old(a[..]))
      invariant !swapped ==> a[..] == old(a[..])
      invariant swapped ==> !ByRecency(old(a[..]))
    {
      var j := i;
      while j > 0 && a[j - 1].updatedAt < a[j].updatedAt
        invariant 0 <= j <= i
        invariant forall k, l :: 0 <= k < l <= i && k != j && l != j ==> a[k].updatedAt >= a[l].updatedAt
        invariant forall l :: j < l <= i ==> a[j].updatedAt >= a[l].updatedAt
        invariant multiset(a[..]) == multiset(old(a[..]))
        invariant !swapped ==> a[..] == old(a[..])
        invariant swapped ==> !ByRecency(old(a[..]))
      {
        if !swapped {
          assert old(a[..])[j - 1].updatedAt < old(a[..])[j].updatedAt;
          swapped := true;
        }
        SwapDown(a, j);
        j := j - 1;
      }
      i := i + 1;
    }
    assert a[..a.Length] == a[..];
  }

  /** Exchanges `a[j - 1]` and `a[j]`. */
  method SwapDown(a: array<Conversation>, j: int)
    requires 0 < j < a.Length
    modifies a
    ensures a[..] == old(a[..])[j - 1 := old(a[j])][j := old(a[j - 1])]
    ensures multiset(a[..]) == multiset(old(a[..]))
  {
    a[j - 1], a[j] := a[j], a[j - 1];
  }

  /** After the update and the sort, a conversation that just received a
      message newer than every listed update is at the top of the list,
      carrying that message. */
  lemma MessagedConversationFirst(s: seq<Conversation>, id: string, message: LastMessage, now: int, r: seq<Conversation>)
    requires Listed(s, id)
    requires forall c :: c in s ==> c.updatedAt < now
    requires ByRecency(r) && multiset(r) == multiset(WithLastMessage(s, id, message, now))
    ensures |r| == |s| && |r| > 0
    ensures r[0].id == id && r[0].messages == [message] && r[0].updatedAt == now
  {
    var w := WithLastMessage(s, id, message, now);
    assert |r| == |multiset(r)| == |multiset(w)| == |w|;
    var k :| 0 <= k < |s| && s[k].id == id;
    assert w[k] in multiset(r);
    var j :| 0 <= j < |r| && r[j] == w[k];
    assert r[0].updatedAt >= now;
    assert r[0] in multiset(w);
    var i :| 0 <= i < |w| && w[i] == r[0];
    assert s[i] in s;
  }

  // ---------------------------------------------------------------------
  // The store

  class ChatStore {
    var conversations: seq<Conversation>
    var activeConversationId: Option<string>
    var typingUsers: map<string, seq<string>>

    /** No username is listed twice as typing in one conversation. */
    predicate Valid()
      reads this
    {
      forall id :: id in typingUsers ==> NoDuplicates(typingUsers[id])
    }

    constructor ()
      ensures Valid()
      ensures conversations == [] && activeConversationId == None && typingUsers == map[]
    {
      conversations, activeConversationId, typingUsers := [], None, map[];
    }

    /** `startConversation` after the request has answered: `response` is
        the conversation returned, or None when there was no signed-in user
        or the request failed. */
    method StartConversation(response: Option<Conversation>)
      requires Valid()
      modifies this
      ensures Valid() && typingUsers == old(typingUsers)
      ensures response.None? ==> conversations == old(conversations) && activeConversationId == old(activeConversationId)
      ensures response.Some? ==> activeConversationId == Some(response.value.id)
      ensures response.Some? && Listed(old(conversations), response.value.id) ==> conversations == old(conversations)
      ensures response.Some? && !Listed(old(conversations), response.value.id) ==>
        conversations == [response.value] + old(conversations)
      ensures DistinctIds(old(conversations)) ==> DistinctIds(conversations)
    {
      if response.None? {
        return;
      }
      var newConv := response.value;
      var existing := FindFirst(conversations, (c: Conversation) => c.id == newConv.id);
      if existing.Some? {
        activeConversationId := Some(newConv.id);
        return;
      }
      assert !Listed(conversations, newConv.id) by {
        forall i | 0 <= i < |conversations| ensures conversations[i].id != newConv.id {
          assert conversations[i] in conversations;
        }
      }
      conversations := [newConv] + conversations;
      activeConversationId := Some(newConv.id);
    }

    method SetActiveConversation(id: string)
      requires Valid()
      modifies this
      ensures Valid()
      ensures activeConversationId == Some(id)
      ensures conversations == old(conversations) && typingUsers == old(typingUsers)
    {
      activeConversationId := Some(id);
    }

    method UpdateConversationLastMessage(conversationId: string, message: LastMessage, now: int)
      requires Valid()
      modifies this
      ensures Valid()
      ensures ByRecency(conversations)
      ensures multiset(conversations) == multiset(WithLastMessage(old(conversations), conversationId, message, now))
      ensures activeConversationId == old(activeConversationId) && typingUsers == old(typingUsers)
    {
      var updated := WithLastMessage(conversations, conversationId, message, now);
      var a := new Conversation[|updated|](i requires 0 <= i < |updated| => updated[i]);
      assert a[..] == updated;
      SortByRecency(a);
      ghost var once := a[..];
      SortByRecency(a);
      assert a[..] == once;
      conversations := a[..];
    }

    method SetTyping(conversationId: string, username: string, isTyping: bool)
      requires Valid()
      modifies this
      ensures Valid()
      ensures typingUsers == old(typingUsers)[conversationId := TypingAfter(TypingIn(old(typingUsers), conversationId), username, isTyping)]
      ensures forall id :: id != conversationId ==>
        (id in typingUsers <==> id in old(typingUsers)) && (id in typingUsers ==> typingUsers[id] == old(typingUsers)[id])
      ensures isTyping ==> multiset(typingUsers[conversationId])[username] == 1
      ensures !isTyping ==> username !in typingUsers[conversationId]
      ensures conversations == old(conversations) && activeConversationId == old(activeConversationId)
    {
      var currentTyping := TypingIn(typingUsers, conversationId);
      var newTyping := currentTyping;
      if isTyping {
        if username !in newTyping {
          newTyping := newTyping + [username];
        }
        TypingStartOnce(currentTyping, username);
      } else {
        newTyping := Filter(newTyping, (u: string) => u != username);
        TypingStopRemoves(currentTyping, username);
      }
      typingUsers := typingUsers[conversationId := newTyping];
    }
  }
}
