/** The conversation handlers: `getMyConversations`, a query that filters
    conversations by membership, orders them by last update (most recent
    first) and attaches the members' public profiles and the latest
    message; and `createOrGetConversation`, which finds the direct
    conversation of two users or creates it. The caller's id comes from the
    `x-user-id` header, absent or "" meaning no caller. */
module ConversationController {
  import opened Common
  import opened Store

  datatype MemberView = MemberView(userId: string, conversationId: string, user: PublicUser)

  datatype ConversationView = ConversationView(conversation: ConversationRow, members: seq<MemberView>, messages: seq<MessageRow>)

  // ---------------------------------------------------------------------
  // getMyConversations

  /** The message with the greatest `createdAt` (the first such one). */
  function Latest(ms: seq<MessageRow>): (r: Option<MessageRow>)
    ensures r.None? <==> ms == []
    ensures r.Some? ==> r.value in ms && forall m :: m in ms ==> m.createdAt <= r.value.createdAt
  {
    if ms == [] then None
    else match Latest(ms[1..])
      case None => Some(ms[0])
      case Some(l) => if ms[0].createdAt >= l.createdAt then Some(ms[0]) else Some(l)
  }

  /** The membership rows of a conversation, in table order. */
  function Memberships(conversationId: string, members: seq<MemberRow>): (r: seq<MemberRow>)
    ensures forall m :: m in r <==> m in members && m.conversationId == conversationId
  {
    Filter(members, (m: MemberRow) => m.conversationId == conversationId)
  }

  /** The memberships of a conversation with each member's user selected
      down to id, username, avatar and name: one entry per membership, in
      table order. */
  function MembersOf(conversationId: string, users: seq<UserRow>, members: seq<MemberRow>): (r: seq<MemberView>)
    requires forall m :: m in members ==> HasUser(users, m.userId)
    ensures |r| == |Memberships(conversationId, members)|
    ensures forall i :: 0 <= i < |r| ==> r[i].userId == Memberships(conversationId, members)[i].userId
    ensures forall m :: m in members && m.conversationId == conversationId ==> exists v :: v in r && v.userId == m.userId
    ensures forall v :: v in r ==> HasMember(members, conversationId, v.userId) && v.conversationId == conversationId
    ensures forall v :: v in r ==> exists u :: u in users && u.id == v.userId && v.user == Public(u)
  {
    var own := Memberships(conversationId, members);
    assert forall i :: 0 <= i < |own| ==> own[i] in members && own[i] == MemberRow(own[i].userId, conversationId) by {
      forall i | 0 <= i < |own| ensures own[i] in members && own[i] == MemberRow(own[i].userId, conversationId) {
        assert own[i] in own;
      }
    }
    var r := seq(|own|, i requires 0 <= i < |own| =>
      MemberView(own[i].userId, conversationId, Public(UserWithId(users, own[i].userId))));
    assert forall m :: m in members && m.conversationId == conversationId ==> exists v :: v in r && v.userId == m.userId by {
      forall m | m in members && m.conversationId == conversationId ensures exists v :: v in r && v.userId == m.userId {
        var k :| 0 <= k < |own| && own[k] == m;
        assert r[k] in r && r[k].userId == m.userId;
      }
    }
    r
  }

  function ViewOf(c: ConversationRow, users: seq<UserRow>, members: seq<MemberRow>, messages: seq<MessageRow>): (v: ConversationView)
    requires forall m :: m in members ==> HasUser(users, m.userId)
    ensures v.conversation == c && v.members == MembersOf(c.id, users, members)
    ensures |v.messages| <= 1
    ensures v.messages == [] <==> forall m :: m in messages ==> m.conversationId != c.id
    ensures forall m :: m in v.messages ==>
      && m in messages && m.conversationId == c.id
      && forall m' :: m' in messages && m'.conversationId == c.id ==> m'.createdAt <= m.createdAt
  {
    var latest := Latest(Filter(messages, (m: MessageRow) => m.conversationId == c.id));
    ConversationView(c, MembersOf(c.id, users, members), if latest.Some? then [latest.value] else [])
  }

  function Rows(vs: seq<ConversationView>): (r: seq<ConversationRow>)
    ensures |r| == |vs| && forall i :: 0 <= i < |vs| ==> r[i] == vs[i].conversation
  {
    seq(|vs|, i requires 0 <= i < |vs| => vs[i].conversation)
  }

  function GetMyConversations(
    userId: Option<string>, storeFails: bool,
    users: seq<UserRow>, conversations: seq<ConversationRow>, members: seq<MemberRow>, messages: seq<MessageRow>)
    : (r: Response<seq<ConversationView>>)
    requires forall m :: m in members ==> HasUser(users, m.userId)
    ensures !Truthy(userId) ==> r == Failure(401, "Unauthorized")
    ensures Truthy(userId) && storeFails ==> r == Failure(500, "Failed to fetch conversations")
    ensures Truthy(userId) && !storeFails ==> r.Ok?
    ensures r.Ok? ==>
      && (forall c :: c in Rows(r.body) <==> c in conversations && HasMember(members, c.id, userId.value))
      && multiset(Rows(r.body)) == multiset(Filter(conversations, (c: ConversationRow) => HasMember(members, c.id, userId.value)))
      && (forall i, j :: 0 <= i < j < |r.body| ==> r.body[i].conversation.updatedAt >= r.body[j].conversation.updatedAt)
      && (forall v :: v in r.body ==> v == ViewOf(v.conversation, users, members, messages))
  {
    if !Truthy(userId) then Failure(401, "Unauthorized")
    else if storeFails then Failure(500, "Failed to fetch conversations")
    else
      var mine := Filter(conversations, (c: ConversationRow) => HasMember(members, c.id, userId.value));
      var ordered := SortBy(mine, (c: ConversationRow) => -c.updatedAt);
      var views := seq(|ordered|, i requires 0 <= i < |ordered| => ViewOf(ordered[i], users, members, messages));
      assert Rows(views) == ordered;
      assert forall c :: c in ordered <==> c in mine by {
        forall c ensures c in ordered <==> c in mine {
          SortedMembers(mine, (c: ConversationRow) => -c.updatedAt, c);
        }
      }
      Ok(views)
  }

  // ---------------------------------------------------------------------
  // createOrGetConversation

  predicate IsDirectOf(members: seq<MemberRow>, c: ConversationRow, a: string, b: string) {
    !c.isGroup && HasMember(members, c.id, a) && HasMember(members, c.id, b)
  }

  /** The first non-group conversation that has both users as members. */
  function FindDirect(conversations: seq<ConversationRow>, members: seq<MemberRow>, a: string, b: string): Option<ConversationRow> {
    FindFirst(conversations, (c: ConversationRow) => IsDirectOf(members, c, a, b))
  }

  function NewDirect(id: string, now: int): ConversationRow {
    ConversationRow(id, false, None, now, now)
  }

  /** The store accepts the new conversation and its memberships: the id
      is unused and both member ids refer to users. */
  predicate CanCreateDirect(users: seq<UserRow>, conversations: seq<ConversationRow>, a: string, b: string, newId: string) {
    !HasConversation(conversations, newId) && HasUser(users, a) && HasUser(users, b)
  }

  /** After a direct conversation of `a` and `b` has been created, looking
      for one finds it, so a second request returns the same conversation. */
  lemma {:induction false} CreatedDirectIsFound(conversations: seq<ConversationRow>, members: seq<MemberRow>, a: string, b: string, newId: string, now: int)
    requires FindDirect(conversations, members, a, b).None?
    requires !HasConversation(conversations, newId)
    ensures FindDirect(conversations + [NewDirect(newId, now)], members + [MemberRow(a, newId), MemberRow(b, newId)], a, b)
      == Some(NewDirect(newId, now))
  {
    var members' := members + [MemberRow(a, newId), MemberRow(b, newId)];
    var p := (c: ConversationRow) => IsDirectOf(members, c, a, b);
    var q := (c: ConversationRow) => IsDirectOf(members', c, a, b);
    forall c | c in conversations ensures p(c) == q(c) {
      assert c.id != newId;
    }
    assert q(NewDirect(newId, now)) by {
      assert MemberRow(a, newId) == members'[|members|];
      assert MemberRow(b, newId) == members'[|members| + 1];
    }
    FindFirstAppended(conversations, NewDirect(newId, now), p, q);
  }

  method CreateOrGetConversation(db: Database, currentUserId: Option<string>, targetUserId: Option<string>, newId: string, now: int, storeFails: bool)
    returns (r: Response<ConversationRow>)
    requires db.Valid()
    modifies db
    ensures db.Valid()
    ensures !Truthy(currentUserId) || !Truthy(targetUserId) ==>
      r == Failure(400, "Missing user IDs") && unchanged(db)
    ensures Truthy(currentUserId) && Truthy(targetUserId) && storeFails ==>
      r == Failure(500, "Failed to create conversation") && unchanged(db)
    ensures Truthy(currentUserId) && Truthy(targetUserId) && !storeFails ==>
      var found := FindDirect(old(db.conversations), old(db.members), currentUserId.value, targetUserId.value);
      if found.Some? then
        r == Ok(found.value) && unchanged(db)
      else if CanCreateDirect(old(db.users), old(db.conversations), currentUserId.value, targetUserId.value, newId) then
        && r == Ok(NewDirect(newId, now))
        && db.conversations == old(db.conversations) + [NewDirect(newId, now)]
        && db.members == old(db.members) + [MemberRow(currentUserId.value, newId), MemberRow(targetUserId.value, newId)]
        && db.users == old(db.users) && db.messages == old(db.messages)
      else
        r == Failure(500, "Failed to create conversation") && unchanged(db)
  {
    if !Truthy(currentUserId) || !Truthy(targetUserId) {
      return Failure(400, "Missing user IDs");
    }
    if storeFails {
      return Failure(500, "Failed to create conversation");
    }
    var me, other := currentUserId.value, targetUserId.value;
    var existing := FindDirect(db.conversations, db.members, me, other);
    if existing.Some? {
      return Ok(existing.value);
    }
    if !CanCreateDirect(db.users, db.conversations, me, other, newId) {
      return Failure(500, "Failed to create conversation");
    }
    var conversation := NewDirect(newId, now);
    ghost var before := db.conversations;
    db.conversations := db.conversations + [conversation];
    db.members := db.members + [MemberRow(me, newId), MemberRow(other, newId)];
    assert forall c :: c in db.conversations ==> c in before || c == conversation;
    assert forall id :: HasConversation(before, id) ==> HasConversation(db.conversations, id) by {
      forall id | HasConversation(before, id) ensures HasConversation(db.conversations, id) {
        var i :| 0 <= i < |before| && before[i].id == id;
        assert db.conversations[i] == before[i];
      }
    }
    assert HasConversation(db.conversations, newId) by {
      assert db.conversations[|before|].id == newId;
    }
    r := Ok(conversation);
  }

  /** Two sequential requests for the same pair: when the first succeeds,
      the second returns the same conversation, and the two together add at
      most one conversation and two memberships. */
  method CreateOrGetTwice(db: Database, currentUserId: Option<string>, targetUserId: Option<string>, id1: string, id2: string, now1: int, now2: int)
    returns (first: Response<ConversationRow>, second: Response<ConversationRow>)
    requires db.Valid()
    modifies db
    ensures db.Valid()
    ensures first.Ok? ==> second == first
    ensures first.Ok? ==> |db.conversations| <= |old(db.conversations)| + 1 && |db.members| <= |old(db.members)| + 2
  {
    first := CreateOrGetConversation(db, currentUserId, targetUserId, id1, now1, false);
    if first.Ok? && FindDirect(old(db.conversations), old(db.members), currentUserId.value, targetUserId.value).None? {
      CreatedDirectIsFound(old(db.conversations), old(db.members), currentUserId.value, targetUserId.value, id1, now1);
    }
    second := CreateOrGetConversation(db, currentUserId, targetUserId, id2, now2, false);
  }
}
