/** The message handlers: `getMessages`, the history of one conversation in
    ascending creation order with each sender selected down to id,
    username and avatar; and `getGeneralConversation`, which finds the
    conversation named "Community Chat" or creates it as a group. */
module MessageController {
  import opened Common
  import opened Store

  datatype Sender = Sender(id: string, username: string, avatar: Option<string>)

  datatype MessageView = MessageView(message: MessageRow, sender: Sender)

  function SenderOf(u: UserRow): Sender {
    Sender(u.id, u.username, u.avatar)
  }

  function Messages(vs: seq<MessageView>): (r: seq<MessageRow>)
    ensures |r| == |vs| && forall i :: 0 <= i < |vs| ==> r[i] == vs[i].message
  {
    seq(|vs|, i requires 0 <= i < |vs| => vs[i].message)
  }

  function GetMessages(conversationId: string, storeFails: bool, users: seq<UserRow>, messages: seq<MessageRow>)
    : (r: Response<seq<MessageView>>)
    requires forall m :: m in messages ==> HasUser(users, m.senderId)
    ensures storeFails ==> r == Failure(500, "Failed to fetch messages")
    ensures !storeFails ==> r.Ok?
    ensures r.Ok? ==>
      && (forall m :: m in Messages(r.body) <==> m in messages && m.conversationId == conversationId)
      && multiset(Messages(r.body)) == multiset(Filter(messages, (m: MessageRow) => m.conversationId == conversationId))
      && (forall i, j :: 0 <= i < j < |r.body| ==> r.body[i].message.createdAt <= r.body[j].message.createdAt)
      && (forall v :: v in r.body ==> exists u :: u in users && u.id == v.message.senderId && v.sender == SenderOf(u))
  {
    if storeFails then Failure(500, "Failed to fetch messages")
    else
      var own := Filter(messages, (m: MessageRow) => m.conversationId == conversationId);
      var ordered := SortBy(own, (m: MessageRow) => m.createdAt);
      assert forall m :: m in ordered <==> m in own by {
        forall m ensures m in ordered <==> m in own {
          SortedMembers(own, (m: MessageRow) => m.createdAt, m);
        }
      }
      var views := seq(|ordered|, i requires 0 <= i < |ordered| =>
        MessageView(ordered[i], SenderOf(UserWithId(users, ordered[i].senderId))));
      assert Messages(views) == ordered;
      Ok(views)
  }

  // ---------------------------------------------------------------------
  // getGeneralConversation

  const GeneralName := "Community Chat"

  function FindGeneral(conversations: seq<ConversationRow>): Option<ConversationRow> {
    FindFirst(conversations, (c: ConversationRow) => c.name == Some(GeneralName))
  }

  function NewGeneral(id: string, now: int): ConversationRow {
    ConversationRow(id, true, Some(GeneralName), now, now)
  }

  /** Once the general conversation has been created, looking it up finds
      that one, so later requests create nothing. */
  lemma {:induction false} CreatedGeneralIsFound(conversations: seq<ConversationRow>, id: string, now: int)
    requires FindGeneral(conversations).None?
    ensures FindGeneral(conversations + [NewGeneral(id, now)]) == Some(NewGeneral(id, now))
  {
    var p := (c: ConversationRow) => c.name == Some(GeneralName);
    FindFirstAppended(conversations, NewGeneral(id, now), p, p);
  }

  method GetGeneralConversation(db: Database, newId: string, now: int, storeFails: bool) returns (r: Response<ConversationRow>)
    requires db.Valid()
    modifies db
    ensures db.Valid()
    ensures storeFails ==> r == Failure(500, "Failed to get general conversation") && unchanged(db)
    ensures !storeFails && FindGeneral(old(db.conversations)).Some? ==>
      r == Ok(FindGeneral(old(db.conversations)).value) && unchanged(db)
    ensures !storeFails && FindGeneral(old(db.conversations)).None? ==>
      if !HasConversation(old(db.conversations), newId) then
        && r == Ok(NewGeneral(newId, now))
        && r.body.name == Some(GeneralName) && r.body.isGroup
        && db.conversations == old(db.conversations) + [NewGeneral(newId, now)]
        && db.users == old(db.users) && db.members == old(db.members) && db.messages == old(db.messages)
      else
        r == Failure(500, "Failed to get general conversation") && unchanged(db)
    ensures r.Ok? ==> FindGeneral(db.conversations) == Some(r.body)
  {
    if storeFails {
      return Failure(500, "Failed to get general conversation");
    }
    var conversation := FindGeneral(db.conversations);
    if conversation.None? {
      if HasConversation(db.conversations, newId) {
        return Failure(500, "Failed to get general conversation");
      }
      CreatedGeneralIsFound(db.conversations, newId, now);
      ghost var before := db.conversations;
      db.conversations := db.conversations + [NewGeneral(newId, now)];
      assert forall c :: c in db.conversations ==> c in before || c == NewGeneral(newId, now);
      assert forall id :: HasConversation(before, id) ==> HasConversation(db.conversations, id) by {
        forall id | HasConversation(before, id) ensures HasConversation(db.conversations, id) {
          var i :| 0 <= i < |before| && before[i].id == id;
          assert db.conversations[i] == before[i];
        }
      }
      conversation := Some(NewGeneral(newId, now));
    }
    r := Ok(conversation.value);
  }

  /** Two sequential requests create at most one general conversation: when
      the first succeeds, the second returns the same conversation. */
  method GetGeneralTwice(db: Database, id1: string, id2: string, now1: int, now2: int)
    returns (first: Response<ConversationRow>, second: Response<ConversationRow>)
    requires db.Valid()
    modifies db
    ensures db.Valid()
    ensures first.Ok? ==> second == first && |db.conversations| <= |old(db.conversations)| + 1
  {
    first := GetGeneralConversation(db, id1, now1, false);
    second := GetGeneralConversation(db, id2, now2, false);
  }
}
