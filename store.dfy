/** The server's relational store, as four in-memory tables of records, and
    the response shape of its request handlers. The constraints of the
    schema (primary keys, foreign keys, unique usernames) are the invariant
    `Valid` of the `Database` object; a write that would break one is
    refused by the store, which the handlers see as a thrown error. */
module Store {
  import opened Common

  datatype UserRow = UserRow(
    id: string,
    username: string,
    email: string,
    password: string,
    name: Option<string>,
    avatar: Option<string>,
    status: Option<string>,
    createdAt: int)

  datatype ConversationRow = ConversationRow(id: string, isGroup: bool, name: Option<string>, createdAt: int, updatedAt: int)

  /** A membership joins a user to a conversation. */
  datatype MemberRow = MemberRow(userId: string, conversationId: string)

  datatype MessageRow = MessageRow(id: string, content: string, senderId: string, conversationId: string, createdAt: int)

  /** What a handler sends back: a JSON body, or an error status with its
      `{ error }` message. */
  datatype Response<T> = Ok(body: T) | Failure(status: int, error: string)

  /** The public profile fields selected for other users. */
  datatype PublicUser = PublicUser(id: string, username: string, avatar: Option<string>, name: Option<string>)

  function Public(u: UserRow): PublicUser {
    PublicUser(u.id, u.username, u.avatar, u.name)
  }

  predicate HasUser(users: seq<UserRow>, id: string) {
    exists i :: 0 <= i < |users| && users[i].id == id
  }

  predicate HasConversation(conversations: seq<ConversationRow>, id: string) {
    exists i :: 0 <= i < |conversations| && conversations[i].id == id
  }

  predicate HasMember(members: seq<MemberRow>, conversationId: string, userId: string) {
    MemberRow(userId, conversationId) in members
  }

  /** The record of the user with this id. */
  function UserWithId(users: seq<UserRow>, id: string): (u: UserRow)
    requires HasUser(users, id)
    ensures u in users && u.id == id
  {
    if users[0].id == id then users[0]
    else
      assert HasUser(users[1..], id) by {
        var i :| 0 <= i < |users| && users[i].id == id;
        assert users[1..][i - 1] == users[i];
      }
      UserWithId(users[1..], id)
  }

  predicate UniqueUserIds(users: seq<UserRow>) {
    forall i, j :: 0 <= i < j < |users| ==> users[i].id != users[j].id
  }

  predicate UniqueUsernames(users: seq<UserRow>) {
    forall i, j :: 0 <= i < j < |users| ==> users[i].username != users[j].username
  }

  predicate UniqueConversationIds(conversations: seq<ConversationRow>) {
    forall i, j :: 0 <= i < j < |conversations| ==> conversations[i].id != conversations[j].id
  }

  predicate MembersExist(members: seq<MemberRow>, users: seq<UserRow>, conversations: seq<ConversationRow>) {
    forall m :: m in members ==> HasUser(users, m.userId) && HasConversation(conversations, m.conversationId)
  }

  predicate MessagesExist(messages: seq<MessageRow>, users: seq<UserRow>, conversations: seq<ConversationRow>) {
    forall m :: m in messages ==> HasUser(users, m.senderId) && HasConversation(conversations, m.conversationId)
  }

  predicate Consistent(users: seq<UserRow>, conversations: seq<ConversationRow>, members: seq<MemberRow>, messages: seq<MessageRow>) {
    && UniqueUserIds(users)
    && UniqueUsernames(users)
    && UniqueConversationIds(conversations)
    && MembersExist(members, users, conversations)
    && MessagesExist(messages, users, conversations)
  }

  class Database {
    var users: seq<UserRow>
    var conversations: seq<ConversationRow>
    var members: seq<MemberRow>
    var messages: seq<MessageRow>

    predicate Valid()
      reads this
    {
      Consistent(users, conversations, members, messages)
    }

    constructor ()
      ensures Valid()
      ensures users == [] && conversations == [] && members == [] && messages == []
    {
      users, conversations, members, messages := [], [], [], [];
    }
  }
}
