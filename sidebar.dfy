/** The values the sidebar derives for display: each conversation row's
    title, preview, time visibility and active flag, and the signed-in
    user's avatar fallback. */
module Sidebar {
  import opened Common
  import opened ChatStore
  import Schemas

  /** `c.members?.find(m => m.user.username !== user?.username)`: with no
      signed-in user every member differs. */
  function OtherMember(c: Conversation, currentUsername: Option<string>): Option<Member> {
    FindFirst(c.members, (m: Member) => currentUsername.None? || m.user.username != currentUsername.value)
  }

  /** A group shows its name (nothing when it has none); a direct
      conversation shows the other member's username, or "Unknown". */
  function Title(c: Conversation, currentUsername: Option<string>): (r: string)
    ensures c.isGroup ==> r == if c.name.Some? then c.name.value else ""
    ensures !c.isGroup ==> r != ""
    ensures !c.isGroup && r != "Unknown" ==>
      exists k :: 0 <= k < |c.members| && c.members[k].user.username == r
        && (currentUsername.None? || r != currentUsername.value)
        && forall j :: 0 <= j < k ==> currentUsername.Some? && c.members[j].user.username == currentUsername.value
    ensures !c.isGroup && OtherMember(c, currentUsername).Some? && OtherMember(c, currentUsername).value.user.username != "" ==>
      r == OtherMember(c, currentUsername).value.user.username
    ensures !c.isGroup && (OtherMember(c, currentUsername).None? || OtherMember(c, currentUsername).value.user.username == "") ==>
      r == "Unknown"
    ensures !c.isGroup && (forall m :: m in c.members ==> currentUsername == Some(m.user.username)) ==> r == "Unknown"
  {
    if c.isGroup then (if c.name.Some? then c.name.value else "")
    else
      var other := OtherMember(c, currentUsername);
      if other.Some? && other.value.user.username != "" then other.value.user.username else "Unknown"
  }

  /** `c.messages?.[0]?.content || "Start a conversation"`. */
  function Preview(c: Conversation): (r: string)
    ensures r != ""
    ensures c.messages != [] && c.messages[0].content != "" ==> r == c.messages[0].content
    ensures c.messages == [] || c.messages[0].content == "" ==> r == "Start a conversation"
  {
    if c.messages != [] && c.messages[0].content != "" then c.messages[0].content else "Start a conversation"
  }

  predicate ShowsTime(c: Conversation) {
    c.messages != [] && c.messages[0].createdAt.Some?
  }

  /** After the store records a new last message, that conversation's row
      shows a time exactly when the message has a creation time, and
      previews the message's text when it is not empty. */
  lemma UpdatedRowShowsMessage(s: seq<Conversation>, id: string, message: LastMessage, now: int, i: nat)
    requires i < |s| && s[i].id == id
    ensures ShowsTime(WithLastMessage(s, id, message, now)[i]) <==> message.createdAt.Some?
    ensures message.content != "" ==> Preview(WithLastMessage(s, id, message, now)[i]) == message.content
    ensures message.content == "" ==> Preview(WithLastMessage(s, id, message, now)[i]) == "Start a conversation"
  {
  }

  predicate IsActive(c: Conversation, activeConversationId: Option<string>) {
    activeConversationId == Some(c.id)
  }

  /** With distinct ids at most one row is highlighted. */
  lemma AtMostOneActive(conversations: seq<Conversation>, activeConversationId: Option<string>, i: nat, j: nat)
    requires DistinctIds(conversations)
    requires i < j < |conversations|
    ensures !(IsActive(conversations[i], activeConversationId) && IsActive(conversations[j], activeConversationId))
  {
  }

  /** After `startConversation` has answered with `c`, the list is the old
      one, or `c` prepended when its id was not listed, and the active id is
      `c.id`: exactly one row is highlighted, and it has that id. */
  lemma StartedRowActive(conversations: seq<Conversation>, c: Conversation)
    requires DistinctIds(conversations)
    ensures var after := if Listed(conversations, c.id) then conversations else [c] + conversations;
      exists i :: 0 <= i < |after| && after[i].id == c.id && IsActive(after[i], Some(c.id))
        && forall j :: 0 <= j < |after| && j != i ==> !IsActive(after[j], Some(c.id))
  {
    if Listed(conversations, c.id) {
      var k :| 0 <= k < |conversations| && conversations[k].id == c.id;
      assert IsActive(conversations[k], Some(c.id));
    } else {
      var after := [c] + conversations;
      assert after[0].id == c.id;
      forall j | 0 < j < |after| ensures !IsActive(after[j], Some(c.id)) {
        assert after[j] == conversations[j - 1];
      }
    }
  }

  datatype Avatar = Image(url: string) | Initial(text: string)

  /** The avatar image when set, else the upper-cased first letter of the
      username, else "U". */
  function AvatarFallback(user: Option<Schemas.User>): (r: Avatar)
    ensures user.Some? && Truthy(user.value.avatar) ==> r == Image(user.value.avatar.value)
    ensures !(user.Some? && Truthy(user.value.avatar)) ==> r.Initial?
    ensures r.Initial? ==> |r.text| == 1
    ensures r.Initial? && user.Some? && user.value.username != "" ==> r.text == [UpperChar(user.value.username[0])]
    ensures r.Initial? && (user.None? || user.value.username == "") ==> r.text == "U"
  {
    if user.Some? && Truthy(user.value.avatar) then Image(user.value.avatar.value)
    else if user.Some? && user.value.username != "" then Initial([UpperChar(user.value.username[0])])
    else Initial("U")
  }

  /** For a username the schema accepts, the fallback is a capital letter
      or a digit. */
  lemma InitialOfValidUsername(user: Schemas.User)
    requires Schemas.ValidUsername(user.username)
    requires !Truthy(user.avatar)
    ensures AvatarFallback(Some(user)).Initial?
    ensures var ch := AvatarFallback(Some(user)).text[0]; 'A' <= ch <= 'Z' || '0' <= ch <= '9'
  {
    Schemas.UsernameValidIff(user.username);
    assert Schemas.IsLowerAlnum(user.username[0]);
  }
}
