/** The user handlers: `getAllUsers`, every user but the caller with the
    public fields only; and `updateProfile`, which overwrites the caller's
    name and username with the supplied values that are truthy. */
module UserController {
  import opened Common
  import opened Store

  /** `id: { not: currentUserId }`; with no header the condition is
      `not: undefined`, which the database client drops, so nobody is
      excluded. */
  predicate NotCaller(currentUserId: Option<string>, u: UserRow) {
    currentUserId.None? || u.id != currentUserId.value
  }

  function GetAllUsers(currentUserId: Option<string>, storeFails: bool, users: seq<UserRow>) : (r: Response<seq<PublicUser>>)
    ensures storeFails ==> r == Failure(500, "Failed to fetch users")
    ensures !storeFails ==> r.Ok?
    ensures r.Ok? && currentUserId.Some? ==> forall p :: p in r.body ==> p.id != currentUserId.value
    ensures r.Ok? ==> forall p :: p in r.body ==> exists u :: u in users && p == Public(u)
    ensures r.Ok? ==> forall u :: u in users && NotCaller(currentUserId, u) ==> Public(u) in r.body
    ensures r.Ok? && currentUserId.None? ==> |r.body| == |users|
    ensures r.Ok? ==> var kept := Filter(users, (u: UserRow) => NotCaller(currentUserId, u));
      |r.body| == |kept| && forall i :: 0 <= i < |r.body| ==> r.body[i] == Public(kept[i])
  {
    if storeFails then Failure(500, "Failed to fetch users")
    else
      var others := Filter(users, (u: UserRow) => NotCaller(currentUserId, u));
      assert currentUserId.None? ==> others == users by {
        if currentUserId.None? {
          FilterKeepsAll(users, (u: UserRow) => NotCaller(currentUserId, u));
        }
      }
      var r := seq(|others|, i requires 0 <= i < |others| => Public(others[i]));
      assert forall i :: 0 <= i < |r| ==> r[i] == Public(others[i]) && others[i] in others;
      assert forall u :: u in others ==> Public(u) in r by {
        forall u | u in others ensures Public(u) in r {
          var i :| 0 <= i < |others| && others[i] == u;
          assert r[i] == Public(u);
        }
      }
      Ok(r)
  }

  // ---------------------------------------------------------------------
  // updateProfile

  /** The fields the profile response selects: no password, no status. */
  datatype Profile = Profile(id: string, username: string, email: string, avatar: Option<string>, name: Option<string>, createdAt: int)

  function ProfileOf(u: UserRow): Profile {
    Profile(u.id, u.username, u.email, u.avatar, u.name, u.createdAt)
  }

  /** `{ ...(name && { name }), ...(username && { username }) }` applied to
      a user row. */
  function Patched(u: UserRow, name: Option<string>, username: Option<string>): (p: UserRow)
    ensures p.name == (if Truthy(name) then name else u.name)
    ensures p.username == (if Truthy(username) then username.value else u.username)
    ensures p.id == u.id && p.email == u.email && p.password == u.password
    ensures p.avatar == u.avatar && p.status == u.status && p.createdAt == u.createdAt
  {
    var withName := if Truthy(name) then u.(name := name) else u;
    if Truthy(username) then withName.(username := username.value) else withName
  }

  /** Another user already holds the requested username. */
  predicate UsernameTaken(users: seq<UserRow>, id: string, username: string) {
    exists i :: 0 <= i < |users| && users[i].id != id && users[i].username == username
  }

  /** Why the update is refused by the store: no user with that id, or the
      new username is unique to another user. */
  predicate UpdateRefused(users: seq<UserRow>, id: string, username: Option<string>) {
    !HasUser(users, id) || (Truthy(username) && UsernameTaken(users, id, username.value))
  }

  function UpdatedUsers(users: seq<UserRow>, id: string, name: Option<string>, username: Option<string>): (r: seq<UserRow>)
    ensures |r| == |users|
    ensures forall i :: 0 <= i < |users| ==>
      r[i] == if users[i].id == id then Patched(users[i], name, username) else users[i]
  {
    seq(|users|, i requires 0 <= i < |users| => if users[i].id == id then Patched(users[i], name, username) else users[i])
  }

  lemma UpdatedUsersConsistent(users: seq<UserRow>, conversations: seq<ConversationRow>, members: seq<MemberRow>, messages: seq<MessageRow>,
                               id: string, name: Option<string>, username: Option<string>)
    requires Consistent(users, conversations, members, messages)
    requires !(Truthy(username) && UsernameTaken(users, id, username.value))
    ensures Consistent(UpdatedUsers(users, id, name, username), conversations, members, messages)
  {
    var r := UpdatedUsers(users, id, name, username);
    assert forall x :: HasUser(users, x) ==> HasUser(r, x) by {
      forall x | HasUser(users, x) ensures HasUser(r, x) {
        var i :| 0 <= i < |users| && users[i].id == x;
        assert r[i].id == x;
      }
    }
  }

  method UpdateProfile(db: Database, currentUserId: Option<string>, name: Option<string>, username: Option<string>, storeFails: bool)
    returns (r: Response<Profile>)
    requires db.Valid()
    modifies db
    ensures db.Valid()
    ensures !Truthy(currentUserId) ==> r == Failure(401, "Unauthorized") && unchanged(db)
    ensures Truthy(currentUserId) && (storeFails || UpdateRefused(old(db.users), currentUserId.value, username)) ==>
      r == Failure(500, "Failed to update profile") && unchanged(db)
    ensures Truthy(currentUserId) && !storeFails && !UpdateRefused(old(db.users), currentUserId.value, username) ==>
      && db.users == UpdatedUsers(old(db.users), currentUserId.value, name, username)
      && r == Ok(ProfileOf(Patched(UserWithId(old(db.users), currentUserId.value), name, username)))
      && db.conversations == old(db.conversations) && db.members == old(db.members) && db.messages == old(db.messages)
  {
    if !Truthy(currentUserId) {
      return Failure(401, "Unauthorized");
    }
    var id := currentUserId.value;
    if storeFails || UpdateRefused(db.users, id, username) {
      return Failure(500, "Failed to update profile");
    }
    var user := UserWithId(db.users, id);
    UpdatedUsersConsistent(db.users, db.conversations, db.members, db.messages, id, name, username);
    db.users := UpdatedUsers(db.users, id, name, username);
    r := Ok(ProfileOf(Patched(user, name, username)));
  }
}
