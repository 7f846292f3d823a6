/** The client auth store: the signed-in user, the token, the
    authenticated flag and the presence status, each action writing the
    browser's key-value storage as well as the fields. Storage maps keys to
    stored values; a stored user stands for its JSON text. */
module AuthStore {
  import opened Common
  import opened Schemas

  datatype Stored = Text(text: string) | SerializedUser(user: User)

  const TokenKey := "token"
  const UserKey := "user"
  const StatusKey := "userStatus"

  /** `getItem(key)` for a key that holds text. */
  function TextAt(storage: map<string, Stored>, key: string): Option<string> {
    if key in storage && storage[key].Text? then Some(storage[key].text) else None
  }

  /** `JSON.parse(getItem('user') || 'null')`: the stored user, or null. */
  function StoredUser(storage: map<string, Stored>): Option<User> {
    if UserKey in storage && storage[UserKey].SerializedUser? then Some(storage[UserKey].user) else None
  }

  /** `getItem('userStatus') || 'active'`. */
  function StatusFrom(storage: map<string, Stored>): (s: string)
    ensures Truthy(TextAt(storage, StatusKey)) ==> s == TextAt(storage, StatusKey).value
    ensures !Truthy(TextAt(storage, StatusKey)) ==> s == "active"
    ensures s != ""
  {
    var stored := TextAt(storage, StatusKey);
    if Truthy(stored) then stored.value else "active"
  }

  class AuthStore {
    var user: Option<User>
    var token: Option<string>
    var isAuthenticated: bool
    var status: string
    var storage: map<string, Stored>

    /** The session fields mirror storage, so a reload restores them. */
    predicate Mirrored()
      reads this
    {
      token == TextAt(storage, TokenKey) && user == StoredUser(storage)
    }

    /** The store as created when the page loads with `saved` in storage. */
    constructor (saved: map<string, Stored>)
      ensures Mirrored() && storage == saved
      ensures user == StoredUser(saved) && token == TextAt(saved, TokenKey)
      ensures isAuthenticated <==> Truthy(TextAt(saved, TokenKey))
      ensures status == StatusFrom(saved)
    {
      storage := saved;
      user := StoredUser(saved);
      token := TextAt(saved, TokenKey);
      isAuthenticated := Truthy(TextAt(saved, TokenKey));
      status := StatusFrom(saved);
    }

    method Login(u: User, t: string)
      modifies this
      ensures Mirrored()
      ensures storage == old(storage)[TokenKey := Text(t)][UserKey := SerializedUser(u)]
      ensures user == Some(u) && token == Some(t) && isAuthenticated
      ensures status == old(status)
    {
      storage := storage[TokenKey := Text(t)];
      storage := storage[UserKey := SerializedUser(u)];
      user, token, isAuthenticated := Some(u), Some(t), true;
    }

    method Logout()
      modifies this
      ensures Mirrored()
      ensures storage == old(storage) - {TokenKey, UserKey}
      ensures StatusKey in old(storage) ==> StatusKey in storage && storage[StatusKey] == old(storage)[StatusKey]
      ensures user == None && token == None && !isAuthenticated
      ensures status == old(status)
    {
      storage := storage - {TokenKey};
      storage := storage - {UserKey};
      user, token, isAuthenticated := None, None, false;
    }

    /** The token check has an empty body after the early return, so it
        never changes anything. */
    method CheckAuth()
      modifies this
      ensures unchanged(this)
    {
      var stored := TextAt(storage, TokenKey);
      if !Truthy(stored) {
        return;
      }
    }

    method SetStatus(s: string)
      modifies this
      ensures old(Mirrored()) ==> Mirrored()
      ensures storage == old(storage)[StatusKey := Text(s)] && status == s
      ensures user == old(user) && token == old(token) && isAuthenticated == old(isAuthenticated)
    {
      storage := storage[StatusKey := Text(s)];
      status := s;
    }
  }

  /** A status set to a non-empty value survives a reload; an empty one
      reads back as "active". */
  lemma StatusSurvivesReload(storage: map<string, Stored>, s: string)
    ensures StatusFrom(storage[StatusKey := Text(s)]) == if s != "" then s else "active"
  {
  }

  /** After login, a reload restores an authenticated session with the same
      user exactly when the token is not empty; after logout a reload is
      signed out. */
  lemma SessionSurvivesReload(storage: map<string, Stored>, u: User, t: string)
    ensures var after := storage[TokenKey := Text(t)][UserKey := SerializedUser(u)];
      StoredUser(after) == Some(u) && TextAt(after, TokenKey) == Some(t) && (Truthy(TextAt(after, TokenKey)) <==> t != "")
    ensures var out := storage - {TokenKey, UserKey};
      StoredUser(out) == None && !Truthy(TextAt(out, TokenKey))
  {
  }
}
