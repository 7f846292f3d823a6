/** The user search of the new-chat dialog: the listed users whose
    username, or whose email when there is one, contains the query, both
    compared in lower case. */
module NewChatModal {
  import opened Common

  datatype Contact = Contact(id: string, username: string, email: Option<string>, avatar: Option<string>)

  predicate Matches(u: Contact, query: string) {
    || Contains(Lower(u.username), Lower(query))
    || (Truthy(u.email) && Contains(Lower(u.email.value), Lower(query)))
  }

  function FilteredUsers(users: seq<Contact>, query: string): (r: seq<Contact>)
    ensures IsSubsequence(r, users)
    ensures forall u :: u in r <==> u in users && Matches(u, query)
    ensures forall u :: multiset(r)[u] == if Matches(u, query) then multiset(users)[u] else 0
  {
    var keep := (u: Contact) => Matches(u, query);
    FilterIsSubsequence(users, keep);
    forall u ensures multiset(Filter(users, keep))[u] == if Matches(u, query) then multiset(users)[u] else 0 {
      FilterCount(users, keep, u);
    }
    Filter(users, keep)
  }

  /** The empty query keeps every user. */
  lemma EmptyQueryKeepsAll(users: seq<Contact>)
    ensures FilteredUsers(users, "") == users
  {
    forall u | u in users ensures Matches(u, "") {
      assert Lower("") == "";
      assert [] <= Lower(u.username);
    }
    FilterKeepsAll(users, (u: Contact) => Matches(u, ""));
  }

  /** Matching ignores case: a query and its lower-case form select the
      same users. */
  lemma CaseInsensitive(users: seq<Contact>, query: string)
    ensures FilteredUsers(users, query) == FilteredUsers(users, Lower(query))
  {
    LowerIdempotent(query);
    FilterCongruent(users, (u: Contact) => Matches(u, query), (u: Contact) => Matches(u, Lower(query)));
  }

  /** A user without an email (or with an empty one) is found only through
      the username. The user list the client fetches never carries emails,
      so there the search is by username alone. */
  lemma WithoutEmailOnlyUsername(users: seq<Contact>, query: string)
    requires forall u :: u in users ==> !Truthy(u.email)
    ensures FilteredUsers(users, query) == Filter(users, (u: Contact) => Contains(Lower(u.username), Lower(query)))
  {
    FilterCongruent(users, (u: Contact) => Matches(u, query), (u: Contact) => Contains(Lower(u.username), Lower(query)));
  }

  /** A query that occurs in a username at some position, in any case,
      finds that user. */
  lemma FoundByUsernamePiece(users: seq<Contact>, query: string, u: Contact, k: nat)
    requires u in users
    requires k + |query| <= |u.username| && Lower(u.username[k..k + |query|]) == Lower(query)
    ensures u in FilteredUsers(users, query)
  {
    assert Lower(u.username)[k..k + |query|] == Lower(u.username[k..k + |query|]);
    ContainsAt(Lower(u.username), Lower(query), k);
  }

  /** `q` occurs in `s` at position `k` when both are lower-cased. */
  predicate PieceAt(s: string, q: string, k: nat) {
    k + |q| <= |s| && Lower(s[k..k + |q|]) == Lower(q)
  }

  ghost predicate HasPiece(s: string, q: string) {
    exists k: nat :: PieceAt(s, q, k)
  }

  lemma PieceIffContains(s: string, q: string)
    ensures HasPiece(s, q) <==> Contains(Lower(s), Lower(q))
  {
    if HasPiece(s, q) {
      var k: nat :| PieceAt(s, q, k);
      assert Lower(s)[k..k + |q|] == Lower(s[k..k + |q|]);
      ContainsAt(Lower(s), Lower(q), k);
    }
    if Contains(Lower(s), Lower(q)) {
      var k := ContainsWitness(Lower(s), Lower(q));
      assert Lower(s)[k..k + |q|] == Lower(s[k..k + |q|]);
      assert PieceAt(s, q, k);
    }
  }

  /** A user is listed exactly when the query occurs, ignoring case, in the
      username or in a non-empty email. */
  lemma FoundIffPiece(users: seq<Contact>, query: string, u: Contact)
    ensures u in FilteredUsers(users, query) <==>
      u in users && (HasPiece(u.username, query) || (Truthy(u.email) && HasPiece(u.email.value, query)))
  {
    PieceIffContains(u.username, query);
    if Truthy(u.email) {
      PieceIffContains(u.email.value, query);
    }
  }
}
