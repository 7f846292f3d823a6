/** The shared validation schemas (`UserSchema`, `RegisterSchema`,
    `LoginSchema`) as issue lists. Each string field reports one issue per
    failed check, as the validation library does, and "Required" when the
    field is missing. The library's email, uuid and url checks are not
    modelled: they are handed in as `LibraryChecks`. */
module Schemas {
  import opened Common

  datatype LibraryChecks = LibraryChecks(isEmail: string -> bool, isUuid: string -> bool, isUrl: string -> bool)

  datatype Issue = Issue(path: string, message: string)

  const Required := "Required"

  function AtLeast(n: nat): string {
    "String must contain at least " + NatToString(n) + " character(s)"
  }

  function AtMost(n: nat): string {
    "String must contain at most " + NatToString(n) + " character(s)"
  }

  function NatToString(n: nat): string
    decreases n
  {
    if n < 10 then [(48 + n) as char] else NatToString(n / 10) + [(48 + n % 10) as char]
  }

  // ---------------------------------------------------------------------
  // Field rules

  predicate IsLowerAlnum(c: char) {
    'a' <= c <= 'z' || '0' <= c <= '9'
  }

  /** The regular expression /^[a-z0-9]+$/, read left to right. */
  predicate MatchesLowerAlnum(s: string) {
    s != [] && IsLowerAlnum(s[0]) && (|s| == 1 || MatchesLowerAlnum(s[1..]))
  }

  lemma {:induction false} MatchesLowerAlnumIff(s: string)
    ensures MatchesLowerAlnum(s) <==> s != [] && forall i :: 0 <= i < |s| ==> IsLowerAlnum(s[i])
  {
    if |s| > 1 {
      MatchesLowerAlnumIff(s[1..]);
      assert forall i :: 1 <= i < |s| ==> s[i] == s[1..][i - 1];
    }
  }

  predicate ValidUsername(s: string) {
    3 <= |s| <= 16 && MatchesLowerAlnum(s)
  }

  /** A username is valid iff it has 3 to 16 characters, each in a-z or 0-9. */
  lemma UsernameValidIff(s: string)
    ensures ValidUsername(s) <==> 3 <= |s| <= 16 && forall i :: 0 <= i < |s| ==> IsLowerAlnum(s[i])
  {
    MatchesLowerAlnumIff(s);
  }

  /** One upper-case letter, space or symbol anywhere rejects a username,
      whatever its length. */
  lemma UsernameRejectsOtherCharacter(s: string, k: nat)
    requires k < |s| && !IsLowerAlnum(s[k])
    ensures !ValidUsername(s)
  {
    UsernameValidIff(s);
  }

  function UsernameIssues(v: Option<string>): (r: seq<Issue>)
    ensures r == [] <==> v.Some? && ValidUsername(v.value)
    ensures forall i :: 0 <= i < |r| ==> r[i].path == "username"
  {
    match v
    case None => [Issue("username", Required)]
    case Some(s) =>
      (if |s| < 3 then [Issue("username", AtLeast(3))] else [])
      + (if |s| > 16 then [Issue("username", AtMost(16))] else [])
      + (if !MatchesLowerAlnum(s) then [Issue("username", "Username must be lowercase alphanumeric")] else [])
  }

  predicate ValidName(s: string) {
    1 <= |s| <= 50
  }

  function RegisterNameIssues(v: Option<string>): (r: seq<Issue>)
    ensures r == [] <==> v.Some? && ValidName(v.value)
  {
    match v
    case None => [Issue("name", Required)]
    case Some(s) =>
      (if |s| < 1 then [Issue("name", "Name is required")] else [])
      + (if |s| > 50 then [Issue("name", AtMost(50))] else [])
  }

  function EmailIssues(v: Option<string>, checks: LibraryChecks, message: string): (r: seq<Issue>)
    ensures r == [] <==> v.Some? && checks.isEmail(v.value)
  {
    match v
    case None => [Issue("email", Required)]
    case Some(s) => if checks.isEmail(s) then [] else [Issue("email", message)]
  }

  predicate ValidPassword(s: string) {
    |s| >= 6
  }

  function PasswordIssues(v: Option<string>): (r: seq<Issue>)
    ensures r == [] <==> v.Some? && ValidPassword(v.value)
  {
    match v
    case None => [Issue("password", Required)]
    case Some(s) => if |s| < 6 then [Issue("password", "Password must be at least 6 characters")] else []
  }

  // ---------------------------------------------------------------------
  // UserSchema

  datatype User = User(
    id: string,
    username: string,
    email: string,
    avatar: Option<string>,
    status: Option<string>,
    name: Option<string>,
    createdAt: int)

  function UserIssues(u: User, checks: LibraryChecks): (r: seq<Issue>)
    ensures r == [] <==>
      && checks.isUuid(u.id)
      && ValidUsername(u.username)
      && checks.isEmail(u.email)
      && (u.avatar.Some? ==> checks.isUrl(u.avatar.value))
      && (u.status.Some? ==> |u.status.value| <= 100)
      && (u.name.Some? ==> |u.name.value| <= 50)
  {
    (if checks.isUuid(u.id) then [] else [Issue("id", "Invalid uuid")])
    + UsernameIssues(Some(u.username))
    + EmailIssues(Some(u.email), checks, "Invalid email")
    + (if u.avatar.Some? && !checks.isUrl(u.avatar.value) then [Issue("avatar", "Invalid url")] else [])
    + (if u.status.Some? && |u.status.value| > 100 then [Issue("status", AtMost(100))] else [])
    + (if u.name.Some? && |u.name.value| > 50 then [Issue("name", AtMost(50))] else [])
  }

  // ---------------------------------------------------------------------
  // RegisterSchema and LoginSchema, over request bodies whose fields may
  // be missing.

  datatype RegisterBody = RegisterBody(username: Option<string>, name: Option<string>, email: Option<string>, password: Option<string>)

  datatype LoginBody = LoginBody(email: Option<string>, password: Option<string>)

  const InvalidEmailAddress := "Invalid email address"

  predicate RegisterValid(b: RegisterBody, checks: LibraryChecks) {
    && b.username.Some? && ValidUsername(b.username.value)
    && b.name.Some? && ValidName(b.name.value)
    && b.email.Some? && checks.isEmail(b.email.value)
    && b.password.Some? && ValidPassword(b.password.value)
  }

  predicate LoginValid(b: LoginBody, checks: LibraryChecks) {
    && b.email.Some? && checks.isEmail(b.email.value)
    && b.password.Some? && ValidPassword(b.password.value)
  }

  function RegisterIssues(b: RegisterBody, checks: LibraryChecks): (r: seq<Issue>)
    ensures r == [] <==> RegisterValid(b, checks)
  {
    UsernameIssues(b.username) + RegisterNameIssues(b.name)
    + EmailIssues(b.email, checks, InvalidEmailAddress) + PasswordIssues(b.password)
  }

  function LoginIssues(b: LoginBody, checks: LibraryChecks): (r: seq<Issue>)
    ensures r == [] <==> LoginValid(b, checks)
  {
    EmailIssues(b.email, checks, InvalidEmailAddress) + PasswordIssues(b.password)
  }

  /** Login asks only for the email and password: the credentials of any
      valid registration form a valid login, but a valid login does not
      make a registration valid without a username and a name. */
  lemma LoginNeedsOnlyCredentials(b: RegisterBody, checks: LibraryChecks)
    ensures RegisterValid(b, checks) ==> LoginValid(LoginBody(b.email, b.password), checks)
    ensures LoginValid(LoginBody(b.email, b.password), checks) && b.username.None? ==> !RegisterValid(b, checks)
  {
  }

  /** The password rule is the same in both schemas. */
  lemma PasswordRuleShared(p: string, checks: LibraryChecks, e: string)
    requires checks.isEmail(e)
    ensures LoginValid(LoginBody(Some(e), Some(p)), checks) <==> |p| >= 6
    ensures forall u, n :: ValidUsername(u) && ValidName(n) ==>
      (RegisterValid(RegisterBody(Some(u), Some(n), Some(e), Some(p)), checks) <==> |p| >= 6)
  {
  }
}
