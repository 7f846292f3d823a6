/** The `register` and `login` request handlers. Both parse the body with
    their schema and answer with a fixed mock response; neither reads nor
    writes any stored state, so each is a function of its request body. */
module AuthController {
  import opened Common
  import opened Schemas

  datatype RegisteredUser = RegisteredUser(email: string, id: string)

  datatype AuthResponse =
    | Registered(message: string, user: RegisteredUser)
    | LoggedIn(message: string, token: string)
    | BadRequest(status: int, errors: seq<Issue>)

  const MockId := "mock-id"
  const MockToken := "mock-jwt-token"

  function Register(body: RegisterBody, checks: LibraryChecks): (r: AuthResponse)
    ensures r.BadRequest? <==> !RegisterValid(body, checks)
    ensures r.BadRequest? ==> r.status == 400 && r.errors != []
    ensures RegisterValid(body, checks) ==>
      r == Registered("Registration successful", RegisteredUser(body.email.value, MockId))
  {
    var issues := RegisterIssues(body, checks);
    if issues != [] then BadRequest(400, issues)
    else Registered("Registration successful", RegisteredUser(body.email.value, MockId))
  }

  function Login(body: LoginBody, checks: LibraryChecks): (r: AuthResponse)
    ensures r.BadRequest? <==> !LoginValid(body, checks)
    ensures r.BadRequest? ==> r.status == 400 && r.errors != []
    ensures LoginValid(body, checks) ==> r == LoggedIn("Login successful", MockToken)
  {
    var issues := LoginIssues(body, checks);
    if issues != [] then BadRequest(400, issues)
    else LoggedIn("Login successful", MockToken)
  }

  /** Nothing is stored: a second registration with the same email (and any
      other valid fields) succeeds just like the first, and any two valid
      logins get the same token whatever the credentials. */
  lemma NoAccountState(b1: RegisterBody, b2: RegisterBody, l1: LoginBody, l2: LoginBody, checks: LibraryChecks)
    requires RegisterValid(b1, checks) && RegisterValid(b2, checks) && b1.email == b2.email
    requires LoginValid(l1, checks) && LoginValid(l2, checks)
    ensures Register(b1, checks) == Register(b2, checks) && Register(b2, checks).Registered?
    ensures Login(l1, checks) == Login(l2, checks)
  {
  }

  /** The short-password case is rejected by both handlers with the same
      message. */
  lemma ShortPasswordRejected(b: RegisterBody, l: LoginBody, checks: LibraryChecks)
    requires b.password.Some? && |b.password.value| < 6
    requires l.password.Some? && |l.password.value| < 6
    ensures Register(b, checks).BadRequest?
    ensures Issue("password", "Password must be at least 6 characters") in Register(b, checks).errors
    ensures Login(l, checks).BadRequest?
    ensures Issue("password", "Password must be at least 6 characters") in Login(l, checks).errors
  {
    var ri := RegisterIssues(b, checks);
    var pi := PasswordIssues(b.password);
    assert ri == UsernameIssues(b.username) + RegisterNameIssues(b.name)
      + EmailIssues(b.email, checks, InvalidEmailAddress) + pi;
    assert ri[|ri| - 1] == pi[0];
    var li := LoginIssues(l, checks);
    var lp := PasswordIssues(l.password);
    assert li[|li| - 1] == lp[0];
  }
}
