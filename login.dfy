/** The two login endpoints: app/api/admin/login/route.ts and
    app/api/members/login/route.ts. Both look the account up by e-mail,
    check the password with the hashing library (a parameter here, as
    `checkPassword(plaintext, hash)`), and on success answer with the
    account's id, role and e-mail and a fresh session cookie. */
module Login {
  import opened Base
  import opened Cookies
  import opened Tokens
  import opened Users
  import opened Http

  /** The parsed JSON body; `None` for a body that is not a JSON object. */
  datatype Credentials = Credentials(email: Option<string>, password: Option<string>)

  datatype LoginUser = LoginUser(id: string, role: Role, email: string)

  datatype LoginBody = LoggedIn(user: LoginUser) | LoginError(error: string)

  /** The success response both endpoints build for account `u`. */
  function Welcome(c: Codec, env: Env, u: User): Response<LoginBody> {
    Response(200, LoggedIn(LoginUser(u.id, u.role, u.email)),
             Some(SessionCookie(SignJwt(c, env, u.id, u.role), env.production)))
  }

  /** The account a login request names, when the request gets that far. */
  function Account(rows: seq<User>, body: Option<Credentials>): Option<User> {
    if body.Some? && body.value.email.Some? then FindByEmail(rows, body.value.email.value) else None
  }

  /** POST /api/admin/login. Nothing here catches: a malformed body, a missing
      e-mail or password, or a store failure escapes as an exception. */
  function AdminLogin(c: Codec, env: Env, rows: seq<User>, body: Option<Credentials>, fault: bool,
                      checkPassword: (string, string) -> bool): (r: Handled<Response<LoginBody>>)
    ensures r.Returned? ==> (r.response.cookie.Some? <==> r.response.status == 200)
    ensures r.Returned? <==> body.Some? && body.value.email.Some? && !fault
                             && (Account(rows, body).None? || body.value.password.Some?)
    ensures r.Returned? ==>
              (r.response.status == 404 <==> Account(rows, body).None?)
              && (r.response.status == 404 ==> r.response.body == LoginError("User not found"))
    ensures r.Returned? && Account(rows, body).Some? ==>
              var u := Account(rows, body).value;
              if checkPassword(body.value.password.value, u.passwordHash)
              then r.response == Welcome(c, env, u)
              else r.response == Response(401, LoginError("Invalid credentials"), None)
  {
    if body.None? || body.value.email.None? || fault then Threw
    else match FindByEmail(rows, body.value.email.value)
      case None => Returned(JsonWithStatus(LoginError("User not found"), 404))
      case Some(u) =>
        if body.value.password.None? then Threw
        else if !checkPassword(body.value.password.value, u.passwordHash) then
          Returned(JsonWithStatus(LoginError("Invalid credentials"), 401))
        else Returned(Welcome(c, env, u))
  }

  /** POST /api/members/login. The same tree with a role filter, inside a
      catch-all that turns any exception into 500. */
  function MemberLogin(c: Codec, env: Env, rows: seq<User>, body: Option<Credentials>, fault: bool,
                       checkPassword: (string, string) -> bool): (r: Response<LoginBody>)
    ensures r.cookie.Some? <==> r.status == 200
    ensures r.status == 500 <==> body.None? || body.value.email.None? || fault
                                 || (Account(rows, body).Some? && Account(rows, body).value.role == Member
                                     && body.value.password.None?)
    ensures r.status == 500 ==> r.body == LoginError("Internal server error")
    ensures r.status != 500 ==>
              (r.status == 404 <==> Account(rows, body).None? || Account(rows, body).value.role != Member)
    ensures r.status == 404 ==> r.body == LoginError("Invalid email or not a member")
    ensures r.status != 500 && Account(rows, body).Some? && Account(rows, body).value.role == Member ==>
              var u := Account(rows, body).value;
              if checkPassword(body.value.password.value, u.passwordHash)
              then r == Welcome(c, env, u)
              else r == Response(401, LoginError("Incorrect password"), None)
  {
    var internal := JsonWithStatus(LoginError("Internal server error"), 500);
    if body.None? || body.value.email.None? || fault then internal
    else match FindByEmail(rows, body.value.email.value)
      case None => JsonWithStatus(LoginError("Invalid email or not a member"), 404)
      case Some(u) =>
        if u.role != Member then JsonWithStatus(LoginError("Invalid email or not a member"), 404)
        else if body.value.password.None? then internal
        else if !checkPassword(body.value.password.value, u.passwordHash) then
          JsonWithStatus(LoginError("Incorrect password"), 401)
        else Welcome(c, env, u)
  }

  /** A successful login hands out a cookie with the session attributes and a
      seven-day Max-Age whose token verifies to the account's id and role. */
  lemma {:induction false} WelcomeIssuesSession(c: Codec, env: Env, u: User)
    requires Faithful(c)
    ensures var ck := Welcome(c, env, u).cookie;
            ck.Some? && HasSessionAttributes(ck.value, env.production) && ck.value.maxAge == 604800
            && VerifyJwt(c, env, ck.value.value) == Some(SessionClaims(u.id, u.role))
  {
    SessionRoundTrip(c, env, u.id, u.role, env.now);
    assert env.(now := env.now) == env;
  }

  /** The admin endpoint does not look at the role: a member account with the
      right password logs in there too, with a member token. */
  lemma AdminLoginAcceptsMembers(c: Codec, env: Env, rows: seq<User>, email: string, password: string,
                                 checkPassword: (string, string) -> bool)
    requires Faithful(c)
    requires FindByEmail(rows, email).Some? && FindByEmail(rows, email).value.role == Member
    requires checkPassword(password, FindByEmail(rows, email).value.passwordHash)
    ensures var r := AdminLogin(c, env, rows, Some(Credentials(Some(email), Some(password))), false, checkPassword);
            r.Returned? && r.response.status == 200
            && VerifyJwt(c, env, r.response.cookie.value.value) == Some(SessionClaims(FindByEmail(rows, email).value.id, Member))
  {
    WelcomeIssuesSession(c, env, FindByEmail(rows, email).value);
  }

  /** Admin accounts cannot use the member endpoint, whatever the password. */
  lemma MemberLoginRefusesAdmins(c: Codec, env: Env, rows: seq<User>, email: string, password: Option<string>,
                                 checkPassword: (string, string) -> bool)
    requires FindByEmail(rows, email).Some? && FindByEmail(rows, email).value.role == Admin
    ensures MemberLogin(c, env, rows, Some(Credentials(Some(email), password)), false, checkPassword).status == 404
  {
  }

  /** For member accounts, and for unknown e-mails, the two endpoints answer
      with the same status, the same user projection and the same cookie;
      only the error texts differ. */
  lemma {:induction false} EndpointsAgreeOnMembers(c: Codec, env: Env, rows: seq<User>, email: string, password: string,
                                                   checkPassword: (string, string) -> bool)
    requires FindByEmail(rows, email).None? || FindByEmail(rows, email).value.role == Member
    ensures var body := Some(Credentials(Some(email), Some(password)));
            var a := AdminLogin(c, env, rows, body, false, checkPassword);
            var m := MemberLogin(c, env, rows, body, false, checkPassword);
            a.Returned? && a.response.status == m.status && a.response.cookie == m.cookie
            && (m.status == 200 ==> a.response.body == m.body)
  {
    var body := Some(Credentials(Some(email), Some(password)));
    assert Account(rows, body) == FindByEmail(rows, email);
  }
}
