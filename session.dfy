/** GET /api/session (app/api/session/route.ts): resolves the session cookie
    to the account it names, read-only. Every handled outcome is a 200 with
    `user: null` and an error text; only an unexpected exception gives 500. */
module Session {
  import opened Base
  import opened Cookies
  import opened Tokens
  import opened Users
  import opened Http

  /** The projection returned to the client. */
  datatype SessionUser = SessionUser(id: string, email: string, role: Role, name: Option<string>,
                                     dateOfBirth: Option<Date>)

  datatype SessionBody = SessionBody(user: Option<SessionUser>, error: Option<string>)

  function Project(u: User): SessionUser {
    SessionUser(u.id, u.email, u.role, u.name, u.dateOfBirth)
  }

  /** The user id a request's cookie names, once the token verifies and its
      payload has a non-empty `userId`. */
  function SessionSubject(c: Codec, env: Env, cookies: map<string, string>): (r: Option<string>)
    ensures r.Some? <==> PresentToken(cookies).Some? && VerifyJwt(c, env, PresentToken(cookies).value).Some?
                         && Truthy(UserIdOf(VerifyJwt(c, env, PresentToken(cookies).value).value))
    ensures r.Some? ==> r.value != ""
                        && r == UserIdOf(VerifyJwt(c, env, PresentToken(cookies).value).value)
  {
    match PresentToken(cookies)
    case None => None
    case Some(token) =>
      match VerifyJwt(c, env, token)
      case None => None
      case Some(claims) => if Truthy(UserIdOf(claims)) then UserIdOf(claims) else None
  }

  /** The handler. `fault` is a store failure during the lookup. */
  function GetSession(c: Codec, env: Env, cookies: map<string, string>, rows: seq<User>, fault: bool)
    : (r: Response<SessionBody>)
    ensures r.cookie.None?
    ensures r.status == 200 || r.status == 500
    ensures r.status == 500 <==> SessionSubject(c, env, cookies).Some? && fault
    ensures r.body.user.Some? <==>
              SessionSubject(c, env, cookies).Some? && !fault
              && FindById(rows, SessionSubject(c, env, cookies).value).Some?
    ensures r.body.user.Some? ==>
              r.body.user.value == Project(FindById(rows, SessionSubject(c, env, cookies).value).value)
              && r.body.error.None?
    ensures r.body.user.None? ==> r.body.error.Some?
  {
    match PresentToken(cookies)
    case None => Json(SessionBody(None, Some("No authentication token found")))
    case Some(token) =>
      match VerifyJwt(c, env, token)
      case None => Json(SessionBody(None, Some("Invalid authentication token")))
      case Some(claims) =>
        if !Truthy(UserIdOf(claims)) then Json(SessionBody(None, Some("Invalid token payload")))
        else if fault then JsonWithStatus(SessionBody(None, Some("Session verification failed")), 500)
        else match FindById(rows, UserIdOf(claims).value)
          case None => Json(SessionBody(None, Some("User not found")))
          case Some(u) => Json(SessionBody(Some(Project(u)), None))
  }

  /** The error text distinguishes the failure causes, in the handler's order. */
  lemma {:induction false} SessionErrors(c: Codec, env: Env, cookies: map<string, string>, rows: seq<User>)
    ensures var r := GetSession(c, env, cookies, rows, false);
            && (PresentToken(cookies).None? ==> r.body.error == Some("No authentication token found"))
            && (PresentToken(cookies).Some? && VerifyJwt(c, env, PresentToken(cookies).value).None? ==>
                  r.body.error == Some("Invalid authentication token"))
            && (PresentToken(cookies).Some? && VerifyJwt(c, env, PresentToken(cookies).value).Some?
                && !Truthy(UserIdOf(VerifyJwt(c, env, PresentToken(cookies).value).value)) ==>
                  r.body.error == Some("Invalid token payload"))
            && (SessionSubject(c, env, cookies).Some? && FindById(rows, SessionSubject(c, env, cookies).value).None? ==>
                  r.body.error == Some("User not found"))
  {
  }

  /** The role reported is the one stored for the account now, not the one
      signed into the token: an account whose role changed after login is
      reported with its new role. */
  lemma {:induction false} RoleComesFromStore(c: Codec, env: Env, rows: seq<User>, k: nat,
                                              userId: string, tokenRole: Role)
    requires Faithful(c) && UniqueKeys(rows) && k < |rows|
    requires rows[k].id == userId && userId != ""
    ensures var r := GetSession(c, env, map[COOKIE_NAME := SignJwt(c, env, userId, tokenRole)], rows, false);
            r.status == 200 && r.body.user == Some(Project(rows[k])) && r.body.user.value.role == rows[k].role
  {
    SessionRoundTrip(c, env, userId, tokenRole, env.now);
    assert env.(now := env.now) == env;
    FindByIdUnique(rows, k);
  }

  /** A token whose account has been deleted resolves to no user. */
  lemma {:induction false} DeletedAccountHasNoSession(c: Codec, env: Env, rows: seq<User>, userId: string, role: Role)
    requires Faithful(c) && userId != ""
    requires forall u :: u in rows ==> u.id != userId
    ensures var r := GetSession(c, env, map[COOKIE_NAME := SignJwt(c, env, userId, role)], rows, false);
            r.status == 200 && r.body == SessionBody(None, Some("User not found"))
  {
    SessionRoundTrip(c, env, userId, role, env.now);
    assert env.(now := env.now) == env;
  }
}
