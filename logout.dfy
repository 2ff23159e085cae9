/** POST /api/logout (app/api/logout/route.ts): answers `{ success: true }`
    and overwrites the session cookie with an empty one that expires at once.
    It reads nothing from the request. */
module Logout {
  import opened Base
  import opened Cookies
  import opened Http

  /** `{ success: true }`. The handler's catch branch (500 "Logout failed")
      guards two calls that do not throw, so it has no counterpart here. */
  datatype LogoutBody = Success

  /** The cleared cookie this endpoint writes: empty value, `maxAge: 0`. */
  function LogoutCookie(production: bool): Cookie {
    SessionCookieWith("", 0, production)
  }

  /** The handler's response; its only input is the deployment mode. */
  function PostLogout(production: bool): (r: Response<LogoutBody>)
    ensures r.status == 200 && r.body == Success
    ensures r.cookie.Some? && HasSessionAttributes(r.cookie.value, production)
    ensures r.cookie.value.value == "" && r.cookie.value.maxAge == 0
  {
    Response(200, Success, Some(LogoutCookie(production)))
  }

  /** Whatever the browser held before, including no session at all, after
      logout it holds no session cookie and every other cookie unchanged; the
      effect is the same as that of `clearSessionCookie`. */
  lemma LogoutEndsSession(jar: Jar, production: bool)
    ensures Receive(jar, PostLogout(production).cookie.value) == jar - {COOKIE_NAME}
    ensures Receive(jar, PostLogout(production).cookie.value) == Receive(jar, ClearedCookie(production))
  {
  }

  /** Logging out after logging in leaves the browser as it was before the login,
      minus any session cookie it had. */
  lemma LoginThenLogout(jar: Jar, token: string, production: bool)
    ensures Receive(Receive(jar, SessionCookie(token, production)), PostLogout(production).cookie.value)
            == jar - {COOKIE_NAME}
  {
    SetThenClearRemovesToken(jar, token, production);
  }
}
