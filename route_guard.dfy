/** The edge middleware of middleware.ts: classifies a page request by path
    and by whether its `CHURCH_TOKEN` cookie verifies (signature and expiry
    only), and either lets it through or redirects to a login page. */
module RouteGuard {
  import opened Base
  import opened Tokens
  import opened Cookies

  datatype Decision = Next | Redirect(location: string)

  /** The allow-list checked first. Inside the two guarded namespaces it
      admits only the two login pages and the registration page. */
  predicate IsPublic(path: string)
    ensures IsPublic(path) && InGuardedNamespace(path) ==>
              path in {"/admin/login", "/member/login", "/member/register"}
  {
    ApiOutsideNamespaces(path);
    path == "/" || StartsWith(path, "/api/")
    || path == "/admin/login" || path == "/member/login" || path == "/member/register"
  }

  /** The two guarded namespaces, by plain string prefix. */
  predicate InGuardedNamespace(path: string) {
    StartsWith(path, "/admin") || StartsWith(path, "/member")
  }

  /** The login page of the namespace a path belongs to. */
  function LoginPageFor(path: string): string {
    if StartsWith(path, "/admin") then "/admin/login" else "/member/login"
  }

  /** Whether the request carries a session token that `jwtVerify` accepts. */
  predicate HasValidSession(c: Codec, env: Env, cookies: map<string, string>) {
    PresentToken(cookies).Some? && VerifyJwt(c, env, PresentToken(cookies).value).Some?
  }

  /** `middleware(req)` */
  function Middleware(c: Codec, env: Env, path: string, cookies: map<string, string>): (d: Decision)
    ensures IsPublic(path) ==> d == Next
    ensures !IsPublic(path) && InGuardedNamespace(path) ==>
              (d == Next <==> HasValidSession(c, env, cookies))
              && (d != Next ==> d == Redirect(LoginPageFor(path)))
    ensures !InGuardedNamespace(path) ==> d == Next
  {
    if IsPublic(path) then Next
    else if InGuardedNamespace(path) then
      match PresentToken(cookies)
      case None => Redirect(LoginPageFor(path))
      case Some(token) =>
        if VerifyJwt(c, env, token).Some? then Next else Redirect(LoginPageFor(path))
    else Next
  }

  /** `config.matcher`: `/admin((?!/login$).*)` and `/member((?!/login$|/register$).*)`. */
  predicate MatcherSelects(path: string)
    ensures MatcherSelects(path) <==> InGuardedNamespace(path) && !IsPublic(path)
  {
    ApiOutsideNamespaces(path);
    NamespacesDisjoint("/admin/login");
    NamespacesDisjoint("/member/login");
    NamespacesDisjoint("/member/register");
    (StartsWith(path, "/admin") && path != "/admin/login")
    || (StartsWith(path, "/member") && path != "/member/login" && path != "/member/register")
  }

  /** What a request meets once the framework applies the matcher: paths it
      does not select are never shown to the middleware. */
  function Guard(c: Codec, env: Env, path: string, cookies: map<string, string>): Decision {
    if MatcherSelects(path) then Middleware(c, env, path, cookies) else Next
  }

  /** Within the two namespaces the matcher leaves out exactly the two login
      pages and the registration page. */
  lemma MatcherExclusions(path: string)
    requires InGuardedNamespace(path)
    ensures !MatcherSelects(path) <==> path in {"/admin/login", "/member/login", "/member/register"}
  {
    NamespacesDisjoint(path);
    NamespacesDisjoint("/admin/login");
    NamespacesDisjoint("/member/login");
    NamespacesDisjoint("/member/register");
  }

  /** No API path lies in a guarded namespace. */
  lemma ApiOutsideNamespaces(path: string)
    ensures StartsWith(path, "/api/") ==> !InGuardedNamespace(path)
  {
    if StartsWith(path, "/api/") {
      assert path[1] == "/api/"[1] == 'a' && path[2] == "/api/"[2] == 'p';
      assert "/admin"[2] == 'd' && "/member"[1] == 'm';
    }
  }

  /** No path lies in both namespaces. */
  lemma NamespacesDisjoint(path: string)
    ensures StartsWith(path, "/admin") ==> !StartsWith(path, "/member")
  {
    if StartsWith(path, "/admin") {
      assert path[1] == "/admin"[1] == 'a';
      assert "/member"[1] == 'm';
    }
  }

  /** The matcher never changes a decision: every path it leaves out is one the
      middleware itself lets through. */
  lemma MatcherIsTransparent(c: Codec, env: Env, path: string, cookies: map<string, string>)
    ensures Guard(c, env, path, cookies) == Middleware(c, env, path, cookies)
  {
    if !MatcherSelects(path) && InGuardedNamespace(path) {
      MatcherExclusions(path);
    }
  }

  /** Without a usable cookie, every non-public page under `/admin` or
      `/member` is redirected to its namespace's login page, never served. */
  lemma NoTokenRedirects(c: Codec, env: Env, path: string, cookies: map<string, string>)
    requires InGuardedNamespace(path) && !IsPublic(path)
    requires PresentToken(cookies).None?
    ensures Middleware(c, env, path, cookies) == Redirect(LoginPageFor(path))
    ensures LoginPageFor(path) == (if StartsWith(path, "/admin") then "/admin/login" else "/member/login")
  {
  }

  /** An invalid or expired token is treated exactly like no token at all. */
  lemma InvalidTokenLikeNoToken(c: Codec, env: Env, path: string, cookies: map<string, string>)
    requires PresentToken(cookies).Some? && VerifyJwt(c, env, PresentToken(cookies).value).None?
    ensures Middleware(c, env, path, cookies) == Middleware(c, env, path, cookies - {COOKIE_NAME})
  {
    assert PresentToken(cookies - {COOKIE_NAME}).None?;
  }

  /** The role inside a token plays no part: two requests whose tokens both
      verify (or both fail) get the same decision on the same path, whatever
      user and role they name. */
  lemma RoleIgnored(c: Codec, env: Env, path: string, token1: string, token2: string)
    requires token1 != "" && token2 != ""
    requires VerifyJwt(c, env, token1).Some? <==> VerifyJwt(c, env, token2).Some?
    ensures Middleware(c, env, path, map[COOKIE_NAME := token1])
         == Middleware(c, env, path, map[COOKIE_NAME := token2])
  {
  }

  /** A member's session passes the guard on admin pages: the guard checks
      authentication only, not the role. */
  lemma MemberTokenPassesAdminPages(c: Codec, env: Env, path: string, userId: string)
    requires Faithful(c)
    requires StartsWith(path, "/admin") && path != "/admin/login"
    ensures Middleware(c, env, path, map[COOKIE_NAME := SignJwt(c, env, userId, Member)]) == Next
  {
    SessionRoundTrip(c, env, userId, Member, env.now);
    assert env.(now := env.now) == env;
  }

  /** Every redirect lands on a public page, which the guard lets through
      whatever cookie comes with it: no redirect loops. */
  lemma {:induction false} RedirectTargetsArePublic(c: Codec, env: Env, path: string,
                                                    cookies: map<string, string>, next: map<string, string>)
    requires Middleware(c, env, path, cookies).Redirect?
    ensures IsPublic(Middleware(c, env, path, cookies).location)
    ensures Middleware(c, env, Middleware(c, env, path, cookies).location, next) == Next
  {
    var target := Middleware(c, env, path, cookies).location;
    assert target == LoginPageFor(path);
    assert target == "/admin/login" || target == "/member/login";
  }
}
