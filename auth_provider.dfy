/** The client-side auth context of lib/authProvider.tsx: a `(user, loading)`
    pair filled from GET /api/session, refreshed on demand, and cleared on
    logout, with the navigation logout performs. React's batching and
    overlapping refreshes are not modelled: each state update is atomic. */
module AuthContext {
  import opened Base
  import opened Session

  /** What `fetch('/api/session')` followed by `res.json()` produced: the
      decoded body of any response, or a network or decoding failure. */
  datatype FetchOutcome = Received(body: SessionBody) | Failed

  /** Whether `fetch('/api/logout')` completed or threw. */
  datatype LogoutOutcome = Completed | RequestThrew

  /** The user a finished fetch leaves in the context: the response's user
      when it has one, otherwise nobody, failures included. */
  function UserAfterFetch(outcome: FetchOutcome): (u: Option<SessionUser>)
    ensures u.Some? <==> outcome.Received? && outcome.body.user.Some?
    ensures u.Some? ==> u == outcome.body.user
  {
    if outcome.Received? then outcome.body.user else None
  }

  /** Where a completed logout sends the browser: chosen from the role held
      before logging out; anyone but an admin, nobody included, goes to the
      member login page. */
  function LoginPageAfterLogout(before: Option<SessionUser>): (path: string)
    ensures path == "/admin/login" <==> before.Some? && before.value.role == Admin
    ensures path == "/admin/login" || path == "/member/login"
  {
    if before.Some? && before.value.role == Admin then "/admin/login" else "/member/login"
  }

  class AuthProvider {
    var user: Option<SessionUser>
    var loading: bool
    /** The `router.push` calls made so far, oldest first. */
    var navigations: seq<Navigation>

    /** `useState(null)`, `useState(true)` */
    constructor ()
      ensures user == None && loading && navigations == []
    {
      user, loading, navigations := None, true, [];
    }

    /** `fetchUser`: sets the user from the outcome, then (in `finally`) clears
        `loading`, whatever happened. */
    method FetchUser(outcome: FetchOutcome)
      modifies this
      ensures user == UserAfterFetch(outcome)
      ensures !loading
      ensures navigations == old(navigations)
    {
      match outcome {
        case Received(body) =>
          if body.user.Some? {
            user := body.user;
          } else {
            user := None;
          }
        case Failed =>
          user := None;
      }
      loading := false;
    }

    /** The first step of `refreshUser`: `setLoading(true)` before the fetch starts. */
    method BeginRefresh()
      modifies this
      ensures loading
      ensures user == old(user) && navigations == old(navigations)
    {
      loading := true;
    }

    /** `refreshUser`: loading is raised, then the fetch runs to completion. */
    method RefreshUser(outcome: FetchOutcome)
      modifies this
      ensures user == UserAfterFetch(outcome)
      ensures !loading
      ensures navigations == old(navigations)
    {
      BeginRefresh();
      FetchUser(outcome);
    }

    /** `logout`: after the request completes the user is cleared and the
        browser sent to the login page for the previous role; if the request
        throws, the user stays and the browser goes to the admin login page.
        `loading` is never touched. */
    method Logout(outcome: LogoutOutcome)
      modifies this
      ensures outcome == Completed ==>
                user == None && navigations == old(navigations) + [Push(LoginPageAfterLogout(old(user)))]
      ensures outcome == RequestThrew ==>
                user == old(user) && navigations == old(navigations) + [Push("/admin/login")]
      ensures loading == old(loading)
    {
      var before := user;
      if outcome == Completed {
        user := None;
        navigations := navigations + [Push(LoginPageAfterLogout(before))];
      } else {
        navigations := navigations + [Push("/admin/login")];
      }
    }
  }

  /** `useAuth()`: the context value, or an error when used outside the provider. */
  function UseAuth(ctx: Option<AuthProvider>): (r: Result<AuthProvider, string>)
    ensures r.Err? <==> ctx.None?
    ensures r.Err? ==> r.error == "useAuth must be inside AuthProvider"
    ensures r.Ok? ==> r.value == ctx.value
  {
    UseContext(ctx, "useAuth must be inside AuthProvider")
  }

  /** A user in the context always comes from a session lookup that succeeded:
      the cookie's token verified and named an existing account, and the
      context holds that account's projection. */
  lemma {:induction false} ContextUserIsResolved(c: Tokens.Codec, env: Tokens.Env, cookies: map<string, string>,
                                                 rows: seq<Users.User>, fault: bool)
    ensures var u := UserAfterFetch(Received(GetSession(c, env, cookies, rows, fault).body));
            u.Some? ==> SessionSubject(c, env, cookies).Some?
                        && Users.FindById(rows, SessionSubject(c, env, cookies).value).Some?
                        && u.value == Project(Users.FindById(rows, SessionSubject(c, env, cookies).value).value)
  {
  }
}
