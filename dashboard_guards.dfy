/** The role checks of the two dashboard layouts
    (app/admin/dashboard/layout.tsx, app/member/dashboard/layout.tsx): the
    second, client-side layer of protection behind the route guard. Each
    layout reads `(user, loading)` from the auth context and decides what to
    render and whether its effect navigates away. */
module DashboardGuards {
  import opened Base
  import opened Session
  import Tokens
  import Users
  import Cookies
  import RouteGuard
  import AuthContext

  /** What a layout renders: the centred loader or the page's children. */
  datatype View = Loader | Children

  /** The admin layout's effect: `router.push('/admin/login')` once loading is
      over and there is no admin. */
  function AdminRedirect(loading: bool, user: Option<SessionUser>): (nav: Option<Navigation>)
    ensures nav.Some? <==> !loading && (user.None? || user.value.role != Admin)
    ensures nav.Some? ==> nav.value == Push("/admin/login")
  {
    if !loading && (user.None? || user.value.role != Admin) then Some(Push("/admin/login")) else None
  }

  /** The admin layout's render: the loader while loading, the children
      otherwise, for any user or none. */
  function AdminView(loading: bool, user: Option<SessionUser>): (v: View)
    ensures v == Loader <==> loading
  {
    if loading then Loader else Children
  }

  /** The member layout's effect: `router.replace('/member/login')` once
      loading is over and there is no member. */
  function MemberRedirect(loading: bool, user: Option<SessionUser>): (nav: Option<Navigation>)
    ensures nav.Some? <==> !loading && (user.None? || user.value.role != Member)
    ensures nav.Some? ==> nav.value == Replace("/member/login")
  {
    if !loading && (user.None? || user.value.role != Member) then Some(Replace("/member/login")) else None
  }

  /** The member layout's render: the loader while loading or while there is
      no user, the children otherwise. */
  function MemberView(loading: bool, user: Option<SessionUser>): (v: View)
    ensures v == Children <==> !loading && user.Some?
  {
    if loading || user.None? then Loader else Children
  }

  /** Neither layout navigates while the session is still loading, and both
      show the loader then. */
  lemma QuietWhileLoading(user: Option<SessionUser>)
    ensures AdminRedirect(true, user).None? && MemberRedirect(true, user).None?
    ensures AdminView(true, user) == Loader && MemberView(true, user) == Loader
  {
  }

  /** The redirect is the admin layout's only protection: once loaded, it
      renders its children to a member, or to nobody, in the same pass in
      which it pushes the login page. */
  lemma AdminLayoutRendersBeforeRedirect(user: Option<SessionUser>)
    requires user.None? || user.value.role == Member
    ensures AdminView(false, user) == Children
    ensures AdminRedirect(false, user) == Some(Push("/admin/login"))
  {
  }

  /** An admin on a member page sees its children while being sent away. */
  lemma MemberLayoutShowsAdmins(user: SessionUser)
    requires user.role == Admin
    ensures MemberView(false, Some(user)) == Children
    ensures MemberRedirect(false, Some(user)) == Some(Replace("/member/login"))
  {
  }

  /** Each layout lets exactly its own role stay: a loaded user is redirected
      by exactly one of the two layouts. */
  lemma ExactlyOneLayoutRedirects(user: SessionUser)
    ensures AdminRedirect(false, Some(user)).Some? != MemberRedirect(false, Some(user)).Some?
  {
  }

  /** The two layers together: a member's valid session reaches an admin page
      through the route guard, and the admin layout, once the context has
      resolved the session, sends the member to the admin login page. */
  lemma {:induction false} MemberStoppedOnlyByAdminLayout(c: Tokens.Codec, env: Tokens.Env, rows: seq<Users.User>,
                                                           k: nat, path: string)
    requires Tokens.Faithful(c) && Users.UniqueKeys(rows) && k < |rows|
    requires rows[k].role == Member && rows[k].id != ""
    requires StartsWith(path, "/admin") && path != "/admin/login"
    ensures var cookies := map[Cookies.COOKIE_NAME := Tokens.SignJwt(c, env, rows[k].id, Member)];
            && RouteGuard.Middleware(c, env, path, cookies) == RouteGuard.Next
            && var u := AuthContext.UserAfterFetch(AuthContext.Received(GetSession(c, env, cookies, rows, false).body));
               u == Some(Project(rows[k])) && AdminRedirect(false, u) == Some(Push("/admin/login"))
  {
    RouteGuard.MemberTokenPassesAdminPages(c, env, path, rows[k].id);
    RoleComesFromStore(c, env, rows, k, rows[k].id, Member);
  }
}
