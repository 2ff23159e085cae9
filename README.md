# Church portal: authentication, guards and list endpoints in Dafny

This project models the core of a Next.js church-members portal: its
session-based authentication and the small decision procedures and state
containers built on it.

- **Session token and cookie.** A session is a signed JWT held in the
  `CHURCH_TOKEN` cookie. The edge middleware lets a page request through or
  redirects it to the login page of its namespace. The admin and member
  dashboards add a second, client-side role check.
- **API routes.** They log users in and out, resolve the current session,
  register members, update a member's profile, publish notices (the
  previous one is soft-deleted), and list the active notice, removed notices
  and blogs.
- **Client helpers.** The client keeps the session in an auth context,
  shows toasts, and toggles rich-text marks and blocks.

Each source file of the core becomes one Dafny module:

| module | file | source |
|---|---|---|
| `Base` | base.dfy | shared vocabulary: `Option`/`Result`, roles, navigations, JavaScript truthiness, `??`, `trim`, `split('@')[0]`, the `useContext` guard |
| `Tokens` | tokens.dfy | `signJwt`/`verifyJwt`/`signResetToken`/`verifyResetToken` over an uninterpreted codec |
| `Cookies` | cookies.dfy | the cookie attribute set, and what a browser does with a `Set-Cookie` (section 5.3 of RFC 6265) |
| `AuthApi` | auth_api.dfy | `getTokenFromReq`, `setSessionCookie`, `clearSessionCookie`, `requireAuthApi`; the mutated `NextApiResponse` is a class |
| `RouteGuard` | route_guard.dfy | `middleware` and its `config.matcher` |
| `Users` | users.dfy | the user table with its two unique keys; `findUnique`, `create`, `update` |
| `Http` | http.dfy | JSON responses, and handlers that return or throw |
| `Login` | login.dfy | the admin and member login endpoints |
| `Logout` | logout.dfy | the logout endpoint |
| `Session` | session.dfy | the session endpoint |
| `AuthContext` | auth_provider.dfy | the `AuthProvider` state, a class with `user`, `loading` and the navigations |
| `DashboardGuards` | dashboard_guards.dfy | the two dashboard layouts |
| `RegisterApi` | register_api.dfy | the registration endpoint |
| `RegisterPage` | register_page.dfy | the registration page, a class with `form`, `loading`, `error` |
| `Profile` | profile_api.dfy | the profile update endpoint |
| `Paging` | pagination.dfy | shared by the two paginated endpoints: defaults, `skip`, newest-first ordering, the `skip`/`take` window |
| `Notices` | notices.dfy | publishing, the active notice and the removed list; the notice table is a class |
| `Blogs` | blogs.dfy | the blog listing |
| `Toasts` | toast.dfy | the toast queue, a class |
| `Slate` | slate.dfy | the editor helpers, a class over an abstract editor |

**Handlers.** A read-only handler is a function of its inputs that returns
a response: a status, a body and an optional `Set-Cookie`.

- **Uncaught exceptions.** A handler that can throw an exception it does not
  catch returns `Handled`: a response, or `Threw`.
- **Handlers that write to the store.** Such a handler has two parts:
  - a specification function that returns the response together with the
    table it leaves behind;
  - a method on the mutable table whose postcondition ties the new table and
    the response to that function.
- **Store failures** are explicit boolean inputs.

**Tokens and time.** The signing library is a pair of functions, `encode`
and `decode`. The round trip it promises is the predicate `Tokens.Faithful`,
taken as a hypothesis and never proved. Verification accepts a token
exactly when it decodes, was signed under the same secret, and the current
time is before its `exp` claim (section 4.1.4 of RFC 7519). The clock is
part of the environment record `Tokens.Env`.

**Where the code and its specification disagree.** The model follows the
code in each case:

- The admin login answers 404 for an unknown address and 401 for a wrong
  password, and it does not check the role.
- The notice endpoint does not catch an invalid token. The request then
  ends in an uncaught exception, not a 401.
- The logout endpoint clears the cookie with Max-Age 0, while
  `clearSessionCookie` uses -1. Both delete the cookie.
- After a successful registration the page navigates to `/login`. That
  path is not one of the two login pages the rest of the application uses.
  The model records the navigation as written.

## Model

| member | source | states |
|---|---|---|
| Base.Coalesce | app/api/members/register/route.ts:25-26 | `a ?? b` takes `b` only when `a` is absent; an empty string is kept |
| Base.Trim | app/api/admin/notices/route.ts:16 | the result is the infix of the input left when leading and trailing white space is cut, and neither starts nor ends with white space |
| Base.TrimEmptyIffBlank | app/api/admin/notices/route.ts:16 | trimming leaves nothing exactly when the text is all white space |
| Base.TrimIdempotent | app/api/members/profile/route.ts:55-56 | trimming a trimmed value changes nothing |
| Base.LocalPart | app/api/admin/blogs/route.ts:27 | the result is a prefix of the address without `@`, followed in the address by `@` unless it is the whole address |
| Base.LocalPartOfAddress | app/api/admin/blogs/route.ts:27 | the local part of `local@domain` is `local` when `local` holds no `@` |
| Base.UseContext | lib/authProvider.tsx:92-95 | a hook outside its provider fails with its message; inside it returns the context value |
| Tokens.Verify | lib/auth.ts:36-38 | a token is accepted exactly when it decodes, its secret matches and the time is before its expiry; the result is the signed claims |
| Tokens.SignJwt | lib/auth.ts:32-34 | under a faithful codec the token is non-empty and decodes to the session claims, signed with the session secret, expiring seven days after signing |
| Tokens.VerifyJwt | lib/auth.ts:36-38 | a token is accepted exactly when it decodes, was signed with the session secret and has not expired; the result is its claims |
| Tokens.SignResetToken | lib/auth.ts:86-88 | under a faithful codec the token is non-empty and decodes to the reset claims, signed with the reset secret, expiring one hour after signing |
| Tokens.VerifyResetToken | lib/auth.ts:90-92 | a token is accepted exactly when it decodes, was signed with the reset secret and has not expired; the result is its claims |
| Tokens.UserIdOf | app/api/session/route.ts:34-40 | a payload has a `userId` exactly when it is a session payload |
| Tokens.SessionRoundTrip | lib/auth.ts:32-38 | a session token verifies to the claims it was signed with at every moment of its seven-day lifetime |
| Tokens.SessionExpires | lib/auth.ts:32-34 | from seven days after signing, the session token no longer verifies |
| Tokens.ForeignSecretRefused | lib/auth.ts:36-38 | a token signed under another secret is refused |
| Tokens.ResetRoundTrip | lib/auth.ts:86-92 | a reset token verifies to its e-mail within one hour, under the reset secret |
| Tokens.TokenKindsSeparated | lib/auth.ts:86-92 | with distinct secrets, a reset token is not a session token and the reverse |
| Cookies.SessionCookieWith | lib/auth.ts:12-17 | every cookie written is `CHURCH_TOKEN`, HttpOnly, Path `/`, SameSite lax, Secure exactly in production |
| Cookies.PresentToken | middleware.ts:6 | the token is the cookie's value when the cookie is present and non-empty, none otherwise |
| Cookies.Receive | lib/auth.ts:54-59 | a cookie with Max-Age at most 0 removes the stored cookie of that name; any other replaces it; other cookies are untouched |
| Cookies.SetAndClearDifferOnlyInValueAndAge | lib/auth.ts:41-59 | the set and cleared cookies carry the session attributes and differ only in value and Max-Age |
| Cookies.SetThenClearRemovesToken | lib/auth.ts:41-59 | after a set the browser holds the token; clearing afterwards leaves the other cookies as before and no session cookie |
| AuthApi.GetTokenFromReq | lib/auth.ts:61-66 | no token without a non-empty `Cookie` header or without a non-empty `CHURCH_TOKEN` entry; otherwise that entry verbatim |
| AuthApi.SetSessionCookie | lib/auth.ts:41-52 | the response gets the session cookie with the token and Max-Age 604800; status and body untouched |
| AuthApi.ClearSessionCookie | lib/auth.ts:54-59 | the response gets the cleared cookie, empty with Max-Age -1; status and body untouched |
| AuthApi.RequireAuthApi | lib/auth.ts:68-83 | no token: 401 "Not authenticated" and an error; unverifiable token: 401 "Invalid token" and an error; otherwise the payload with the response untouched |
| AuthApi.FreshSessionPassesGate | lib/auth.ts:61-83 | a request carrying a freshly issued session cookie yields the token and its signed claims |
| RouteGuard.Middleware | middleware.ts:5-50 | public paths and paths outside both namespaces pass; a guarded path passes exactly when its token verifies, else goes to its namespace's login page |
| RouteGuard.IsPublic | middleware.ts:10-18 | inside the two guarded namespaces only `/admin/login`, `/member/login` and `/member/register` are public |
| RouteGuard.ApiOutsideNamespaces | middleware.ts:12-21 | no `/api/` path lies in a guarded namespace |
| RouteGuard.MatcherSelects | middleware.ts:52-57 | the matcher selects exactly the paths of the two namespaces that the allow-list does not admit |
| RouteGuard.MatcherExclusions | middleware.ts:52-57 | within the namespaces the matcher leaves out exactly `/admin/login`, `/member/login` and `/member/register` |
| RouteGuard.NamespacesDisjoint | middleware.ts:21-29 | no path has both the `/admin` and the `/member` prefix |
| RouteGuard.MatcherIsTransparent | middleware.ts:52-57 | applying the matcher before the middleware never changes a decision |
| RouteGuard.NoTokenRedirects | middleware.ts:21-29 | without a token a guarded non-public path goes to `/admin/login` under `/admin`, else to `/member/login` |
| RouteGuard.InvalidTokenLikeNoToken | middleware.ts:31-45 | a token that fails verification gives the same decision as no token |
| RouteGuard.RoleIgnored | middleware.ts:31-37 | two tokens that both verify, or both fail, get the same decision whatever role they carry |
| RouteGuard.MemberTokenPassesAdminPages | middleware.ts:31-37 | a member's valid session passes every admin page |
| RouteGuard.RedirectTargetsArePublic | middleware.ts:10-45 | every redirect target is public and is let through on arrival with any cookie |
| Users.IndexOf | app/api/admin/login/route.ts:10 | the position found holds the key in the column searched (id or e-mail); none means no row has it; the search runs from the end, which under the unique keys finds the only match |
| Users.FindByEmail | app/api/admin/login/route.ts:10 | the row found is in the table with that e-mail; none means no row has it |
| Users.FindById | app/api/session/route.ts:43-56 | the row found is in the table with that id; none means no row has it |
| Users.FindByEmailUnique | app/api/members/register/route.ts:59 | under the unique keys a lookup by e-mail finds the one row with it |
| Users.FindByIdUnique | app/api/session/route.ts:43-56 | under the unique keys a lookup by id finds the one row with it |
| Users.Created | app/api/members/register/route.ts:67-86 | `create` succeeds exactly without a fault and with both keys unused, and appends the row |
| Users.Updated | app/api/members/profile/route.ts:70-88 | `update` succeeds exactly without a fault, with the id present and the new e-mail unused by other rows; only that row changes |
| Users.CreatedKeepsKeys | app/api/members/register/route.ts:67-86 | creating keeps the unique keys |
| Users.UpdatedKeepsKeys | app/api/members/profile/route.ts:70-88 | updating keeps the unique keys |
| Users.UserTable.Create | app/api/members/register/route.ts:67-86 | the new rows are those of `Created`, unchanged on failure; keys stay unique |
| Users.UserTable.Update | app/api/members/profile/route.ts:70-88 | the new rows are those of `Updated`, unchanged on failure; keys stay unique |
| Login.AdminLogin | app/api/admin/login/route.ts:6-35 | 404 "User not found" exactly for an unknown e-mail; 401 "Invalid credentials" on a wrong password; otherwise 200 with id, role, e-mail and the session cookie; a cookie only on 200; throws on a bad body or store failure |
| Login.MemberLogin | app/api/members/login/route.ts:7-58 | 404 for an unknown e-mail or a non-member; 401 "Incorrect password" after the role check; 200 with the session cookie; any failure 500 "Internal server error"; a cookie only on 200 |
| Login.WelcomeIssuesSession | app/api/admin/login/route.ts:22-34 | the success cookie carries the session attributes, Max-Age 604800, and a token for the account's id and role |
| Login.AdminLoginAcceptsMembers | app/api/admin/login/route.ts:10-24 | a member with the right password gets 200 and a member token from the admin endpoint |
| Login.MemberLoginRefusesAdmins | app/api/members/login/route.ts:22-27 | an admin account gets 404 from the member endpoint whatever the password |
| Login.EndpointsAgreeOnMembers | app/api/members/login/route.ts:22-51 | for members and unknown e-mails both endpoints give the same status and cookie, and the same body on success |
| Logout.PostLogout | app/api/logout/route.ts:3-16 | always 200 `{ success: true }` with an empty session cookie of Max-Age 0 and the session attributes |
| Logout.LogoutEndsSession | app/api/logout/route.ts:8-14 | whatever the browser held, afterwards it holds no session cookie and the rest unchanged, as with `clearSessionCookie` |
| Logout.LoginThenLogout | app/api/logout/route.ts:8-14 | logging in then out leaves the browser as before, minus any session cookie |
| Session.GetSession | app/api/session/route.ts:5-87 | status 200 except a store failure (500); a user exactly when the token verifies, names an id and the row exists, and then its five-field projection; an error text otherwise; never a cookie |
| Session.SessionSubject | app/api/session/route.ts:13-40 | an id exactly when the cookie holds a token that verifies and whose payload has a non-empty `userId`, and then that id |
| Session.SessionErrors | app/api/session/route.ts:13-64 | the error texts for no token, an invalid token, a payload without id and a missing account, in that order |
| Session.RoleComesFromStore | app/api/session/route.ts:43-75 | the role reported is the stored one, not the one in the token |
| Session.DeletedAccountHasNoSession | app/api/session/route.ts:58-64 | a valid token for a deleted account gives no user and "User not found" |
| AuthContext.UserAfterFetch | lib/authProvider.tsx:44-55 | the user is the response's user when present, none otherwise, failures included |
| AuthContext.LoginPageAfterLogout | lib/authProvider.tsx:81 | `/admin/login` exactly for an admin before logout, `/member/login` otherwise |
| AuthContext.AuthProvider.constructor | lib/authProvider.tsx:30-31 | no user, loading, no navigation |
| AuthContext.AuthProvider.FetchUser | lib/authProvider.tsx:34-59 | the user from the fetch, and loading false on every outcome |
| AuthContext.AuthProvider.BeginRefresh | lib/authProvider.tsx:62 | loading is raised before the fetch; nothing else changes |
| AuthContext.AuthProvider.RefreshUser | lib/authProvider.tsx:61-64 | ends with the fetched user and loading false |
| AuthContext.AuthProvider.Logout | lib/authProvider.tsx:70-87 | on completion: no user and one push to the previous role's login page; on failure: user kept and a push to `/admin/login`; loading untouched |
| AuthContext.UseAuth | lib/authProvider.tsx:92-95 | outside the provider it fails with "useAuth must be inside AuthProvider" |
| AuthContext.ContextUserIsResolved | lib/authProvider.tsx:44-48 | a user in the context is the projection of the account the cookie's verified token names |
| DashboardGuards.AdminRedirect | app/admin/dashboard/layout.tsx:13-17 | a push to `/admin/login` exactly when loading is over and there is no admin |
| DashboardGuards.AdminView | app/admin/dashboard/layout.tsx:19-21 | the loader exactly while loading, the children otherwise |
| DashboardGuards.MemberRedirect | app/member/dashboard/layout.tsx:16-20 | a replace to `/member/login` exactly when loading is over and there is no member |
| DashboardGuards.MemberView | app/member/dashboard/layout.tsx:22-26 | the children exactly when loading is over and a user is present |
| DashboardGuards.QuietWhileLoading | app/admin/dashboard/layout.tsx:14-19 | while loading neither layout navigates and both show the loader |
| DashboardGuards.AdminLayoutRendersBeforeRedirect | app/admin/dashboard/layout.tsx:13-21 | once loaded, a member or nobody sees the admin children while being redirected |
| DashboardGuards.MemberLayoutShowsAdmins | app/member/dashboard/layout.tsx:16-26 | an admin sees the member children while being redirected |
| DashboardGuards.ExactlyOneLayoutRedirects | app/member/dashboard/layout.tsx:17 | a loaded user is redirected by exactly one of the two layouts |
| DashboardGuards.MemberStoppedOnlyByAdminLayout | app/admin/dashboard/layout.tsx:13-21 | a member's session passes the middleware on admin pages, and only the admin layout sends it away |
| Toasts.MakeToast | lib/toast.tsx:22-29 | kind defaults to info, duration to 3000, and a duration of 0 becomes 3000; a supplied kind and a supplied non-zero duration are kept as given |
| Toasts.WithoutMembers | lib/toast.tsx:33 | removal keeps exactly the toasts with another id |
| Toasts.WithoutAppend | lib/toast.tsx:33 | removal distributes over concatenation, so the order of the rest is kept |
| Toasts.WithoutAbsent | lib/toast.tsx:33 | removing an id nobody has leaves the list unchanged |
| Toasts.PushThenRemove | lib/toast.tsx:22-34 | removing a toast just pushed with a fresh id restores the list |
| Toasts.ToastProvider.constructor | lib/toast.tsx:20 | the list starts empty |
| Toasts.ToastProvider.Push | lib/toast.tsx:22-30 | exactly one toast is appended at the end |
| Toasts.ToastProvider.Remove | lib/toast.tsx:32-34 | the list becomes the filtered list, proved for the loop that builds it |
| Toasts.UseToast | lib/toast.tsx:44-48 | outside the provider it fails with "useToast must be inside ToastProvider"; inside it gives the provider, whose `Push` stands for `push` |
| Toasts.UseToasts | lib/toast.tsx:50-54 | outside the provider it fails with "useToasts must be inside ToastProvider"; inside it gives the list |
| RegisterApi.Validate | app/api/members/register/route.ts:25-56 | the four presence errors in order (an empty string counts as missing), then the date error; success exactly when all pass |
| RegisterApi.NewMember | app/api/members/register/route.ts:67-75 | the row is a member with the name, e-mail, hash and date given |
| RegisterApi.Project | app/api/members/register/route.ts:76-84 | the answer keeps id, e-mail, role and name, and has no hash |
| RegisterApi.Register | app/api/members/register/route.ts:15-91 | 400 "Invalid JSON"; the validation errors; 409 exactly for a taken e-mail; past those checks, 201 exactly when the store accepts the new member row, which is appended, and otherwise 500 "Database error" with the table unchanged |
| RegisterApi.EmptyNameShadowsFullName | app/api/members/register/route.ts:25-32 | an empty `name` hides a present `fullName`: "Name is required" |
| RegisterApi.RegisterKeepsKeys | app/api/members/register/route.ts:59-90 | registering keeps the table's unique keys |
| RegisterApi.RegisterThenMemberLogin | app/api/members/register/route.ts:64-86 | a new member can log in at once at the member endpoint with its password |
| RegisterApi.RegisterMember | app/api/members/register/route.ts:15-91 | the response and new table are those of `Register`; keys stay unique |
| RegisterPage.WithField | app/member/register/page.tsx:23-25 | only the named field takes the new value |
| RegisterPage.IsValid | app/member/register/page.tsx:27-32 | a valid form has non-empty name, e-mail and date and a confirmation equal to a password of six or more characters |
| RegisterPage.RequestBody | app/member/register/page.tsx:47-52 | the body carries `fullName`, `email`, `dob` and `password`, never the confirmation |
| RegisterPage.ValidFormPassesPresenceChecks | app/member/register/page.tsx:27-52 | a form the page accepts passes the endpoint's four presence checks |
| RegisterPage.RegisterPage.constructor | app/member/register/page.tsx:11-19 | empty form, not loading, no error |
| RegisterPage.RegisterPage.HandleChange | app/member/register/page.tsx:23-25 | the form becomes `WithField` of the old form; nothing else changes |
| RegisterPage.RegisterPage.BeginRequest | app/member/register/page.tsx:41-53 | loading is raised and the request body recorded |
| RegisterPage.RegisterPage.HandleSubmit | app/member/register/page.tsx:34-71 | invalid form: an error toast and no request; 409, other failures and success each give their toast, success also a push; a thrown request sets the error; loading ends false |
| Profile.Contribution | app/api/members/profile/route.ts:59-67 | an optional field contributes its trimmed value exactly when present and not blank |
| Profile.BuildUpdateData | app/api/members/profile/route.ts:53-67 | the record holds the trimmed name and e-mail, the date, and each optional field exactly when supplied |
| Profile.Apply | app/api/members/profile/route.ts:70-88 | name, e-mail and date are written; each optional field only when in the record; every other column kept |
| Profile.Store | app/api/members/profile/route.ts:69-95 | 200 exactly when the caller has a row, the date parses and the store accepts the updated row, answering that row without its hash and leaving the updated table; otherwise 500 "Failed to update profile" and the table unchanged |
| Profile.StoreUpdate | app/api/members/profile/route.ts:69-95 | against the table: the response and the new rows are exactly those of `Store`; keys stay unique |
| Profile.PutProfile | app/api/members/profile/route.ts:6-98 | 401 "Not authenticated" or "Invalid token"; 400 on a missing field; 409 exactly when another account holds the e-mail as sent; past the 409 check, the outcome is the store step `Store` on the record built from the body (200 or 500); the table changes only on 200 |
| Profile.UpdateTouchesOnlyCaller | app/api/members/profile/route.ts:54-88 | a successful update rewrites the caller's row with the submitted values and leaves every other row |
| Profile.OwnEmailAccepted | app/api/members/profile/route.ts:45-51 | the caller's own e-mail is not a conflict |
| Profile.PaddedEmailReachesStore | app/api/members/profile/route.ts:45-58 | an e-mail padded with a space escapes the 409 check and is refused by the store with 500 |
| Profile.UpdateProfile | app/api/members/profile/route.ts:6-98 | the response and new table are those of `PutProfile`; keys stay unique |
| Paging.ParamOr | app/api/admin/notices/removed/route.ts:7-8 | a missing parameter takes the handler's default |
| Paging.Insert | app/api/admin/notices/removed/route.ts:13 | inserting adds exactly one element |
| Paging.InsertDescending | app/api/admin/notices/removed/route.ts:13 | inserting into a newest-first list keeps it newest first |
| Paging.SortDesc | app/api/admin/notices/removed/route.ts:13 | the ordering is a permutation of the rows |
| Paging.SortDescDescending | app/api/admin/notices/removed/route.ts:13 | the ordering is newest first, rows without a key last |
| Paging.Window | app/api/admin/notices/removed/route.ts:14-15 | refused exactly for a negative skip or take; otherwise at most `take` rows, the ones from rank `skip` on |
| Paging.RankOnPage | app/api/admin/notices/removed/route.ts:9-15 | the row of rank k is item k mod limit of page k div limit + 1 |
| Paging.PagesDisjoint | app/api/admin/notices/removed/route.ts:9 | distinct pages cover disjoint rank ranges |
| Paging.PageZeroRefused | app/api/admin/notices/removed/route.ts:8-9 | a page below one gives a negative skip, which the store refuses |
| Notices.SoftDeleted | app/api/admin/notices/route.ts:25-32 | an active row becomes removed by the caller at that time; a removed row is untouched |
| Notices.SoftDeleteAll | app/api/admin/notices/route.ts:25-32 | every row is soft-deleted in place |
| Notices.CountActivePositive | app/api/admin/notices/route.ts:43-47 | `removedPrevious` holds exactly when some notice was active |
| Notices.NewNotice | app/api/admin/notices/route.ts:34-40 | the new notice is active with the trimmed text and the caller as author |
| Notices.PublishLeavesOneActive | app/api/admin/notices/route.ts:23-41 | after publishing exactly one notice is active, the new one |
| Notices.PublishStampsRemovals | app/api/admin/notices/route.ts:25-32 | every removed notice carries a removal time afterwards |
| Notices.NoticeBoard.SoftDeleteActive | app/api/admin/notices/route.ts:25-32 | the loop soft-deletes every row and returns the number that were active |
| Notices.NoticeBoard.Publish | app/api/admin/notices/route.ts:6-48 | 401 without a cookie; an exception on an invalid token, a bad body or a store failure; 400 "Text is required" on blank text; otherwise the transaction and `{ notice, removedPrevious }`; the table changes only on success |
| Notices.NameOrNA | app/api/admin/notices/active/route.ts:24 | the user's name, or "N/A" when there is no such user or name |
| Notices.LatestActive | app/api/admin/notices/active/route.ts:8-14 | an active notice with the greatest `updatedAt`, exactly when one is active |
| Notices.GetActive | app/api/admin/notices/active/route.ts:5-27 | `{ notice: null }` exactly when none is active; otherwise an active notice's projection |
| Notices.ActiveShowsLatestPublished | app/api/admin/notices/active/route.ts:8-26 | after publishing, the active endpoint shows the new notice |
| Notices.RemovedOnly | app/api/admin/notices/removed/route.ts:12 | a notice is in the result exactly when it is stored and removed |
| Notices.RemovedOnlyCounts | app/api/admin/notices/removed/route.ts:12 | each removed notice appears as many times as it is stored, and no other notice appears |
| Notices.GetRemoved | app/api/admin/notices/removed/route.ts:5-31 | defaults 20 and 1; an exception for a negative skip or limit; otherwise the whole window: `limit` items, or fewer only when the ranking runs out, the removed notices' projections from rank `skip` on |
| Notices.RemovedListHoldsRemoved | app/api/admin/notices/removed/route.ts:11-28 | every item shows a removed notice of the table |
| Notices.RemovedListIsOrdered | app/api/admin/notices/removed/route.ts:11-15 | the list is newest removal first, notices never removed last |
| Notices.RemovedRankListed | app/api/admin/notices/removed/route.ts:7-16 | for any page size, the removed notice of rank k is item k mod limit of page k div limit + 1 |
| Notices.EveryRemovedNoticeListed | app/api/admin/notices/removed/route.ts:7-28 | every removed notice of the table is listed on some page, whatever the page size |
| Blogs.AuthorName | app/api/admin/blogs/route.ts:22-28 | the name if non-empty, else the e-mail's local part if the e-mail is non-empty, else "Unknown" |
| Blogs.AuthorWithoutNameShownByLocalPart | app/api/admin/blogs/route.ts:24-28 | an author without a name is shown by the local part of the address |
| Blogs.LeadingAtGivesEmptyName | app/api/admin/blogs/route.ts:26-27 | an address starting with `@` gives an empty name, not "Unknown" |
| Blogs.GetBlogs | app/api/admin/blogs/route.ts:5-43 | defaults 10 and 1; an exception for a negative skip or limit; otherwise the whole window: `limit` items, or fewer only when the blogs run out, the newest-first blogs from rank `skip` on; the total counts all blogs |
| Blogs.BlogListing | app/api/admin/blogs/route.ts:11-42 | items are newest first, keep a stored blog's id, title, cover and content; the total does not depend on the page |
| Blogs.RankedBlogListed | app/api/admin/blogs/route.ts:7-18 | for any page size, the blog of rank k is item k mod limit of page k div limit + 1 |
| Blogs.EveryBlogListed | app/api/admin/blogs/route.ts:7-39 | every stored blog is listed on some page, whatever the page size |
| Slate.MarksAfterToggle | utils/slate.ts:19-26 | the mark flips and every other mark is kept; without marks nothing happens |
| Slate.MarkActive | utils/slate.ts:12-16 | no marks, an absent mark or a mark not set to `true` is inactive |
| Slate.BlockActive | utils/slate.ts:36-45 | in a well-formed selection a non-list format is active exactly when it is the block's type, and a list format exactly when it is the container's |
| Slate.ToggleMarkTwiceFromActive | utils/slate.ts:19-26 | toggling an active mark twice restores the marks |
| Slate.NewType | utils/slate.ts:63-67 | paragraph when active or asked; list item exactly when turning on a list or a list item |
| Slate.AfterToggleBlock | utils/slate.ts:48-79 | the block takes the new type, and a container of the format exactly when a list is turned on |
| Slate.ToggleBlockWellFormed | utils/slate.ts:53-79 | a container, when present, is a list around a list item |
| Slate.ToggleBlockFlips | utils/slate.ts:48-79 | an inactive format becomes active; an active one becomes inactive unless it is paragraph |
| Slate.ToggleBlockTwiceFromParagraph | utils/slate.ts:48-79 | from a plain paragraph, toggling twice restores it |
| Slate.ToggleSwitchesLists | utils/slate.ts:53-79 | toggling the other list type on a list item switches the container |
| Slate.Editor.ToggleMark | utils/slate.ts:19-26 | the marks become `MarksAfterToggle`; nothing else changes |
| Slate.Editor.ToggleBlock | utils/slate.ts:48-79 | with a selection the block becomes `AfterToggleBlock` through the three steps; without one nothing changes |

## Left out

- Cryptography: signing, verification and bcrypt hashing (lib/auth.ts:20-38) are parameters. The codec is uninterpreted, `Tokens.Faithful` is assumed of it, and the password check is a function argument `checkPassword`.
- `hashPassword` and `verifyPassword` (lib/auth.ts:20-29): the hash is an input, `hashed`, and the check is `checkPassword`.
- The data store: tables are sequences and lookups are deterministic (the last matching row; under the unique keys, the only one). A failure of the store is an explicit boolean, and a transaction is taken as atomic. Database-generated columns (ids, `uniqueId`, `createdAt`, `@updatedAt`) are inputs. The singleton client and the seed script are not part of this model.
- `Tokens.SessionRoundTrip`, `Tokens.ResetRoundTrip`: hold only under the hypothesis `Faithful`, which is what the signing library promises, not something proved here.
- The `Cookie` header parser is a parameter of `AuthApi.GetTokenFromReq`.
- JavaScript `Date` parsing and formatting: dates are opaque integers, and parsing is a parameter `parseDate`.
- Query parameters are taken as numbers already converted by `Number(...)`; NaN and fractional values are not modelled.
- A negative `skip` or `take` is modelled as a refusal by the store, which surfaces as an exception. The store's reading of a negative `take` as counting from the end is not modelled.
- Ordering of removed notices: rows without `removedAt` are placed last. Where nulls sort depends on the database. Rows with equal keys keep their stored order.
- JSON bodies whose fields have a non-string type, or are `null`, are not modelled; a field is a string or absent.
- A whole request body that is the JSON literal `null` is not modelled for registration: it parses, then reading `body.name` throws outside the `try` and the framework answers 500, whereas the model's absent body stands for text that is not JSON (400 "Invalid JSON"). For the profile update both throw, and the absent body covers them.
- `Base.Trim`: removes the ASCII and Latin-1 white space, the line and paragraph separators and the byte-order mark, not every Unicode space separator that `String.prototype.trim` removes.
- `RegisterPage.IsValid`: counts the password's length in characters, not UTF-16 code units.
- `Slate.Editor.ToggleBlock`: the selection is one block with at most one list container around it. Selections spanning several blocks, and nested lists, are not modelled.
- React rendering and presentation, and the client components around the core, are not modelled. The layouts are reduced to what they render and where they navigate.
- Timing: the toast auto-removal timer is modelled as the removal it performs, not when it fires.
- Concurrency: overlapping `refreshUser` calls and React's batching are not modelled; each state update is atomic.
- File uploads (profile photo, blog cover), the bare blog count endpoint and the `me` wrapper over `requireAuthApi` are not part of this model.
- Logging (`console.log`, `console.error`) is left out.
- `Notices.NoticeBoard.Publish`: a failure to link the new notice to its author is folded into the store-failure input.
