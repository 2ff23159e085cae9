/** The `CHURCH_TOKEN` session cookie: the attribute set every handler writes
    with it, the values written on login and cleared on logout, and what a
    browser does on receiving them (section 5.3 of RFC 6265, with the
    Max-Age rule of its section 5.2.2). */
module Cookies {
  import opened Base

  const COOKIE_NAME: string := "CHURCH_TOKEN"

  /** `maxAge: 7 * 24 * 60 * 60` */
  const SESSION_MAX_AGE: int := 7 * 24 * 60 * 60

  datatype SameSite = Lax

  /** One `Set-Cookie` header. */
  datatype Cookie = Cookie(name: string, value: string, maxAge: int,
                           httpOnly: bool, path: string, sameSite: SameSite, secure: bool)

  /** The fixed attributes `{ httpOnly: true, path: '/', sameSite: 'lax',
      secure: NODE_ENV === 'production' }`. */
  predicate HasSessionAttributes(c: Cookie, production: bool) {
    c.name == COOKIE_NAME && c.httpOnly && c.path == "/" && c.sameSite == Lax && c.secure == production
  }

  /** A session cookie with the given value and lifetime. */
  function SessionCookieWith(value: string, maxAge: int, production: bool): (c: Cookie)
    ensures HasSessionAttributes(c, production)
    ensures c.value == value && c.maxAge == maxAge
  {
    Cookie(COOKIE_NAME, value, maxAge, true, "/", Lax, production)
  }

  /** The cookie `setSessionCookie` and both login handlers write. */
  function SessionCookie(token: string, production: bool): Cookie {
    SessionCookieWith(token, SESSION_MAX_AGE, production)
  }

  /** The cookie `clearSessionCookie` writes: empty value, `maxAge: -1`. */
  function ClearedCookie(production: bool): Cookie {
    SessionCookieWith("", -1, production)
  }

  /** `req.cookies.get('CHURCH_TOKEN')?.value` as the route handlers test it: a missing or empty cookie is no token. */
  function PresentToken(cookies: map<string, string>): (r: Option<string>)
    ensures r.Some? <==> COOKIE_NAME in cookies && cookies[COOKIE_NAME] != ""
    ensures r.Some? ==> r.value == cookies[COOKIE_NAME]
  {
    if COOKIE_NAME in cookies && cookies[COOKIE_NAME] != "" then Some(cookies[COOKIE_NAME]) else None
  }

  /** The cookies a browser holds for the site, by name. */
  type Jar = map<string, string>

  /** A browser receiving `Set-Cookie`: a cookie whose Max-Age is zero or
      negative expires at once and removes the stored cookie of that name;
      any other replaces it. */
  function Receive(jar: Jar, c: Cookie): (r: Jar)
    ensures c.maxAge <= 0 ==> c.name !in r
    ensures c.maxAge > 0 ==> c.name in r && r[c.name] == c.value
    ensures forall n :: n != c.name ==> (n in r <==> n in jar) && (n in r ==> r[n] == jar[n])
  {
    if c.maxAge <= 0 then jar - {c.name} else jar[c.name := c.value]
  }

  /** Setting and clearing write the same cookie apart from value and Max-Age. */
  lemma SetAndClearDifferOnlyInValueAndAge(token: string, production: bool)
    ensures SessionCookie(token, production).(value := "", maxAge := -1) == ClearedCookie(production)
    ensures HasSessionAttributes(SessionCookie(token, production), production)
    ensures HasSessionAttributes(ClearedCookie(production), production)
  {
  }

  /** After a session cookie is set the browser holds the token for seven days;
      clearing it afterwards leaves no session cookie and every other cookie as
      it was before the login. */
  lemma SetThenClearRemovesToken(jar: Jar, token: string, production: bool)
    ensures var j1 := Receive(jar, SessionCookie(token, production));
            COOKIE_NAME in j1 && j1[COOKIE_NAME] == token
    ensures Receive(Receive(jar, SessionCookie(token, production)), ClearedCookie(production))
            == jar - {COOKIE_NAME}
  {
    var j2 := Receive(Receive(jar, SessionCookie(token, production)), ClearedCookie(production));
    assert j2.Keys == (jar - {COOKIE_NAME}).Keys;
  }
}
