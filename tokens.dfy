/** The signed tokens of lib/auth.ts: 7-day session tokens under the JWT
    secret and 1-hour reset tokens under the reset secret.

    The signing library is not modelled. A token is an opaque string; a
    `Codec` is the library's wire format, a pair of functions between signed
    token contents and strings. What the library promises of that format
    (decoding an encoded token gives it back) is the predicate `Faithful`,
    taken as a hypothesis by the lemmas that need it and never proved.
    Signature and expiry checks are symbolic: a decoded token carries the
    secret it was signed with and its `exp` claim (section 4.1.4 of RFC 7519),
    and verification accepts it only under the same secret and strictly
    before `exp`. */
module Tokens {
  import opened Base

  /** The claims a token carries: `{ userId, role }` for a session,
      `{ email }` for a password-reset or invite token. */
  datatype Claims = SessionClaims(userId: string, role: Role) | ResetClaims(email: string)

  /** A signed token as the library sees it after decoding. */
  datatype Jwt = Jwt(claims: Claims, secret: string, expiresAt: int)

  /** The token wire format. */
  datatype Codec = Codec(encode: Jwt -> string, decode: string -> Option<Jwt>)

  /** What the signing library is assumed to guarantee: an issued token is a
      non-empty string that decodes to exactly what was signed. */
  ghost predicate Faithful(c: Codec) {
    forall j :: c.decode(c.encode(j)) == Some(j) && c.encode(j) != ""
  }

  /** The process environment and clock the token helpers read
      (`JWT_SECRET`, `RESET_TOKEN_SECRET`, `NODE_ENV`, the current time in seconds). */
  datatype Env = Env(jwtSecret: string, resetSecret: string, production: bool, now: int)

  /** `expiresIn: '7d'` */
  const SESSION_LIFETIME: int := 7 * 24 * 60 * 60
  /** `expiresIn: '1h'` */
  const RESET_LIFETIME: int := 60 * 60

  /** `jwt.verify(token, secret)` at time `now`: the claims when the token
      decodes, was signed with `secret` and has not expired; `None` when the
      library would throw. Callers see one failure, whatever its cause. */
  function Verify(c: Codec, token: string, secret: string, now: int): (r: Option<Claims>)
    ensures r.Some? <==> c.decode(token).Some? && c.decode(token).value.secret == secret
                         && now < c.decode(token).value.expiresAt
    ensures r.Some? ==> r.value == c.decode(token).value.claims
  {
    match c.decode(token)
    case None => None
    case Some(j) => if j.secret == secret && now < j.expiresAt then Some(j.claims) else None
  }

  /** `signJwt({ userId, role })`: under a faithful codec, a non-empty token
      that decodes to the session claims, signed with the session secret and
      expiring seven days on. */
  function SignJwt(c: Codec, env: Env, userId: string, role: Role): (r: string)
    ensures Faithful(c) ==> r != ""
    ensures Faithful(c) ==> c.decode(r) == Some(Jwt(SessionClaims(userId, role), env.jwtSecret, env.now + SESSION_LIFETIME))
  {
    c.encode(Jwt(SessionClaims(userId, role), env.jwtSecret, env.now + SESSION_LIFETIME))
  }

  /** `verifyJwt(token)`: the payload of a token signed with the session
      secret that has not yet expired. */
  function VerifyJwt(c: Codec, env: Env, token: string): (r: Option<Claims>)
    ensures r.Some? <==> c.decode(token).Some? && c.decode(token).value.secret == env.jwtSecret
                         && env.now < c.decode(token).value.expiresAt
    ensures r.Some? ==> r.value == c.decode(token).value.claims
  {
    Verify(c, token, env.jwtSecret, env.now)
  }

  /** `signResetToken(email)`: under a faithful codec, a non-empty token that
      decodes to the reset claims, signed with the reset secret and expiring
      one hour on. */
  function SignResetToken(c: Codec, env: Env, email: string): (r: string)
    ensures Faithful(c) ==> r != ""
    ensures Faithful(c) ==> c.decode(r) == Some(Jwt(ResetClaims(email), env.resetSecret, env.now + RESET_LIFETIME))
  {
    c.encode(Jwt(ResetClaims(email), env.resetSecret, env.now + RESET_LIFETIME))
  }

  /** `verifyResetToken(token)`: the payload of a token signed with the reset
      secret that has not yet expired. */
  function VerifyResetToken(c: Codec, env: Env, token: string): (r: Option<Claims>)
    ensures r.Some? <==> c.decode(token).Some? && c.decode(token).value.secret == env.resetSecret
                         && env.now < c.decode(token).value.expiresAt
    ensures r.Some? ==> r.value == c.decode(token).value.claims
  {
    Verify(c, token, env.resetSecret, env.now)
  }

  /** The `userId` field of a verified payload; `None` when the payload has none. */
  function UserIdOf(claims: Claims): (r: Option<string>)
    ensures r.Some? <==> claims.SessionClaims?
    ensures r.Some? ==> r.value == claims.userId
  {
    match claims
    case SessionClaims(id, _) => Some(id)
    case ResetClaims(_) => None
  }

  /** A session token verifies, at any moment of its seven-day lifetime, to the
      claims it was signed with. */
  lemma SessionRoundTrip(c: Codec, env: Env, userId: string, role: Role, later: int)
    requires Faithful(c)
    requires env.now <= later < env.now + SESSION_LIFETIME
    ensures VerifyJwt(c, env.(now := later), SignJwt(c, env, userId, role)) == Some(SessionClaims(userId, role))
  {
    var j := Jwt(SessionClaims(userId, role), env.jwtSecret, env.now + SESSION_LIFETIME);
    assert c.decode(c.encode(j)) == Some(j);
  }

  /** From the moment its lifetime ends, a session token no longer verifies. */
  lemma SessionExpires(c: Codec, env: Env, userId: string, role: Role, later: int)
    requires Faithful(c)
    requires env.now + SESSION_LIFETIME <= later
    ensures VerifyJwt(c, env.(now := later), SignJwt(c, env, userId, role)).None?
  {
    var j := Jwt(SessionClaims(userId, role), env.jwtSecret, env.now + SESSION_LIFETIME);
    assert c.decode(c.encode(j)) == Some(j);
  }

  /** A token signed under any other secret is refused, exactly like an expired one. */
  lemma ForeignSecretRefused(c: Codec, env: Env, claims: Claims, secret: string, expiresAt: int)
    requires Faithful(c)
    requires secret != env.jwtSecret
    ensures VerifyJwt(c, env, c.encode(Jwt(claims, secret, expiresAt))).None?
  {
    var j := Jwt(claims, secret, expiresAt);
    assert c.decode(c.encode(j)) == Some(j);
  }

  /** A reset token verifies, within its hour, to the e-mail it was signed for. */
  lemma ResetRoundTrip(c: Codec, env: Env, email: string, later: int)
    requires Faithful(c)
    requires env.now <= later < env.now + RESET_LIFETIME
    ensures VerifyResetToken(c, env.(now := later), SignResetToken(c, env, email)) == Some(ResetClaims(email))
  {
    var j := Jwt(ResetClaims(email), env.resetSecret, env.now + RESET_LIFETIME);
    assert c.decode(c.encode(j)) == Some(j);
  }

  /** With distinct secrets, neither kind of token is accepted as the other. */
  lemma TokenKindsSeparated(c: Codec, env: Env, userId: string, role: Role, email: string)
    requires Faithful(c)
    requires env.jwtSecret != env.resetSecret
    ensures VerifyJwt(c, env, SignResetToken(c, env, email)).None?
    ensures VerifyResetToken(c, env, SignJwt(c, env, userId, role)).None?
  {
    var r := Jwt(ResetClaims(email), env.resetSecret, env.now + RESET_LIFETIME);
    var s := Jwt(SessionClaims(userId, role), env.jwtSecret, env.now + SESSION_LIFETIME);
    assert c.decode(c.encode(r)) == Some(r);
    assert c.decode(c.encode(s)) == Some(s);
  }
}
