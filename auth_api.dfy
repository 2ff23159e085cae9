/** The request/response helpers of lib/auth.ts used by API routes in the
    pages router: reading the session token from the `Cookie` header, writing
    and clearing the session cookie on a response, and the 401 gate
    `requireAuthApi`. The `cookie` package's header parser is a parameter. */
module AuthApi {
  import opened Base
  import opened Cookies
  import opened Tokens

  /** The parts of an incoming request the helpers read: the raw `Cookie` header. */
  datatype ApiRequest = ApiRequest(cookieHeader: Option<string>)

  /** `getTokenFromReq`: `null` without a (non-empty) `Cookie` header or without a
      non-empty `CHURCH_TOKEN` entry; otherwise that entry's value as parsed. */
  function GetTokenFromReq(req: ApiRequest, parse: string -> map<string, string>): (r: Option<string>)
    ensures r.Some? <==> Truthy(req.cookieHeader) && COOKIE_NAME in parse(req.cookieHeader.value)
                         && parse(req.cookieHeader.value)[COOKIE_NAME] != ""
    ensures r.Some? ==> r.value == parse(req.cookieHeader.value)[COOKIE_NAME] && r.value != ""
  {
    if !Truthy(req.cookieHeader) then None
    else
      var parsed := parse(req.cookieHeader.value);
      if COOKIE_NAME in parsed && parsed[COOKIE_NAME] != "" then Some(parsed[COOKIE_NAME]) else None
  }

  /** A `NextApiResponse` as far as the helpers touch it. */
  class ApiResponse {
    var statusCode: int
    var setCookie: Option<Cookie>
    var ended: Option<string>

    constructor ()
      ensures statusCode == 200 && setCookie == None && ended == None
    {
      statusCode, setCookie, ended := 200, None, None;
    }
  }

  /** `setSessionCookie(res, token)` replaces the `Set-Cookie` header. */
  method SetSessionCookie(res: ApiResponse, token: string, production: bool)
    modifies res
    ensures res.setCookie == Some(SessionCookie(token, production))
    ensures res.statusCode == old(res.statusCode) && res.ended == old(res.ended)
  {
    res.setCookie := Some(SessionCookie(token, production));
  }

  /** `clearSessionCookie(res)` */
  method ClearSessionCookie(res: ApiResponse, production: bool)
    modifies res
    ensures res.setCookie == Some(ClearedCookie(production))
    ensures res.statusCode == old(res.statusCode) && res.ended == old(res.ended)
  {
    res.setCookie := Some(ClearedCookie(production));
  }

  /** `requireAuthApi(req, res)`: the verified payload, or, after ending the
      response with status 401, the error it throws (`Err`). */
  method RequireAuthApi(c: Codec, env: Env, req: ApiRequest, parse: string -> map<string, string>,
                        res: ApiResponse)
    returns (r: Result<Claims, string>)
    modifies res
    ensures GetTokenFromReq(req, parse).None? ==>
              r == Err("Not authenticated") && res.statusCode == 401 && res.ended == Some("Not authenticated")
    ensures GetTokenFromReq(req, parse).Some? && VerifyJwt(c, env, GetTokenFromReq(req, parse).value).None? ==>
              r == Err("Invalid token") && res.statusCode == 401 && res.ended == Some("Invalid token")
    ensures GetTokenFromReq(req, parse).Some? && VerifyJwt(c, env, GetTokenFromReq(req, parse).value).Some? ==>
              r == Ok(VerifyJwt(c, env, GetTokenFromReq(req, parse).value).value)
              && res.statusCode == old(res.statusCode) && res.ended == old(res.ended)
    ensures res.setCookie == old(res.setCookie)
  {
    var token := GetTokenFromReq(req, parse);
    if token.None? {
      res.statusCode, res.ended := 401, Some("Not authenticated");
      return Err("Not authenticated");
    }
    var payload := VerifyJwt(c, env, token.value);
    if payload.None? {
      res.statusCode, res.ended := 401, Some("Invalid token");
      return Err("Invalid token");
    }
    r := Ok(payload.value);
  }

  /** A request carrying a freshly issued session cookie passes the gate with
      the signed claims, provided the parser returns a header's own
      `CHURCH_TOKEN=value` pair. */
  lemma {:induction false} FreshSessionPassesGate(c: Codec, env: Env, parse: string -> map<string, string>,
                                                  header: string, userId: string, role: Role)
    requires Faithful(c)
    requires header != ""
    requires var p := parse(header); COOKIE_NAME in p && p[COOKIE_NAME] == SignJwt(c, env, userId, role)
    ensures GetTokenFromReq(ApiRequest(Some(header)), parse) == Some(SignJwt(c, env, userId, role))
    ensures VerifyJwt(c, env, SignJwt(c, env, userId, role)) == Some(SessionClaims(userId, role))
  {
    SessionRoundTrip(c, env, userId, role, env.now);
    assert env.(now := env.now) == env;
  }
}
