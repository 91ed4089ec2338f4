/**
 * `/api/auth`: the portal's password gate. POST with the right password sets a week-long
 * session cookie; GET reports whether that cookie is present; anything else is refused.
 * The cookie library's `serialize` and `parse` (the Set-Cookie and Cookie header syntax of
 * sections 4.1 and 4.2 of RFC 6265) are taken as exact inverses: a request carries the
 * browser's cookie jar as a map from name to value.
 */
module AuthApi {
  import opened Optional

  const CookieName: string := "hedgies_session"
  /** Seven days, in seconds. */
  const CookieMaxAge: int := 60 * 60 * 24 * 7
  const DefaultPassword: string := "hedgies-default"

  datatype SameSite = Lax | Strict | NoRestriction

  datatype Cookie = Cookie(name: string, value: string, path: string, httpOnly: bool, maxAge: int, sameSite: SameSite)

  /** The request: its verb, the body's `password` (if a string), and the parsed cookies. */
  datatype Request = Request(verb: string, password: Option<string>, cookies: map<string, string>)

  datatype Response = Response(status: int, setCookie: Option<Cookie>)

  /** The cookie a successful login issues. */
  const SessionCookie: Cookie := Cookie(CookieName, "1", "/", true, CookieMaxAge, Lax)

  /** `process.env.PORTAL_PASSWORD || 'hedgies-default'`: never empty. */
  function PortalKey(env: Option<string>): (key: string)
    ensures key != ""
    ensures env.Some? && env.value != "" ==> key == env.value
    ensures !(env.Some? && env.value != "") ==> key == DefaultPassword
  {
    if env.Some? && env.value != "" then env.value else DefaultPassword
  }

  /** The handler; `env` is the `PORTAL_PASSWORD` environment variable. */
  function Handle(req: Request, env: Option<string>): (r: Response)
    ensures req.verb == "POST" ==> (r.status == 200 <==> req.password == Some(PortalKey(env)))
    ensures req.verb == "POST" ==> r.status == 200 || r.status == 401
    ensures r.setCookie.Some? <==> req.verb == "POST" && r.status == 200
    ensures r.setCookie.Some? ==> r.setCookie.value == SessionCookie
    ensures req.verb == "GET" ==>
              (r.status == 200 <==> CookieName in req.cookies && req.cookies[CookieName] != "")
    ensures req.verb == "GET" ==> r.status == 200 || r.status == 401
    ensures req.verb != "POST" && req.verb != "GET" ==> r == Response(405, None)
  {
    if req.verb == "POST" then
      var key := PortalKey(env);
      if req.password.Some? && req.password.value != "" && req.password.value == key then
        Response(200, Some(SessionCookie))
      else
        Response(401, None)
    else if req.verb == "GET" then
      if CookieName in req.cookies && req.cookies[CookieName] != "" then Response(200, None)
      else Response(401, None)
    else
      Response(405, None)
  }

  /** The browser's cookie jar after it accepts a Set-Cookie header. */
  function Accept(jar: map<string, string>, c: Cookie): (jar': map<string, string>)
    ensures c.name in jar' && jar'[c.name] == c.value
    ensures forall n :: n in jar && n != c.name ==> n in jar' && jar'[n] == jar[n]
    ensures jar'.Keys == jar.Keys + {c.name}
  {
    jar[c.name := c.value]
  }

  /** Round trip: after a successful login, the session check passes with the issued cookie. */
  lemma LoginThenCheck(login: Request, env: Option<string>, jar: map<string, string>)
    requires login.verb == "POST" && Handle(login, env).status == 200
    ensures var issued := Handle(login, env).setCookie.value;
            Handle(Request("GET", None, Accept(jar, issued)), env).status == 200
  {
  }
}
