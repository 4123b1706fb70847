/** generateToken: the cookie a successful login or registration sets, and the
    body it answers with. Signing the JWT is outside the model: the signed
    token for a document id is an input. */
module JwtToken {
  import opened Common

  const MillisPerDay: int := 24 * 60 * 60 * 1000

  /** What the token helper needs from its environment: the clock
      (Date.now()), COOKIE_EXPIRE in days, and the JWT signer. */
  datatype TokenEnv = TokenEnv(now: int, cookieExpireDays: int, sign: Id -> string)

  /** The cookie name the role switch picks; None for a role it has no case
      for, where the variable stays undefined. */
  function CookieName(role: string): (r: Option<string>)
    ensures role == "Admin" <==> r == Some("adminToken")
    ensures role == "Patient" <==> r == Some("patientToken")
    ensures role == "Doctor" <==> r == Some("doctorToken")
    ensures r.None? <==> role !in {"Admin", "Patient", "Doctor"}
  {
    if role == "Admin" then Some("adminToken")
    else if role == "Patient" then Some("patientToken")
    else if role == "Doctor" then Some("doctorToken")
    else None
  }

  datatype Cookie = Cookie(name: Option<string>, value: string, expires: int,
                           httpOnly: bool, secure: bool, sameSite: string)

  datatype TokenBody<U> = TokenBody(success: bool, message: string, user: U, token: string)

  datatype TokenResponse<U> = TokenResponse(statusCode: nat, cookie: Cookie, body: TokenBody<U>)

  /** The reply generateToken writes for the user stored under `id`. */
  function GenerateToken<U>(id: Id, user: U, role: string, message: string, statusCode: nat,
                            env: TokenEnv): (r: TokenResponse<U>)
    ensures r.statusCode == statusCode
    ensures r.cookie.name == CookieName(role)
    ensures r.cookie.value == r.body.token == env.sign(id)
    ensures r.cookie.expires - env.now == env.cookieExpireDays * 86_400_000
    ensures r.cookie.httpOnly && r.cookie.secure && r.cookie.sameSite == "None"
    ensures r.body.success && r.body.message == message && r.body.user == user
  {
    var token := env.sign(id);
    TokenResponse(statusCode,
                  Cookie(CookieName(role), token, env.now + env.cookieExpireDays * MillisPerDay,
                         true, true, "None"),
                  TokenBody(true, message, user, token))
  }

  /** A login or registration: refused with a status code before any token is
      made, or answered by generateToken. */
  datatype AuthReply<U> = Refused(code: nat) | Issued(response: TokenResponse<U>)

  /** What a logout handler answers: 200, the cleared cookie and a message. */
  datatype LogoutReply = LogoutReply(code: nat, cookie: Cookie, message: string)

  /** The cookie a logout handler clears: empty value, expiring now. */
  function ClearedCookie(name: string, now: int): (c: Cookie)
    ensures c.name == Some(name) && c.value == "" && c.expires == now
    ensures c.httpOnly && c.secure && c.sameSite == "None"
  {
    Cookie(Some(name), "", now, true, true, "None")
  }
}
