// server/middleware/auth.js: the three Express middlewares. Signing and checking a
// token (jsonwebtoken) is the abstract `verify`, which gives the decoded claims or None.

module Auth {
  import opened StrUtil

  /** The claims of a token, as far as the routes read them. */
  datatype Claims = Claims(id: string, isAdmin: bool, publicAccess: bool)

  type Verifier = string -> Option<Claims>

  /** What a middleware does: answer with an error, or call `next` exactly once with
      `req.user` as given. */
  datatype Outcome = Respond(status: int, error: string) | Next(user: Option<Claims>)

  /** The scheme prefix of section 2.1 of RFC 6750, compared case-sensitively. */
  const Bearer := "Bearer "

  /** The Authorization header is present and starts with "Bearer ". */
  predicate HasBearer(header: Option<string>)
  {
    header.Some? && StartsWith(header.value, Bearer)
  }

  /** `authHeader.substring(7)`: the header without its first seven characters. */
  function Token(header: string): (t: string)
    requires StartsWith(header, Bearer)
    ensures Bearer + t == header
  {
    header[7..]
  }

  /** `authenticateJWTOptional`: never answers; `req.user` is set only from a valid
      bearer token. `user` is what `req.user` held before. */
  function AuthenticateOptional(header: Option<string>, user: Option<Claims>, verify: Verifier): (r: Outcome)
    ensures r.Next?
    ensures HasBearer(header) && verify(Token(header.value)).Some? ==>
      r.user == verify(Token(header.value))
    ensures !(HasBearer(header) && verify(Token(header.value)).Some?) ==> r.user == user
  {
    if !HasBearer(header) then Next(user)
    else
      var decoded := verify(Token(header.value));
      if decoded.Some? then Next(decoded) else Next(user)
  }

  /** `authenticateJWT`: 401 without a bearer header or with a token that does not
      verify; otherwise `next` with the decoded claims. */
  function Authenticate(header: Option<string>, verify: Verifier): (r: Outcome)
    ensures r.Next? <==> HasBearer(header) && verify(Token(header.value)).Some?
    ensures r.Next? ==> r.user == verify(Token(header.value))
    ensures r.Respond? ==> r.status == 401
    ensures !HasBearer(header) ==> r == Respond(401, "Nicht authentifiziert. Bitte einloggen.")
  {
    if !HasBearer(header) then Respond(401, "Nicht authentifiziert. Bitte einloggen.")
    else
      var decoded := verify(Token(header.value));
      if decoded.None? then
        Respond(401, "Ung\U{00FC}ltiges oder abgelaufenes Token. Bitte erneut einloggen.")
      else Next(decoded)
  }

  /** `requireAdmin`: 401 without a user, 403 for one who is not an administrator. */
  function RequireAdmin(user: Option<Claims>): (r: Outcome)
    ensures r.Next? <==> user.Some? && user.value.isAdmin
    ensures r.Next? ==> r.user == user
    ensures r.Respond? ==> (r.status == 401 <==> user.None?) && (r.status == 403 <==> user.Some?)
  {
    if user.None? then Respond(401, "Nicht authentifiziert.")
    else if !user.value.isAdmin then Respond(403, "Zugriff verweigert. Admin-Rechte erforderlich.")
    else Next(user)
  }

  /** The token is what follows the prefix. */
  lemma TokenOfBearer(t: string)
    ensures HasBearer(Some(Bearer + t)) && Token(Bearer + t) == t
  {
    assert (Bearer + t)[..7] == Bearer;
  }

  /** A lower-case scheme is not accepted. */
  lemma LowerCaseSchemeRejected(t: string)
    ensures Authenticate(Some("bearer " + t), (s: string) => Some(Claims("", false, false))).Respond?
  {
    assert ("bearer " + t)[0] != Bearer[0];
  }

  /** Where the required middleware lets a request through, the optional one sets the
      same user; where it answers 401, the optional one goes on with the user as it was. */
  lemma OptionalAgreesWithRequired(header: Option<string>, user: Option<Claims>, verify: Verifier)
    ensures Authenticate(header, verify).Next? ==>
      AuthenticateOptional(header, user, verify) == Authenticate(header, verify)
    ensures Authenticate(header, verify).Respond? ==>
      AuthenticateOptional(header, user, verify) == Next(user)
  {
  }

  /** `authenticateJWT` then `requireAdmin`: the request passes exactly when the bearer
      token verifies to an administrator; a non-administrator's valid token gives 403. */
  lemma AdminChain(header: Option<string>, verify: Verifier)
    ensures var a := Authenticate(header, verify);
      var r := if a.Next? then RequireAdmin(a.user) else a;
      (r.Next? <==> HasBearer(header) && verify(Token(header.value)).Some?
                    && verify(Token(header.value)).value.isAdmin)
      && (r.Respond? && r.status == 403 <==>
            HasBearer(header) && verify(Token(header.value)).Some?
            && !verify(Token(header.value)).value.isAdmin)
  {
  }
}
