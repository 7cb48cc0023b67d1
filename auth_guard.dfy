/** `requireAuth`, the guard in front of the privileged endpoints: the
    `Authorization` header must split on single spaces into exactly the two
    parts `Bearer` and a token, and the token must verify. Token verification
    (signature and expiry) belongs to the JWT library; it is a parameter
    here that either decodes the claims or fails. */
module AuthGuard {
  import opened JsStrings

  /** The payload the login endpoint signs into a token. */
  datatype Claims = Claims(sub: string, username: string, rol: string)

  datatype Guard =
    | Granted(claims: Claims)
    | Denied(status: nat, message: string)

  const MissingTokenMessage: string := "Token no proporcionado"
  const InvalidTokenMessage: string := "Token inválido o expirado"

  /** The token of a header of the shape `Bearer <token>`, judged on
      `header.split(' ')`: the token handed on is what follows `Bearer `,
      and it contains no space. */
  function BearerToken(header: string): (token: Option<string>)
    ensures token.Some? ==> header == "Bearer " + token.value && ' ' !in token.value
  {
    var parts := Split(header, ' ');
    if |parts| != 2 || parts[0] != "Bearer" then None
    else
      assert parts[1..] == [parts[1]];
      assert header == "Bearer" + [' '] + parts[1];
      Some(parts[1])
  }

  /** The shape check accepts exactly the headers made of `Bearer`, one
      space, and a token that contains no space; the token handed on is the
      text after that space. */
  lemma BearerTokenShape(header: string, token: string)
    ensures BearerToken(header) == Some(token) <==> header == "Bearer " + token && ' ' !in token
  {
    if header == "Bearer " + token && ' ' !in token {
      assert ' ' !in "Bearer";
      assert Join(["Bearer", token], ' ') == header;
      SplitJoin(["Bearer", token], ' ');
    }
  }

  /** `requireAuth`: a missing header counts as the empty string. */
  function RequireAuth(authorization: Option<string>, verify: string -> Option<Claims>): (g: Guard)
    ensures g.Denied? ==> g.status == 401
  {
    var header := if authorization.Some? then authorization.value else "";
    match BearerToken(header)
    case None => Denied(401, MissingTokenMessage)
    case Some(token) =>
      match verify(token)
      case None => Denied(401, InvalidTokenMessage)
      case Some(claims) => Granted(claims)
  }

  /** The guard lets a request through exactly when the header is
      `Bearer <token>` and the token verifies; the claims passed on are the
      verified ones, and a well-formed token that does not verify is refused
      as invalid or expired. */
  lemma GrantedExactly(verify: string -> Option<Claims>, token: string)
    ensures RequireAuth(Some("Bearer " + token), verify).Granted? <==> ' ' !in token && verify(token).Some?
    ensures ' ' !in token && verify(token).Some? ==>
      RequireAuth(Some("Bearer " + token), verify) == Granted(verify(token).value)
    ensures ' ' !in token && verify(token).None? ==>
      RequireAuth(Some("Bearer " + token), verify) == Denied(401, InvalidTokenMessage)
  {
    BearerTokenShape("Bearer " + token, token);
  }

  /** A header of the wrong shape is refused before verification is
      attempted: the answer does not depend on the verifier. */
  lemma MalformedHeaderRefused(authorization: Option<string>, verify: string -> Option<Claims>, other: string -> Option<Claims>)
    requires authorization.None? || BearerToken(authorization.value).None?
    ensures RequireAuth(authorization, verify) == Denied(401, MissingTokenMessage)
    ensures RequireAuth(authorization, other) == RequireAuth(authorization, verify)
  {
    if authorization.None? {
      assert Split("", ' ') == [""] by {
        assert Join([""], ' ') == "";
        SplitJoin([""], ' ');
      }
    }
  }
}
