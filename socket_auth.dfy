/** The handshake middleware of the socket server: a connection is accepted, with the user
    id it carries, or refused with one of three messages. */
module SocketAuth {
  import opened Wrappers
  import opened Jwt

  const TokenMissing := "Authentication token missing"
  const InvalidToken := "Invalid token"
  const AuthenticationFailed := "Authentication failed"

  /** `handshake.auth.token` is falsy: absent or the empty string. */
  predicate NoToken(token: Option<string>) { token.None? || token.value == "" }

  /** A decoded payload the middleware accepts: an object with a truthy `id`. */
  predicate CarriesId(d: Decoded) { d.ClaimsPayload? && d.id.Some? && d.id.value != "" }

  /** The middleware's decision: `Ok(userId)` is `next()` with `socket.userId` set,
      `Err(message)` is `next(new Error(message))`. */
  function Authenticate(token: Option<string>, verify: Verifier): (r: Result<string, string>)
    ensures NoToken(token) ==> r == Err(TokenMissing)
    ensures !NoToken(token) && verify(token.value).Threw? ==> r == Err(AuthenticationFailed)
    ensures !NoToken(token) && verify(token.value).Verified? && !CarriesId(verify(token.value).decoded)
      ==> r == Err(InvalidToken)
    ensures r.Ok? <==> !NoToken(token) && verify(token.value).Verified? && CarriesId(verify(token.value).decoded)
    ensures r.Ok? ==> r.value == verify(token.value).decoded.id.value && r.value != ""
    ensures r.Err? ==> r.error in {TokenMissing, InvalidToken, AuthenticationFailed}
  {
    if NoToken(token) then Err(TokenMissing)
    else
      match verify(token.value)
      case Threw => Err(AuthenticationFailed)
      case Verified(d) => if CarriesId(d) then Ok(d.id.value) else Err(InvalidToken)
  }

  /** Only a token that verifies to an id gets through: the same token with a verifier that
      throws is refused, whatever it carries. */
  lemma AcceptedNeedsVerification(token: Option<string>, verify: Verifier, verify': Verifier)
    requires Authenticate(token, verify).Ok?
    requires !NoToken(token) && verify'(token.value).Threw?
    ensures Authenticate(token, verify') == Err(AuthenticationFailed)
  {
  }
}
