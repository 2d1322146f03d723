/** The `protect` middleware of the REST routes: the access token comes from the
    `accessToken` cookie, or else from an `Authorization: Bearer <token>` header (section 2.1
    of RFC 6750); no token is 401, a token that does not verify is 403, and otherwise the
    decoded payload becomes `req.user` and the route runs. */
module Protect {
  import opened Wrappers
  import opened Jwt
  import Text

  /** A JavaScript-truthy string: present and not empty. */
  predicate Truthy(v: Option<string>) { v.Some? && v.value != "" }

  /** `req.headers.authorization?.split(' ')[1]`: the second space-separated field. */
  function BearerToken(header: Option<string>): (r: Option<string>)
    ensures header.None? ==> r.None?
    ensures header.Some? ==> (r.Some? <==> |Text.Split(header.value, ' ')| >= 2)
    ensures r.Some? ==> r.value == Text.Split(header.value, ' ')[1] && ' ' !in r.value
  {
    if header.None? then None
    else
      var fields := Text.Split(header.value, ' ');
      if |fields| >= 2 then
        assert forall i :: 0 <= i < |fields[1]| ==> fields[1][i] != ' ';
        Some(fields[1])
      else None
  }

  /** `req.cookies.accessToken || <bearer token>`. */
  function AccessToken(cookie: Option<string>, header: Option<string>): (r: Option<string>)
    ensures Truthy(cookie) ==> r == cookie
    ensures !Truthy(cookie) ==> r == BearerToken(header)
  {
    if Truthy(cookie) then cookie else BearerToken(header)
  }

  /** The standard header yields its token. */
  lemma BearerHeaderToken(token: string)
    requires ' ' !in token
    ensures AccessToken(None, Some("Bearer " + token)) == Some(token)
  {
    assert "Bearer " + token == "Bearer" + [' '] + token;
    Text.SplitConcat("Bearer", token, ' ');
    Text.SplitNoSep(token, ' ');
  }

  /** A header without a space carries no token. */
  lemma HeaderWithoutSpace(header: string)
    requires ' ' !in header
    ensures BearerToken(Some(header)) == None
  {
    Text.SplitNoSep(header, ' ');
  }

  /** `Respond` ends the request with that status, without calling `next`; `Next` is the one
      call to `next()` with `req.user` set to the payload. */
  datatype Outcome = Respond(status: nat, message: string) | Next(user: Decoded)

  function Protect(cookie: Option<string>, header: Option<string>, verify: Verifier): (r: Outcome)
    ensures !Truthy(AccessToken(cookie, header)) ==> r == Respond(401, "Access token missing")
    ensures Truthy(AccessToken(cookie, header)) && verify(AccessToken(cookie, header).value).Threw? ==>
      r == Respond(403, "Invalid access token")
    ensures r.Next? <==> Truthy(AccessToken(cookie, header)) && verify(AccessToken(cookie, header).value).Verified?
    ensures r.Next? ==> r.user == verify(AccessToken(cookie, header).value).decoded
  {
    var token := AccessToken(cookie, header);
    if !Truthy(token) then Respond(401, "Access token missing")
    else
      match verify(token.value)
      case Threw => Respond(403, "Invalid access token")
      case Verified(d) => Next(d)
  }

  /** `req.user?.id`: a string payload has no `id`. */
  function RequestUserId(d: Decoded): (r: Option<string>)
    ensures d.TextPayload? ==> r.None?
    ensures d.ClaimsPayload? ==> r == d.id
  {
    match d
    case TextPayload(_) => None
    case ClaimsPayload(id) => id
  }
}
