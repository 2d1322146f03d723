/** What `verifyAccessToken` hands back. Signature checking itself is not modelled: callers
    take the verifier as a function from a token to its outcome. */
module Jwt {
  import opened Wrappers

  /** `jwt.verify` returns either a string or an object payload, whose `id` may be absent. */
  datatype Decoded = TextPayload(text: string) | ClaimsPayload(id: Option<string>)

  /** A verification either yields a payload or throws (bad signature, expiry, malformed). */
  datatype VerifyOutcome = Verified(decoded: Decoded) | Threw

  type Verifier = string -> VerifyOutcome
}
