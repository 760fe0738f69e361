/**
 * The token service, reduced to what the core relies on. Signing is not modelled: a minted token
 * is a string the caller supplies. Verification is a function from a token to the payload it
 * carries, or None when the signature or expiry check fails.
 */
module Jwt {
  import opened Wrappers

  /** The payload every token carries. */
  datatype Payload = Payload(id: string, email: string, username: string)

  /** A verification function: `verifyToken` / `verifyRefreshToken` with their secret fixed. */
  type Verifier = string -> Option<Payload>
}
