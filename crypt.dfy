/**
 * The password-hashing library (an Argon2 `CryptContext`), which the model
 * does not see into. It is passed to callers as a value: `hash` is the
 * one-way hash, `verify` either answers or raises.
 */
module Crypt {

  /** What the library's `verify` does: return a verdict, or raise. */
  datatype Verification = Verdict(matches: bool) | Raised(reason: string)

  datatype CryptContext = CryptContext(
    hash: string -> string,
    verify: (string, string) -> Verification)
}
