/** bcrypt and the JWT signer, left uninterpreted: every operation that uses
    them takes a `Primitives` value, so each property proved about it holds
    for every hash, compare and sign function whatsoever. */
module Crypto {

  /** The payload `login` signs: `{ email, sub: id }`. */
  datatype Claims = Claims(email: string, sub: nat)

  /** `bcrypt.hash(plaintext, rounds)`, `bcrypt.compare(plaintext, digest)`
      and `jwtService.sign(payload)`.  The random salt bcrypt draws is part of
      the choice of `hash`. */
  datatype Primitives = Primitives(
    hash: (string, nat) -> string,
    compare: (string, string) -> bool,
    sign: Claims -> string)

  /** The bcrypt cost factor the entity hook passes. */
  const SaltRounds: nat := 10

  /** Library assumption about bcrypt, used only as an explicit hypothesis:
      a digest made with the cost factor `rounds` verifies against its own
      plaintext. */
  ghost predicate CompareAcceptsOwnHash(p: Primitives, rounds: nat)
  {
    forall plaintext :: p.compare(plaintext, p.hash(plaintext, rounds))
  }
}
