/**
 * Stand-ins for the two cryptographic collaborators of app.py:
 * werkzeug's salted password hashing (`generate_password_hash`,
 * `check_password_hash`) and itsdangerous's `URLSafeTimedSerializer`
 * (`s.dumps`, `s.loads`).
 *
 * Neither is modelled bit for bit. The hash is an idealised one: a stored
 * hash checks against a candidate exactly when the candidate is the password
 * it was made from (`HashCheckCorrespondence`), and the random per-call salt
 * is a parameter. A token is an abstract record: what was signed, when, under
 * which salt, and whether its signature verifies under the server secret.
 */
module Credentials {

  datatype Result<T, E> = Ok(value: T) | Err(error: E)

  /**
   * The string werkzeug stores in the `password` column. `salt` is the random
   * salt drawn for this call; `preimage` stands for the one-way digest and is
   * only ever read through `CheckPasswordHash` (a collision-free hash).
   */
  datatype PasswordHash = PasswordHash(salt: string, preimage: string)

  /** `generate_password_hash(password)`, with the salt it draws made a parameter. */
  function GeneratePasswordHash(password: string, salt: string): PasswordHash {
    PasswordHash(salt, password)
  }

  /** `check_password_hash(stored, candidate)`. */
  predicate CheckPasswordHash(stored: PasswordHash, candidate: string) {
    stored.preimage == candidate
  }

  /**
   * The assumption made of werkzeug: a hash made from `p` checks against `q`
   * exactly when `q` is `p`, whatever salt was drawn.
   */
  lemma HashCheckCorrespondence(p: string, q: string, salt: string)
    ensures CheckPasswordHash(GeneratePasswordHash(p, salt), q) <==> p == q
  {
  }

  /** Identical passwords hashed with different salts give different stored values. */
  lemma SaltedHashesDiffer(p: string, salt1: string, salt2: string)
    requires salt1 != salt2
    ensures GeneratePasswordHash(p, salt1) != GeneratePasswordHash(p, salt2)
  {
  }

  /** The context salt app.py passes to both `s.dumps` and `s.loads`. */
  const ResetSalt: string := "email-reset"

  /** The `max_age` app.py passes to `s.loads`: one hour, in seconds. */
  const ResetMaxAge: int := 3600

  /**
   * A token as `s.loads` sees it after parsing: the signed payload, its
   * timestamp in whole seconds, the salt it was signed under, and whether the
   * signature verifies under the server secret for that salt. A corrupted or
   * forged token is one with `sigOk == false`.
   */
  datatype Token = Token(email: string, issuedAt: int, salt: string, sigOk: bool)

  /** The two exceptions app.py catches from `s.loads`. */
  datatype TokenError = BadSignature | SignatureExpired

  /** `s.dumps(email, salt=salt)` at time `now`. */
  function Dumps(email: string, salt: string, now: int): Token {
    Token(email, now, salt, true)
  }

  /**
   * `s.loads(token, salt=salt, max_age=maxAge)` at time `now`. The signature
   * is checked first (a token signed under another salt fails it, since the
   * salt feeds the signing key); then the age, which must lie between 0 and
   * `maxAge` inclusive (itsdangerous 2.x rejects a negative age as expired).
   */
  function Loads(token: Token, salt: string, maxAge: int, now: int): Result<string, TokenError> {
    if !token.sigOk || token.salt != salt then Err(BadSignature)
    else if now - token.issuedAt > maxAge || now - token.issuedAt < 0 then Err(SignatureExpired)
    else Ok(token.email)
  }

  /** What `s.loads` returns: the signed email, and only for a genuine, unexpired token of this salt. */
  lemma LoadsAccepts(token: Token, salt: string, maxAge: int, now: int)
    ensures Loads(token, salt, maxAge, now).Ok? <==>
      token.sigOk && token.salt == salt && token.issuedAt <= now <= token.issuedAt + maxAge
    ensures Loads(token, salt, maxAge, now).Ok? ==> Loads(token, salt, maxAge, now).value == token.email
  {
  }

  /** Round trip: a token dumped at `t` loads back to its email exactly while its age is within `maxAge`. */
  lemma LoadsDumpsRoundTrip(email: string, salt: string, t: int, maxAge: int, now: int)
    ensures Loads(Dumps(email, salt, t), salt, maxAge, now) ==
      if t <= now <= t + maxAge then Ok(email) else Err(SignatureExpired)
  {
  }

  /** A token dumped under one salt never loads under another, however fresh. */
  lemma LoadsRejectsOtherSalt(email: string, salt: string, otherSalt: string, t: int, maxAge: int, now: int)
    requires salt != otherSalt
    ensures Loads(Dumps(email, otherSalt, t), salt, maxAge, now) == Err(BadSignature)
  {
  }

  /** The reset link's lifetime: still good 3599 and 3600 seconds after issue, expired at 3601. */
  lemma ResetTokenLifetime(email: string, t: int)
    ensures Loads(Dumps(email, ResetSalt, t), ResetSalt, ResetMaxAge, t + 3599) == Ok(email)
    ensures Loads(Dumps(email, ResetSalt, t), ResetSalt, ResetMaxAge, t + 3600) == Ok(email)
    ensures Loads(Dumps(email, ResetSalt, t), ResetSalt, ResetMaxAge, t + 3601) == Err(SignatureExpired)
  {
  }
}
