/**
  JSON Web Tokens as the server uses them: HS256 tokens signed with one
  process-wide secret, carrying an `exp` claim in seconds. A token is modelled
  by what it decodes to; the HMAC is modelled by the secret it was computed
  with, so a token verifies under a secret exactly when it was signed with it.
*/
module Jwt {
  import opened Wrappers

  /** The two payload claims the server reads; a claim the token lacks is None. */
  datatype Claims = Claims(sessionTokenFor: Option<string>, loggedInAs: Option<string>)

  /**
    A token as a client presents it: a signed token (header algorithm,
    payload claims, optional `exp`, and the secret its signature was computed
    with), or a string that does not decode as a token at all.
  */
  datatype Token =
    | Signed(claims: Claims, algorithm: string, expiresAt: Option<int>, signedWith: string)
    | Malformed(text: string)
  {
    /** The empty string: the one token value JavaScript treats as falsy. */
    predicate IsEmpty() {
      Malformed? && text == ""
    }
  }

  const HS256 := "HS256"

  /** `expiresIn: '8m'`, in seconds. */
  const SessionTokenLifetime := 8 * 60

  /** `expiresIn: '24h'`, in seconds. */
  const AuthTokenLifetime := 24 * 60 * 60

  /** `jwt.sign(claims, secret, {expiresIn: lifetime, algorithm: 'HS256'})` at clock time `now`. */
  function Sign(claims: Claims, secret: string, now: int, lifetime: nat): (t: Token)
    ensures t.Signed? && !t.IsEmpty()
    ensures t.claims == claims && t.expiresAt == Some(now + lifetime)
  {
    Signed(claims, HS256, Some(now + lifetime), secret)
  }

  /** True while a token with this `exp` is still accepted at `now` (expired once now >= exp). */
  predicate Unexpired(expiresAt: Option<int>, now: int) {
    expiresAt.None? || now < expiresAt.value
  }

  /**
    `jwt.verify(token, secret, {algorithms: ['HS256']})`, with the callback's
    error turned into None: a token that does not decode, names another
    algorithm, was signed with another secret or has expired yields None.
  */
  function Verify(token: Token, secret: string, now: int): (r: Option<Claims>)
    ensures r.Some? ==> token.Signed? && token.signedWith == secret && r.value == token.claims
    ensures r.Some? ==> Unexpired(token.expiresAt, now)
  {
    if token.Signed? && token.algorithm == HS256 && token.signedWith == secret
       && Unexpired(token.expiresAt, now)
    then Some(token.claims)
    else None
  }

  /** A token signed with the secret verifies exactly until its lifetime has passed. */
  lemma VerifySigned(claims: Claims, secret: string, issued: int, lifetime: nat, key: string, now: int)
    ensures Verify(Sign(claims, secret, issued, lifetime), key, now)
         == if key == secret && now < issued + lifetime then Some(claims) else None
  {
  }

  /** A string that is not a token never verifies, under any secret and at any time. */
  lemma MalformedNeverVerifies(text: string, secret: string, now: int)
    ensures Verify(Malformed(text), secret, now) == None
  {
  }
}
