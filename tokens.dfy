/** Session tokens as the handlers use them. Signing and verification
    (HS256 under the deployment's secret, with a seven-day expiry) belong to
    a library and stay abstract: a verifier either returns the claims or
    rejects the token. What is modelled is how a token is taken out of the
    `Authorization` header (the bearer scheme of section 2.1 of RFC 6750). */
module Tokens {
  import opened Text
  import opened Js

  /** The identity a token carries. */
  datatype Claims = Claims(username: Value, userId: Value)

  /** `verifyToken(token, secret)` with the secret fixed: `None` for a
      malformed, forged or expired token. */
  type Verifier = string -> Option<Claims>

  /** `generateToken(claims, secret)` with the secret fixed; signing may
      throw (a missing secret, say). */
  type Issuer = Claims -> Attempt<string>

  const BearerPrefix := "Bearer "

  /** `authHeader.substring(7)` once `authHeader` is present and starts with
      `'Bearer '`; `None` otherwise (an empty header also fails the test). */
  function BearerToken(authorization: Option<string>): Option<string> {
    if authorization.Some? && StartsWith(authorization.value, BearerPrefix)
    then Some(authorization.value[|BearerPrefix|..])
    else None
  }

  /** The token is exactly what follows the seven characters `Bearer `. */
  lemma BearerTokenIff(authorization: Option<string>, token: string)
    ensures BearerToken(authorization) == Some(token) <==> authorization == Some(BearerPrefix + token)
  {
    if authorization == Some(BearerPrefix + token) {
      assert (BearerPrefix + token)[..|BearerPrefix|] == BearerPrefix;
      assert (BearerPrefix + token)[|BearerPrefix|..] == token;
    }
    if BearerToken(authorization) == Some(token) {
      var h := authorization.value;
      assert h == h[..|BearerPrefix|] + h[|BearerPrefix|..];
    }
  }
}
