/**
  The session-token interface: what the application asks of the jsonwebtoken
  library and the name of the cookie that carries the token. Signing and
  verification are not modelled; they are oracles passed in by the caller.
 */
module Session {
  import opened Wrappers

  /** A user document's `_id` (a MongoDB ObjectId), abstracted to a number. */
  type UserId = nat

  type Token = string
  type Secret = string

  /** `expiresIn: "7d"`, in seconds. */
  const TokenLifetimeSeconds: nat := 7 * 24 * 60 * 60

  /** The cookie both middlewares read and signup writes. */
  const AuthCookieName := "authToken"

  /** What `jwt.sign` is given: the payload `{ id }` and the lifetime option. */
  datatype Claims = Claims(id: UserId, expiresInSeconds: nat)

  /** The payload `jwt.verify` hands back; `id` is absent when the signed payload had none. */
  datatype Decoded = Decoded(id: Option<UserId>)

  /** `jwt.sign(claims, secret)`; `None` when it throws. */
  type Signer = (Claims, Secret) -> Option<Token>

  /**
    `jwt.verify(token, secret)` at the moment of the request; `None` when it
    throws (bad signature, malformed token, expired token).
   */
  type Verifier = (Token, Secret) -> Option<Decoded>

  /**
    The one thing assumed of the library: within its validity window, a token
    minted by `sign` is a non-empty string that `verify` accepts under the same
    secret, giving back the signed id.
   */
  ghost predicate Agrees(sign: Signer, verify: Verifier) {
    forall c: Claims, s: Secret | sign(c, s).Some? ::
      sign(c, s).value != "" && verify(sign(c, s).value, s) == Some(Decoded(Some(c.id)))
  }

  /**
    `req.cookies.authToken` as the `!token` test sees it: an absent cookie and
    an empty one are both falsy.
   */
  function PresentToken(cookies: map<string, string>): Option<Token> {
    if AuthCookieName in cookies && cookies[AuthCookieName] != "" then Some(cookies[AuthCookieName]) else None
  }
}
