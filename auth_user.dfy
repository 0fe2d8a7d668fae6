/**
  `authUser`: the middleware in front of protected handlers. It either
  answers 401 or records the token's user id on the request and hands over
  to the next handler; it never looks at the user store.
 */
module AuthUser {
  import opened Wrappers
  import opened Session
  import opened Http

  const NotAuthenticated := "Not authenticated"
  const InvalidToken := "Invalid token"

  /** What the gate decides: hand over with the decoded id, or answer. */
  datatype GateResult = Proceed(userId: Option<UserId>) | Reject(reply: Reply)

  /** The gate's decision from the request's cookies. */
  function Gate(cookies: map<string, string>, secret: Secret, verify: Verifier): GateResult {
    match PresentToken(cookies)
    case None => Reject(Reply(401, MessageBody(NotAuthenticated), []))
    case Some(token) =>
      match verify(token, secret)
      case None => Reject(Reply(401, MessageBody(InvalidToken), []))
      case Some(decoded) => Proceed(decoded.id)
  }

  /** The downstream handler, observed only through how often it is invoked. */
  class Next {
    var calls: nat

    constructor ()
      ensures calls == 0
    {
      calls := 0;
    }

    method Call()
      modifies this
      ensures calls == old(calls) + 1
    {
      calls := calls + 1;
    }
  }

  /** The middleware over the live request, response and next handler. */
  method AuthUser(req: Request, res: Response, next: Next, secret: Secret, verify: Verifier)
    requires res.Unsent()
    modifies req`userId, res, next
    ensures match Gate(req.cookies, secret, verify)
      case Proceed(id) =>
        req.userId == id && next.calls == old(next.calls) + 1 && res.Unsent()
      case Reject(reply) =>
        req.userId == old(req.userId) && next.calls == old(next.calls) && res.body.Some? && res.Sent() == reply
  {
    var token := PresentToken(req.cookies);
    if token.None? {
      res.Status(401);
      res.Send(MessageBody(NotAuthenticated));
      return;
    }
    var decoded := verify(token.value, secret);
    if decoded.None? {
      res.Status(401);
      res.Send(MessageBody(InvalidToken));
      return;
    }
    req.userId := decoded.value.id;
    next.Call();
  }

  /** The gate lets a request through exactly when it carries a non-empty token that verifies, and passes on the decoded id. */
  lemma GateProceedsIff(cookies: map<string, string>, secret: Secret, verify: Verifier)
    ensures Gate(cookies, secret, verify).Proceed? <==>
      && AuthCookieName in cookies && cookies[AuthCookieName] != ""
      && verify(cookies[AuthCookieName], secret).Some?
    ensures Gate(cookies, secret, verify).Proceed? ==>
      Gate(cookies, secret, verify).userId == verify(cookies[AuthCookieName], secret).value.id
  {
  }

  /** Every rejection is a 401 with no cookie; the message tells a missing token from one that fails to verify. */
  lemma GateRejections(cookies: map<string, string>, secret: Secret, verify: Verifier)
    requires Gate(cookies, secret, verify).Reject?
    ensures var r := Gate(cookies, secret, verify).reply;
      && r.status == 401 && r.cookies == []
      && (r.body == MessageBody(NotAuthenticated) <==> PresentToken(cookies).None?)
      && (r.body == MessageBody(InvalidToken) <==> PresentToken(cookies).Some?)
  {
  }

  /** The decision depends on the `authToken` cookie alone: other cookies are ignored. */
  lemma GateReadsOnlyAuthCookie(c1: map<string, string>, c2: map<string, string>, secret: Secret, verify: Verifier)
    requires (AuthCookieName in c1) == (AuthCookieName in c2)
    requires AuthCookieName in c1 ==> c1[AuthCookieName] == c2[AuthCookieName]
    ensures Gate(c1, secret, verify) == Gate(c2, secret, verify)
  {
  }

  /** A token minted by a signer the verifier agrees with passes the gate with the signed id. */
  lemma SignedTokenPassesGate(sign: Signer, verify: Verifier, claims: Claims, secret: Secret, cookies: map<string, string>)
    requires Agrees(sign, verify)
    requires sign(claims, secret).Some?
    requires AuthCookieName in cookies && cookies[AuthCookieName] == sign(claims, secret).value
    ensures Gate(cookies, secret, verify) == Proceed(Some(claims.id))
  {
  }
}
