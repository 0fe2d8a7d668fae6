/**
  The handlers together: the cookie set by a successful signup, replayed by
  the client, opens the gate for the new user and makes the current-session
  lookup answer with that user.
 */
module SessionFlow {
  import opened Wrappers
  import opened Session
  import opened Http
  import opened UserModel
  import opened UserController
  import AuthUser
  import GetCurrentUser

  /** The cookie jar of a client that kept the `authToken` cookie of a reply. */
  function ReplayedCookies(r: Reply): map<string, string>
    requires r.cookies != []
  {
    map[r.cookies[0].name := r.cookies[0].value]
  }

  /** After a successful signup, the replayed cookie passes `authUser` with the new user's id. */
  lemma SignupThenGate(db: Db, body: SignupBody, env: Env, verify: Verifier)
    requires Valid(db)
    requires Agrees(env.sign, verify)
    requires Signup(db, body, env).reply.status == 201
    ensures Signup(db, body, env).reply.cookies != []
    ensures AuthUser.Gate(ReplayedCookies(Signup(db, body, env).reply), env.secret, verify) == AuthUser.Proceed(Some(db.nextId))
  {
    SignupCreated(db, body, env);
    var claims := Claims(db.nextId, TokenLifetimeSeconds);
    AuthUser.SignedTokenPassesGate(env.sign, verify, claims, env.secret, ReplayedCookies(Signup(db, body, env).reply));
  }

  /** What a client keeps from a successful signup: the one `authToken` cookie, holding the token minted for the new id. */
  lemma SignupCookie(db: Db, body: SignupBody, env: Env)
    requires Valid(db)
    requires Signup(db, body, env).reply.status == 201
    ensures env.sign(Claims(db.nextId, TokenLifetimeSeconds), env.secret).Some?
    ensures Signup(db, body, env).reply.cookies != []
    ensures ReplayedCookies(Signup(db, body, env).reply)
      == map[AuthCookieName := env.sign(Claims(db.nextId, TokenLifetimeSeconds), env.secret).value]
    ensures db.nextId in Signup(db, body, env).db.docs
    ensures Valid(Signup(db, body, env).db)
  {
    SignupCreatedIff(db, body, env);
    SignupCreated(db, body, env);
    SignupPreservesValid(db, body, env);
  }

  /** Under `Agrees`, a jar holding only a minted token is a request `getCurrentUser` answers for, when the id is stored. */
  lemma MintedTokenIsFound(db: Db, sign: Signer, verify: Verifier, claims: Claims, secret: Secret)
    requires Agrees(sign, verify)
    requires sign(claims, secret).Some?
    requires claims.id in db.docs
    ensures GetCurrentUser.Found(map[AuthCookieName := sign(claims, secret).value], secret, verify, db)
    ensures verify(sign(claims, secret).value, secret).value.id == Some(claims.id)
  {
    var cookies := map[AuthCookieName := sign(claims, secret).value];
    assert PresentToken(cookies) == Some(sign(claims, secret).value);
  }

  /**
    After a successful signup, the replayed cookie makes `getCurrentUser`
    answer with the new user: normalised fields, no friends, no password.
   */
  lemma SignupThenCurrentUser(db: Db, body: SignupBody, env: Env, verify: Verifier)
    requires Valid(db)
    requires Agrees(env.sign, verify)
    requires Signup(db, body, env).reply.status == 201
    ensures Signup(db, body, env).reply.cookies != []
    ensures var r := Signup(db, body, env);
      var p := GetCurrentUser.Project(r.db.docs[db.nextId], r.db.docs);
      && GetCurrentUser.CurrentUser(ReplayedCookies(r.reply), env.secret, verify, r.db, true)
         == Reply(StatusOk, GetCurrentUser.SuccessBody(p), [])
      && p.id == db.nextId
      && p.username == Trim(Lower(body.username.value))
      && p.email == Some(Lower(body.email.value))
      && p.friends == []
      && !HasKey(GetCurrentUser.SuccessBody(p), "password")
  {
    SignupCookie(db, body, env);
    SignupCreated(db, body, env);
    var r := Signup(db, body, env);
    var claims := Claims(db.nextId, TokenLifetimeSeconds);
    MintedTokenIsFound(r.db, env.sign, verify, claims, env.secret);
    var cookies := ReplayedCookies(r.reply);
    GetCurrentUser.CurrentUserSuccess(cookies, env.secret, verify, r.db);
    GetCurrentUser.CurrentUserNeverSendsPassword(cookies, env.secret, verify, r.db, true);
  }
}
