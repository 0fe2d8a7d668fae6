/**
  `createAccount`: validate the four fields, refuse a taken email, hash the
  password, insert the user, mint a session token, set the cookie and answer
  with the public part of the new user. Every exception raised on the way
  (store, hash, sign) lands in one catch that answers "Internal server error".
 */
module UserController {
  import opened Wrappers
  import opened Session
  import opened Http
  import opened UserModel

  /** The bcrypt work factor passed to `bcrypt.hash`. */
  const BcryptCost: nat := 10

  /** `bcrypt.hash(plain, cost)`; `None` when it rejects. */
  type Hasher = (string, nat) -> Option<string>

  /** 7 days in milliseconds, the cookie's `maxAge`. */
  const CookieMaxAgeMs: int := 7 * 24 * 60 * 60 * 1000

  const AllFieldsRequired := "All fields are required"
  const UserExists := "User already exists"
  const AccountCreated := "Account created successfully"
  const InternalError := "Internal server error"

  /** `req.body` of a signup: each field absent or a string. */
  datatype SignupBody = SignupBody(name: Option<string>, username: Option<string>, email: Option<string>, password: Option<string>)

  /**
    What the handler gets from its surroundings: whether each store call
    reaches the database, the two library oracles, `JWT_SECRET`, whether
    `NODE_ENV === "production"`, and the clock.
   */
  datatype Env = Env(
    findAvailable: bool,
    createAvailable: bool,
    hash: Hasher,
    sign: Signer,
    secret: Secret,
    isProduction: bool,
    now: Time)

  /** JavaScript's `!v` on a body field: absent and empty are falsy. */
  predicate Falsy(v: Option<string>) {
    v.None? || v.value == ""
  }

  predicate MissingField(b: SignupBody) {
    Falsy(b.name) || Falsy(b.username) || Falsy(b.email) || Falsy(b.password)
  }

  /** The cookie options of `res.cookie("authToken", token, {...})`. */
  function AuthCookie(token: Token, isProduction: bool): Cookie {
    Cookie(AuthCookieName, token, true, isProduction, if isProduction then "none" else "lax", CookieMaxAgeMs)
  }

  /** The cookie is always httpOnly; it is secure and cross-site exactly in production; it lives as long as the token. */
  lemma AuthCookieAttributes(token: Token, isProduction: bool)
    ensures var c := AuthCookie(token, isProduction);
      && c.name == "authToken" && c.value == token
      && c.httpOnly
      && (c.secure <==> isProduction)
      && (c.sameSite == "none" <==> isProduction)
      && (c.sameSite == "lax" <==> !isProduction)
      && c.maxAge == 604800000
      && c.maxAge == TokenLifetimeSeconds * 1000
  {
  }

  /** The document handed to `User.create`: the four fields, with the hash in place of the password. */
  function SignupDoc(name: string, username: string, email: string, hashed: string): UserDoc {
    UserDoc(Some(name), Some(username), Some(email), Some(hashed), None, None, None, None, None)
  }

  /** The `user` object of the 201 answer. */
  function UserJson(u: User): Json {
    JObj(
      [Member("id", JNum(u.id)), Member("name", JStr(u.name)), Member("username", JStr(u.username))]
      + (if u.email.Some? then [Member("email", JStr(u.email.value))] else [])
      + [ Member("profilePic", JStr(u.profilePic)), Member("about", JStr(u.about)),
          Member("lastSeen", JNum(u.lastSeen)),
          Member("friends", JArr(seq(|u.friends|, i requires 0 <= i < |u.friends| => JNum(u.friends[i])))) ])
  }

  const SignupUserKeys := ["id", "name", "username", "email", "profilePic", "about", "lastSeen", "friends"]

  function CreatedBody(u: User): Json {
    JObj([Member("success", JBool(true)), Member("message", JStr(AccountCreated)), Member("user", UserJson(u))])
  }

  /** What the one catch block sends: no status set, so Express's default. */
  const InternalReply := Reply(StatusOk, FailureBody(InternalError), [])

  datatype SignupResult = SignupResult(db: Db, reply: Reply)

  /** The whole handler, as a function of the collection before the request. */
  function Signup(db: Db, body: SignupBody, env: Env): SignupResult {
    if MissingField(body) then
      SignupResult(db, Reply(400, MessageBody(AllFieldsRequired), []))
    else if !env.findAvailable then
      SignupResult(db, InternalReply)
    else if EmailTaken(db.docs, NormaliseEmail(body.email.value)) then
      SignupResult(db, Reply(409, MessageBody(UserExists), []))
    else
      match env.hash(body.password.value, BcryptCost)
      case None => SignupResult(db, InternalReply)
      case Some(hashed) =>
        match Insert(db, SignupDoc(body.name.value, body.username.value, body.email.value, hashed), env.now, env.createAvailable)
        case Err(_) => SignupResult(db, InternalReply)
        case Ok(u) =>
          var db' := AddUser(db, u);
          match env.sign(Claims(u.id, TokenLifetimeSeconds), env.secret)
          case None => SignupResult(db', InternalReply)
          case Some(token) => SignupResult(db', Reply(201, CreatedBody(u), [AuthCookie(token, env.isProduction)]))
  }

  /** The handler over the live collection and response. */
  method CreateAccount(users: UserCollection, res: Response, body: SignupBody, env: Env)
    requires res.Unsent()
    modifies users, res
    ensures res.body.Some?
    ensures users.Value() == Signup(old(users.Value()), body, env).db
    ensures res.Sent() == Signup(old(users.Value()), body, env).reply
  {
    if MissingField(body) {
      res.Status(400);
      res.Send(MessageBody(AllFieldsRequired));
      return;
    }
    var name, username, email, password := body.name.value, body.username.value, body.email.value, body.password.value;

    var existing := users.FindOneByEmail(NormaliseEmail(email), env.findAvailable);
    if existing.Err? {
      res.Send(FailureBody(InternalError));
      return;
    }
    if existing.value.Some? {
      res.Status(409);
      res.Send(MessageBody(UserExists));
      return;
    }

    var hashed := env.hash(password, BcryptCost);
    if hashed.None? {
      res.Send(FailureBody(InternalError));
      return;
    }

    var created := users.Create(SignupDoc(name, username, email, hashed.value), env.now, env.createAvailable);
    if created.Err? {
      res.Send(FailureBody(InternalError));
      return;
    }
    var user := created.value;

    var token := env.sign(Claims(user.id, TokenLifetimeSeconds), env.secret);
    if token.None? {
      res.Send(FailureBody(InternalError));
      return;
    }

    res.SetCookie(AuthCookie(token.value, env.isProduction));
    res.Status(201);
    res.Send(CreatedBody(user));
  }

  // ---------------------------------------------------------------------------
  // Properties of the handler

  /** The store was written: the request got past validation, the email check and the hash, and the insert succeeded. */
  predicate Inserted(db: Db, body: SignupBody, env: Env) {
    && !MissingField(body)
    && env.findAvailable
    && !EmailTaken(db.docs, NormaliseEmail(body.email.value))
    && env.hash(body.password.value, BcryptCost).Some?
    && Insert(db, SignupDoc(body.name.value, body.username.value, body.email.value,
                            env.hash(body.password.value, BcryptCost).value), env.now, env.createAvailable).Ok?
  }

  /** A missing or empty field answers 400 and nothing else happens: the store, the hash and the signer are not consulted. */
  lemma SignupMissingField(db: Db, body: SignupBody, env: Env, other: Env)
    requires MissingField(body)
    ensures Signup(db, body, env) == SignupResult(db, Reply(400, MessageBody(AllFieldsRequired), []))
    ensures Signup(db, body, other) == Signup(db, body, env)
  {
  }

  /** A taken email answers 409, the store is unchanged, and hashing, inserting and signing never happen. */
  lemma SignupConflict(db: Db, body: SignupBody, env: Env, hash: Hasher, sign: Signer, createAvailable: bool)
    requires !MissingField(body) && env.findAvailable
    requires EmailTaken(db.docs, NormaliseEmail(body.email.value))
    ensures Signup(db, body, env) == SignupResult(db, Reply(409, MessageBody(UserExists), []))
    ensures Signup(db, body, env.(hash := hash, sign := sign, createAvailable := createAvailable)) == Signup(db, body, env)
  {
  }

  /** The answer is 201 exactly when the user was inserted and a token was minted for it. */
  lemma SignupCreatedIff(db: Db, body: SignupBody, env: Env)
    ensures Signup(db, body, env).reply.status == 201 <==>
      Inserted(db, body, env) && env.sign(Claims(db.nextId, TokenLifetimeSeconds), env.secret).Some?
  {
    if Inserted(db, body, env) {
      var hashed := env.hash(body.password.value, BcryptCost).value;
      var doc := SignupDoc(body.name.value, body.username.value, body.email.value, hashed);
      InsertChecked(db, doc, env.now, env.createAvailable);
    }
  }

  /** Only the 201 answer sets a cookie; every answer is one of 400, 409, 201 and the catch-all. */
  lemma SignupReplies(db: Db, body: SignupBody, env: Env)
    ensures var r := Signup(db, body, env).reply;
      && (r.cookies != [] <==> r.status == 201)
      && (r.status == 400 || r.status == 409 || r.status == 201 || r == InternalReply)
  {
  }

  /** The answer is 400 exactly when a field is missing or empty. */
  lemma Signup400Iff(db: Db, body: SignupBody, env: Env)
    ensures Signup(db, body, env).reply.status == 400 <==> MissingField(body)
  {
  }

  /** The answer is 409 exactly when the fields are present, the lookup ran, and the lowercased email is taken. */
  lemma Signup409Iff(db: Db, body: SignupBody, env: Env)
    ensures Signup(db, body, env).reply.status == 409 <==>
      !MissingField(body) && env.findAvailable && EmailTaken(db.docs, NormaliseEmail(body.email.value))
  {
  }

  /**
    The catch-all answer is sent exactly when the fields are present and one
    of the awaited calls throws: `findOne` cannot reach the store, or, with the
    email free, `bcrypt.hash` rejects, `User.create` is refused (validation,
    a unique index, an unreachable store) or `jwt.sign` throws.
   */
  lemma SignupInternalIff(db: Db, body: SignupBody, env: Env)
    ensures Signup(db, body, env).reply == InternalReply <==>
      && !MissingField(body)
      && (|| !env.findAvailable
          || (&& !EmailTaken(db.docs, NormaliseEmail(body.email.value))
              && (|| env.hash(body.password.value, BcryptCost).None?
                  || !Inserted(db, body, env)
                  || env.sign(Claims(db.nextId, TokenLifetimeSeconds), env.secret).None?)))
  {
    if Inserted(db, body, env) {
      var hashed := env.hash(body.password.value, BcryptCost).value;
      var doc := SignupDoc(body.name.value, body.username.value, body.email.value, hashed);
      InsertChecked(db, doc, env.now, env.createAvailable);
    }
  }

  /**
    A `name` or `username` of white space only passes the `!field` test, but
    the schema trims it to the empty string and its `required` validator makes
    `User.create` throw: the catch-all answers and nothing is stored.
   */
  lemma SignupWhitespaceField(db: Db, body: SignupBody, env: Env)
    requires !MissingField(body)
    requires env.findAvailable ==> !EmailTaken(db.docs, NormaliseEmail(body.email.value))
    requires || (forall i | 0 <= i < |body.name.value| :: IsSpace(body.name.value[i]))
             || (forall i | 0 <= i < |body.username.value| :: IsSpace(body.username.value[i]))
    ensures Signup(db, body, env) == SignupResult(db, InternalReply)
  {
    var name, username := body.name.value, body.username.value;
    if forall i | 0 <= i < |name| :: IsSpace(name[i]) {
      TrimAllSpace(name);
    } else {
      TrimAllSpace(username);
      LowerTrimCommute(username);
    }
    if env.findAvailable && env.hash(body.password.value, BcryptCost).Some? {
      var doc := SignupDoc(name, username, body.email.value, env.hash(body.password.value, BcryptCost).value);
      CastSucceedsIff(doc, db.nextId, env.now);
    }
  }

  /**
    A successful signup adds exactly one user under a fresh id, leaves every
    other user alone, stores the bcrypt hash instead of the password, sets the
    session cookie for the new id and answers with the public fields only.
   */
  lemma SignupCreated(db: Db, body: SignupBody, env: Env)
    requires Valid(db)
    requires Signup(db, body, env).reply.status == 201
    ensures var r := Signup(db, body, env);
      var id := db.nextId;
      && id !in db.docs
      && r.db.docs.Keys == db.docs.Keys + {id}
      && |r.db.docs| == |db.docs| + 1
      && (forall k | k in db.docs :: r.db.docs[k] == db.docs[k])
      && var u := r.db.docs[id];
      && u.password == env.hash(body.password.value, BcryptCost).value
      && u.name == Trim(body.name.value)
      && u.username == Trim(Lower(body.username.value))
      && u.email == Some(Lower(body.email.value))
      && u.profilePic == DefaultProfilePic && u.about == DefaultAbout && !u.isOnline
      && u.friends == [] && u.lastSeen == env.now
      && r.reply.cookies == [AuthCookie(env.sign(Claims(id, TokenLifetimeSeconds), env.secret).value, env.isProduction)]
      && Field(r.reply.body, "success") == Some(JBool(true))
      && Field(r.reply.body, "user") == Some(UserJson(u))
      && ObjectKeys(UserJson(u)) == SignupUserKeys
  {
    SignupCreatedIff(db, body, env);
    var hashed := env.hash(body.password.value, BcryptCost).value;
    var doc := SignupDoc(body.name.value, body.username.value, body.email.value, hashed);
    InsertOk(db, doc, env.now, env.createAvailable);
    CastFields(doc, db.nextId, env.now);
    var u := Insert(db, doc, env.now, env.createAvailable).value;
    var token := env.sign(Claims(u.id, TokenLifetimeSeconds), env.secret).value;
    assert Signup(db, body, env) == SignupResult(AddUser(db, u), Reply(201, CreatedBody(u), [AuthCookie(token, env.isProduction)]));
    assert AddUser(db, u).docs[db.nextId] == u;
    assert ObjectKeys(UserJson(u)) == SignupUserKeys;
    FieldInAt(CreatedBody(u).members, "user", 2);
  }

  /** No answer of the handler, on any path, has a `password` member anywhere in its body. */
  lemma SignupNeverSendsPassword(db: Db, body: SignupBody, env: Env)
    ensures !HasKey(Signup(db, body, env).reply.body, "password")
  {
    var r := Signup(db, body, env).reply;
    if r.status == 201 {
      SignupCreatedIff(db, body, env);
      var hashed := env.hash(body.password.value, BcryptCost).value;
      var u := Insert(db, SignupDoc(body.name.value, body.username.value, body.email.value, hashed), env.now, env.createAvailable).value;
      UserJsonHasNoPassword(u);
    }
  }

  lemma UserJsonHasNoPassword(u: User)
    ensures !HasKey(UserJson(u), "password")
    ensures !HasKey(CreatedBody(u), "password")
  {
    var friends := seq(|u.friends|, i requires 0 <= i < |u.friends| => JNum(u.friends[i]));
    forall x | x in friends ensures !HasKey(x, "password") {
      assert x.JNum?;
    }
    assert !HasKey(JArr(friends), "password");
    var head := [Member("id", JNum(u.id)), Member("name", JStr(u.name)), Member("username", JStr(u.username))];
    var email: seq<Member> := if u.email.Some? then [Member("email", JStr(u.email.value))] else [];
    var tail := [ Member("profilePic", JStr(u.profilePic)), Member("about", JStr(u.about)),
                  Member("lastSeen", JNum(u.lastSeen)), Member("friends", JArr(friends)) ];
    assert UserJson(u).members == head + email + tail;
    forall m: Member | m in head + email + tail ensures m.key != "password" && !HasKey(m.value, "password") {
      if m in tail {
        assert m == tail[0] || m == tail[1] || m == tail[2] || m == tail[3];
      }
    }
  }

  /** Whatever the handler does, the collection invariant (both unique indexes included) still holds afterwards. */
  lemma SignupPreservesValid(db: Db, body: SignupBody, env: Env)
    requires Valid(db)
    ensures Valid(Signup(db, body, env).db)
  {
    if Inserted(db, body, env) {
      var hashed := env.hash(body.password.value, BcryptCost).value;
      var doc := SignupDoc(body.name.value, body.username.value, body.email.value, hashed);
      InsertPreservesValid(db, doc, env.now, env.createAvailable);
      var u := Insert(db, doc, env.now, env.createAvailable).value;
      assert Signup(db, body, env).db == AddUser(db, u);
    } else {
      assert Signup(db, body, env).db == db;
    }
  }

  /**
    A failed signup leaves the store unchanged, with one exception: when
    `jwt.sign` throws after the insert, the new user stays stored while the
    client is told "Internal server error".
   */
  lemma SignupFailureEffect(db: Db, body: SignupBody, env: Env)
    requires Signup(db, body, env).reply.status != 201
    ensures var r := Signup(db, body, env);
      && (r.db == db <==> !Inserted(db, body, env))
      && (Inserted(db, body, env) ==> r.reply == InternalReply && env.sign(Claims(db.nextId, TokenLifetimeSeconds), env.secret).None?)
  {
    if Inserted(db, body, env) {
      var hashed := env.hash(body.password.value, BcryptCost).value;
      var doc := SignupDoc(body.name.value, body.username.value, body.email.value, hashed);
      InsertChecked(db, doc, env.now, env.createAvailable);
      var u := Insert(db, doc, env.now, env.createAvailable).value;
      assert AddUser(db, u).nextId != db.nextId;
    }
  }

  /** A username that is already taken is not a 409: the index refuses the insert and the catch-all answers. */
  lemma SignupDuplicateUsername(db: Db, body: SignupBody, env: Env)
    requires !MissingField(body)
    requires env.findAvailable ==> !EmailTaken(db.docs, NormaliseEmail(body.email.value))
    requires UsernameTaken(db.docs, NormaliseUsername(body.username.value))
    ensures Signup(db, body, env) == SignupResult(db, InternalReply)
  {
  }

  /** Two signups with the same email exclude each other: once the first succeeds, the second gets 409. */
  lemma SecondSignupConflicts(db: Db, first: SignupBody, env: Env, second: SignupBody, env2: Env)
    requires Valid(db)
    requires Signup(db, first, env).reply.status == 201
    requires !MissingField(second) && env2.findAvailable
    requires NormaliseEmail(second.email.value) == NormaliseEmail(first.email.value)
    ensures var db1 := Signup(db, first, env).db;
      Signup(db1, second, env2) == SignupResult(db1, Reply(409, MessageBody(UserExists), []))
  {
    SignupCreated(db, first, env);
    var db1 := Signup(db, first, env).db;
    assert db1.docs[db.nextId].email == Some(NormaliseEmail(second.email.value));
    assert EmailTaken(db1.docs, NormaliseEmail(second.email.value));
  }
}
