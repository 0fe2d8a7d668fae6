/**
  `getCurrentUser`: a read-only lookup. It checks the token, finds the user
  it names, and answers with that user minus the password, each friend id
  replaced by a summary of that friend.
 */
module GetCurrentUser {
  import opened Wrappers
  import opened Session
  import opened Http
  import opened UserModel
  import AuthUser

  const NotAuthenticated := "Not authenticated"
  const InvalidOrExpired := "Invalid or expired token"
  const UserNotFound := "User not found"

  /** A populated friend: the selected paths `name email profilePic`, plus `_id`, which a selection keeps. */
  datatype FriendSummary = FriendSummary(id: UserId, name: string, email: Option<string>, profilePic: string)

  /** A user document selected with `-password` and with `friends` populated. */
  datatype PublicUser = PublicUser(
    id: UserId,
    name: string,
    username: string,
    email: Option<string>,
    profilePic: string,
    about: string,
    isOnline: bool,
    lastSeen: Time,
    friends: seq<FriendSummary>,
    createdAt: Time,
    updatedAt: Time)

  /** The summary of the document a friend reference `id` names. */
  function Summary(id: UserId, u: User): FriendSummary {
    FriendSummary(id, u.name, u.email, u.profilePic)
  }

  /**
    `populate("friends", ...)`: each reference becomes the summary of the
    document it names; references to documents that no longer exist are dropped.
   */
  function Populate(ids: seq<UserId>, docs: map<UserId, User>): (r: seq<FriendSummary>)
    ensures |r| <= |ids|
    ensures forall f | f in r :: f.id in ids && f.id in docs && f == Summary(f.id, docs[f.id])
    ensures forall id | id in ids && id in docs :: Summary(id, docs[id]) in r
  {
    if ids == [] then []
    else
      var rest := Populate(ids[1..], docs);
      assert forall id | id in ids[1..] :: id in ids;
      if ids[0] in docs then [Summary(ids[0], docs[ids[0]])] + rest else rest
  }

  /** `.select("-password").populate("friends", "name email profilePic")` */
  function Project(u: User, docs: map<UserId, User>): PublicUser {
    PublicUser(u.id, u.name, u.username, u.email, u.profilePic, u.about, u.isOnline, u.lastSeen,
               Populate(u.friends, docs), u.createdAt, u.updatedAt)
  }

  function OptionalString(key: string, v: Option<string>): seq<Member> {
    if v.Some? then [Member(key, JStr(v.value))] else []
  }

  function FriendJson(f: FriendSummary): Json {
    JObj([Member("_id", JNum(f.id)), Member("name", JStr(f.name))]
         + OptionalString("email", f.email)
         + [Member("profilePic", JStr(f.profilePic))])
  }

  function PublicJson(p: PublicUser): Json {
    JObj(
      [Member("_id", JNum(p.id)), Member("name", JStr(p.name)), Member("username", JStr(p.username))]
      + OptionalString("email", p.email)
      + [ Member("profilePic", JStr(p.profilePic)), Member("about", JStr(p.about)),
          Member("isOnline", JBool(p.isOnline)), Member("lastSeen", JNum(p.lastSeen)),
          Member("friends", JArr(seq(|p.friends|, i requires 0 <= i < |p.friends| => FriendJson(p.friends[i])))),
          Member("createdAt", JNum(p.createdAt)), Member("updatedAt", JNum(p.updatedAt)) ])
  }

  function SuccessBody(p: PublicUser): Json {
    JObj([Member("success", JBool(true)), Member("user", PublicJson(p))])
  }

  /**
    The handler. `available` says whether the lookup reaches the database;
    when it does not, the catch block answers as for a bad token.
   */
  function CurrentUser(cookies: map<string, string>, secret: Secret, verify: Verifier, db: Db, available: bool): Reply {
    match PresentToken(cookies)
    case None => Reply(StatusOk, MessageBody(NotAuthenticated), [])
    case Some(token) =>
      match verify(token, secret)
      case None => Reply(StatusOk, MessageBody(InvalidOrExpired), [])
      case Some(decoded) =>
        if !available then Reply(StatusOk, MessageBody(InvalidOrExpired), [])
        else
          match FindById(db.docs, decoded.id)
          case None => Reply(404, MessageBody(UserNotFound), [])
          case Some(u) => Reply(StatusOk, SuccessBody(Project(u, db.docs)), [])
  }

  /** The lookup succeeded for this request. */
  predicate Found(cookies: map<string, string>, secret: Secret, verify: Verifier, db: Db) {
    && PresentToken(cookies).Some?
    && verify(PresentToken(cookies).value, secret).Some?
    && FindById(db.docs, verify(PresentToken(cookies).value, secret).value.id).Some?
  }

  /**
    The branches in order: no token, a token that fails to verify (or a
    store that cannot be reached), no such user, and success. Only "User not
    found" sets a status; no branch sets a cookie.
   */
  lemma CurrentUserOutcomes(cookies: map<string, string>, secret: Secret, verify: Verifier, db: Db, available: bool)
    ensures var r := CurrentUser(cookies, secret, verify, db, available);
      && r.cookies == []
      && (r.body == MessageBody(NotAuthenticated) <==> PresentToken(cookies).None?)
      && (r.body == MessageBody(InvalidOrExpired) <==>
            PresentToken(cookies).Some? && (verify(PresentToken(cookies).value, secret).None? || !available))
      && (r.status == 404 <==>
            available && PresentToken(cookies).Some? && verify(PresentToken(cookies).value, secret).Some?
            && !Found(cookies, secret, verify, db))
      && (r.status == 404 ==> r.body == MessageBody(UserNotFound))
      && (r.status != 404 ==> r.status == StatusOk)
      && (Field(r.body, "success") == Some(JBool(true)) <==> available && Found(cookies, secret, verify, db))
  {
  }

  /** On success the answer is the stored user of the token's id with every field but the password. */
  lemma CurrentUserSuccess(cookies: map<string, string>, secret: Secret, verify: Verifier, db: Db)
    requires Found(cookies, secret, verify, db)
    ensures var id := verify(PresentToken(cookies).value, secret).value.id.value;
      var u := db.docs[id];
      var p := Project(u, db.docs);
      && CurrentUser(cookies, secret, verify, db, true) == Reply(StatusOk, SuccessBody(p), [])
      && Field(SuccessBody(p), "user") == Some(PublicJson(p))
      && p.id == u.id && p.name == u.name && p.username == u.username && p.email == u.email
      && p.profilePic == u.profilePic && p.about == u.about && p.isOnline == u.isOnline
      && p.lastSeen == u.lastSeen && p.createdAt == u.createdAt && p.updatedAt == u.updatedAt
      && ObjectKeys(PublicJson(p)) == PublicUserKeys(u.email.Some?)
  {
    var p := Project(db.docs[verify(PresentToken(cookies).value, secret).value.id.value], db.docs);
    FieldInAt(SuccessBody(p).members, "user", 1);
    assert ObjectKeys(PublicJson(p)) == PublicUserKeys(p.email.Some?);
  }

  /** The keys of the selected user as `res.json` sends them: every schema path but `password`, plus `_id`. */
  function PublicUserKeys(hasEmail: bool): seq<string> {
    ["_id", "name", "username"] + (if hasEmail then ["email"] else [])
    + ["profilePic", "about", "isOnline", "lastSeen", "friends", "createdAt", "updatedAt"]
  }

  lemma FriendJsonShape(f: FriendSummary)
    ensures !HasKey(FriendJson(f), "password")
    ensures ObjectKeys(FriendJson(f)) == ["_id", "name"] + (if f.email.Some? then ["email"] else []) + ["profilePic"]
  {
    var ms := FriendJson(f).members;
    forall m | m in ms ensures m.key != "password" && !HasKey(m.value, "password") {
    }
  }

  /** Every friend in an answer is a summary: `_id`, `name`, `email` when the friend has one, and `profilePic`. */
  lemma FriendsAreSummaries(p: PublicUser)
    ensures Field(PublicJson(p), "friends").Some? && Field(PublicJson(p), "friends").value.JArr?
    ensures forall x | x in Field(PublicJson(p), "friends").value.items ::
      && (exists f | f in p.friends :: x == FriendJson(f))
      && !HasKey(x, "password")
      && (forall k | k in ObjectKeys(x) :: k in ["_id", "name", "email", "profilePic"])
  {
    var items := seq(|p.friends|, i requires 0 <= i < |p.friends| => FriendJson(p.friends[i]));
    PublicJsonFriends(p);
    forall x | x in items
      ensures && (exists f | f in p.friends :: x == FriendJson(f))
              && !HasKey(x, "password")
              && (forall k | k in ObjectKeys(x) :: k in ["_id", "name", "email", "profilePic"])
    {
      var i :| 0 <= i < |items| && items[i] == x;
      assert p.friends[i] in p.friends;
      FriendJsonShape(p.friends[i]);
    }
  }

  lemma PublicJsonFriends(p: PublicUser)
    ensures Field(PublicJson(p), "friends") ==
      Some(JArr(seq(|p.friends|, i requires 0 <= i < |p.friends| => FriendJson(p.friends[i]))))
  {
    var ms := PublicJson(p).members;
    var k := if p.email.Some? then 8 else 7;
    assert ms[k].key == "friends";
    forall j | 0 <= j < k ensures ms[j].key != "friends" {
    }
    FieldInAt(ms, "friends", k);
  }

  lemma PublicJsonHasNoPassword(p: PublicUser)
    ensures !HasKey(PublicJson(p), "password")
  {
    var items := seq(|p.friends|, i requires 0 <= i < |p.friends| => FriendJson(p.friends[i]));
    forall x | x in items ensures !HasKey(x, "password") {
      var i :| 0 <= i < |items| && items[i] == x;
      FriendJsonShape(p.friends[i]);
    }
    assert !HasKey(JArr(items), "password");
    var ms := PublicJson(p).members;
    forall m | m in ms ensures m.key != "password" && !HasKey(m.value, "password") {
    }
  }

  /** No answer of the handler, on any branch, has a `password` member anywhere, friends included. */
  lemma CurrentUserNeverSendsPassword(cookies: map<string, string>, secret: Secret, verify: Verifier, db: Db, available: bool)
    ensures !HasKey(CurrentUser(cookies, secret, verify, db, available).body, "password")
  {
    if available && Found(cookies, secret, verify, db) {
      var p := Project(db.docs[verify(PresentToken(cookies).value, secret).value.id.value], db.docs);
      PublicJsonHasNoPassword(p);
      var ms := SuccessBody(p).members;
      forall m | m in ms ensures m.key != "password" && !HasKey(m.value, "password") {
      }
    }
  }

  /** Whoever `getCurrentUser` answers for would also pass `authUser`, with the id of the user answered. */
  lemma FoundImpliesGateProceeds(cookies: map<string, string>, secret: Secret, verify: Verifier, db: Db)
    requires Valid(db)
    requires Found(cookies, secret, verify, db)
    ensures var id := verify(PresentToken(cookies).value, secret).value.id.value;
      && AuthUser.Gate(cookies, secret, verify) == AuthUser.Proceed(Some(id))
      && Project(db.docs[id], db.docs).id == id
  {
  }

  /** A missing token: `authUser` answers 401, `getCurrentUser` sets no status at all. */
  lemma MissingTokenStatuses(cookies: map<string, string>, secret: Secret, verify: Verifier, db: Db, available: bool)
    requires PresentToken(cookies).None?
    ensures AuthUser.Gate(cookies, secret, verify).reply.status == 401
    ensures CurrentUser(cookies, secret, verify, db, available).status == StatusOk
  {
  }
}
