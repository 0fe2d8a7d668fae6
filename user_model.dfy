/**
  The `User` model: the schema's setters (trim, lowercase), defaults and
  required validators, the unique indexes on `username` and (sparse) `email`,
  and the collection that `User.findOne`, `User.create` and `User.findById`
  work on.
 */
module UserModel {
  import opened Wrappers
  import opened Session

  /** A `Date`, supplied by the environment (`Date.now`, the timestamps plugin). */
  type Time = int

  // ---------------------------------------------------------------------------
  // The string setters

  /** The characters `String.prototype.trim` removes (WhiteSpace and LineTerminator). */
  predicate IsSpace(c: char) {
    c == ' ' || c == '\t' || c == '\n' || c == '\U{B}' || c == '\U{C}' || c == '\r'
    || c == '\U{A0}' || c == '\U{1680}' || ('\U{2000}' <= c <= '\U{200A}')
    || c == '\U{2028}' || c == '\U{2029}' || c == '\U{202F}' || c == '\U{205F}'
    || c == '\U{3000}' || c == '\U{FEFF}'
  }

  /** Drops leading white space. */
  function TrimStart(s: string): string {
    if s != [] && IsSpace(s[0]) then TrimStart(s[1..]) else s
  }

  /** Drops trailing white space. */
  function TrimEnd(s: string): string {
    if s != [] && IsSpace(s[|s| - 1]) then TrimEnd(s[..|s| - 1]) else s
  }

  /** `TrimStart` leaves a suffix of `s` that does not start with a space, and removes only spaces. */
  lemma {:induction false} TrimStartSpec(s: string)
    ensures var r := TrimStart(s);
      && |r| <= |s| && r == s[|s| - |r|..]
      && (forall i | 0 <= i < |s| - |r| :: IsSpace(s[i]))
      && (r == [] || !IsSpace(r[0]))
  {
    if s != [] && IsSpace(s[0]) {
      var t := s[1..];
      TrimStartSpec(t);
      var r := TrimStart(t);
      assert TrimStart(s) == r;
      assert t[|t| - |r|..] == s[|s| - |r|..];
      forall i | 0 <= i < |s| - |r| ensures IsSpace(s[i]) {
        if i > 0 {
          assert s[i] == t[i - 1];
        }
      }
    }
  }

  /** `TrimEnd` leaves a prefix of `s` that does not end with a space, and removes only spaces. */
  lemma {:induction false} TrimEndSpec(s: string)
    ensures var r := TrimEnd(s);
      && |r| <= |s| && r == s[..|r|]
      && (forall i | |r| <= i < |s| :: IsSpace(s[i]))
      && (r == [] || !IsSpace(r[|r| - 1]))
  {
    if s != [] && IsSpace(s[|s| - 1]) {
      var t := s[..|s| - 1];
      TrimEndSpec(t);
      var r := TrimEnd(t);
      assert TrimEnd(s) == r;
      assert t[..|r|] == s[..|r|];
      forall i | |r| <= i < |s| ensures IsSpace(s[i]) {
        if i < |s| - 1 {
          assert s[i] == t[i];
        }
      }
    }
  }

  /** The `trim: true` setter. */
  function Trim(s: string): string {
    TrimEnd(TrimStart(s))
  }

  predicate IsUpper(c: char) {
    'A' <= c <= 'Z'
  }

  function LowerChar(c: char): char {
    if IsUpper(c) then (c as int + 32) as char else c
  }

  /** The `lowercase: true` setter (ASCII letters only). */
  function Lower(s: string): string {
    seq(|s|, i requires 0 <= i < |s| => LowerChar(s[i]))
  }

  /** What trimming leaves: a non-empty result starts and ends with a non-space. */
  lemma TrimEnds(s: string)
    ensures Trim(s) == [] || (!IsSpace(Trim(s)[0]) && !IsSpace(Trim(s)[|Trim(s)| - 1]))
  {
    var t := TrimStart(s);
    TrimStartSpec(s);
    TrimEndSpec(t);
    if TrimEnd(t) != [] {
      assert TrimEnd(t)[0] == t[0];
    }
  }

  /** Trimming removes only white space, and only from the two ends. */
  lemma TrimExtent(s: string)
    ensures var k := |s| - |TrimStart(s)|;
      && 0 <= k && k + |Trim(s)| <= |s|
      && s[k..k + |Trim(s)|] == Trim(s)
      && (forall i | 0 <= i < k :: IsSpace(s[i]))
      && (forall i | k + |Trim(s)| <= i < |s| :: IsSpace(s[i]))
  {
    var t := TrimStart(s);
    var k := |s| - |t|;
    var r := TrimEnd(t);
    TrimStartSpec(s);
    TrimEndSpec(t);
    forall i | k + |r| <= i < |s| ensures IsSpace(s[i]) {
      assert s[i] == t[i - k];
    }
  }

  /** A string made only of white space trims to the empty string. */
  lemma TrimAllSpace(s: string)
    requires forall i | 0 <= i < |s| :: IsSpace(s[i])
    ensures Trim(s) == []
  {
    TrimStartSpec(s);
  }

  lemma TrimIdempotent(s: string)
    ensures Trim(Trim(s)) == Trim(s)
  {
    TrimEnds(s);
    var r := Trim(s);
    assert TrimStart(r) == r;
    assert TrimEnd(r) == r;
  }

  lemma LowerIdempotent(s: string)
    ensures Lower(Lower(s)) == Lower(s)
    ensures forall i | 0 <= i < |Lower(s)| :: !IsUpper(Lower(s)[i])
  {
  }

  /** Lowercasing touches no white space and makes none. */
  lemma LowerCharSpace(c: char)
    ensures IsSpace(LowerChar(c)) == IsSpace(c)
  {
  }

  lemma {:induction false} TrimStartLower(s: string)
    ensures TrimStart(Lower(s)) == Lower(TrimStart(s))
  {
    if s != [] {
      var l := Lower(s);
      assert l[0] == LowerChar(s[0]);
      LowerCharSpace(s[0]);
      if IsSpace(s[0]) {
        assert l[1..] == Lower(s[1..]);
        TrimStartLower(s[1..]);
      }
    }
  }

  lemma {:induction false} TrimEndLower(s: string)
    ensures TrimEnd(Lower(s)) == Lower(TrimEnd(s))
  {
    if s != [] {
      var n := |s|;
      var l := Lower(s);
      assert l[n - 1] == LowerChar(s[n - 1]);
      LowerCharSpace(s[n - 1]);
      if IsSpace(s[n - 1]) {
        assert l[..n - 1] == Lower(s[..n - 1]);
        TrimEndLower(s[..n - 1]);
      }
    }
  }

  /** The two setters on `username` commute, so their order in the schema does not matter. */
  lemma LowerTrimCommute(s: string)
    ensures Trim(Lower(s)) == Lower(Trim(s))
  {
    TrimStartLower(s);
    TrimEndLower(TrimStart(s));
  }

  // ---------------------------------------------------------------------------
  // The schema

  const DefaultProfilePic := "https://cdn-icons-png.flaticon.com/512/149/149071.png"
  const DefaultAbout := "Hey there! I am using WhatsApp."

  /** A stored user document (the version key `__v` is not modelled). */
  datatype User = User(
    id: UserId,
    name: string,
    username: string,
    email: Option<string>,
    password: string,
    profilePic: string,
    about: string,
    isOnline: bool,
    lastSeen: Time,
    friends: seq<UserId>,
    createdAt: Time,
    updatedAt: Time)

  /** The object given to `User.create`; `None` is a path left undefined. */
  datatype UserDoc = UserDoc(
    name: Option<string>,
    username: Option<string>,
    email: Option<string>,
    password: Option<string>,
    profilePic: Option<string>,
    about: Option<string>,
    isOnline: Option<bool>,
    lastSeen: Option<Time>,
    friends: Option<seq<UserId>>)

  /** Why the store refused a write or a read. */
  datatype StoreError =
    | ValidationFailed(path: string)   // a `required` validator failed
    | DuplicateKey(path: string)       // E11000 from a unique index
    | Unavailable                      // the database could not be reached

  function NormaliseName(s: string): string { Trim(s) }

  /** `lowercase` then `trim`, in the order the options are declared. */
  function NormaliseUsername(s: string): string { Trim(Lower(s)) }

  function NormaliseEmail(s: string): string { Lower(s) }

  /** A `required` string path: missing and empty both fail. */
  predicate Blank(v: Option<string>) {
    v.None? || v.value == ""
  }

  /** Stored documents are fixed points of the setters and satisfy the required validators. */
  ghost predicate Normal(u: User) {
    && u.name != "" && NormaliseName(u.name) == u.name
    && u.username != "" && NormaliseUsername(u.username) == u.username
    && (u.email.Some? ==> NormaliseEmail(u.email.value) == u.email.value)
    && u.password != ""
  }

  /**
    Casting a document through the schema: setters first, defaults for paths
    left undefined, then the required validators in schema order; a new
    document gets `id` and both timestamps from the environment.
   */
  function Cast(doc: UserDoc, id: UserId, now: Time): Result<User, StoreError> {
    var name := if doc.name.Some? then Some(NormaliseName(doc.name.value)) else None;
    var username := if doc.username.Some? then Some(NormaliseUsername(doc.username.value)) else None;
    if Blank(name) then Err(ValidationFailed("name"))
    else if Blank(username) then Err(ValidationFailed("username"))
    else if Blank(doc.password) then Err(ValidationFailed("password"))
    else
      Ok(User(
        id,
        name.value,
        username.value,
        if doc.email.Some? then Some(NormaliseEmail(doc.email.value)) else None,
        doc.password.value,
        if doc.profilePic.Some? then doc.profilePic.value else DefaultProfilePic,
        if doc.about.Some? then doc.about.value else DefaultAbout,
        if doc.isOnline.Some? then doc.isOnline.value else false,
        if doc.lastSeen.Some? then doc.lastSeen.value else now,
        if doc.friends.Some? then doc.friends.value else [],
        now,
        now))
  }

  /** The required validators run on the values the setters produced. */
  lemma CastSucceedsIff(doc: UserDoc, id: UserId, now: Time)
    ensures Cast(doc, id, now).Ok? <==>
      && doc.name.Some? && NormaliseName(doc.name.value) != ""
      && doc.username.Some? && NormaliseUsername(doc.username.value) != ""
      && !Blank(doc.password)
  {
  }

  /** A cast document keeps what was given, normalised, and takes the schema's defaults for the rest. */
  lemma CastFields(doc: UserDoc, id: UserId, now: Time)
    requires Cast(doc, id, now).Ok?
    ensures var u := Cast(doc, id, now).value;
      && u.id == id
      && u.name == Trim(doc.name.value)
      && u.username == Trim(Lower(doc.username.value))
      && u.email == (if doc.email.Some? then Some(Lower(doc.email.value)) else None)
      && u.password == doc.password.value
      && u.profilePic == (if doc.profilePic.Some? then doc.profilePic.value else DefaultProfilePic)
      && u.about == (if doc.about.Some? then doc.about.value else DefaultAbout)
      && u.isOnline == (doc.isOnline.Some? && doc.isOnline.value)
      && u.lastSeen == (if doc.lastSeen.Some? then doc.lastSeen.value else now)
      && u.friends == (if doc.friends.Some? then doc.friends.value else [])
      && u.createdAt == now && u.updatedAt == now
  {
  }

  /** Every document the schema accepts is in normal form: casting it again changes nothing. */
  lemma CastIsNormal(doc: UserDoc, id: UserId, now: Time)
    requires Cast(doc, id, now).Ok?
    ensures Normal(Cast(doc, id, now).value)
  {
    CastFields(doc, id, now);
    CastSucceedsIff(doc, id, now);
    var u := Cast(doc, id, now).value;
    TrimIdempotent(doc.name.value);
    assert NormaliseName(u.name) == u.name;
    var l := Lower(doc.username.value);
    LowerTrimCommute(doc.username.value);
    LowerIdempotent(Trim(doc.username.value));
    TrimIdempotent(l);
    assert NormaliseUsername(u.username) == u.username;
    if doc.email.Some? {
      LowerIdempotent(doc.email.value);
    }
  }

  // ---------------------------------------------------------------------------
  // The collection and its indexes

  /** The `users` collection: documents by `_id`, and the next fresh ObjectId. */
  datatype Db = Db(docs: map<UserId, User>, nextId: UserId)

  /** The unique index on `username`. */
  ghost predicate UniqueUsernames(docs: map<UserId, User>) {
    forall a, b | a in docs && b in docs && a != b :: docs[a].username != docs[b].username
  }

  /** The unique sparse index on `email`: documents without an email are not indexed. */
  ghost predicate UniqueEmails(docs: map<UserId, User>) {
    forall a, b | a in docs && b in docs && a != b && docs[a].email.Some? && docs[b].email.Some? ::
      docs[a].email.value != docs[b].email.value
  }

  /** The collection invariant: ids are keys and not yet reused, documents are normal, indexes hold. */
  ghost predicate Valid(db: Db) {
    && (forall k | k in db.docs :: db.docs[k].id == k && k < db.nextId && Normal(db.docs[k]))
    && UniqueUsernames(db.docs)
    && UniqueEmails(db.docs)
  }

  predicate UsernameTaken(docs: map<UserId, User>, username: string) {
    exists k | k in docs :: docs[k].username == username
  }

  /** `User.findOne({ email })` finds a document. */
  predicate EmailTaken(docs: map<UserId, User>, email: string) {
    exists k | k in docs :: docs[k].email == Some(email)
  }

  /** `User.findById(id)`; an undefined id is looked up as `_id: null` and finds nothing. */
  function FindById(docs: map<UserId, User>, id: Option<UserId>): Option<User> {
    if id.Some? && id.value in docs then Some(docs[id.value]) else None
  }

  /**
    `User.create(doc)`: the schema's validation, then the write, which the
    unique indexes may refuse.
   */
  function Insert(db: Db, doc: UserDoc, now: Time, available: bool): Result<User, StoreError> {
    match Cast(doc, db.nextId, now)
    case Err(e) => Err(e)
    case Ok(u) =>
      if !available then Err(Unavailable)
      else if UsernameTaken(db.docs, u.username) then Err(DuplicateKey("username"))
      else if u.email.Some? && EmailTaken(db.docs, u.email.value) then Err(DuplicateKey("email"))
      else Ok(u)
  }

  /** The collection after a successful insert. */
  function AddUser(db: Db, u: User): Db {
    Db(db.docs[u.id := u], db.nextId + 1)
  }

  /** What an accepted write has been checked against. */
  lemma InsertChecked(db: Db, doc: UserDoc, now: Time, available: bool)
    requires Insert(db, doc, now, available).Ok?
    ensures var u := Insert(db, doc, now, available).value;
      && Cast(doc, db.nextId, now) == Ok(u)
      && u.id == db.nextId
      && !UsernameTaken(db.docs, u.username)
      && (u.email.Some? ==> !EmailTaken(db.docs, u.email.value))
  {
  }

  /** What a successful insert adds: one new document under a fresh id; nothing else changes. */
  lemma InsertOk(db: Db, doc: UserDoc, now: Time, available: bool)
    requires Valid(db)
    requires Insert(db, doc, now, available).Ok?
    ensures var u := Insert(db, doc, now, available).value;
      && u == Cast(doc, db.nextId, now).value
      && u.id == db.nextId && u.id !in db.docs
      && AddUser(db, u).docs.Keys == db.docs.Keys + {u.id}
      && |AddUser(db, u).docs| == |db.docs| + 1
      && (forall k | k in db.docs :: AddUser(db, u).docs[k] == db.docs[k])
  {
    InsertChecked(db, doc, now, available);
    AddUserFresh(db, Insert(db, doc, now, available).value);
  }

  /** Adding a document under the next id adds one key and keeps every other document. */
  lemma AddUserFresh(db: Db, u: User)
    requires forall k | k in db.docs :: k < db.nextId
    requires u.id == db.nextId
    ensures u.id !in db.docs
    ensures AddUser(db, u).docs.Keys == db.docs.Keys + {u.id}
    ensures |AddUser(db, u).docs| == |db.docs| + 1
    ensures forall k | k in db.docs :: AddUser(db, u).docs[k] == db.docs[k]
  {
    assert AddUser(db, u).docs.Keys == db.docs.Keys + {u.id};
  }

  /** Adding a normal document under a fresh id that clashes with neither index keeps the invariant. */
  lemma AddUserPreservesValid(db: Db, u: User)
    requires Valid(db) && Normal(u) && u.id == db.nextId
    requires !UsernameTaken(db.docs, u.username)
    requires u.email.Some? ==> !EmailTaken(db.docs, u.email.value)
    ensures Valid(AddUser(db, u))
  {
    var d := AddUser(db, u);
    forall a, b | a in d.docs && b in d.docs && a != b
      ensures d.docs[a].username != d.docs[b].username
    {
      if a == u.id {
        assert b in db.docs;
      } else if b == u.id {
        assert a in db.docs;
      }
    }
    forall a, b | a in d.docs && b in d.docs && a != b && d.docs[a].email.Some? && d.docs[b].email.Some?
      ensures d.docs[a].email.value != d.docs[b].email.value
    {
      if a == u.id {
        assert b in db.docs && db.docs[b].email == Some(d.docs[b].email.value);
      } else if b == u.id {
        assert a in db.docs && db.docs[a].email == Some(d.docs[a].email.value);
      }
    }
  }

  /** The unique indexes and the schema keep the collection invariant across every accepted insert. */
  lemma InsertPreservesValid(db: Db, doc: UserDoc, now: Time, available: bool)
    requires Valid(db)
    requires Insert(db, doc, now, available).Ok?
    ensures Valid(AddUser(db, Insert(db, doc, now, available).value))
  {
    InsertChecked(db, doc, now, available);
    CastIsNormal(doc, db.nextId, now);
    AddUserPreservesValid(db, Insert(db, doc, now, available).value);
  }

  /** The Mongoose model `User` over one collection. */
  class UserCollection {
    var docs: map<UserId, User>
    var nextId: UserId

    constructor ()
      ensures docs == map[] && nextId == 0
      ensures Valid(Value())
    {
      docs, nextId := map[], 0;
    }

    function Value(): Db
      reads this
    {
      Db(docs, nextId)
    }

    /** `User.findOne({ email })`: some document with this email, if there is one. */
    method FindOneByEmail(email: string, available: bool) returns (r: Result<Option<User>, StoreError>)
      ensures !available ==> r == Err(Unavailable)
      ensures available ==> r.Ok? && (r.value.Some? <==> EmailTaken(docs, email))
      ensures r.Ok? && r.value.Some? ==> r.value.value in docs.Values && r.value.value.email == Some(email)
    {
      if !available {
        return Err(Unavailable);
      }
      if EmailTaken(docs, email) {
        var k :| k in docs && docs[k].email == Some(email);
        return Ok(Some(docs[k]));
      }
      return Ok(None);
    }

    /** `User.create(doc)`: the collection gains the new document exactly when the insert succeeds. */
    method Create(doc: UserDoc, now: Time, available: bool) returns (r: Result<User, StoreError>)
      modifies this
      ensures r == Insert(old(Value()), doc, now, available)
      ensures Value() == if r.Ok? then AddUser(old(Value()), r.value) else old(Value())
    {
      var before := Value();
      r := Insert(before, doc, now, available);
      if r.Ok? {
        var after := AddUser(before, r.value);
        docs, nextId := after.docs, after.nextId;
      }
    }
  }
}
