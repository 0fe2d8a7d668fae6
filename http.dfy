/**
  The parts of an Express request/response exchange the handlers touch: JSON
  bodies, cookies, the status code, and the request's `cookies` and `userId`.
 */
module Http {
  import opened Wrappers
  import opened Session

  /** A JSON value as `res.json` serialises it; object members keep their order. */
  datatype Json =
    | JNull
    | JBool(b: bool)
    | JNum(n: int)
    | JStr(s: string)
    | JArr(items: seq<Json>)
    | JObj(members: seq<Member>)

  datatype Member = Member(key: string, value: Json)

  /** Whether some object anywhere inside `j` has a member named `k`. */
  predicate HasKey(j: Json, k: string) {
    match j
    case JArr(items) => exists x | x in items :: HasKey(x, k)
    case JObj(ms) => exists m | m in ms :: m.key == k || HasKey(m.value, k)
    case _ => false
  }

  /** The value of member `k` of object `j` (the first one, if repeated). */
  function Field(j: Json, k: string): Option<Json> {
    match j
    case JObj(ms) => FieldIn(ms, k)
    case _ => None
  }

  function FieldIn(ms: seq<Member>, k: string): Option<Json> {
    if ms == [] then None
    else if ms[0].key == k then Some(ms[0].value)
    else FieldIn(ms[1..], k)
  }

  /** Looking a key up finds the first member with that key. */
  lemma {:induction false} FieldInAt(ms: seq<Member>, k: string, i: nat)
    requires i < |ms| && ms[i].key == k
    requires forall j | 0 <= j < i :: ms[j].key != k
    ensures FieldIn(ms, k) == Some(ms[i].value)
  {
    if i > 0 {
      FieldInAt(ms[1..], k, i - 1);
    }
  }

  /** The member names of an object, in order; none for other values. */
  function ObjectKeys(j: Json): seq<string> {
    match j
    case JObj(ms) => seq(|ms|, i requires 0 <= i < |ms| => ms[i].key)
    case _ => []
  }

  /** `{ message }` */
  function MessageBody(message: string): Json {
    JObj([Member("message", JStr(message))])
  }

  /** `{ success: false, message }` */
  function FailureBody(message: string): Json {
    JObj([Member("success", JBool(false)), Member("message", JStr(message))])
  }

  /** The status Express sends when the handler never called `res.status`. */
  const StatusOk := 200

  /** A `Set-Cookie` written by `res.cookie(name, value, options)`. */
  datatype Cookie = Cookie(name: string, value: string, httpOnly: bool, secure: bool, sameSite: string, maxAge: int)

  /** Everything a handler sends back: status, JSON body and cookies set. */
  datatype Reply = Reply(status: int, body: Json, cookies: seq<Cookie>)

  /** Express's `res`, as far as the handlers write it. */
  class Response {
    var statusCode: int
    var body: Option<Json>
    var cookies: seq<Cookie>

    constructor ()
      ensures Unsent()
    {
      statusCode, body, cookies := StatusOk, None, [];
    }

    /** A response nothing has been written to yet. */
    predicate Unsent()
      reads this
    {
      statusCode == StatusOk && body == None && cookies == []
    }

    /** What the client receives once a body has been sent. */
    function Sent(): Reply
      reads this
      requires body.Some?
    {
      Reply(statusCode, body.value, cookies)
    }

    /** `res.status(code)` */
    method Status(code: int)
      modifies this
      ensures statusCode == code && body == old(body) && cookies == old(cookies)
    {
      statusCode := code;
    }

    /** `res.cookie(...)` */
    method SetCookie(c: Cookie)
      modifies this
      ensures cookies == old(cookies) + [c] && statusCode == old(statusCode) && body == old(body)
    {
      cookies := cookies + [c];
    }

    /** `res.json(j)` */
    method Send(j: Json)
      modifies this
      ensures body == Some(j) && statusCode == old(statusCode) && cookies == old(cookies)
    {
      body := Some(j);
    }
  }

  /** Express's `req`: the parsed cookies and the `userId` a middleware may attach. */
  class Request {
    var cookies: map<string, string>
    var userId: Option<UserId>

    constructor (cookies: map<string, string>)
      ensures this.cookies == cookies && userId == None
    {
      this.cookies, userId := cookies, None;
    }
  }
}
