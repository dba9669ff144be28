/** What the pages exchange with the remote API, with the network replaced by
    the reply it would deliver, and the JavaScript values the pages branch on. */
module Http {
  import opened Wrappers

  /** What came back for one request: an HTTP response whose body parses to
      `data` on success and may carry a `message` field on failure, or no
      response at all (the network failed). */
  datatype HttpReply<T> =
    | Response(status: int, data: T, message: Option<string>)
    | NoResponse

  /** How an awaited axios call ends: it resolves with the response, or it
      throws an error whose `response.data.message` may be present. */
  datatype Outcome<T> =
    | Resolved(status: int, data: T)
    | Rejected(message: Option<string>)

  /** axios' default status check: only a 2xx response resolves; every other
      response, and a missing one, is thrown. */
  function Settle<T>(reply: HttpReply<T>): (outcome: Outcome<T>)
    ensures outcome.Resolved? <==> reply.Response? && 200 <= reply.status < 300
    ensures outcome.Resolved? ==> outcome.status == reply.status && outcome.data == reply.data
    ensures outcome.Rejected? ==> outcome.message == (if reply.Response? then reply.message else None)
  {
    match reply
    case Response(status, data, message) =>
      if 200 <= status < 300 then Resolved(status, data) else Rejected(message)
    case NoResponse => Rejected(None)
  }

  /** `error.response?.data?.message || fallback`: the server's message when
      it is present and not the empty string, the fallback otherwise. */
  function MessageOr(message: Option<string>, fallback: string): (text: string)
    ensures message.Some? && message.value != "" ==> text == message.value
    ensures message.None? || message.value == "" ==> text == fallback
  {
    match message
    case Some(m) => if m != "" then m else fallback
    case None => fallback
  }

  /** A value as JavaScript holds it, for the fields whose truthiness or
      strict equality a page tests. Numbers are integers here. */
  datatype JsValue =
    | Undefined
    | Null
    | Boolean(b: bool)
    | Number(n: int)
    | Text(s: string)

  /** JavaScript's conversion to boolean. */
  predicate Truthy(v: JsValue) {
    match v
    case Undefined => false
    case Null => false
    case Boolean(b) => b
    case Number(n) => n != 0
    case Text(s) => s != ""
  }

  /** The `data` object `GET /api/v1/account` and `PATCH /api/v1/users/{id}`
      return: `_id`, `name`, `email`, `role`, `active`. */
  datatype UserRecord = UserRecord(id: string, name: string, email: string, role: JsValue, active: JsValue)

  /** The requests the pages issue; a bearer read from storage may be absent
      (`null`) when it is sent. */
  datatype Request =
    | PostLogin(email: string, password: string)
    | PostRegister(name: string, email: string, password: string)
    | GetAccount(token: string)
    | PatchUser(userId: string, bearer: Option<string>, body: map<string, string>)
    | DeleteUser(userId: string, bearer: Option<string>, password: string)

  /** The token check every page makes on load: `if (authToken)`. A stored
      empty string is as good as no token. */
  predicate HasToken(stored: Option<string>) {
    stored.Some? && stored.value != ""
  }
}
