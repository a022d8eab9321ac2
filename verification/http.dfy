/**
 * The request as the middlewares see it, what a middleware decides, and the
 * trace of calls to outside oracles (password hashing, id generation).
 */
module Http {
  import opened Wrappers

  /** A Go string or []byte, one char per byte. */
  type Bytes = string

  const StatusOK := 200
  const StatusBadRequest := 400
  const StatusUnauthorized := 401
  const StatusForbidden := 403
  const StatusInternalServerError := 500

  const MethodGet := "GET"
  const MethodPost := "POST"
  const MethodPut := "PUT"

  /** What a middleware does with a request: hand it to `next`, or answer with an error status. */
  datatype Verdict = Continue | Reject(status: int)

  /** The caller identity taken from the ID token's claims (authn.go's `user`). */
  datatype User = User(email: string, groups: seq<string>)

  /** The outside calls a stage makes: hashing a plaintext, generating a user id. */
  datatype OracleCall = EncryptCall(plaintext: Bytes) | GenerateIdCall

  /**
   * The request's contents as a value. `verb` is the HTTP method; `pattern` is the matched path template
   * (None when the gateway attached none); `authorization` is the header value
   * ("" when absent, as Header.Get returns); `user` is the identity the
   * authentication stage attaches for the later stages.
   */
  datatype Snapshot = Snapshot(
    verb: string,
    pattern: Option<string>,
    authorization: string,
    body: Bytes,
    pathParams: map<string, string>,
    user: Option<User>)

  /** The result of one stage: its verdict, the request it passes on, the oracle calls it made. */
  datatype Step = Step(verdict: Verdict, state: Snapshot, calls: seq<OracleCall>)

  /** Go's map lookup: the zero value "" for a missing key. */
  function Lookup(m: map<string, string>, key: string): (v: string)
    ensures key !in m ==> v == ""
    ensures key in m ==> v == m[key]
  {
    if key in m then m[key] else ""
  }

  /** An inbound request; the middlewares replace its body and attach the caller's identity. */
  class Request {
    var verb: string
    var pattern: Option<string>
    var authorization: string
    var body: Bytes
    var pathParams: map<string, string>
    var user: Option<User>

    function State(): Snapshot
      reads this
    {
      Snapshot(verb, pattern, authorization, body, pathParams, user)
    }

    constructor (verb: string, pattern: Option<string>, authorization: string, body: Bytes,
                 pathParams: map<string, string>)
      ensures State() == Snapshot(verb, pattern, authorization, body, pathParams, None)
    {
      this.verb := verb;
      this.pattern := pattern;
      this.authorization := authorization;
      this.body := body;
      this.pathParams := pathParams;
      this.user := None;
    }
  }
}
