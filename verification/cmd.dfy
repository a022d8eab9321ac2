/**
 * The helpers of the older entry point (cmd/main.go): the secret-name
 * splitter, the `contains` scan, the status-recording response writer, the
 * request-body logging wrapper and the admin-only authentication gate.
 */
module Cmd {
  import opened Wrappers
  import opened Http
  import opened GoStrings
  import opened Authn

  datatype SplitError = NotNamespaceName(s: string)

  /**
   * `splitNamespaceName`: splits "namespace/name" on '/'; anything other than
   * exactly two parts is an error. Empty parts are accepted.
   */
  function SplitNamespaceName(s: string): (r: Result<(string, string), SplitError>)
    ensures r.Err? ==> r.error == NotNamespaceName(s)
    ensures r.Ok? ==> s == r.value.0 + "/" + r.value.1 && '/' !in r.value.0 && '/' !in r.value.1
  {
    var parts := Split(s, '/');
    if |parts| != 2 then Err(NotNamespaceName(s))
    else
      SplitTwo(s, '/');
      Ok((parts[0], parts[1]))
  }

  /** Joining a namespace and a name, neither holding '/', splits back into them. */
  lemma SplitNamespaceNameRoundTrip(namespace: string, name: string)
    requires '/' !in namespace && '/' !in name
    ensures SplitNamespaceName(namespace + "/" + name) == Ok((namespace, name))
  {
    SplitJoinTwo(namespace, '/', name);
    assert namespace + "/" + name == namespace + ['/'] + name;
  }

  /** The split succeeds exactly when the string holds one '/'. */
  lemma SplitNamespaceNameIff(s: string)
    ensures SplitNamespaceName(s).Ok?
            <==> exists namespace, name :: s == namespace + "/" + name && '/' !in namespace && '/' !in name
  {
    if exists namespace, name :: s == namespace + "/" + name && '/' !in namespace && '/' !in name {
      var namespace, name :| s == namespace + "/" + name && '/' !in namespace && '/' !in name;
      SplitNamespaceNameRoundTrip(namespace, name);
    }
  }

  /** The secret name of the flag's help text, and two names that are refused. */
  lemma SplitNamespaceNameExamples()
    ensures SplitNamespaceName("mke/dex-grpc.tls") == Ok(("mke", "dex-grpc.tls"))
    ensures SplitNamespaceName("/") == Ok(("", ""))
    ensures SplitNamespaceName("dex-grpc.tls").Err?
  {
    DefaultSecretSplits();
    SlashOnlySplits();
    NoSlashRefused();
  }

  /** The secret name of the flag's help text splits into its namespace and name. */
  lemma DefaultSecretSplits()
    ensures SplitNamespaceName("mke/dex-grpc.tls") == Ok(("mke", "dex-grpc.tls"))
  {
    SplitNamespaceNameRoundTrip("mke", "dex-grpc.tls");
    assert "mke" + "/" + "dex-grpc.tls" == "mke/dex-grpc.tls";
  }

  /** A lone '/' splits into two empty parts. */
  lemma SlashOnlySplits()
    ensures SplitNamespaceName("/") == Ok(("", ""))
  {
    SplitNamespaceNameRoundTrip("", "");
    assert "" + "/" + "" == "/";
  }

  /** A name without '/' is refused. */
  lemma NoSlashRefused()
    ensures SplitNamespaceName("dex-grpc.tls").Err?
  {
    assert '/' !in "dex-grpc.tls";
  }

  /** `contains`: whether `item` is an element of `slice`. */
  method Contains(slice: seq<string>, item: string) returns (found: bool)
    ensures found <==> item in slice
  {
    for i := 0 to |slice|
      invariant item !in slice[..i]
    {
      if slice[i] == item {
        return true;
      }
      assert slice[..i + 1] == slice[..i] + [slice[i]];
    }
    assert slice[..|slice|] == slice;
    return false;
  }

  /** The underlying `http.ResponseWriter`, reduced to the status codes written to it. */
  class ResponseWriter {
    var codes: seq<int>

    constructor()
      ensures codes == []
    {
      codes := [];
    }

    method WriteHeader(code: int)
      modifies this
      ensures codes == old(codes) + [code]
    {
      codes := codes + [code];
    }
  }

  /** The status a handler leaves: the last code it wrote, 200 when it wrote none. */
  function LastStatus(codes: seq<int>): (status: int)
    ensures codes == [] ==> status == StatusOK
    ensures codes != [] ==> status == codes[|codes| - 1]
  {
    if codes == [] then StatusOK else codes[|codes| - 1]
  }

  /** `logResponseWriter`: passes each status on and remembers the last one. */
  class LogResponseWriter {
    const inner: ResponseWriter
    var statusCode: int

    /** `newLogResponseWriter`: the recorded status starts at 200. */
    constructor(w: ResponseWriter)
      ensures inner == w && statusCode == StatusOK
    {
      inner := w;
      statusCode := StatusOK;
    }

    /** `WriteHeader`: records `code`, then writes it to the wrapped writer. */
    method WriteHeader(code: int)
      modifies this, inner
      ensures statusCode == code
      ensures inner.codes == old(inner.codes) + [code]
    {
      statusCode := code;
      inner.WriteHeader(code);
    }
  }

  /** The inner handler: the status codes it writes for the body it reads. */
  type Handler = Bytes -> seq<int>

  /**
   * `logRequestBody`: `read` is the outcome of reading the whole body. A read
   * error answers 400 without calling the inner handler. Otherwise the inner
   * handler runs on a copy carrying the same bytes, through a status-recording
   * writer, and the body is logged (`logged`) when the final status is not 200.
   * `seen` is the body the inner handler read, None when it was not called.
   */
  method LogRequestBody(w: ResponseWriter, read: Option<Bytes>, h: Handler)
    returns (seen: Option<Bytes>, logged: Option<(int, Bytes)>)
    modifies w
    ensures read.None? ==> seen.None? && logged.None? && w.codes == old(w.codes) + [StatusBadRequest]
    ensures read.Some? ==> seen == read && w.codes == old(w.codes) + h(read.value)
    ensures read.Some? ==> (logged.Some? <==> LastStatus(h(read.value)) != StatusOK)
    ensures logged.Some? ==> logged.value == (LastStatus(h(read.value)), read.value)
  {
    var lw := new LogResponseWriter(w);
    if read.None? {
      w.WriteHeader(StatusBadRequest);
      return None, None;
    }
    var body := read.value;
    var cloned := body;
    seen := Some(cloned);
    var written := h(cloned);
    for i := 0 to |written|
      invariant lw.inner == w && w.codes == old(w.codes) + written[..i]
      invariant lw.statusCode == LastStatus(written[..i])
    {
      lw.WriteHeader(written[i]);
      assert written[..i + 1] == written[..i] + [written[i]];
    }
    assert written[..|written|] == written;
    if lw.statusCode != StatusOK {
      logged := Some((lw.statusCode, body));
    } else {
      logged := None;
    }
  }

  /**
   * `authMiddleware`: 401 when the bearer token is missing or malformed or
   * does not authenticate, 403 unless the email is exactly "admin", otherwise
   * the request goes on.
   */
  function AuthMiddleware(authHeader: string, verify: Verifier): (v: Verdict)
    ensures v == Reject(StatusUnauthorized)
            <==> GetBearerToken(authHeader).Err? || Authenticate(verify, GetBearerToken(authHeader).value).Err?
    ensures v == Continue
            <==> GetBearerToken(authHeader).Ok?
                 && Authenticate(verify, GetBearerToken(authHeader).value).Ok?
                 && Authenticate(verify, GetBearerToken(authHeader).value).value.email == "admin"
    ensures v == Continue || v == Reject(StatusUnauthorized) || v == Reject(StatusForbidden)
  {
    match GetBearerToken(authHeader)
    case Err(_) => Reject(StatusUnauthorized)
    case Ok(token) =>
      match Authenticate(verify, token)
      case Err(_) => Reject(StatusUnauthorized)
      case Ok(u) =>
        if u.email != "admin" then Reject(StatusForbidden)
        else Continue
  }

  /** The older gate refuses with 401 exactly the requests the authentication stage refuses. */
  lemma GateAgreesWithAuthentication(s: Snapshot, verify: Verifier)
    ensures AuthMiddleware(s.authorization, verify) == Reject(StatusUnauthorized)
            <==> AuthenticationStep(s, verify).verdict.Reject?
  {
  }

  /** The older gate lets through exactly the authenticated requests whose email is "admin". */
  lemma GateAdminOnly(s: Snapshot, verify: Verifier)
    ensures AuthMiddleware(s.authorization, verify) == Continue
            <==> AuthenticationStep(s, verify).verdict == Continue
                 && AuthenticationStep(s, verify).state.user.value.email == "admin"
  {
  }
}
