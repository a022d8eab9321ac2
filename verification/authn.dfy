/**
 * Authentication (internal/middlewares/authn.go): the bearer token is taken
 * from the Authorization header, checked by the OIDC verifier, and the claims
 * must mark the email as verified; the identity is then attached to the request.
 */
module Authn {
  import opened Wrappers
  import opened Http
  import opened GoStrings

  datatype TokenError = MissingHeader | MalformedHeader

  /**
   * `getBearerToken`: the header must be present and non-empty, split on ' '
   * into exactly two parts, the first of which is "bearer" in any case; the
   * second part is the token.
   */
  function GetBearerToken(authHeader: string): (r: Result<string, TokenError>)
    ensures authHeader == "" <==> r == Err(MissingHeader)
    ensures r.Ok? ==> ' ' !in r.value
  {
    if authHeader == "" then Err(MissingHeader)
    else
      var parts := Split(authHeader, ' ');
      if |parts| != 2 || ToLower(parts[0]) != "bearer" then Err(MalformedHeader)
      else
        SplitTwo(authHeader, ' ');
        Ok(parts[1])
  }

  /** A scheme that lower-cases to "bearer" holds no space. */
  lemma BearerSchemeHasNoSpace(scheme: string)
    requires ToLower(scheme) == "bearer"
    ensures ' ' !in scheme
  {
    forall k | 0 <= k < |scheme| ensures scheme[k] != ' ' {
      assert ToLower(scheme)[k] == LowerByte(scheme[k]);
    }
  }

  /** An accepted header is a bearer scheme, one space and the token. */
  lemma BearerTokenSound(authHeader: string)
    requires GetBearerToken(authHeader).Ok?
    ensures var parts := Split(authHeader, ' ');
            && authHeader == parts[0] + " " + GetBearerToken(authHeader).value
            && ToLower(parts[0]) == "bearer"
  {
    SplitTwo(authHeader, ' ');
  }

  /** A bearer scheme, one space and a space-free token is accepted with that token. */
  lemma BearerTokenComplete(scheme: string, token: string)
    requires ToLower(scheme) == "bearer" && ' ' !in token
    ensures GetBearerToken(scheme + " " + token) == Ok(token)
  {
    BearerSchemeHasNoSpace(scheme);
    SplitJoinTwo(scheme, ' ', token);
    assert scheme + " " + token == scheme + [' '] + token;
  }

  /** The token is what follows the one space after a scheme that lower-cases to "bearer". */
  lemma BearerTokenIff(authHeader: string, token: string)
    ensures GetBearerToken(authHeader) == Ok(token)
            <==> exists scheme :: authHeader == scheme + " " + token
                                  && ToLower(scheme) == "bearer" && ' ' !in token
  {
    if GetBearerToken(authHeader) == Ok(token) {
      BearerTokenSound(authHeader);
      var scheme := Split(authHeader, ' ')[0];
      assert authHeader == scheme + " " + token;
    }
    if exists scheme :: authHeader == scheme + " " + token && ToLower(scheme) == "bearer" && ' ' !in token {
      var scheme :| authHeader == scheme + " " + token && ToLower(scheme) == "bearer" && ' ' !in token;
      BearerTokenComplete(scheme, token);
    }
  }

  /** "Bearer " followed by any space-free token, the empty one included, gives that token back. */
  lemma BearerTokenRoundTrip(token: string)
    requires ' ' !in token
    ensures GetBearerToken("Bearer " + token) == Ok(token)
    ensures GetBearerToken("BEARER " + token) == Ok(token)
  {
    assert ToLower("Bearer") == "bearer";
    assert ToLower("BEARER") == "bearer";
    assert "Bearer " + token == "Bearer" + " " + token;
    assert "BEARER " + token == "BEARER" + " " + token;
    BearerTokenComplete("Bearer", token);
    BearerTokenComplete("BEARER", token);
  }

  /** The claims the gateway reads from an ID token. */
  datatype Claims = Claims(email: string, emailVerified: bool, groups: seq<string>)

  /** A verified ID token; `claims` is None when its payload does not parse into the claims. */
  datatype IdToken = IdToken(claims: Option<Claims>)

  /** The OIDC verifier (signature, expiry and audience; the issuer check is skipped). */
  type Verifier = string -> Option<IdToken>

  datatype AuthnError = VerificationFailed | ClaimsUnparsable | EmailNotVerified(email: string)

  /**
   * `authenticate`: fails when verification fails, when the claims do not
   * parse, or when the email is not verified; otherwise yields the claims'
   * email and groups.
   */
  function Authenticate(verify: Verifier, bearerToken: string): (r: Result<User, AuthnError>)
    ensures r.Ok? <==> verify(bearerToken).Some? && verify(bearerToken).value.claims.Some?
                       && verify(bearerToken).value.claims.value.emailVerified
    ensures r.Ok? ==> var c := verify(bearerToken).value.claims.value; r.value == User(c.email, c.groups)
    ensures verify(bearerToken).None? ==> r == Err(VerificationFailed)
  {
    match verify(bearerToken)
    case None => Err(VerificationFailed)
    case Some(idToken) =>
      match idToken.claims
      case None => Err(ClaimsUnparsable)
      case Some(claims) =>
        if !claims.emailVerified then Err(EmailNotVerified(claims.email))
        else Ok(User(claims.email, claims.groups))
  }

  /**
   * The handler of `authenticationMiddleware`: 401 on a token or an
   * authentication error; otherwise the request goes on with the user attached
   * and nothing else changed.
   */
  function AuthenticationStep(s: Snapshot, verify: Verifier): (r: Step)
    ensures r.calls == []
    ensures r.verdict == Continue || r.verdict == Reject(StatusUnauthorized)
    ensures r.verdict.Reject? ==> r.state == s
    ensures s.authorization == "" ==> r.verdict == Reject(StatusUnauthorized)
    ensures r.verdict == Continue <==>
              GetBearerToken(s.authorization).Ok? && Authenticate(verify, GetBearerToken(s.authorization).value).Ok?
    ensures r.verdict == Continue ==>
              r.state == s.(user := Some(Authenticate(verify, GetBearerToken(s.authorization).value).value))
  {
    match GetBearerToken(s.authorization)
    case Err(_) => Step(Reject(StatusUnauthorized), s, [])
    case Ok(token) =>
      match Authenticate(verify, token)
      case Err(_) => Step(Reject(StatusUnauthorized), s, [])
      case Ok(u) => Step(Continue, s.(user := Some(u)), [])
  }

  /** The stage of `authenticationMiddleware`, attaching the user to the request. */
  method AuthenticationMiddleware(r: Request, verify: Verifier) returns (v: Verdict)
    modifies r
    ensures var st := AuthenticationStep(old(r.State()), verify);
            v == st.verdict && r.State() == st.state
  {
    var token := GetBearerToken(r.authorization);
    if token.Err? {
      return Reject(StatusUnauthorized);
    }
    var u := Authenticate(verify, token.value);
    if u.Err? {
      return Reject(StatusUnauthorized);
    }
    r.user := Some(u.value);
    return Continue;
  }
}
