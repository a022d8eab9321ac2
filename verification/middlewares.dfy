/**
 * The middleware chain (internal/middlewares/middlewares.go): the stages wrap
 * the gateway's handler in list order, each either passing the request to the
 * next or answering it.
 */
module Middlewares {
  import opened Wrappers
  import opened Http
  import opened Api
  import opened Classify
  import opened Roles
  import opened Authn
  import opened Authz
  import opened Users

  datatype Stage = Logging | Authentication | Authorization | CreateUserStage | UpdateUserStage

  /** `GetMiddlewares`: the chain, the stage that sees the request first at the head. */
  function GetMiddlewares(): seq<Stage> {
    [Logging, Authentication, Authorization, CreateUserStage, UpdateUserStage]
  }

  /**
   * What the stages consult outside the request: the token verifier, the
   * answer of the ClusterRoleBinding list call, the JSON codec and the hasher.
   */
  datatype Env = Env(verify: Verifier, listed: Option<seq<ClusterRoleBinding>>, codec: Codec, hasher: Hasher)

  /** One stage on a request; `id` is the id the create stage would draw. */
  function StageStep(st: Stage, s: Snapshot, env: Env, id: string): (r: Step)
    ensures GenerateIdCall in r.calls ==> st == CreateUserStage
    ensures r.state.pattern == s.pattern && r.state.verb == s.verb && r.state.authorization == s.authorization
  {
    match st
    case Logging => Step(Continue, s, [])
    case Authentication => AuthenticationStep(s, env.verify)
    case Authorization => AuthorizationStep(s, env.listed)
    case CreateUserStage => CreateUserStep(s, env.codec, env.hasher, id)
    case UpdateUserStage => UpdateUserStep(s, env.codec, env.hasher)
  }

  /** The stages as one function of stage and request, for a fixed environment and id. */
  function StageFn(env: Env, id: string): (Stage, Snapshot) -> Step {
    (st, s) => StageStep(st, s, env, id)
  }

  /**
   * A chain of stages on a request, `step` giving each stage's effect: the
   * first stage that answers ends it; the oracle calls are those of the stages
   * that ran, in order.
   */
  function Fold(stages: seq<Stage>, s: Snapshot, step: (Stage, Snapshot) -> Step): Step
    decreases |stages|
  {
    if stages == [] then Step(Continue, s, [])
    else
      var first := step(stages[0], s);
      if first.verdict.Reject? then first
      else
        var rest := Fold(stages[1..], first.state, step);
        Step(rest.verdict, rest.state, first.calls + rest.calls)
  }

  /** The chain with the stages of this module. */
  function Run(stages: seq<Stage>, s: Snapshot, env: Env, id: string): Step {
    Fold(stages, s, StageFn(env, id))
  }

  /** Only the create stage draws an id, so a chain draws one only when it holds that stage. */
  lemma {:induction false} FoldDrawsIdOnlyInCreate(stages: seq<Stage>, s: Snapshot, env: Env, id: string)
    ensures GenerateIdCall in Fold(stages, s, StageFn(env, id)).calls ==> CreateUserStage in stages
    decreases |stages|
  {
    if stages != [] {
      var first := StageFn(env, id)(stages[0], s);
      if first.verdict.Continue? {
        FoldDrawsIdOnlyInCreate(stages[1..], first.state, env, id);
        if GenerateIdCall in Fold(stages[1..], first.state, StageFn(env, id)).calls {
          assert CreateUserStage in stages[1..];
        }
      }
    }
  }

  /** Once a stage has answered, the stages after it do not run. */
  lemma {:induction false} FoldRejectStops(xs: seq<Stage>, ys: seq<Stage>, s: Snapshot, step: (Stage, Snapshot) -> Step)
    requires Fold(xs, s, step).verdict.Reject?
    ensures Fold(xs + ys, s, step) == Fold(xs, s, step)
    decreases |xs|
  {
    var first := step(xs[0], s);
    assert (xs + ys)[0] == xs[0];
    assert (xs + ys)[1..] == xs[1..] + ys;
    if first.verdict.Continue? {
      FoldRejectStops(xs[1..], ys, first.state, step);
    }
  }

  /** `loggingMiddleware`: logs the method and path, then passes the request on; it changes nothing. */
  method LoggingMiddleware(r: Request) returns (v: Verdict)
    ensures v == Continue
  {
    return Continue;
  }

  /** The two body-rewriting stages in order, the create stage first. */
  lemma RewriteStagesInOrder(s: Snapshot, env: Env, id: string)
    ensures Fold([CreateUserStage, UpdateUserStage], s, StageFn(env, id))
            == (var c := CreateUserStep(s, env.codec, env.hasher, id);
                if c.verdict.Reject? then c
                else
                  var u := UpdateUserStep(c.state, env.codec, env.hasher);
                  Step(u.verdict, u.state, c.calls + u.calls))
  {
    var stages := [CreateUserStage, UpdateUserStage];
    assert stages[1..] == [UpdateUserStage];
    assert stages[1..][1..] == [];
  }

  /**
   * The chain in order: logging, authentication, authorization, then the two
   * body-rewriting stages; the first stage that answers ends the request.
   * Only the last two stages make oracle calls.
   */
  lemma ChainInOrder(s: Snapshot, env: Env, id: string)
    ensures Run(GetMiddlewares(), s, env, id)
            == (var a := AuthenticationStep(s, env.verify);
                if a.verdict.Reject? then a
                else
                  var z := AuthorizationStep(a.state, env.listed);
                  if z.verdict.Reject? then z
                  else Fold([CreateUserStage, UpdateUserStage], z.state, StageFn(env, id)))
  {
    var chain := GetMiddlewares();
    var step := StageFn(env, id);
    assert chain[1..] == [Authentication, Authorization, CreateUserStage, UpdateUserStage];
    assert chain[1..][1..] == [Authorization, CreateUserStage, UpdateUserStage];
    assert chain[1..][1..][1..] == [CreateUserStage, UpdateUserStage];
    var a := AuthenticationStep(s, env.verify);
    assert Fold(chain, s, step) == Fold(chain[1..], s, step);
    if a.verdict.Continue? {
      assert Fold(chain[1..], s, step) == Fold(chain[1..][1..], a.state, step);
    }
  }

  /**
   * A request through the chain of `GetMiddlewares`, each stage in place on
   * the request, until a stage answers it or the request reaches the gateway.
   * Only the create stage draws an id.
   */
  method Serve(r: Request, env: Env, ids: IdSource) returns (v: Verdict)
    requires ids.Valid()
    modifies r, ids
    ensures ids.Valid()
    ensures var res := Run(GetMiddlewares(), old(r.State()), env, old(ids.Peek()));
            && v == res.verdict && r.State() == res.state
            && ids.issued == old(ids.issued) + (if GenerateIdCall in res.calls then {old(ids.Peek())} else {})
  {
    ChainInOrder(r.State(), env, ids.Peek());
    RewriteStagesInOrder(AuthorizationStep(AuthenticationStep(r.State(), env.verify).state, env.listed).state, env, ids.Peek());
    v := LoggingMiddleware(r);
    v := AuthenticationMiddleware(r, env.verify);
    if v.Reject? {
      return;
    }
    v := AuthorizationMiddleware(r, env.listed);
    if v.Reject? {
      return;
    }
    v := CreateUserMiddleware(r, env.codec, env.hasher, ids);
    if v.Reject? {
      return;
    }
    v := UpdateUserMiddleware(r, env.codec, env.hasher);
  }

  /** A request that fails authentication is answered 401 as it came, before any oracle call. */
  lemma AuthenticationFailureStops(s: Snapshot, env: Env, id: string)
    requires AuthenticationStep(s, env.verify).verdict.Reject?
    ensures Run(GetMiddlewares(), s, env, id) == Step(Reject(StatusUnauthorized), s, [])
  {
    ChainInOrder(s, env, id);
  }

  /** A request without an Authorization header is answered 401. */
  lemma MissingHeaderUnauthorized(s: Snapshot, env: Env, id: string)
    requires s.authorization == ""
    ensures Run(GetMiddlewares(), s, env, id) == Step(Reject(StatusUnauthorized), s, [])
  {
    AuthenticationFailureStops(s, env, id);
  }

  /**
   * An authenticated user whom no listed binding grants "cluster-admin" is
   * answered 403, before any oracle call.
   */
  lemma ForbiddenWithoutClusterAdmin(s: Snapshot, env: Env, id: string, bindings: seq<ClusterRoleBinding>)
    requires AuthenticationStep(s, env.verify).verdict == Continue
    requires env.listed == Some(bindings)
    requires forall i :: 0 <= i < |bindings|
               ==> !Grants(bindings[i], AuthenticationStep(s, env.verify).state.user.value.email, "cluster-admin")
    ensures Run(GetMiddlewares(), s, env, id) == Step(Reject(StatusForbidden), AuthenticationStep(s, env.verify).state, [])
  {
    ChainInOrder(s, env, id);
    AuthorizeIffClusterAdmin(AuthenticationStep(s, env.verify).state.user.value, bindings);
  }

  /** A request the role lookup cannot be made for is answered 500. */
  lemma LookupFailureInternalError(s: Snapshot, env: Env, id: string)
    requires AuthenticationStep(s, env.verify).verdict == Continue
    requires env.listed.None?
    ensures Run(GetMiddlewares(), s, env, id)
            == Step(Reject(StatusInternalServerError), AuthenticationStep(s, env.verify).state, [])
  {
    ChainInOrder(s, env, id);
  }

  /**
   * A request reaches the gateway only with a well-formed bearer token that
   * authenticates a user whom the role lookup allows; that user is attached.
   */
  lemma ReachesGatewayOnlyWhenAllowed(s: Snapshot, env: Env, id: string)
    requires Run(GetMiddlewares(), s, env, id).verdict == Continue
    ensures GetBearerToken(s.authorization).Ok?
    ensures var u := Authenticate(env.verify, GetBearerToken(s.authorization).value);
            && u.Ok?
            && Authorize(Some(u.value), env.listed) == Ok(true)
            && Run(GetMiddlewares(), s, env, id).state.user == Some(u.value)
  {
    ChainInOrder(s, env, id);
    RewriteStagesInOrder(AuthorizationStep(AuthenticationStep(s, env.verify).state, env.listed).state, env, id);
  }

  /**
   * The body is rewritten, and the hasher or the id source consulted, only for
   * an authenticated and authorized create or update request.
   */
  lemma OracleCallsOnlyWhenAuthorized(s: Snapshot, env: Env, id: string)
    requires Run(GetMiddlewares(), s, env, id).calls != [] || Run(GetMiddlewares(), s, env, id).state.body != s.body
    ensures AuthenticationStep(s, env.verify).verdict == Continue
    ensures AuthorizationStep(AuthenticationStep(s, env.verify).state, env.listed).verdict == Continue
    ensures s.pattern.Some? && (IsCreateUserRequest(s.verb, s.pattern.value) || IsUpdateUserRequest(s.verb, s.pattern.value))
  {
    ChainInOrder(s, env, id);
    RewriteStagesInOrder(AuthorizationStep(AuthenticationStep(s, env.verify).state, env.listed).state, env, id);
  }

  /** The request carries a bearer token that authenticates a user whom the role lookup allows. */
  predicate Allowed(s: Snapshot, env: Env)
  {
    && GetBearerToken(s.authorization).Ok?
    && Authenticate(env.verify, GetBearerToken(s.authorization).value).Ok?
    && Authorize(Some(Authenticate(env.verify, GetBearerToken(s.authorization).value).value), env.listed) == Ok(true)
  }

  /** The user the authentication stage attaches to an allowed request. */
  function AllowedUser(s: Snapshot, env: Env): User
    requires Allowed(s, env)
  {
    Authenticate(env.verify, GetBearerToken(s.authorization).value).value
  }

  /**
   * An allowed request that is neither a create nor an update reaches the
   * gateway as it came, with the user attached and no oracle call.
   */
  lemma OtherRequestForwardedWhenAllowed(s: Snapshot, env: Env, id: string)
    requires Allowed(s, env)
    requires s.pattern.Some? && !IsCreateUserRequest(s.verb, s.pattern.value) && !IsUpdateUserRequest(s.verb, s.pattern.value)
    ensures Run(GetMiddlewares(), s, env, id) == Step(Continue, s.(user := Some(AllowedUser(s, env))), [])
  {
    ChainInOrder(s, env, id);
    RewriteStagesInOrder(s.(user := Some(AllowedUser(s, env))), env, id);
  }

  /** With no path template for the request, an authorized request is answered 500 by the create stage. */
  lemma UnknownPatternInternalError(s: Snapshot, env: Env, id: string)
    requires s.pattern.None?
    requires AuthenticationStep(s, env.verify).verdict == Continue
    requires AuthorizationStep(AuthenticationStep(s, env.verify).state, env.listed).verdict == Continue
    ensures Run(GetMiddlewares(), s, env, id)
            == Step(Reject(StatusInternalServerError), AuthenticationStep(s, env.verify).state, [])
  {
    ChainInOrder(s, env, id);
    RewriteStagesInOrder(AuthorizationStep(AuthenticationStep(s, env.verify).state, env.listed).state, env, id);
  }

  /**
   * A create request that reaches the gateway carries the hash of the
   * plaintext it came with and the id drawn for it, after one hashing and one
   * id draw, the update stage leaving it alone.
   */
  lemma CreateThroughChain(s: Snapshot, env: Env, id: string)
    requires RoundTrips(env.codec) && Sound(env.hasher)
    requires s.pattern.Some? && IsCreateUserRequest(s.verb, s.pattern.value)
    requires Run(GetMiddlewares(), s, env, id).verdict == Continue
    ensures var p := env.codec.decodePassword(s.body).value;
            var res := Run(GetMiddlewares(), s, env, id);
            var q := env.codec.decodePassword(res.state.body);
            && q.Some?
            && q.value == p.(hash := env.hasher.encrypt(p.hash).value, userId := id)
            && env.hasher.compare(q.value.hash, p.hash)
            && res.calls == [EncryptCall(p.hash), GenerateIdCall]
  {
    ChainInOrder(s, env, id);
    RewriteStagesInOrder(AuthorizationStep(AuthenticationStep(s, env.verify).state, env.listed).state, env, id);
    CreateUpdateExclusive(s.verb, s.pattern.value);
    var a := AuthenticationStep(s, env.verify);
    var z := AuthorizationStep(a.state, env.listed);
    CreateForwardsHashedPassword(z.state, env.codec, env.hasher, id);
  }

  /**
   * An allowed create request whose body decodes, whose password hashes and
   * whose rewritten payload marshals reaches the gateway, carrying the hash of
   * its plaintext and the drawn id, after one hashing and one id draw.
   */
  lemma CreateForwardedWhenAllowed(s: Snapshot, env: Env, id: string)
    requires RoundTrips(env.codec) && Sound(env.hasher)
    requires Allowed(s, env)
    requires s.pattern.Some? && IsCreateUserRequest(s.verb, s.pattern.value)
    requires env.codec.decodePassword(s.body).Some?
    requires env.hasher.encrypt(env.codec.decodePassword(s.body).value.hash).Some?
    requires var p := env.codec.decodePassword(s.body).value;
             env.codec.encodePassword(p.(hash := env.hasher.encrypt(p.hash).value, userId := id)).Some?
    ensures var p := env.codec.decodePassword(s.body).value;
            var q := p.(hash := env.hasher.encrypt(p.hash).value, userId := id);
            var res := Run(GetMiddlewares(), s, env, id);
            && res.verdict == Continue
            && res.state == s.(user := Some(AllowedUser(s, env)), body := env.codec.encodePassword(q).value)
            && env.codec.decodePassword(res.state.body) == Some(q)
            && env.hasher.compare(q.hash, p.hash)
            && res.calls == [EncryptCall(p.hash), GenerateIdCall]
  {
    var z := s.(user := Some(AllowedUser(s, env)));
    ChainInOrder(s, env, id);
    RewriteStagesInOrder(z, env, id);
    CreateUpdateExclusive(s.verb, s.pattern.value);
    CreateForwardsHashedPassword(z, env.codec, env.hasher, id);
  }

  /**
   * An allowed update request whose body decodes, whose new password hashes
   * and whose rewritten payload marshals reaches the gateway, carrying the
   * hash of its new password, after one hashing and no id draw.
   */
  lemma UpdateForwardedWhenAllowed(s: Snapshot, env: Env, id: string)
    requires RoundTrips(env.codec) && Sound(env.hasher)
    requires Allowed(s, env)
    requires s.pattern.Some? && IsUpdateUserRequest(s.verb, s.pattern.value)
    requires env.codec.decodeUpdate(s.body).Some?
    requires env.hasher.encrypt(env.codec.decodeUpdate(s.body).value.newHash).Some?
    requires var u := env.codec.decodeUpdate(s.body).value;
             env.codec.encodeUpdate(u.(newHash := env.hasher.encrypt(u.newHash).value)).Some?
    ensures var u := env.codec.decodeUpdate(s.body).value;
            var q := u.(newHash := env.hasher.encrypt(u.newHash).value);
            var res := Run(GetMiddlewares(), s, env, id);
            && res.verdict == Continue
            && res.state == s.(user := Some(AllowedUser(s, env)), body := env.codec.encodeUpdate(q).value)
            && env.codec.decodeUpdate(res.state.body) == Some(q)
            && env.hasher.compare(q.newHash, u.newHash)
            && res.calls == [EncryptCall(u.newHash)]
  {
    var z := s.(user := Some(AllowedUser(s, env)));
    ChainInOrder(s, env, id);
    RewriteStagesInOrder(z, env, id);
    CreateUpdateExclusive(s.verb, s.pattern.value);
    UpdateForwardsHashedPassword(z, env.codec, env.hasher);
  }

  /**
   * An update request that reaches the gateway carries the hash of the new
   * password it came with, after one hashing and no id draw.
   */
  lemma UpdateThroughChain(s: Snapshot, env: Env, id: string)
    requires RoundTrips(env.codec) && Sound(env.hasher)
    requires s.pattern.Some? && IsUpdateUserRequest(s.verb, s.pattern.value)
    requires Run(GetMiddlewares(), s, env, id).verdict == Continue
    ensures var u := env.codec.decodeUpdate(s.body).value;
            var res := Run(GetMiddlewares(), s, env, id);
            var q := env.codec.decodeUpdate(res.state.body);
            && q.Some?
            && q.value == u.(newHash := env.hasher.encrypt(u.newHash).value)
            && env.hasher.compare(q.value.newHash, u.newHash)
            && res.calls == [EncryptCall(u.newHash)]
  {
    ChainInOrder(s, env, id);
    RewriteStagesInOrder(AuthorizationStep(AuthenticationStep(s, env.verify).state, env.listed).state, env, id);
    CreateUpdateExclusive(s.verb, s.pattern.value);
    var a := AuthenticationStep(s, env.verify);
    var z := AuthorizationStep(a.state, env.listed);
    UpdateForwardsHashedPassword(z.state, env.codec, env.hasher);
  }
}
