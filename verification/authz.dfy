/**
 * Authorization (internal/middlewares/authz.go): a request goes on only when
 * one of the user's cluster roles is in the allowed list.
 */
module Authz {
  import opened Wrappers
  import opened Http
  import opened Roles

  /** The cluster roles allowed to use the dashboard. */
  const ClusterRoles: seq<string> := ["cluster-admin"]

  /** Some element of `b` is also an element of `a`. */
  predicate Intersects(a: seq<string>, b: seq<string>) {
    exists v :: v in b && v in a
  }

  /** `containsAny`: whether any element of `arr2` is in `arr1`. */
  method ContainsAny(arr1: seq<string>, arr2: seq<string>) returns (found: bool)
    ensures found <==> Intersects(arr1, arr2)
  {
    for i := 0 to |arr2|
      invariant forall k :: 0 <= k < i ==> arr2[k] !in arr1
    {
      if arr2[i] in arr1 {
        return true;
      }
    }
    return false;
  }

  datatype AuthzError = NilUser | LookupFailed

  /**
   * `authorize`: no user is an error, a failed role lookup is an error, and
   * otherwise the answer is whether the user's roles meet the allowed list.
   */
  function Authorize(u: Option<User>, listed: Option<seq<ClusterRoleBinding>>): (r: Result<bool, AuthzError>)
    ensures u.None? ==> r == Err(NilUser)
    ensures u.Some? && listed.None? ==> r == Err(LookupFailed)
    ensures r.Ok? <==> u.Some? && listed.Some?
    ensures r.Ok? ==> (r.value <==> Intersects(ClusterRoles, BoundRoles(listed.value, u.value.email)))
  {
    match u
    case None => Err(NilUser)
    case Some(user) =>
      match listed
      case None => Err(LookupFailed)
      case Some(bindings) => Ok(Intersects(ClusterRoles, BoundRoles(bindings, user.email)))
  }

  /**
   * A user is allowed exactly when some listed binding of the role
   * "cluster-admin" names the user's email as a User or ServiceAccount subject.
   */
  lemma AuthorizeIffClusterAdmin(u: User, bindings: seq<ClusterRoleBinding>)
    ensures Authorize(Some(u), Some(bindings)) == Ok(true)
            <==> exists i :: 0 <= i < |bindings| && Grants(bindings[i], u.email, "cluster-admin")
  {
    BoundRolesMembership(bindings, u.email, "cluster-admin");
    var roles := BoundRoles(bindings, u.email);
    if Intersects(ClusterRoles, roles) {
      var v :| v in roles && v in ClusterRoles;
      assert v == "cluster-admin";
    }
    if "cluster-admin" in roles {
      assert "cluster-admin" in ClusterRoles;
    }
  }

  /**
   * The handler of `authorizationMiddleware`: 500 when no user is attached or
   * the lookup fails, 403 when the user is not allowed; an allowed request goes
   * on unchanged.
   */
  function AuthorizationStep(s: Snapshot, listed: Option<seq<ClusterRoleBinding>>): (r: Step)
    ensures r.state == s && r.calls == []
    ensures r.verdict == Continue <==> Authorize(s.user, listed) == Ok(true)
    ensures r.verdict == Reject(StatusForbidden) <==> Authorize(s.user, listed) == Ok(false)
    ensures r.verdict == Reject(StatusInternalServerError) <==> Authorize(s.user, listed).Err?
  {
    if s.user.None? then Step(Reject(StatusInternalServerError), s, [])
    else
      match Authorize(s.user, listed)
      case Err(_) => Step(Reject(StatusInternalServerError), s, [])
      case Ok(allowed) =>
        if !allowed then Step(Reject(StatusForbidden), s, [])
        else Step(Continue, s, [])
  }

  /** The stage of `authorizationMiddleware`, looking the roles up and checking them. */
  method AuthorizationMiddleware(r: Request, listed: Option<seq<ClusterRoleBinding>>) returns (v: Verdict)
    ensures v == AuthorizationStep(r.State(), listed).verdict
  {
    if r.user.None? {
      return Reject(StatusInternalServerError);
    }
    var cr := GetClusterRoles(listed, r.user.value.email);
    if cr.Err? {
      return Reject(StatusInternalServerError);
    }
    var allowed := ContainsAny(ClusterRoles, cr.value);
    if !allowed {
      return Reject(StatusForbidden);
    }
    return Continue;
  }
}
