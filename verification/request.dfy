/**
 * Route classification (internal/middlewares/request.go): which user-management
 * call a request is, from its HTTP method and its matched path template only.
 */
module Classify {
  import opened Wrappers
  import opened Http
  import opened GoStrings

  /** The request names; `NoName` is Go's empty `requestName("")`. */
  datatype RequestName = CreateUser | UpdateUser | NoName

  const CreateUserSuffix := "/users"
  const UpdateUserSuffix := "/users/{email=*}"

  /** POST to a template ending in "/users". */
  predicate IsCreateUserRequest(verb: string, pattern: string)
  {
    verb == MethodPost && HasSuffix(pattern, CreateUserSuffix)
  }

  /** PUT to a template ending in "/users/{email=*}". */
  predicate IsUpdateUserRequest(verb: string, pattern: string)
  {
    verb == MethodPut && HasSuffix(pattern, UpdateUserSuffix)
  }

  /**
   * `getRequestName`: NoName when no template could be read; otherwise the one
   * kind the request matches. The two kinds need different methods, so the
   * order in which they are tried does not matter.
   */
  function GetRequestName(verb: string, pattern: Option<string>): (name: RequestName)
    ensures name == CreateUser <==> pattern.Some? && IsCreateUserRequest(verb, pattern.value)
    ensures name == UpdateUser <==> pattern.Some? && IsUpdateUserRequest(verb, pattern.value)
    ensures pattern.None? ==> name == NoName
  {
    if pattern.None? then NoName
    else if IsCreateUserRequest(verb, pattern.value) then CreateUser
    else if IsUpdateUserRequest(verb, pattern.value) then UpdateUser
    else NoName
  }

  /** Create classification accepts any prefix before "/users", and only POST. */
  lemma CreateIff(verb: string, pattern: string)
    ensures IsCreateUserRequest(verb, pattern)
            <==> verb == "POST" && exists prefix :: pattern == prefix + "/users"
  {
    HasSuffixIff(pattern, CreateUserSuffix);
  }

  /** Update classification accepts any prefix before "/users/{email=*}", and only PUT. */
  lemma UpdateIff(verb: string, pattern: string)
    ensures IsUpdateUserRequest(verb, pattern)
            <==> verb == "PUT" && exists prefix :: pattern == prefix + "/users/{email=*}"
  {
    HasSuffixIff(pattern, UpdateUserSuffix);
  }

  /** No request is both a create and an update. */
  lemma CreateUpdateExclusive(verb: string, pattern: string)
    ensures !(IsCreateUserRequest(verb, pattern) && IsUpdateUserRequest(verb, pattern))
  {
  }

  /** Any prefix before "/users" makes a POST a create request. */
  lemma CreateAnyPrefix(prefix: string)
    ensures IsCreateUserRequest("POST", prefix + "/users")
  {
    assert (prefix + CreateUserSuffix)[|prefix|..] == CreateUserSuffix;
  }

  /** Any prefix before "/users/{email=*}" makes a PUT an update request. */
  lemma UpdateAnyPrefix(prefix: string)
    ensures IsUpdateUserRequest("PUT", prefix + "/users/{email=*}")
  {
    assert (prefix + UpdateUserSuffix)[|prefix|..] == UpdateUserSuffix;
  }

  /** The create cases the repository's tests pin down. */
  lemma CreateExamples()
    ensures IsCreateUserRequest("POST", "/users")
    ensures IsCreateUserRequest("POST", "/v1/users")
    ensures IsCreateUserRequest("POST", "/api/dex/v1/users")
  {
    CreateAnyPrefix("");
    CreateAnyPrefix("/v1");
    CreateAnyPrefix("/api/dex/v1");
    assert "" + "/users" == "/users";
    assert "/v1" + "/users" == "/v1/users";
    assert "/api/dex/v1" + "/users" == "/api/dex/v1/users";
  }

  /** The create non-cases the repository's tests pin down. */
  lemma CreateNonExamples()
    ensures !IsCreateUserRequest("GET", "/users")
    ensures !IsCreateUserRequest("PUT", "/users")
    ensures !IsCreateUserRequest("POST", "/users/verify")
  {
  }

  /** The update cases the repository's tests pin down. */
  lemma UpdateExamples()
    ensures IsUpdateUserRequest("PUT", "/users/{email=*}")
    ensures IsUpdateUserRequest("PUT", "/v1/users/{email=*}")
  {
    UpdateAnyPrefix("/v1");
    assert "/v1" + "/users/{email=*}" == "/v1/users/{email=*}";
  }

  /** The update case with the gateway's full prefix. */
  lemma UpdateFullPrefixExample()
    ensures IsUpdateUserRequest("PUT", "/api/dex/v1/users/{email=*}")
  {
    var prefix, pattern := "/api/dex/v1", "/api/dex/v1/users/{email=*}";
    assert pattern == prefix + UpdateUserSuffix;
    UpdateAnyPrefix(prefix);
  }

  /** The update non-cases the repository's tests pin down. */
  lemma UpdateNonExamples()
    ensures !IsUpdateUserRequest("GET", "/users/{email=*}")
    ensures !IsUpdateUserRequest("POST", "/users/{email=*}")
    ensures !IsUpdateUserRequest("PUT", "/users/verify/{email=*}")
  {
    assert "/users/verify/{email=*}"[|"/users/verify/{email=*}"| - |UpdateUserSuffix|..] != UpdateUserSuffix;
  }
}
