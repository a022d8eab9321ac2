# Dex HTTP gateway: request middleware pipeline

This project models the HTTP server that sits in front of Dex's gRPC API
(`dex-http-server`). The server turns REST calls into gRPC calls and runs every
request through a chain of middlewares before the generated gateway handler sees
it:

1. **Logging.** Passes every request on unchanged.
2. **Authentication.** Takes the bearer token from the `Authorization` header
   and verifies it as an OIDC ID token. It requires `email_verified`, then
   attaches the user (email and groups) to the request. Failures answer 401.
3. **Authorization.** Lists the cluster-role bindings and collects the roles
   bound to the user's email as a `User` or `ServiceAccount` subject. It lets
   the request through only when one of those roles is `cluster-admin`. A
   missing user or a failed lookup answers 500; a missing role answers 403.
4. **Create-user rewriting.** For `POST …/users`, it decodes the `Password`
   payload and bcrypt-hashes the password. It then replaces the client's
   `userId` with a freshly generated id and re-encodes the body. A failed
   decode answers 400; a failed hash or encode answers 500.
5. **Update-user rewriting.** For `PUT …/users/{email=*}`, it does the same to
   the `UpdatePasswordReq` payload's `newHash`, without an id.

A stand-alone validation middleware checks the fields of those two payloads:
- the email is at most 100 bytes, at least 3, and has no space;
- the password is 8–64 bytes and has no space;
- the optional name is at most 100 bytes.

The `cmd` package has its own helpers: a `namespace/name` splitter, a status-recording
response writer, a body logger, an admin-only gate and a linear `contains`.

## How the model is built

- **Requests.** `Http.Request` is a class holding the fields the middlewares
  read and rewrite: method, matched template, `Authorization` header, body bytes,
  path parameters and the attached user. `Request.State()` is its value.
- **Stages.** Each middleware is a pure step function from the request's value
  to a verdict (`Continue` or `Reject(status)`), the new value and the list of
  oracle calls it made (bcrypt, id generation). Each one also has a
  module-level method that takes the `Request` object, changes it in place and
  whose contract ties it to that step function.
- **Collaborators.** The JSON codec, bcrypt, the OIDC verifier and the
  Kubernetes listing cannot be seen from here, so they are parameters. `Api.Codec`
  is a pair of partial functions, with `RoundTrips` as the assumed law.
  `Users.Hasher` holds `encrypt` and `compare`, with `Sound` saying every produced
  hash compares equal to its plaintext. `Authn.Verifier` maps a token to an
  optional ID token. The listing is an `Option` of bindings.
- **Id generation.** `Users.IdSource` is a class whose ghost `issued` set shows
  that every id it hands out is fresh.
- **The chain.** `Middlewares.Run` folds the stages of `GetMiddlewares()` over
  the request: the first rejecting stage ends it. `Middlewares.Serve` executes
  the five stage methods in order and is proved equal to that fold.

### Where the code and the design notes differ (the model follows the code)

- `validateUserRequest` trims the fields before checking them, but the body it
  forwards holds the untrimmed values. The model forwards the untrimmed body.
- The validator treats the new password of an update as optional: an empty
  one is not checked (the comment at `internal/middlewares/validation.go:109`). `updateUserMiddleware`
  has no such case and hashes `newHash` even when it is empty, so an update
  without a new password still sets one. The model hashes it too
  (`UpdateHashesEmptyPassword`).
- The design notes mention a switch that turns authentication off; the code has
  none, so the model has none.
- `validationMiddleware` is defined but is not part of `GetMiddlewares()`, so it
  is modelled as a stand-alone stage. It is not in the chain.

## Model

| member | source | states |
|---|---|---|
| GoStrings.HasSuffixIff | internal/middlewares/request.go:54 | a suffix test holds exactly when the string is some prefix followed by the suffix |
| GoStrings.TrimSpaceShape | internal/middlewares/validation.go:131-133 | trimming removes only leading and trailing white space, and the result neither starts nor ends with white space |
| GoStrings.TrimSpaceEmptyIff | internal/middlewares/validation.go:144 | a trimmed field is empty exactly when the field is all white space |
| GoStrings.TrimSpaceKeeps | internal/middlewares/validation.go:131-133 | a field that neither starts nor ends with white space is unchanged by trimming |
| GoStrings.SplitJoinTwo | cmd/main.go:122 | splitting `a + sep + b`, where neither part holds the separator, gives exactly `[a, b]` |
| GoStrings.SplitTwo | internal/middlewares/authn.go:96-97 | a split into exactly two parts rebuilds the input around the one separator |
| Classify.GetRequestName | internal/middlewares/request.go:35-51 | CreateUser exactly for a create request, UpdateUser exactly for an update request, NoName when the template is missing or neither matches |
| Classify.CreateIff | internal/middlewares/request.go:53-57 | a request is a create exactly when its method is POST and its template is some prefix followed by `/users` |
| Classify.UpdateIff | internal/middlewares/request.go:59-63 | a request is an update exactly when its method is PUT and its template is some prefix followed by `/users/{email=*}` |
| Classify.CreateUpdateExclusive | internal/middlewares/request.go:42-48 | no request is both a create and an update, so the order of the two tests does not matter |
| Classify.CreateAnyPrefix | internal/middlewares/request.go:53-57 | a POST to any prefix followed by `/users` is a create request |
| Classify.UpdateAnyPrefix | internal/middlewares/request.go:59-63 | a PUT to any prefix followed by `/users/{email=*}` is an update request |
| Classify.CreateExamples | internal/middlewares/users_test.go:117-119 | `/users`, `/v1/users` and `/api/dex/v1/users` with POST are create requests |
| Classify.CreateNonExamples | internal/middlewares/users_test.go:121-124 | GET or PUT to `/users`, and POST to `/users/verify`, are not create requests |
| Classify.UpdateExamples | internal/middlewares/users_test.go:140-141 | PUT to `/users/{email=*}` and `/v1/users/{email=*}` are update requests |
| Classify.UpdateFullPrefixExample | internal/middlewares/users_test.go:142 | PUT to `/api/dex/v1/users/{email=*}` is an update request |
| Classify.UpdateNonExamples | internal/middlewares/users_test.go:144-147 | GET or POST to the update template, and PUT to `/users/verify/{email=*}`, are not update requests |
| Validation.ValidateLength | internal/middlewares/validation.go:186-195 | fails with TooShort exactly below the minimum, with TooLong exactly when not below the minimum but above the maximum, and passes in between |
| Validation.ValidateUsername | internal/middlewares/validation.go:154-163 | an email passes exactly when it has no space and is 3 to 100 bytes long |
| Validation.ValidatePassword | internal/middlewares/validation.go:165-176 | a password passes exactly when it has no space and is 8 to 64 bytes long |
| Validation.ValidateName | internal/middlewares/validation.go:178-184 | a name passes exactly when it is at most 100 bytes long |
| Validation.ValidateUserRequest | internal/middlewares/validation.go:130-151 | a payload passes exactly when the trimmed email and password pass, and the trimmed name is empty or passes |
| Validation.PasswordLengthBoundaries | internal/middlewares/validation_test.go:110-180 | passwords of 8 and 64 bytes pass; 7 and 65 bytes, a short one and one with a space fail |
| Validation.AllSpacePasswordRejected | internal/middlewares/validation_test.go:155-162 | a password made only of white space is rejected |
| Validation.AllSpaceNameAccepted | internal/middlewares/validation_test.go:251-258 | a name made only of white space is skipped, so the payload passes when email and password do |
| Validation.ValidUserRequestExample | internal/middlewares/validation_test.go:101-108 | the tests' valid payload passes |
| Validation.SpaceInNameExample | internal/middlewares/validation_test.go:260-267 | a name containing a space is accepted |
| Validation.SpaceInUsernameExample | internal/middlewares/validation_test.go:221-228 | an email containing a space is rejected, whatever the other fields hold |
| Validation.ValidateCreateStep | internal/middlewares/validation.go:51-76 | 400 exactly when the body does not decode or the payload is invalid; 500 exactly when a valid payload does not marshal again; otherwise the request is forwarded with the re-marshalled payload as its body; only the body may change |
| Validation.ValidateUpdateStep | internal/middlewares/validation.go:78-128 | 400 exactly when the body does not decode, the path email is blank, the trimmed new name is over 100 bytes or a non-empty new password is invalid; 500 exactly when an acceptable payload does not marshal; otherwise forwarded with the re-marshalled payload; only the body may change |
| Validation.ValidationStep | internal/middlewares/validation.go:39-49 | create and update requests go to their validators; every other request is passed on untouched |
| Validation.ValidationForwardsPayloadUnchanged | internal/middlewares/validation.go:66-75 | with a round-tripping codec, a forwarded create body decodes to the very payload the client sent |
| Validation.EmptyUpdateForwarded | internal/middlewares/validation.go:97-127 | an update with an empty new password and a valid path email is forwarded without a password check |
| Validation.ValidationMiddleware | internal/middlewares/validation.go:39-49 | the verdict and the new request state are those of the validation step |
| Validation.ValidateCreateUserRequest | internal/middlewares/validation.go:51-76 | the verdict and the new request state are those of the create validator |
| Validation.ValidateUpdateUserRequest | internal/middlewares/validation.go:78-128 | the verdict and the new request state are those of the update validator |
| Users.IdSource.Generate | internal/middlewares/users.go:130-132 | returns an id never handed out before and records it as issued |
| Users.CreateUserStep | internal/middlewares/users.go:23-74 | 500 without a template; non-create requests pass untouched; for a create, 400 exactly when the body does not decode, 500 exactly when hashing or marshalling fails, and otherwise the request is forwarded with the re-marshalled payload after one hash and one id draw; only the body may change |
| Users.CreateForwardsHashedPassword | internal/middlewares/users.go:46-64 | the forwarded payload keeps the client's email and name, replaces the password by its hash and the id by the fresh one; the hash compares equal to the password |
| Users.UpdateUserStep | internal/middlewares/users.go:76-119 | 500 without a template; non-update requests pass untouched; for an update, 400 exactly when the body does not decode, 500 exactly when hashing or marshalling fails, and otherwise the request is forwarded with the re-marshalled payload; the only oracle call is one hash of the new password, never an id; only the body may change |
| Users.UpdateForwardsHashedPassword | internal/middlewares/users.go:95-114 | the forwarded payload differs from the client's only in the new password, which becomes a hash that compares equal to it |
| Users.UpdateHashesEmptyPassword | internal/middlewares/users.go:95-105 | an empty new password is hashed like any other, not skipped: the one oracle call hashes the empty string, and the forwarded new password is non-empty |
| Users.CreateUserMiddleware | internal/middlewares/users.go:23-74 | the verdict and new request state are those of the create step; an id is drawn exactly when the step asks for one |
| Users.UpdateUserMiddleware | internal/middlewares/users.go:76-119 | the verdict and the new request state are those of the update step |
| Authn.GetBearerToken | internal/middlewares/authn.go:90-102 | the error is MissingHeader exactly when the header is empty; a returned token contains no space |
| Authn.BearerTokenSound | internal/middlewares/authn.go:96-101 | a returned token follows a `bearer` scheme, in any case, and one space |
| Authn.BearerTokenComplete | internal/middlewares/authn.go:96-101 | a header made of a `bearer` scheme in any case, one space and a token without spaces yields that token |
| Authn.BearerTokenIff | internal/middlewares/authn.go:90-102 | a token is returned exactly when the header is a `bearer` scheme, one space and that token |
| Authn.BearerTokenRoundTrip | internal/middlewares/authn.go:96-101 | `Bearer t` and `BEARER t` both yield `t` for a token without spaces |
| Authn.Authenticate | internal/middlewares/authn.go:69-88 | a user is returned exactly when the token verifies, its claims parse and the email is verified; the user carries the claimed email and groups |
| Authn.AuthenticationStep | internal/middlewares/authn.go:42-64 | 401 exactly when the header has no bearer token or authentication fails; otherwise the authenticated user is attached and nothing else changes |
| Authn.AuthenticationMiddleware | internal/middlewares/authn.go:41-65 | the verdict and the new request state are those of the authentication step |
| Roles.GetClusterRoles | internal/roles/clusterroles.go:25-41 | a failed listing is an error; otherwise the result is the roles bound to the name, in binding and subject order |
| Roles.SubjectRolesAreRoleRef | internal/roles/clusterroles.go:33-37 | every role a binding contributes is its own role reference |
| Roles.SubjectRolesNonEmptyIff | internal/roles/clusterroles.go:33-37 | a binding contributes a role exactly when some subject is a User or ServiceAccount with that name |
| Roles.SubjectRolesCount | internal/roles/clusterroles.go:33-37 | a binding contributes its role once per matching subject |
| Roles.BoundRolesCount | internal/roles/clusterroles.go:31-40 | the result has one entry per matching (binding, subject) pair |
| Roles.BoundRolesAppend | internal/roles/clusterroles.go:31-40 | the roles of two lists of bindings are the roles of the first followed by those of the second |
| Roles.SubjectRolesMembership | internal/roles/clusterroles.go:33-37 | a role comes from a binding exactly when that binding grants it to the name |
| Roles.BoundRolesMembership | internal/roles/clusterroles.go:31-40 | a role is in the result exactly when some binding grants it to the name as a User or ServiceAccount |
| Roles.LookupExamples | internal/k8s/clusterroles_test.go:23-103 | the five test cases: one or two bindings of "test-sa" as a User or a ServiceAccount yield their roles in order, and no bindings yield nothing |
| Roles.OtherKindIgnored | internal/roles/clusterroles.go:34 | a Group subject whose name matches contributes no role |
| Roles.DuplicatesKept | internal/roles/clusterroles.go:31-40 | a name bound twice in one binding yields the role twice; the result is not de-duplicated |
| Authz.ContainsAny | internal/middlewares/authz.go:98-105 | true exactly when the two lists share an element |
| Authz.Authorize | internal/middlewares/authz.go:77-95 | NilUser without a user; LookupFailed when the listing fails; otherwise true exactly when a bound role is in the allow-list |
| Authz.AuthorizeIffClusterAdmin | internal/middlewares/authz.go:77-95 | a user is authorized exactly when some binding grants `cluster-admin` to the user's email |
| Authz.AuthorizationStep | internal/middlewares/authz.go:40-72 | 500 without a user or when the lookup fails, 403 when no allowed role is bound, otherwise pass; the request is never changed |
| Authz.AuthorizationMiddleware | internal/middlewares/authz.go:39-73 | the verdict is that of the authorization step; the request is not modified |
| Middlewares.StageStep | internal/middlewares/middlewares.go:15-25 | only the create stage draws an id; no stage changes method, template or header |
| Middlewares.FoldDrawsIdOnlyInCreate | internal/middlewares/middlewares.go:15-25 | a run of stages draws an id only when it holds the create stage |
| Middlewares.FoldRejectStops | internal/middlewares/middlewares.go:11-28 | once a stage rejects, the stages after it do not run and the outcome is that rejection |
| Middlewares.LoggingMiddleware | internal/middlewares/middlewares.go:31-36 | always continues, and the request is not modified |
| Middlewares.RewriteStagesInOrder | internal/middlewares/middlewares.go:23-24 | the create stage runs, then the update stage only if the create stage continued |
| Middlewares.ChainInOrder | internal/middlewares/middlewares.go:15-25 | the chain is authentication, then authorization on the authenticated request, then the two rewriting stages, each only if the one before continued |
| Middlewares.Serve | internal/middlewares/middlewares.go:11-28 | the verdict and final request state are those of the whole chain; an id is issued exactly when the chain draws one |
| Middlewares.AuthenticationFailureStops | internal/middlewares/authn.go:44-56 | a request that fails authentication is answered 401 and reaches no later stage |
| Middlewares.MissingHeaderUnauthorized | internal/middlewares/authn.go:91-94 | a request without an Authorization header is answered 401 |
| Middlewares.ForbiddenWithoutClusterAdmin | internal/middlewares/authz.go:66-69 | an authenticated user with no `cluster-admin` binding is answered 403 |
| Middlewares.LookupFailureInternalError | internal/middlewares/authz.go:59-64 | an authenticated request whose binding lookup fails is answered 500 |
| Middlewares.ReachesGatewayOnlyWhenAllowed | internal/middlewares/middlewares.go:18-20 | a request reaches the gateway only with a valid token and a `cluster-admin` binding |
| Middlewares.OracleCallsOnlyWhenAuthorized | internal/middlewares/middlewares.go:18-24 | bcrypt and the id generator are called only for authorized requests |
| Middlewares.UnknownPatternInternalError | internal/middlewares/users.go:25-30 | an authorized request without a matched template is answered 500 |
| Middlewares.CreateThroughChain | internal/middlewares/users.go:32-72 | a create that reaches the gateway carries the client's payload with the password replaced by its hash and the id by the drawn one, after exactly one hash call and one id draw |
| Middlewares.OtherRequestForwardedWhenAllowed | internal/middlewares/middlewares.go:15-25 | an allowed request that is neither a create nor an update reaches the gateway with only the user attached and no oracle call |
| Middlewares.CreateForwardedWhenAllowed | internal/middlewares/users.go:32-72 | an allowed create whose body decodes, hashes and marshals reaches the gateway with the hashed password and the drawn id, after one hash call and one id draw |
| Middlewares.UpdateForwardedWhenAllowed | internal/middlewares/users.go:85-117 | an allowed update whose body decodes, hashes and marshals reaches the gateway with the hashed new password, after one hash call |
| Middlewares.UpdateThroughChain | internal/middlewares/users.go:85-117 | an update that reaches the gateway carries the client's payload with the new password replaced by its hash, after exactly one hash call |
| Cmd.SplitNamespaceName | cmd/main.go:121-127 | an error names the input; a result is two parts without `/` that rebuild the input around one `/` |
| Cmd.SplitNamespaceNameRoundTrip | cmd/main.go:121-127 | joining a namespace and a name without `/` and splitting again gives them back |
| Cmd.SplitNamespaceNameIff | cmd/main.go:121-127 | the split succeeds exactly when the input has exactly one `/` |
| Cmd.SplitNamespaceNameExamples | cmd/main.go:35 | the default secret name splits into its namespace and name; a name without `/` is an error |
| Cmd.Contains | cmd/main.go:258-265 | true exactly when the item is in the list |
| Cmd.LogResponseWriter.constructor | cmd/main.go:145-147 | wraps the writer with status 200 recorded |
| Cmd.LogResponseWriter.WriteHeader | cmd/main.go:134-137 | records the status and writes it to the wrapped writer |
| Cmd.LogRequestBody | cmd/main.go:150-169 | an unreadable body is answered 400; otherwise the handler sees the very bytes read, and the body is logged exactly when the final status is not 200 |
| Cmd.AuthMiddleware | cmd/main.go:184-208 | 401 without a bearer token or when authentication fails, 403 unless the email is `admin`, otherwise continue |
| Cmd.GateAgreesWithAuthentication | cmd/main.go:186-198 | the gate answers 401 exactly when the chain's authentication stage would |
| Cmd.GateAdminOnly | cmd/main.go:200-204 | the gate lets a request through exactly when it authenticates as `admin` |

## Left out

- bcrypt is a `Hasher` parameter. Its cost, salt randomness and 72-byte input limit are not modelled, and neither is the fact that a hash differs from its plaintext.
- JSON and protobuf encoding are a `Codec` parameter. The model does not capture JSON syntax, field names or the base64 encoding of `hash`.
- OIDC discovery, JWKS fetching, token signature checks and the verifier's construction are a `Verifier` parameter.
- The Kubernetes client (`NewClientSet`, `getDexGrpcCredentials`) is left out: the binding list is an input, and a failed list is `None`. TLS set-up (`internal/tls/tls.go`) is left out as configuration.
- Flags, `run`, `main`, server start-up and the logging calls themselves are left out; logging affects no verdict.
- The context key: authentication stores the user under `userInfoKey{}` (`internal/middlewares/authn.go:61`), but authorization reads `userInfoCtxKey` (`internal/middlewares/authz.go:44`), a name the package does not define. As written, the package either does not build or, if that name is some other key, authorization never finds the user and answers 500 to every authenticated request. The model does not capture this: it passes the authenticated user from the first stage to the second, as the design intends.
- A create body that is the JSON literal `null` decodes without error but leaves the payload nil, and reading its password then panics (`internal/middlewares/users.go:39-46`); the HTTP server recovers and drops the connection without a status. `Codec.decodePassword` returns a payload or nothing, so the model answers such a body either 400 or as a decoded payload.
- Concurrency, the package-level singletons and request cancellation through the context are left out; each request is modelled alone.
- Authz.AuthorizationStep: a user stored under the context key with a value of another type also answers 500 in the code. The model has no untyped context, so only a missing user is modelled; both give the same 500.
- GoStrings.TrimSpace: only ASCII white space (space, tab to carriage return) is modelled, not Unicode spaces. GoStrings.ToLower lowers ASCII letters only.
- Users.IdSource.Generate: ids are distinct strings from a counter, not UUID-formatted.
- Cmd.LogRequestBody: the case where a rejecting stage leaves the body half-consumed is not modelled; the body is read once, as a value.
- The second copies of `isCreateUserRequest` and `isUpdateUserRequest` (`users.go:143-154`) are modelled once, as `Classify`. So are the pattern getters (`users.go:134-141`, `request.go:21-33`), now a `pattern` field. The `cmd` copy of `getBearerToken` (`cmd/main.go:244-256`) is modelled once, as `Authn.GetBearerToken`.
- `logResponseWriter.Unwrap` (`cmd/main.go:141-143`) only returns the wrapped writer, which is the `inner` field.
- `authorize` in `cmd/main.go:216-242` builds its own verifier and otherwise matches `Authn.Authenticate`, so `Cmd.AuthMiddleware` uses `Authenticate`.
- `encryptPassword`'s error path is the `Hasher`'s `None`. The test's `encryptPasswordHash` helper is not part of this model.
- How the gRPC gateway runtime wraps handlers and writes error bodies is left out. Only the status and whether the next stage runs are modelled.
