/**
 * Field validation and the validation stage (internal/middlewares/validation.go).
 * Wire field `Email` is validated as the UI's username, `Username` as the UI's
 * name, `Hash` as the plaintext password. Lengths are byte counts; the only
 * character treated as white space by the checks is ' '.
 */
module Validation {
  import opened Wrappers
  import opened Http
  import opened GoStrings
  import opened Api
  import opened Classify

  const PasswordMinLen := 8
  const PasswordMaxLen := 64
  /** Bounds of the username (wire field `Email`) and the name (wire field `Username`). */
  const MinLen := 3
  const MaxLen := 100

  /** The field an error is reported against, by its UI label. */
  datatype Field = UsernameField | PasswordField | NameField

  datatype LengthError = TooShort(min: int) | TooLong(max: int)

  datatype ValidationError = HasWhiteSpace(field: Field) | InvalidLength(field: Field, cause: LengthError)

  /** `validateLength`: the lower bound is checked first. */
  function ValidateLength(s: string, min: int, max: int): (r: Outcome<LengthError>)
    ensures r.Pass? <==> min <= |s| <= max
    ensures r == Fail(TooShort(min)) <==> |s| < min
    ensures r == Fail(TooLong(max)) <==> min <= |s| && max < |s|
  {
    if |s| < min then Fail(TooShort(min))
    else if |s| > max then Fail(TooLong(max))
    else Pass
  }

  /** `validateUsername`: no ' ' (checked first), then 3 to 100 bytes. */
  function ValidateUsername(username: string): (r: Outcome<ValidationError>)
    ensures r.Pass? <==> ' ' !in username && MinLen <= |username| <= MaxLen
    ensures ' ' in username ==> r == Fail(HasWhiteSpace(UsernameField))
    ensures ' ' !in username && r.Fail? ==> r.error.InvalidLength? && r.error.field == UsernameField
  {
    if ' ' in username then Fail(HasWhiteSpace(UsernameField))
    else match ValidateLength(username, MinLen, MaxLen)
      case Pass => Pass
      case Fail(e) => Fail(InvalidLength(UsernameField, e))
  }

  /** `validatePassword`: no ' ' (checked first), then 8 to 64 bytes. */
  function ValidatePassword(password: string): (r: Outcome<ValidationError>)
    ensures r.Pass? <==> ' ' !in password && PasswordMinLen <= |password| <= PasswordMaxLen
    ensures ' ' in password ==> r == Fail(HasWhiteSpace(PasswordField))
    ensures ' ' !in password && r.Fail? ==> r.error.InvalidLength? && r.error.field == PasswordField
  {
    if ' ' in password then Fail(HasWhiteSpace(PasswordField))
    else match ValidateLength(password, PasswordMinLen, PasswordMaxLen)
      case Pass => Pass
      case Fail(e) => Fail(InvalidLength(PasswordField, e))
  }

  /** `validateName`: at most 100 bytes, spaces allowed. */
  function ValidateName(name: string): (r: Outcome<ValidationError>)
    ensures r.Pass? <==> |name| <= MaxLen
    ensures r.Fail? ==> r.error == InvalidLength(NameField, TooLong(MaxLen))
  {
    match ValidateLength(name, 0, MaxLen)
    case Pass => Pass
    case Fail(e) => Fail(InvalidLength(NameField, e))
  }

  /**
   * `validateUserRequest`: trims the three fields, then checks the username,
   * the password, and the name only when its trimmed value is not empty;
   * the first failing check gives the error.
   */
  function ValidateUserRequest(p: Password): (r: Outcome<ValidationError>)
    ensures r.Pass? <==>
              && ValidateUsername(TrimSpace(p.email)).Pass?
              && ValidatePassword(TrimSpace(p.hash)).Pass?
              && |TrimSpace(p.username)| <= MaxLen
    ensures ValidateUsername(TrimSpace(p.email)).Fail? ==> r == ValidateUsername(TrimSpace(p.email))
    ensures (ValidateUsername(TrimSpace(p.email)).Pass? && ValidatePassword(TrimSpace(p.hash)).Fail?)
              ==> r == ValidatePassword(TrimSpace(p.hash))
    ensures r.Fail? && r.error.field == NameField ==> r.error == InvalidLength(NameField, TooLong(MaxLen))
  {
    var username := TrimSpace(p.email);
    var password := TrimSpace(p.hash);
    var name := TrimSpace(p.username);
    if ValidateUsername(username).Fail? then ValidateUsername(username)
    else if ValidatePassword(password).Fail? then ValidatePassword(password)
    else if |name| > 0 && ValidateName(name).Fail? then ValidateName(name)
    else Pass
  }

  /** The password boundaries the tests pin: 7 and 65 bytes fail, 8 and 64 pass, as does every length between. */
  lemma PasswordLengthBoundaries(n: nat)
    ensures ValidatePassword(Repeat('a', n)).Pass? <==> 8 <= n <= 64
    ensures ValidatePassword(Repeat('a', 7)).Fail? && ValidatePassword(Repeat('a', 65)).Fail?
    ensures ValidatePassword(Repeat('a', 8)).Pass? && ValidatePassword(Repeat('a', 64)).Pass?
    ensures ValidatePassword("short").Fail? && ValidatePassword("invalid password").Fail?
  {
    assert "invalid password"[7] == ' ';
  }

  /** A password of spaces only trims to nothing and fails, whatever the other fields. */
  lemma AllSpacePasswordRejected(p: Password)
    requires AllSpace(p.hash)
    ensures ValidateUserRequest(p).Fail?
  {
    TrimSpaceEmptyIff(p.hash);
  }

  /** A name of spaces only trims to nothing and is skipped. */
  lemma AllSpaceNameAccepted(p: Password)
    requires AllSpace(p.username)
    requires ValidateUsername(TrimSpace(p.email)).Pass? && ValidatePassword(TrimSpace(p.hash)).Pass?
    ensures ValidateUserRequest(p).Pass?
  {
    TrimSpaceEmptyIff(p.username);
  }

  /** A field value with no space anywhere is left as it is by trimming and has no ' '. */
  lemma NoSpaceField(s: string)
    requires forall i :: 0 <= i < |s| ==> s[i] != ' ' && !(9 <= s[i] as int <= 13)
    ensures TrimSpace(s) == s && ' ' !in s
  {
    if s != "" {
      assert !IsSpace(s[0]) && !IsSpace(s[|s| - 1]);
    }
    TrimSpaceKeeps(s);
  }

  /** The valid request of the tests passes. */
  lemma ValidUserRequestExample()
    ensures ValidateUserRequest(Password("validpassword", "validusername", "valid@example.com", "")).Pass?
  {
    ValidTestPassword();
    ValidTestEmail();
    NoSpaceField("validusername");
  }

  /** The tests' valid password is unchanged by trimming and passes. */
  lemma ValidTestPassword()
    ensures TrimSpace("validpassword") == "validpassword" && ValidatePassword("validpassword").Pass?
  {
    NoSpaceField("validpassword");
  }

  /** The tests' valid email is unchanged by trimming and passes. */
  lemma ValidTestEmail()
    ensures TrimSpace("valid@example.com") == "valid@example.com" && ValidateUsername("valid@example.com").Pass?
  {
    NoSpaceField("valid@example.com");
  }

  /** A name containing a space is accepted. */
  lemma SpaceInNameExample()
    ensures ValidateUserRequest(Password("validpassword", "invalid username", "valid@example.com", "")).Pass?
  {
    ValidTestPassword();
    ValidTestEmail();
    TrimSpaceKeeps("invalid username");
  }

  /** A username containing a space is rejected, whatever the other fields hold. */
  lemma SpaceInUsernameExample(p: Password)
    requires p.email == "invalid email"
    ensures ValidateUserRequest(p).Fail?
  {
    var email := p.email;
    assert !IsSpace(email[0]) && !IsSpace(email[|email| - 1]);
    TrimSpaceKeeps(email);
    assert email[7] == ' ';
  }

  /**
   * `validateCreateUserRequest`: 400 when the body does not decode or does not
   * validate, 500 when it cannot be marshalled again; otherwise the body is
   * re-encoded from the decoded payload, untrimmed.
   */
  function ValidateCreateStep(s: Snapshot, codec: Codec): (r: Step)
    ensures r.calls == []
    ensures r.verdict.Reject? ==> r.state == s
    ensures r.state == s.(body := r.state.body)
    ensures r.verdict == Reject(StatusBadRequest) <==>
              codec.decodePassword(s.body).None? || ValidateUserRequest(codec.decodePassword(s.body).value).Fail?
    ensures r.verdict == Continue ==>
              codec.decodePassword(s.body).Some? && ValidateUserRequest(codec.decodePassword(s.body).value).Pass?
    ensures r.verdict.Continue? || r.verdict == Reject(StatusBadRequest) || r.verdict == Reject(StatusInternalServerError)
    ensures var p := codec.decodePassword(s.body);
            var b := if p.Some? && ValidateUserRequest(p.value).Pass? then codec.encodePassword(p.value) else None;
            && (r.verdict == Continue <==> b.Some?)
            && (b.Some? ==> r.state.body == b.value)
            && (r.verdict == Reject(StatusInternalServerError) <==> p.Some? && ValidateUserRequest(p.value).Pass? && b.None?)
  {
    match codec.decodePassword(s.body)
    case None => Step(Reject(StatusBadRequest), s, [])
    case Some(p) =>
      if ValidateUserRequest(p).Fail? then Step(Reject(StatusBadRequest), s, [])
      else match codec.encodePassword(p)
        case None => Step(Reject(StatusInternalServerError), s, [])
        case Some(b) => Step(Continue, s.(body := b), [])
  }

  /**
   * What `validateUpdateUserRequest` accepts, given the path's "email": a
   * non-blank user key, a new name of at most 100 bytes once trimmed, and a
   * new password that is either absent or valid as it stands (untrimmed).
   */
  predicate UpdateAcceptable(email: string, u: UpdatePasswordReq)
  {
    && !AllSpace(email)
    && |TrimSpace(u.newUsername)| <= MaxLen
    && (u.newHash == "" || ValidatePassword(u.newHash).Pass?)
  }

  /** The update body decodes to a payload that is acceptable for the path's "email". */
  predicate UpdateDecodesAcceptable(s: Snapshot, codec: Codec)
  {
    codec.decodeUpdate(s.body).Some? && UpdateAcceptable(Lookup(s.pathParams, "email"), codec.decodeUpdate(s.body).value)
  }

  /** The body an update is forwarded with: its acceptable payload marshalled again, when that succeeds. */
  function ValidatedUpdateBody(s: Snapshot, codec: Codec): Option<Bytes>
  {
    if UpdateDecodesAcceptable(s, codec) then codec.encodeUpdate(codec.decodeUpdate(s.body).value) else None
  }

  /**
   * `validateUpdateUserRequest`: 400 when the body does not decode, when the
   * path's "email" is blank, when a non-blank trimmed new name is too long, or
   * when a non-empty new password (untrimmed) is invalid; 500 when the payload
   * cannot be marshalled again; otherwise the body is re-encoded.
   */
  function ValidateUpdateStep(s: Snapshot, codec: Codec): (r: Step)
    ensures r.calls == []
    ensures r.verdict.Reject? ==> r.state == s
    ensures r.state == s.(body := r.state.body)
    ensures r.verdict.Continue? || r.verdict == Reject(StatusBadRequest) || r.verdict == Reject(StatusInternalServerError)
    ensures r.verdict == Reject(StatusBadRequest) <==> !UpdateDecodesAcceptable(s, codec)
    ensures r.verdict == Continue <==> ValidatedUpdateBody(s, codec).Some?
    ensures r.verdict == Continue ==> r.state.body == ValidatedUpdateBody(s, codec).value
    ensures r.verdict == Reject(StatusInternalServerError)
            <==> UpdateDecodesAcceptable(s, codec) && ValidatedUpdateBody(s, codec).None?
  {
    TrimSpaceEmptyIff(Lookup(s.pathParams, "email"));
    match codec.decodeUpdate(s.body)
    case None => Step(Reject(StatusBadRequest), s, [])
    case Some(u) =>
      var username := TrimSpace(Lookup(s.pathParams, "email"));
      var newName := TrimSpace(u.newUsername);
      var newPassword := u.newHash;
      if |username| == 0 then Step(Reject(StatusBadRequest), s, [])
      else if |newName| > 0 && ValidateName(newName).Fail? then Step(Reject(StatusBadRequest), s, [])
      else if |newPassword| > 0 && ValidatePassword(newPassword).Fail? then Step(Reject(StatusBadRequest), s, [])
      else match codec.encodeUpdate(u)
        case None => Step(Reject(StatusInternalServerError), s, [])
        case Some(b) => Step(Continue, s.(body := b), [])
  }

  /** `validationMiddleware`: create and update requests are validated, every other request goes on untouched. */
  function ValidationStep(s: Snapshot, codec: Codec): (r: Step)
    ensures GetRequestName(s.verb, s.pattern) == NoName ==> r == Step(Continue, s, [])
    ensures GetRequestName(s.verb, s.pattern) == CreateUser ==> r == ValidateCreateStep(s, codec)
    ensures GetRequestName(s.verb, s.pattern) == UpdateUser ==> r == ValidateUpdateStep(s, codec)
  {
    match GetRequestName(s.verb, s.pattern)
    case CreateUser => ValidateCreateStep(s, codec)
    case UpdateUser => ValidateUpdateStep(s, codec)
    case NoName => Step(Continue, s, [])
  }

  /** A create request that passes validation reaches `next` carrying exactly the payload it arrived with. */
  lemma ValidationForwardsPayloadUnchanged(s: Snapshot, codec: Codec)
    requires RoundTrips(codec)
    requires ValidateCreateStep(s, codec).verdict == Continue
    ensures codec.decodePassword(ValidateCreateStep(s, codec).state.body) == codec.decodePassword(s.body)
  {
    var p := codec.decodePassword(s.body).value;
    assert codec.encodePassword(p).Some?;
  }

  /** An update request naming a user and carrying neither new value is forwarded. */
  lemma EmptyUpdateForwarded(s: Snapshot, codec: Codec)
    requires codec.decodeUpdate(s.body).Some?
    requires codec.decodeUpdate(s.body).value.newHash == ""
    requires codec.decodeUpdate(s.body).value.newUsername == ""
    requires !AllSpace(Lookup(s.pathParams, "email"))
    requires codec.encodeUpdate(codec.decodeUpdate(s.body).value).Some?
    ensures ValidateUpdateStep(s, codec).verdict == Continue
  {
    TrimSpaceEmptyIff(Lookup(s.pathParams, "email"));
  }

  /** The stage of `validationMiddleware`, replacing the body in place. */
  method ValidationMiddleware(r: Request, codec: Codec) returns (v: Verdict)
    modifies r
    ensures var st := ValidationStep(old(r.State()), codec);
            v == st.verdict && r.State() == st.state
  {
    var name := GetRequestName(r.verb, r.pattern);
    if name == CreateUser {
      v := ValidateCreateUserRequest(r, codec);
    } else if name == UpdateUser {
      v := ValidateUpdateUserRequest(r, codec);
    } else {
      v := Continue;
    }
  }

  method ValidateCreateUserRequest(r: Request, codec: Codec) returns (v: Verdict)
    modifies r
    ensures var st := ValidateCreateStep(old(r.State()), codec);
            v == st.verdict && r.State() == st.state
  {
    var req := codec.decodePassword(r.body);
    if req.None? {
      return Reject(StatusBadRequest);
    }
    if ValidateUserRequest(req.value).Fail? {
      return Reject(StatusBadRequest);
    }
    var encoded := codec.encodePassword(req.value);
    if encoded.None? {
      return Reject(StatusInternalServerError);
    }
    r.body := encoded.value;
    return Continue;
  }

  method ValidateUpdateUserRequest(r: Request, codec: Codec) returns (v: Verdict)
    modifies r
    ensures var st := ValidateUpdateStep(old(r.State()), codec);
            v == st.verdict && r.State() == st.state
  {
    ghost var s := r.State();
    var req := codec.decodeUpdate(r.body);
    if req.None? {
      return Reject(StatusBadRequest);
    }
    assert req == codec.decodeUpdate(s.body);
    var username := TrimSpace(Lookup(r.pathParams, "email"));
    if |username| == 0 {
      return Reject(StatusBadRequest);
    }
    var newName := TrimSpace(req.value.newUsername);
    var newPassword := req.value.newHash;
    if |newName| > 0 && ValidateName(newName).Fail? {
      return Reject(StatusBadRequest);
    }
    if |newPassword| > 0 && ValidatePassword(newPassword).Fail? {
      return Reject(StatusBadRequest);
    }
    var encoded := codec.encodeUpdate(req.value);
    if encoded.None? {
      return Reject(StatusInternalServerError);
    }
    assert ValidateUpdateStep(s, codec) == Step(Continue, s.(body := encoded.value), []);
    r.body := encoded.value;
    return Continue;
  }
}
