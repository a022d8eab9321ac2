/**
 * The body-rewriting stages (internal/middlewares/users.go): a create request
 * gets its plaintext password replaced by its hash and its user id replaced by
 * a fresh one; an update request gets its new password replaced by its hash.
 */
module Users {
  import opened Wrappers
  import opened Http
  import opened GoStrings
  import opened Api
  import opened Classify

  /**
   * `encryptPassword` (bcrypt with its default cost) as an oracle that may fail,
   * with the comparison that checks a plaintext against a hash. Salting makes
   * the real hash random: `encrypt` stands for its outcome on this request.
   */
  datatype Hasher = Hasher(encrypt: Bytes -> Option<Bytes>, compare: (Bytes, Bytes) -> bool)

  /** Every hash the hasher produces checks out against its plaintext. */
  ghost predicate Sound(h: Hasher)
  {
    forall p :: h.encrypt(p).Some? ==> h.compare(h.encrypt(p).value, p)
  }

  /**
   * `generateUUID` as a source of identifiers that never yields the same one
   * twice. The model's identifiers are strings of `counter` 'x's; every one
   * handed out so far is shorter than the next.
   */
  class IdSource {
    ghost var issued: set<string>
    var counter: nat

    ghost predicate Valid()
      reads this
    {
      forall id :: id in issued ==> |id| < counter
    }

    /** The identifier the next call of Generate hands out. */
    function Peek(): (id: string)
      reads this
      ensures Valid() ==> id !in issued
    {
      Repeat('x', counter)
    }

    constructor ()
      ensures Valid() && issued == {}
    {
      issued := {};
      counter := 0;
    }

    method Generate() returns (id: string)
      requires Valid()
      modifies this
      ensures Valid()
      ensures id == old(Peek()) && id !in old(issued)
      ensures issued == old(issued) + {id}
    {
      id := Repeat('x', counter);
      issued := issued + {id};
      counter := counter + 1;
    }
  }

  /**
   * `createUserMiddleware`: 500 when no path template is known; requests that
   * are not a create pass untouched; for a create, 400 when the body does not
   * decode, 500 when hashing or marshalling fails, otherwise the password is
   * hashed, the user id is replaced by `id`, and the body is re-encoded.
   */
  function CreateUserStep(s: Snapshot, codec: Codec, hasher: Hasher, id: string): (r: Step)
    ensures r.state == s.(body := r.state.body)
    ensures r.verdict.Reject? ==> r.state == s
    ensures s.pattern.None? ==> r == Step(Reject(StatusInternalServerError), s, [])
    ensures s.pattern.Some? && !IsCreateUserRequest(s.verb, s.pattern.value) ==> r == Step(Continue, s, [])
    ensures r.verdict == Reject(StatusBadRequest) <==>
              s.pattern.Some? && IsCreateUserRequest(s.verb, s.pattern.value) && codec.decodePassword(s.body).None?
    ensures r.verdict.Continue? || r.verdict == Reject(StatusBadRequest) || r.verdict == Reject(StatusInternalServerError)
    ensures r.calls != [] ==>
              && s.pattern.Some? && IsCreateUserRequest(s.verb, s.pattern.value)
              && codec.decodePassword(s.body).Some?
              && r.calls[0] == EncryptCall(codec.decodePassword(s.body).value.hash)
    ensures GenerateIdCall in r.calls ==> hasher.encrypt(codec.decodePassword(s.body).value.hash).Some?
    ensures (r.verdict == Continue && s.pattern.Some? && IsCreateUserRequest(s.verb, s.pattern.value))
              ==> GenerateIdCall in r.calls
    ensures var create := s.pattern.Some? && IsCreateUserRequest(s.verb, s.pattern.value);
            var p := codec.decodePassword(s.body);
            var h := if create && p.Some? then hasher.encrypt(p.value.hash) else None;
            var b := if h.Some? then codec.encodePassword(p.value.(hash := h.value, userId := id)) else None;
            && (r.verdict == Continue <==> s.pattern.Some? && (!create || b.Some?))
            && (r.verdict == Reject(StatusInternalServerError) <==> s.pattern.None? || (create && p.Some? && b.None?))
            && (b.Some? ==> r.state.body == b.value && r.calls == [EncryptCall(p.value.hash), GenerateIdCall])
  {
    if s.pattern.None? then Step(Reject(StatusInternalServerError), s, [])
    else if !IsCreateUserRequest(s.verb, s.pattern.value) then Step(Continue, s, [])
    else match codec.decodePassword(s.body)
      case None => Step(Reject(StatusBadRequest), s, [])
      case Some(p) =>
        match hasher.encrypt(p.hash)
        case None => Step(Reject(StatusInternalServerError), s, [EncryptCall(p.hash)])
        case Some(h) =>
          match codec.encodePassword(p.(hash := h, userId := id))
          case None => Step(Reject(StatusInternalServerError), s, [EncryptCall(p.hash), GenerateIdCall])
          case Some(b) => Step(Continue, s.(body := b), [EncryptCall(p.hash), GenerateIdCall])
  }

  /**
   * A create request that reaches `next` carries the hash of its plaintext,
   * which checks out against that plaintext, and the generated id in place of
   * whatever id it came with; its email and username are as they came.
   */
  lemma CreateForwardsHashedPassword(s: Snapshot, codec: Codec, hasher: Hasher, id: string)
    requires RoundTrips(codec) && Sound(hasher)
    requires s.pattern.Some? && IsCreateUserRequest(s.verb, s.pattern.value)
    requires CreateUserStep(s, codec, hasher, id).verdict == Continue
    ensures var p := codec.decodePassword(s.body).value;
            var q := codec.decodePassword(CreateUserStep(s, codec, hasher, id).state.body);
            && q.Some?
            && q.value.hash == hasher.encrypt(p.hash).value
            && hasher.compare(q.value.hash, p.hash)
            && q.value.userId == id
            && q.value.email == p.email && q.value.username == p.username
  {
    var p := codec.decodePassword(s.body).value;
    var h := hasher.encrypt(p.hash).value;
    assert codec.encodePassword(p.(hash := h, userId := id)).Some?;
  }

  /**
   * `updateUserMiddleware`: 500 when no path template is known; requests that
   * are not an update pass untouched; for an update, 400 when the body does
   * not decode, 500 when hashing or marshalling fails, otherwise the new
   * password is replaced by its hash (even when it is empty) and the body is
   * re-encoded.
   */
  function UpdateUserStep(s: Snapshot, codec: Codec, hasher: Hasher): (r: Step)
    ensures r.state == s.(body := r.state.body)
    ensures r.verdict.Reject? ==> r.state == s
    ensures GenerateIdCall !in r.calls
    ensures s.pattern.None? ==> r == Step(Reject(StatusInternalServerError), s, [])
    ensures s.pattern.Some? && !IsUpdateUserRequest(s.verb, s.pattern.value) ==> r == Step(Continue, s, [])
    ensures r.verdict == Reject(StatusBadRequest) <==>
              s.pattern.Some? && IsUpdateUserRequest(s.verb, s.pattern.value) && codec.decodeUpdate(s.body).None?
    ensures r.verdict.Continue? || r.verdict == Reject(StatusBadRequest) || r.verdict == Reject(StatusInternalServerError)
    ensures r.calls != [] ==>
              && s.pattern.Some? && IsUpdateUserRequest(s.verb, s.pattern.value)
              && codec.decodeUpdate(s.body).Some?
              && r.calls == [EncryptCall(codec.decodeUpdate(s.body).value.newHash)]
    ensures var update := s.pattern.Some? && IsUpdateUserRequest(s.verb, s.pattern.value);
            var u := codec.decodeUpdate(s.body);
            var h := if update && u.Some? then hasher.encrypt(u.value.newHash) else None;
            var b := if h.Some? then codec.encodeUpdate(u.value.(newHash := h.value)) else None;
            && (r.verdict == Continue <==> s.pattern.Some? && (!update || b.Some?))
            && (r.verdict == Reject(StatusInternalServerError) <==> s.pattern.None? || (update && u.Some? && b.None?))
            && (b.Some? ==> r.state.body == b.value)
  {
    if s.pattern.None? then Step(Reject(StatusInternalServerError), s, [])
    else if !IsUpdateUserRequest(s.verb, s.pattern.value) then Step(Continue, s, [])
    else match codec.decodeUpdate(s.body)
      case None => Step(Reject(StatusBadRequest), s, [])
      case Some(u) =>
        match hasher.encrypt(u.newHash)
        case None => Step(Reject(StatusInternalServerError), s, [EncryptCall(u.newHash)])
        case Some(h) =>
          match codec.encodeUpdate(u.(newHash := h))
          case None => Step(Reject(StatusInternalServerError), s, [EncryptCall(u.newHash)])
          case Some(b) => Step(Continue, s.(body := b), [EncryptCall(u.newHash)])
  }

  /**
   * An update request that reaches `next` carries the hash of its new password,
   * which checks out against it; its email and new username are as they came.
   */
  lemma UpdateForwardsHashedPassword(s: Snapshot, codec: Codec, hasher: Hasher)
    requires RoundTrips(codec) && Sound(hasher)
    requires s.pattern.Some? && IsUpdateUserRequest(s.verb, s.pattern.value)
    requires UpdateUserStep(s, codec, hasher).verdict == Continue
    ensures var u := codec.decodeUpdate(s.body).value;
            var q := codec.decodeUpdate(UpdateUserStep(s, codec, hasher).state.body);
            && q.Some?
            && q.value == u.(newHash := hasher.encrypt(u.newHash).value)
            && hasher.compare(q.value.newHash, u.newHash)
  {
    var u := codec.decodeUpdate(s.body).value;
    assert codec.encodeUpdate(u.(newHash := hasher.encrypt(u.newHash).value)).Some?;
  }

  /**
   * An update that carries no new password still has one set: the hash of the
   * empty string, non-empty whenever the hasher's outputs are.
   */
  lemma UpdateHashesEmptyPassword(s: Snapshot, codec: Codec, hasher: Hasher)
    requires RoundTrips(codec)
    requires forall p :: hasher.encrypt(p).Some? ==> hasher.encrypt(p).value != ""
    requires s.pattern.Some? && IsUpdateUserRequest(s.verb, s.pattern.value)
    requires codec.decodeUpdate(s.body).Some? && codec.decodeUpdate(s.body).value.newHash == ""
    requires UpdateUserStep(s, codec, hasher).verdict == Continue
    ensures UpdateUserStep(s, codec, hasher).calls == [EncryptCall("")]
    ensures var q := codec.decodeUpdate(UpdateUserStep(s, codec, hasher).state.body);
            q.Some? && q.value.newHash != ""
  {
    var u := codec.decodeUpdate(s.body).value;
    assert codec.encodeUpdate(u.(newHash := hasher.encrypt(u.newHash).value)).Some?;
  }

  /** The stage of `createUserMiddleware`, rewriting the body in place and drawing the id from `ids`. */
  method CreateUserMiddleware(r: Request, codec: Codec, hasher: Hasher, ids: IdSource) returns (v: Verdict)
    requires ids.Valid()
    modifies r, ids
    ensures ids.Valid()
    ensures var st := CreateUserStep(old(r.State()), codec, hasher, old(ids.Peek()));
            && v == st.verdict && r.State() == st.state
            && ids.issued == old(ids.issued) + (if GenerateIdCall in st.calls then {old(ids.Peek())} else {})
            && (GenerateIdCall !in st.calls ==> ids.Peek() == old(ids.Peek()))
  {
    if r.pattern.None? {
      return Reject(StatusInternalServerError);
    }
    if !IsCreateUserRequest(r.verb, r.pattern.value) {
      return Continue;
    }
    var req := codec.decodePassword(r.body);
    if req.None? {
      return Reject(StatusBadRequest);
    }
    var plaintext := req.value.hash;
    var encrypted := hasher.encrypt(plaintext);
    if encrypted.None? {
      return Reject(StatusInternalServerError);
    }
    var p := req.value.(hash := encrypted.value);
    var id := ids.Generate();
    p := p.(userId := id);
    var encoded := codec.encodePassword(p);
    if encoded.None? {
      return Reject(StatusInternalServerError);
    }
    r.body := encoded.value;
    return Continue;
  }

  /** The stage of `updateUserMiddleware`, rewriting the body in place. */
  method UpdateUserMiddleware(r: Request, codec: Codec, hasher: Hasher) returns (v: Verdict)
    modifies r
    ensures var st := UpdateUserStep(old(r.State()), codec, hasher);
            v == st.verdict && r.State() == st.state
  {
    if r.pattern.None? {
      return Reject(StatusInternalServerError);
    }
    if !IsUpdateUserRequest(r.verb, r.pattern.value) {
      return Continue;
    }
    var req := codec.decodeUpdate(r.body);
    if req.None? {
      return Reject(StatusBadRequest);
    }
    var plaintext := req.value.newHash;
    var encrypted := hasher.encrypt(plaintext);
    if encrypted.None? {
      return Reject(StatusInternalServerError);
    }
    var u := req.value.(newHash := encrypted.value);
    var encoded := codec.encodeUpdate(u);
    if encoded.None? {
      return Reject(StatusInternalServerError);
    }
    r.body := encoded.value;
    return Continue;
  }
}
