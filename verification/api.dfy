/**
 * The two request payloads the middlewares rewrite (Dex's `api.Password` and
 * `api.UpdatePasswordReq`) and the codec that turns a body into them and back.
 */
module Api {
  import opened Wrappers
  import opened Http

  /**
   * `api.Password`. `hash` arrives holding the plaintext password. The UI
   * labels are swapped: `email` is shown as the username, `username` as the name.
   */
  datatype Password = Password(hash: Bytes, username: string, email: string, userId: string)

  /** `api.UpdatePasswordReq`: the key `email` and the two optional new values. */
  datatype UpdatePasswordReq = UpdatePasswordReq(email: string, newHash: Bytes, newUsername: string)

  /**
   * A JSON marshaller: decoding is partial (a body that does not parse), and
   * marshalling may fail too.
   */
  datatype Codec = Codec(
    decodePassword: Bytes -> Option<Password>,
    encodePassword: Password -> Option<Bytes>,
    decodeUpdate: Bytes -> Option<UpdatePasswordReq>,
    encodeUpdate: UpdatePasswordReq -> Option<Bytes>)

  /** Whatever the codec marshals, it decodes back to the same payload. */
  ghost predicate RoundTrips(c: Codec)
  {
    && (forall p :: c.encodePassword(p).Some? ==> c.decodePassword(c.encodePassword(p).value) == Some(p))
    && (forall u :: c.encodeUpdate(u).Some? ==> c.decodeUpdate(c.encodeUpdate(u).value) == Some(u))
  }
}
