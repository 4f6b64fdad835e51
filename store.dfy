/**
 * The persistent key-value store: one map from keys to records, with users
 * under `users/<user id>`, sessions under `sessions/<token hash>` and the
 * provider's PEM public key under `jwt_pub_key_pem`. Records are stored as
 * values; their binary encoding is not modelled.
 */
module Store {
  import opened Wrappers
  import opened Jwt

  /** A local account, keyed by the provider's user id. */
  datatype User = User(userId: string, email: string)

  /** A login session, keyed by the hash of the raw ID token. */
  datatype Session = Session(userId: string, expires: int, rawJwt: string) {
    /** A session is live strictly before its expiry second and expired
        from that second on. */
    predicate Expired(now: int): (r: bool)
      ensures r <==> !(now < expires)
    {
      expires <= now
    }
  }

  datatype Record = UserRecord(user: User) | SessionRecord(session: Session) | PemKey(pem: string)

  type Entries = map<string, Record>

  /** The application's error values: a token problem, or a record that
      could not be decoded. */
  datatype Error = Auth(auth: AuthError) | DeserializationError(name: string)

  const PubKeyPemKey: string := "jwt_pub_key_pem"

  function UserKey(userId: string): string {
    "users/" + userId
  }

  function SessionKey(hashed: string): string {
    "sessions/" + hashed
  }

  /** The namespaces never collide: a user key, a session key and the
      public-key key are pairwise different, and each prefix determines the
      id behind it. */
  lemma KeysDistinct(userId: string, hashed: string)
    ensures UserKey(userId) != SessionKey(hashed)
    ensures UserKey(userId) != PubKeyPemKey && SessionKey(hashed) != PubKeyPemKey
  {
    assert UserKey(userId)[0] == 'u';
    assert SessionKey(hashed)[0] == 's';
    assert PubKeyPemKey[0] == 'j';
  }

  lemma KeysInjective(a: string, b: string)
    ensures UserKey(a) == UserKey(b) ==> a == b
    ensures SessionKey(a) == SessionKey(b) ==> a == b
  {
    assert UserKey(a)[6..] == a && UserKey(b)[6..] == b;
    assert SessionKey(a)[9..] == a && SessionKey(b)[9..] == b;
  }

  /** Every record under a user key decodes as a user, and every record
      under a session key as a session. */
  ghost predicate WellTyped(store: Entries) {
    && (forall u :: UserKey(u) in store ==> store[UserKey(u)].UserRecord?)
    && (forall h :: SessionKey(h) in store ==> store[SessionKey(h)].SessionRecord?)
  }

  /** Every user is stored under its own id. */
  ghost predicate UsersKeyed(store: Entries)
    requires WellTyped(store)
  {
    forall u :: UserKey(u) in store ==> store[UserKey(u)].user.userId == u
  }

  predicate HasPubKey(store: Entries) {
    PubKeyPemKey in store && store[PubKeyPemKey].PemKey?
  }

  /**
   * The session under `sessions/<h>` was minted from a token whose hash is
   * `h`, which verifies under the stored key and carries the session's user
   * id and expiry, and whose user exists.
   */
  ghost predicate SessionMinted(store: Entries, h: string, decode: Decoder, hash: string -> string)
    requires HasPubKey(store) && WellTyped(store) && SessionKey(h) in store
  {
    var s := store[SessionKey(h)].session;
    var pem := store[PubKeyPemKey].pem;
    && hash(s.rawJwt) == h
    && UserKey(s.userId) in store
    && TokenExtractable(decode, pem, s.rawJwt)
    && Carried(decode, pem, s.rawJwt).Some?
    && Carried(decode, pem, s.rawJwt).value.exp == s.expires
    && Carried(decode, pem, s.rawJwt).value.userId == s.userId
  }

  /** The store invariant the login flow keeps. */
  ghost predicate ValidStore(store: Entries, decode: Decoder, hash: string -> string) {
    && HasPubKey(store)
    && WellTyped(store)
    && UsersKeyed(store)
    && forall h :: SessionKey(h) in store ==> SessionMinted(store, h, decode, hash)
  }

  /** The store, updated in place. */
  class Db {
    var entries: Entries

    function Get(key: string): Option<Record>
      reads this
    {
      if key in entries then Some(entries[key]) else None
    }

    method Set(key: string, value: Record)
      modifies this
      ensures entries == old(entries)[key := value]
    {
      entries := entries[key := value];
    }
  }
}
