/**
 * The user directory: get-or-create of the local account for a validated
 * token, with first-write-wins semantics -- an existing record is returned
 * as stored and never updated.
 */
module Users {
  import opened Wrappers
  import opened Jwt
  import opened Store

  /** The outcome of a get-or-create and the store after it. */
  function GetOrCreate(store: Entries, jwt: Payload): (out: (Result<User, Error>, Entries))
    ensures UserKey(jwt.userId) in out.1
    ensures out.1 == store[UserKey(jwt.userId) := out.1[UserKey(jwt.userId)]]
    ensures UserKey(jwt.userId) in store ==> out.1 == store
    ensures UserKey(jwt.userId) !in store ==>
              out.0 == Ok(User(jwt.userId, jwt.email)) && out.1[UserKey(jwt.userId)] == UserRecord(out.0.value)
    ensures out.0.Ok? ==> out.1[UserKey(jwt.userId)] == UserRecord(out.0.value)
    ensures UserKey(jwt.userId) in store && store[UserKey(jwt.userId)].UserRecord? ==>
              out.0 == Ok(store[UserKey(jwt.userId)].user)
    ensures out.0.Err? ==> out.0.error == DeserializationError("user_bytes")
  {
    var key := UserKey(jwt.userId);
    if key !in store then
      var user := User(jwt.userId, jwt.email);
      (Ok(user), store[key := UserRecord(user)])
    else if store[key].UserRecord? then
      (Ok(store[key].user), store)
    else
      (Err(DeserializationError("user_bytes")), store)
  }

  /** The get-or-create, on the store in place. */
  method GetOrCreateUser(db: Db, jwt: Payload) returns (r: Result<User, Error>)
    modifies db
    ensures (r, db.entries) == GetOrCreate(old(db.entries), jwt)
  {
    var key := UserKey(jwt.userId);
    match db.Get(key) {
      case None =>
        var user := User(jwt.userId, jwt.email);
        db.Set(key, UserRecord(user));
        r := Ok(user);
      case Some(record) =>
        if record.UserRecord? {
          r := Ok(record.user);
        } else {
          r := Err(DeserializationError("user_bytes"));
        }
    }
  }

  /**
   * A second get-or-create for the same user id, whatever email its token
   * carries, returns what the first returned and leaves the store as the
   * first left it.
   */
  lemma FirstWriteWins(store: Entries, jwt: Payload, later: Payload)
    requires later.userId == jwt.userId
    ensures var first := GetOrCreate(store, jwt);
            GetOrCreate(first.1, later) == first
  {
  }

  /** On a well-typed store whose users sit under their own ids, the result
      is the user the token names, and the invariant is kept. */
  lemma GetOrCreateKeepsUsers(store: Entries, jwt: Payload)
    requires WellTyped(store) && UsersKeyed(store)
    ensures var out := GetOrCreate(store, jwt);
            && out.0.Ok? && out.0.value.userId == jwt.userId
            && WellTyped(out.1) && UsersKeyed(out.1)
  {
    var out := GetOrCreate(store, jwt);
    forall h | SessionKey(h) in out.1 ensures out.1[SessionKey(h)].SessionRecord? {
      KeysDistinct(jwt.userId, h);
    }
    forall u | UserKey(u) in out.1
      ensures out.1[UserKey(u)].UserRecord? && out.1[UserKey(u)].user.userId == u
    {
      KeysInjective(u, jwt.userId);
    }
  }
}
