/**
 * The per-request authentication guard: the `session` cookie is resolved
 * through the session record to the user record. Any missing link, or an
 * expired session, lets the request fall through to an unauthenticated
 * route instead of failing.
 */
module Guard {
  import opened Wrappers
  import opened Store
  import opened Cookies

  datatype Outcome = Success(user: User) | Forward

  /** The guard's decision for a request with cookies `jar`, at `now`. */
  function FromRequest(jar: map<string, Cookie>, store: Entries, now: int): (o: Outcome)
    requires WellTyped(store)
    ensures o.Success? <==>
              && "session" in jar
              && SessionKey(jar["session"].value) in store
              && !store[SessionKey(jar["session"].value)].session.Expired(now)
              && UserKey(store[SessionKey(jar["session"].value)].session.userId) in store
    ensures o.Success? ==>
              o.user == store[UserKey(store[SessionKey(jar["session"].value)].session.userId)].user
  {
    if "session" !in jar then Forward
    else
      var sessionKey := SessionKey(jar["session"].value);
      if sessionKey !in store then Forward
      else
        var session := store[sessionKey].session;
        if session.Expired(now) then Forward
        else
          var userKey := UserKey(session.userId);
          if userKey !in store then Forward
          else Success(store[userKey].user)
  }

  /**
   * On a valid store the user lookup never misses: a request is
   * authenticated exactly when it carries the key of an unexpired session,
   * and then as that session's user.
   */
  lemma ResolvesOnValidStore(jar: map<string, Cookie>, store: Entries, now: int, decode: Jwt.Decoder, hash: string -> string)
    requires ValidStore(store, decode, hash)
    ensures var o := FromRequest(jar, store, now);
            o.Success? <==> ("session" in jar && SessionKey(jar["session"].value) in store
                             && !store[SessionKey(jar["session"].value)].session.Expired(now))
    ensures var o := FromRequest(jar, store, now);
            o.Success? ==> o.user.userId == store[SessionKey(jar["session"].value)].session.userId
  {
  }
}
