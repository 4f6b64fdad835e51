/**
 * The two routes of the login flow: the redirect to the provider, which
 * plants the CSRF `state` cookie, and the callback, which checks the echoed
 * state, exchanges the code, validates the ID token, gets or creates the
 * user and issues the session.
 */
module Callback {
  import opened Wrappers
  import opened Jwt
  import opened Store
  import opened Cookies
  import opened Query
  import opened OAuth
  import opened Users
  import opened Guard

  datatype Status = BadRequest | Unauthorized | Forbidden | InternalServerError

  datatype Response = Redirect(location: string) | Fail(status: Status)

  /** The token endpoint: the ID token of its answer to a token request. */
  type Exchange = TokenRequest -> string

  /** The cookie that carries a session key: secure, HTTP-only, path `/`. */
  function SessionCookie(hashed: string): Cookie {
    Cookie("session", hashed, Some("/"), true, true)
  }

  /** The status a failed get-or-create is reported with: a malformed
      token is the client's fault, anything else the server's. */
  function UserErrorStatus(e: Error): (st: Status)
    ensures st == BadRequest <==> e.Auth? && e.auth.MalformedJWT?
    ensures st != BadRequest ==> st == InternalServerError
  {
    match e
    case Auth(MalformedJWT(_)) => BadRequest
    case _ => InternalServerError
  }

  /** The outcomes of comparing the echoed `state` with the `state` cookie. */
  datatype StateCheck = MissingState | StateMismatch | StateMatches

  /** The state check of section 10.12 of RFC 6749: it passes exactly when
      the `state` cookie is present and holds the echoed value. */
  function CheckState(cookies: map<string, Cookie>, state: string): (r: StateCheck)
    ensures r == MissingState <==> "state" !in cookies
    ensures r == StateMatches <==> "state" in cookies && cookies["state"].value == state
  {
    if "state" !in cookies then MissingState
    else if state != cookies["state"].value then StateMismatch
    else StateMatches
  }

  /** The ID token the callback obtains for `code`. */
  function IdToken(settings: AuthSettings, code: string, exchange: Exchange): string {
    exchange(TokenRequestFor(settings, code))
  }

  /** What the callback needs in order not to abort: the provider's key in
      the store, and a token whose claims extract. */
  predicate CallbackRuns(store: Entries, settings: AuthSettings, code: string, exchange: Exchange, decode: Decoder) {
    HasPubKey(store) && TokenExtractable(decode, store[PubKeyPemKey].pem, IdToken(settings, code, exchange))
  }

  /** The validation of the callback's ID token. */
  function Validated(store: Entries, settings: AuthSettings, code: string, exchange: Exchange, decode: Decoder, now: int)
    : Result<Payload, AuthError>
    requires CallbackRuns(store, settings, code, exchange, decode)
  {
    DecodeAndValidate(decode, store[PubKeyPemKey].pem, IdToken(settings, code, exchange),
                      settings.clientId, settings.auth0Domain, now)
  }

  /**
   * The callback's response, cookies and store. A missing `state` cookie
   * is a bad request and a differing one is forbidden, both with nothing
   * changed; on a match the `state` cookie is consumed. A token that fails
   * validation is unauthorized and adds nothing to the store. A successful
   * login stores a session under the token's hash, carrying the user's id
   * and the token's expiry, sets the `session` cookie to that hash, and
   * writes no store key besides it and the user's.
   */
  function CallbackSpec(code: string, state: string, cookies: map<string, Cookie>, store: Entries,
                        settings: AuthSettings, exchange: Exchange, decode: Decoder, hash: string -> string, now: int)
    : (out: (Response, map<string, Cookie>, Entries))
    requires CheckState(cookies, state) == StateMatches ==> CallbackRuns(store, settings, code, exchange, decode)
    ensures CheckState(cookies, state) == MissingState ==> out == (Fail(BadRequest), cookies, store)
    ensures CheckState(cookies, state) == StateMismatch ==> out == (Fail(Forbidden), cookies, store)
    ensures CheckState(cookies, state) == StateMatches ==>
              && "state" !in out.1
              && out.0 != Fail(BadRequest) && out.0 != Fail(Forbidden)
              && (forall name :: name in cookies && name != "state" && name != "session" ==>
                                   name in out.1 && out.1[name] == cookies[name])
              && (forall name :: name in out.1 ==> name in cookies || name == "session")
    ensures CheckState(cookies, state) == StateMatches ==>
              Validated(store, settings, code, exchange, decode, now).Err? ==>
              out == (Fail(Unauthorized), cookies - {"state"}, store)
    ensures CheckState(cookies, state) == StateMatches ==>
              Validated(store, settings, code, exchange, decode, now).Ok? && WellTyped(store) ==>
              out.0 == Redirect("/loggedin")
    ensures CheckState(cookies, state) == StateMatches ==>
              Validated(store, settings, code, exchange, decode, now).Ok? ==>
              var p := Validated(store, settings, code, exchange, decode, now).value;
              var g := GetOrCreate(store, p);
              var token := IdToken(settings, code, exchange);
              && (g.0.Err? ==> out == (Fail(UserErrorStatus(g.0.error)), cookies - {"state"}, store))
              && (g.0.Ok? ==>
                    out.2 == g.1[SessionKey(hash(token)) := SessionRecord(Session(g.0.value.userId, p.exp, token))])
    ensures out.0.Fail? ==> out.2 == store
    ensures out.0.Redirect? ==>
              && CheckState(cookies, state) == StateMatches
              && (var token := IdToken(settings, code, exchange);
                  var p := Validated(store, settings, code, exchange, decode, now);
                  var key := SessionKey(hash(token));
                  && out.0.location == "/loggedin"
                  && p.Ok?
                  && key in out.2 && out.2[key].SessionRecord?
                  && out.2[key].session.expires == p.value.exp
                  && out.2[key].session.rawJwt == token
                  && UserKey(p.value.userId) in out.2
                  && out.2[UserKey(p.value.userId)].UserRecord?
                  && out.2[UserKey(p.value.userId)].user.userId == out.2[key].session.userId
                  && "session" in out.1 && out.1["session"] == SessionCookie(hash(token))
                  && out.2.Keys == store.Keys + {UserKey(p.value.userId), key}
                  && (forall k :: k in store && k != UserKey(p.value.userId) && k != key ==> out.2[k] == store[k]))
  {
    match CheckState(cookies, state)
    case MissingState => (Fail(BadRequest), cookies, store)
    case StateMismatch => (Fail(Forbidden), cookies, store)
    case StateMatches =>
      var cookies1 := cookies - {"state"};
      match Validated(store, settings, code, exchange, decode, now)
      case Err(_) => (Fail(Unauthorized), cookies1, store)
      case Ok(payload) =>
        var (user, store1) := GetOrCreate(store, payload);
        match user
        case Err(e) => (Fail(UserErrorStatus(e)), cookies1, store1)
        case Ok(u) =>
          var token := IdToken(settings, code, exchange);
          var hashed := hash(token);
          var session := Session(u.userId, payload.exp, token);
          KeysDistinct(payload.userId, hashed);
          (Redirect("/loggedin"),
           cookies1[SessionCookie(hashed).name := SessionCookie(hashed)],
           store1[SessionKey(hashed) := SessionRecord(session)])
  }

  /**
   * The login route: draws a fresh state value, plants it in the `state`
   * cookie and redirects the browser to the authorization endpoint with it.
   */
  method Auth0Redirect(jar: CookieJar, settings: AuthSettings, percentEncode: string -> string, draw: nat -> nat)
    returns (r: Response)
    modifies jar
    ensures var state := RandomStateString(draw);
            && jar.cookies == old(jar.cookies)["state" := PlainCookie("state", state)]
            && r == Redirect(AuthorizeEndpointUrl(settings, state, percentEncode))
  {
    var state := RandomStateString(draw);
    jar.Add(PlainCookie("state", state));
    var uri := AuthorizeEndpointUrl(settings, state, percentEncode);
    r := Redirect(uri);
  }

  /** The callback route, on the cookie jar and the store in place. */
  method Auth0Callback(code: string, state: string, jar: CookieJar, db: Db, settings: AuthSettings,
                       exchange: Exchange, decode: Decoder, hash: string -> string, now: int)
    returns (r: Response)
    requires CheckState(jar.cookies, state) == StateMatches ==> CallbackRuns(db.entries, settings, code, exchange, decode)
    modifies jar, db
    ensures (r, jar.cookies, db.entries)
            == CallbackSpec(code, state, old(jar.cookies), old(db.entries), settings, exchange, decode, hash, now)
  {
    match jar.Get("state") {
      case None =>
        return Fail(BadRequest);
      case Some(cookie) =>
        if state != cookie.value {
          return Fail(Forbidden);
        }
    }
    jar.Remove("state");

    var tr := TokenRequestFor(settings, code);
    var idToken := exchange(tr);

    var pubKey := db.Get(PubKeyPemKey).value.pem;
    var validated := DecodeAndValidate(decode, pubKey, idToken, settings.clientId, settings.auth0Domain, now);
    if validated.Err? {
      return Fail(Unauthorized);
    }
    var payload := validated.value;
    var user := GetOrCreateUser(db, payload);
    if user.Err? {
      return Fail(UserErrorStatus(user.error));
    }

    var hashed := hash(idToken);
    var session := Session(user.value.userId, payload.exp, idToken);
    db.Set(SessionKey(hashed), SessionRecord(session));
    jar.Add(SessionCookie(hashed));
    r := Redirect("/loggedin");
  }

  /**
   * The state round trip of section 10.12 of RFC 6749: after the login
   * route, a callback whose `state` is the one the authorization URL
   * carries passes the state check.
   */
  lemma StateRoundTrip(cookies: map<string, Cookie>, settings: AuthSettings, percentEncode: string -> string, draw: nat -> nat)
    requires '?' !in settings.auth0Domain
    requires '&' !in settings.clientId && '&' !in percentEncode(settings.redirectUri)
    ensures var state := RandomStateString(draw);
            var echoed := QueryParam(AuthorizeEndpointUrl(settings, state, percentEncode), "state");
            && echoed == Some(state)
            && CheckState(cookies["state" := PlainCookie("state", state)], echoed.value) == StateMatches
  {
    StateInUrl(settings, draw, percentEncode);
  }

  /**
   * A successful login is immediately usable: the guard, given the cookies
   * and store the callback leaves, authenticates the token's user until
   * the token's expiry and not from then on.
   */
  lemma LoginThenResolve(code: string, state: string, cookies: map<string, Cookie>, store: Entries,
                             settings: AuthSettings, exchange: Exchange, decode: Decoder,
                             hash: string -> string, now: int, later: int)
    requires CheckState(cookies, state) == StateMatches ==> CallbackRuns(store, settings, code, exchange, decode)
    requires WellTyped(store) && UsersKeyed(store)
    requires CallbackSpec(code, state, cookies, store, settings, exchange, decode, hash, now).0.Redirect?
    ensures var out := CallbackSpec(code, state, cookies, store, settings, exchange, decode, hash, now);
            var p := Validated(store, settings, code, exchange, decode, now).value;
            && WellTyped(out.2)
            && (FromRequest(out.1, out.2, later).Success? <==> later < p.exp)
            && (FromRequest(out.1, out.2, later).Success? ==> FromRequest(out.1, out.2, later).user.userId == p.userId)
  {
    var out := CallbackSpec(code, state, cookies, store, settings, exchange, decode, hash, now);
    var p := Validated(store, settings, code, exchange, decode, now).value;
    var h := hash(IdToken(settings, code, exchange));
    GetOrCreateKeepsUsers(store, p);
    var store1 := GetOrCreate(store, p).1;
    assert out.2 == store1[SessionKey(h) := out.2[SessionKey(h)]];
    forall u | UserKey(u) in out.2 ensures out.2[UserKey(u)].UserRecord? && out.2[UserKey(u)].user.userId == u {
      KeysDistinct(u, h);
    }
    forall h' | SessionKey(h') in out.2 ensures out.2[SessionKey(h')].SessionRecord? {
      KeysInjective(h', h);
    }
  }

  /**
   * The callback keeps the store invariant: every session in the store was
   * minted from a token that verifies, under its hash, with that token's
   * user and expiry, and its user exists.
   */
  lemma CallbackKeepsValid(code: string, state: string, cookies: map<string, Cookie>, store: Entries,
                             settings: AuthSettings, exchange: Exchange, decode: Decoder,
                             hash: string -> string, now: int)
    requires CheckState(cookies, state) == StateMatches ==> CallbackRuns(store, settings, code, exchange, decode)
    requires ValidStore(store, decode, hash)
    ensures ValidStore(CallbackSpec(code, state, cookies, store, settings, exchange, decode, hash, now).2, decode, hash)
  {
    var out := CallbackSpec(code, state, cookies, store, settings, exchange, decode, hash, now);
    if out.0.Redirect? {
      var token := IdToken(settings, code, exchange);
      var p := Validated(store, settings, code, exchange, decode, now).value;
      var h := hash(token);
      GetOrCreateKeepsUsers(store, p);
      var store1 := GetOrCreate(store, p).1;
      KeysDistinct(p.userId, h);
      assert out.2 == store1[SessionKey(h) := out.2[SessionKey(h)]];
      forall u | UserKey(u) in out.2 ensures out.2[UserKey(u)].UserRecord? && out.2[UserKey(u)].user.userId == u {
        KeysDistinct(u, h);
      }
      forall h' | SessionKey(h') in out.2 ensures out.2[SessionKey(h')].SessionRecord? {
        KeysInjective(h', h);
      }
      assert HasPubKey(out.2) && out.2[PubKeyPemKey] == store[PubKeyPemKey];
      forall h' | SessionKey(h') in out.2 ensures SessionMinted(out.2, h', decode, hash) {
        if h' == h {
          assert Carried(decode, store[PubKeyPemKey].pem, token) == Some(p);
        } else {
          KeysInjective(h', h);
          KeysDistinct(p.userId, h');
          assert SessionMinted(store, h', decode, hash);
        }
      }
    }
  }

  /**
   * The two expiry rules meet at one second: a token whose `exp` is the
   * current second passes validation, yet the session minted from it is
   * already expired, so the guard rejects it at once.
   */
  lemma ExpiryBoundary(decode: Decoder, key: string, token: string, aud: string, domain: string, now: int, userId: string)
    requires TokenExtractable(decode, key, token)
    requires Carried(decode, key, token).Some?
    requires var p := Carried(decode, key, token).value;
             p.exp == now && p.aud == aud && p.iss == Issuer(domain)
    ensures DecodeAndValidate(decode, key, token, aud, domain, now).Ok?
    ensures Session(userId, Carried(decode, key, token).value.exp, token).Expired(now)
  {
  }
}
