# Auth0 login for a Rocket web application, modelled in Dafny

The application logs users in through an OpenID Connect provider (Auth0) with
the OAuth 2.0 authorization-code grant of RFC 6749 section 4.1. It keeps
server-side sessions in a key-value store. This project models the decision
rules and store updates under the web, HTTP-client and crypto glue in
`src/main.rs`:

- **ID-token validation.** The RS256 signature check of section 3.3 of
  RFC 7518 is an oracle `decode(token, key)`. It gives the token's JSON claims,
  or nothing. The five claims are extracted. Then the `exp`, `aud` and `iss`
  checks of sections 4.1.4, 4.1.3 and 4.1.1 of RFC 7519 run, in that order.
  Module `Jwt`.
- **User directory.** Get-or-create under `users/<user id>`. The first write
  wins. Module `Users`.
- **Store and cookie jar.** Both are classes holding a map that methods
  update in place (`Store.Db`, `Cookies.CookieJar`). Records are stored as
  values.
- **Login redirect and callback.** Module `Callback`. The redirect draws a
  7-character alphanumeric `state`, sets it as a cookie and sends the browser
  to the authorization endpoint. The callback does these steps:
  1. checks the echoed `state` (section 10.12 of RFC 6749);
  2. sends the token request;
  3. validates the ID token;
  4. gets or creates the user;
  5. stores a `Session` under `sessions/<hash of the token>`;
  6. sets the `session` cookie to that hash.

  `CallbackSpec` states the whole outcome as a function. The method
  `Auth0Callback` performs the same steps on the jar and the store, and its
  postcondition equates the two.
- **Request guard.** `Guard.FromRequest` turns the `session` cookie into the
  logged-in user, or into `Forward`.
- **Request builders.** Module `OAuth` holds the authorization URL
  (RFC 6749 section 4.1.1) and the token request (section 4.1.3). They are
  checked against a query-string reader in module `Query`: parsing a rendered
  query gives back its parameters.

Foreign pieces are parameters of the operations that use them:
- `decode`: RS256 verification plus JSON parsing of the claims.
- `hash`: SHA-256 hex digest.
- `percentEncode`: the URI component encoder.
- `exchange`: the POST to `/oauth/token`, reduced to the `id_token` of its
  answer.
- `draw`: the random number stream.
- `now`: the clock.

Where the code aborts with `unwrap`/`expect`, the model makes the needed
condition a precondition instead:
- `Jwt.Extractable`: a complete claim set whose claims have the JSON types the
  code unwraps.
- `Store.HasPubKey`: the provider's key is in the store.
- `Store.WellTyped`: the records under `users/` and `sessions/` decode as
  users and sessions.

In these places the code departs from what its comments or the OAuth flow
suggest; the model follows the code:
- **State length.** The state value has 7 characters, not the 30 that the
  doc comment at src/main.rs:307 claims.
- **State cookie.** It is consumed only when the check passes. A missing or
  differing cookie leaves the jar untouched.
- **Error statuses.** Every validation failure, a malformed token included,
  is answered `Unauthorized`. The `BadRequest` branch of the user-error
  mapping (src/main.rs:283) is unreachable. Get-or-create can fail with a
  store I/O error (src/main.rs:125), a serialization error
  (src/main.rs:132-134) or a deserialization error (src/main.rs:143-145),
  and none of these is an `AuthError`, so the downcast at src/main.rs:282
  never matches. The model keeps only the deserialization error; the other
  two cannot occur on a map of values.
- **Expiry boundary.** A token whose `exp` equals the current second is
  accepted (`exp < now` rejects), while `Session::expired` holds from
  `expires <= now` on. A session minted from such a token is already expired
  (`Callback.ExpiryBoundary`).

## Model

| member | source | states |
|---|---|---|
| `Jwt.FromJson` | src/main.rs:361-381 | Succeeds exactly when `email`, `user_id`, `exp`, `iss` and `aud` are all present, and then copies each claim unchanged (`exp` a 64-bit integer). Otherwise `MalformedJWT` carrying the claim set. |
| `Jwt.DecodeAndValidate` | src/main.rs:93-120 | A token the signature check rejects gives `MalformedJWT` with the token text. A missing claim gives `MalformedJWT`. An accepted token yields the payload it carries, with `now <= exp`, `aud` the client id and `iss` `https://<domain>/`. Fixed order: `exp < now` gives `Expired` whatever `aud`/`iss` say; then an audience mismatch; then an issuer mismatch. A token passing all three is accepted. |
| `Users.GetOrCreate` | src/main.rs:122-150 | Afterwards `users/<id>` is present and no other key changes. If the key was absent, the new `User{id, email}` from the token is stored and returned. If it was present, the store is unchanged and the stored user is returned. A record of another kind gives a deserialization error. |
| `Users.GetOrCreateUser` | src/main.rs:122-150 | The in-place get-or-create on `Db`: its result and new store are those of `GetOrCreate` on the old store. |
| `Users.FirstWriteWins` | src/main.rs:125-147 | A second get-or-create for the same user id, with any email, returns the first result and leaves the store as the first left it (idempotent, first write wins). |
| `Users.GetOrCreateKeepsUsers` | src/main.rs:123-136 | On a store whose users sit under their own ids, the result is the user the token names, and that invariant is kept. |
| `Store.KeysDistinct` | src/main.rs:467-475 | `users/…`, `sessions/…` and `jwt_pub_key_pem` keys never collide. |
| `Store.KeysInjective` | src/main.rs:467-475 | A namespaced key determines the id or hash behind it. |
| `Store.Db.Set` | src/main.rs:135 | A store write replaces exactly one key. |
| `Cookies.CookieJar.Add` | src/main.rs:302 | Adding a cookie sets exactly that name. |
| `Cookies.CookieJar.Remove` | src/main.rs:252 | Removing a cookie drops exactly that name. |
| `Store.Session.Expired` | src/main.rs:437-440 | A session is live strictly before its expiry second and expired from that second on. How this meets the token's `exp` check is stated by `Callback.ExpiryBoundary` (a token valid at `now` can mint a session already expired) and `Callback.LoginThenResolve` (a fresh login authenticates exactly before `exp`). |
| `Guard.FromRequest` | src/main.rs:452-490 | `Success(u)` exactly when all of these hold: a `session` cookie exists; `sessions/<cookie>` is present; that session is not expired; `users/<session user id>` is present. `u` is that stored user. Every other case is `Forward`. |
| `Guard.ResolvesOnValidStore` | src/main.rs:467-486 | On a valid store the user lookup never misses. A request is authenticated exactly when it carries the key of an unexpired session, and then as that session's user. |
| `OAuth.AuthorizeEndpointUrl` | src/main.rs:403-411 | The URL is `https://<domain>/authorize`, `?`, and the `&`-joined `name=value` rendering of the five parameters of section 4.1.1 of RFC 6749 in order: `response_type=code`, the client id, the encoded redirect URI, scope `openid%20profile`, the state. |
| `OAuth.TokenRequestFor` | src/main.rs:415-423 | The token request is an `authorization_code` grant for the given code, authenticated with the registered client id and secret, naming the registered redirect URI. |
| `OAuth.AuthorizeUrlParams` | src/main.rs:402-411 | Read back, the authorization URL carries exactly `response_type=code`, the client id, the percent-encoded redirect URI, the scope and the state, in that order. Holds when no value contains `&` and the domain has no `?`. |
| `OAuth.TokenRequestMatchesAuthorization` | src/main.rs:413-423 | The token request has grant type `authorization_code`, the given code and the configured secret. Its client id and redirect URI are the ones the authorization URL carries, as section 4.1.3 of RFC 6749 requires. |
| `OAuth.SampleCoversAlphanumeric` | src/main.rs:309-314 | Every character of `A`-`Z`, `a`-`z`, `0`-`9` can be sampled. |
| `OAuth.RandomStateString` | src/main.rs:307-318 | The state value is exactly 7 characters, each alphanumeric. |
| `OAuth.StateInUrl` | src/main.rs:223-225 | A drawn state value survives the round trip through the authorization URL: the URL's `state` parameter reads back as that value. |
| `Callback.CheckState` | src/main.rs:244-251 | The state check passes exactly when the `state` cookie is present and its value equals the echoed `state`; it reports a missing cookie exactly when there is none. |
| `Callback.UserErrorStatus` | src/main.rs:282-285 | A get-or-create error maps to `BadRequest` exactly when it is a malformed-token error, and to `InternalServerError` otherwise. |
| `Callback.Auth0Redirect` | src/main.rs:221-230 | Sets the `state` cookie to a freshly drawn state value and redirects to the authorization URL carrying it. |
| `Callback.CallbackSpec` | src/main.rs:236-305 | Missing `state` cookie: `BadRequest`, nothing changed. Differing value: `Forbidden`, nothing changed. Neither needs the stored key or a decodable token. On a match the `state` cookie is removed and the outcome is never `BadRequest` or `Forbidden`. A failed validation is `Unauthorized` and leaves the store unchanged. A matching state with a validating token on a well-typed store always logs in. After validation the store is exactly that of `Users.GetOrCreate` (so an existing user is never overwritten) plus the new session. A failed get-or-create is answered with `UserErrorStatus` of its error, with the `state` cookie removed, no `session` cookie, and the store unchanged. Every failure leaves the store unchanged. A success redirects to `/loggedin` and does four things: stores under `sessions/<hash(token)>` a session with the user's id, the token's `exp` and the raw token; keeps a user with that id under `users/<id>`; sets `session` to the hash (secure, HTTP-only, path `/`); adds no other store key. |
| `Callback.Auth0Callback` | src/main.rs:236-305 | The callback on the cookie jar and the store in place: its response and new state are those of `CallbackSpec` on the old state. |
| `Callback.StateRoundTrip` | src/main.rs:244-252 | After the login redirect, a callback echoing the URL's `state` passes the state check (section 10.12 of RFC 6749). |
| `Callback.LoginThenResolve` | src/main.rs:287-302 | After a successful callback, the guard authenticates the token's user at every instant before the token's `exp` and at none from it on. |
| `Callback.CallbackKeepsValid` | src/main.rs:287-296 | The callback keeps the store invariant: each session sits under the hash of its token, that token verifies under the stored key and carries the session's user id and expiry, and the session's user exists. |
| `Callback.ExpiryBoundary` | src/main.rs:437-440 | A token with `exp == now` passes validation, but a session with that expiry is already expired at `now`. |

## Left out

- `main` and the boot sequence (src/main.rs:41-65): framework wiring and fatal panics at start-up.
- `populate_certs` (src/main.rs:67-91): an HTTPS fetch and X.509 parsing. The model instead assumes the PEM key is present in the store (`Store.HasPubKey`).
- `AuthSettings::from_env` (src/main.rs:388-400): it reads the environment and the configuration file. `AuthSettings` is a plain value here.
- The routes `login`, `home`, `home_redirect`, `logged_in` and `static_files` (src/main.rs:164-216): HTML and file serving.
- The token exchange (src/main.rs:261-271): network I/O. It is the parameter `exchange`, which always answers. Its panics on a transport failure or an undecodable answer are not modelled.
- RS256 verification, SHA-256 hex digests, `Uri::percent_encode` and `Utc::now`: oracles and parameters, not implementations. The UTF-8 check on the stored key (src/main.rs:101) is not modelled; keys are strings.
- Binary encoding with `serialize`/`deserialize`: records are stored as values. The serialization failure paths (src/main.rs:132-134, 294) cannot occur on values. A failed user decode is modelled as a record of the wrong kind.
- Panics become preconditions. These are the claim unwraps (src/main.rs:371-375), the key lookup (src/main.rs:274) and the record decodes in the guard (src/main.rs:471, 479). The callback demands the key and a decodable token only when the state check passes, since it reaches them only then. `Uri::try_from(..).expect` on the redirect URL (src/main.rs:228) is not modelled.
- Store I/O errors (the `?` at src/main.rs:125 and the `Err` arms at src/main.rs:468 and 476): the map never fails.
- Logging with `println!`.
- `OAuth.RandomStateString`: the sampler's rejection loop over 32-bit words is collapsed into `draw(i) % 62`. Only the length and the alphabet are modelled, not the distribution.
- `Query.ParseQuery`: values are not percent-decoded. The state value, the only parameter read back through the callback, is alphanumeric, so decoding leaves it unchanged.
- Rocket's cookie jar keeps the request's cookies and a delta of changes. Here it is one map. The attributes of the `state` cookie are none, as `Cookie::new` sets them.
- Concurrent requests sharing the store: the model is sequential.
