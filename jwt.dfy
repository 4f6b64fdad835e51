/**
 * Decoding and validation of the identity provider's ID token.
 *
 * The RS256 signature check (section 3.3 of RFC 7518) is an oracle `decode`
 * that either rejects the token or hands back its JSON claims; the claim
 * checks after it are those of sections 4.1.4 (`exp`), 4.1.3 (`aud`) and
 * 4.1.1 (`iss`) of RFC 7519, made in that order.
 */
module Jwt {
  import opened Wrappers

  /** A JSON value, as far as claim extraction looks at it: a string, an
      integer, or anything else (floats, objects, arrays, booleans, null). */
  datatype Json = JString(str: string) | JNumber(num: int) | JOther

  /** The decoded claim set of a token. */
  type ClaimMap = map<string, Json>

  /** The signature check: the claims of `token` if it verifies under the
      PEM public key, None if it is malformed or its signature is bad. */
  type Decoder = (string, string) -> Option<ClaimMap>

  const I64Min: int := -0x8000_0000_0000_0000
  const I64Max: int := 0x7FFF_FFFF_FFFF_FFFF

  /** The five claims the application reads from an ID token. */
  datatype Payload = Payload(email: string, userId: string, exp: int, iss: string, aud: string)

  /** What a malformed-token error carries: the token text when the signature
      check failed, the claim set when a claim was missing. */
  datatype Repr = TokenText(token: string) | ClaimsValue(claims: ClaimMap)

  datatype AuthError = MalformedJWT(repr: Repr) | Expired | AudienceMismatch | IssuerMismatch

  predicate HasAllClaims(c: ClaimMap) {
    "email" in c && "user_id" in c && "exp" in c && "iss" in c && "aud" in c
  }

  /** The JSON types the extraction unwraps: four strings and an integer that
      fits in 64 bits. A complete claim set of other types makes the source
      abort, so callers must exclude it. */
  predicate ClaimsTyped(c: ClaimMap)
    requires HasAllClaims(c)
  {
    && c["email"].JString? && c["user_id"].JString?
    && c["exp"].JNumber? && I64Min <= c["exp"].num <= I64Max
    && c["iss"].JString? && c["aud"].JString?
  }

  /** A claim set on which extraction does not abort. */
  predicate Extractable(c: ClaimMap) {
    HasAllClaims(c) ==> ClaimsTyped(c)
  }

  /** Builds the payload from a claim set: it succeeds exactly when all five
      claims are present, and then copies them unchanged. */
  function FromJson(c: ClaimMap): (r: Result<Payload, AuthError>)
    requires Extractable(c)
    ensures r.Ok? <==> HasAllClaims(c)
    ensures r.Err? ==> r.error == MalformedJWT(ClaimsValue(c))
    ensures r.Ok? ==> && c["email"] == JString(r.value.email)
                      && c["user_id"] == JString(r.value.userId)
                      && c["exp"] == JNumber(r.value.exp)
                      && c["iss"] == JString(r.value.iss)
                      && c["aud"] == JString(r.value.aud)
    ensures r.Ok? ==> I64Min <= r.value.exp <= I64Max
  {
    if HasAllClaims(c) then
      Ok(Payload(c["email"].str, c["user_id"].str, c["exp"].num, c["iss"].str, c["aud"].str))
    else
      Err(MalformedJWT(ClaimsValue(c)))
  }

  /** A token whose claim extraction cannot abort under `key`. */
  predicate TokenExtractable(decode: Decoder, key: string, token: string) {
    decode(token, key).Some? ==> Extractable(decode(token, key).value)
  }

  /** The payload a token carries: present when its signature verifies and
      all five claims are there. */
  function Carried(decode: Decoder, key: string, token: string): Option<Payload>
    requires TokenExtractable(decode, key, token)
  {
    match decode(token, key)
    case None => None
    case Some(c) => if HasAllClaims(c) then Some(FromJson(c).value) else None
  }

  /** The issuer the provider's tokens must name. */
  function Issuer(domain: string): string {
    "https://" + domain + "/"
  }

  /** The three claim conditions of an acceptable token. */
  predicate ClaimsAcceptable(p: Payload, aud: string, domain: string, now: int) {
    now <= p.exp && p.aud == aud && p.iss == Issuer(domain)
  }

  /**
   * Verifies the token's signature, extracts its claims and checks them:
   * expiry first, then audience, then issuer. An accepted token yields its
   * payload unchanged; the first failing check names the error.
   */
  function DecodeAndValidate(decode: Decoder, key: string, token: string, aud: string, domain: string, now: int)
    : (r: Result<Payload, AuthError>)
    requires TokenExtractable(decode, key, token)
    ensures decode(token, key).None? ==> r == Err(MalformedJWT(TokenText(token)))
    ensures decode(token, key).Some? && !HasAllClaims(decode(token, key).value) ==>
              r == Err(MalformedJWT(ClaimsValue(decode(token, key).value)))
    ensures r.Ok? ==> Carried(decode, key, token) == Some(r.value) && ClaimsAcceptable(r.value, aud, domain, now)
    ensures Carried(decode, key, token).Some? ==>
              var p := Carried(decode, key, token).value;
              && (p.exp < now ==> r == Err(Expired))
              && (now <= p.exp && p.aud != aud ==> r == Err(AudienceMismatch))
              && (now <= p.exp && p.aud == aud && p.iss != Issuer(domain) ==> r == Err(IssuerMismatch))
              && (ClaimsAcceptable(p, aud, domain, now) ==> r == Ok(p))
  {
    match decode(token, key)
    case None => Err(MalformedJWT(TokenText(token)))
    case Some(c) =>
      match FromJson(c)
      case Err(e) => Err(e)
      case Ok(p) =>
        if p.exp < now then Err(Expired)
        else if p.aud != aud then Err(AudienceMismatch)
        else if p.iss != Issuer(domain) then Err(IssuerMismatch)
        else Ok(p)
  }
}
