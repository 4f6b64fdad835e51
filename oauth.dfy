/**
 * The two requests of the authorization-code grant: the browser redirect to
 * the authorization endpoint (section 4.1.1 of RFC 6749) and the token
 * request that exchanges the returned code (section 4.1.3 of RFC 6749),
 * plus the random `state` value that binds the two (section 10.12).
 */
module OAuth {
  import opened Wrappers
  import opened Query

  /** The application's registration with the identity provider. */
  datatype AuthSettings = AuthSettings(clientId: string, clientSecret: string, redirectUri: string, auth0Domain: string)

  /** The body posted to the token endpoint. */
  datatype TokenRequest = TokenRequest(grantType: string, clientId: string, clientSecret: string, code: string, redirectUri: string)

  /** The URL the browser is sent to in order to log in; `percentEncode`
      is the URI component encoder applied to the redirect URI. It is the
      authorization endpoint, `?`, and the query string of the parameters
      of section 4.1.1 of RFC 6749. */
  function AuthorizeEndpointUrl(settings: AuthSettings, state: string, percentEncode: string -> string): (url: string)
    ensures url == "https://" + settings.auth0Domain + "/authorize" + ['?']
                   + QueryString(AuthorizeParams(settings, state, percentEncode))
  {
    FormatIsQueryString(settings, state, percentEncode);
    "https://" + settings.auth0Domain + "/authorize"
      + "?" + "response_type=code"
      + "&" + "client_id=" + settings.clientId
      + "&" + "redirect_uri=" + percentEncode(settings.redirectUri)
      + "&" + "scope=openid%20profile"
      + "&" + "state=" + state
  }

  /** The token request for an authorization code: the grant of section
      4.1.3 of RFC 6749, authenticating the registered client and naming the
      registered redirect URI. */
  function TokenRequestFor(settings: AuthSettings, code: string): (tr: TokenRequest)
    ensures tr.grantType == "authorization_code" && tr.code == code
    ensures tr.clientId == settings.clientId && tr.clientSecret == settings.clientSecret
    ensures tr.redirectUri == settings.redirectUri
  {
    TokenRequest("authorization_code", settings.clientId, settings.clientSecret, code, settings.redirectUri)
  }

  /** The parameters the authorization request is meant to carry, in order. */
  function AuthorizeParams(settings: AuthSettings, state: string, percentEncode: string -> string): seq<(string, string)> {
    [ ("response_type", "code"),
      ("client_id", settings.clientId),
      ("redirect_uri", percentEncode(settings.redirectUri)),
      ("scope", "openid%20profile"),
      ("state", state) ]
  }

  /** The format string of the authorization URL is the endpoint, `?`, and
      the query string of the intended parameters. */
  lemma FormatIsQueryString(settings: AuthSettings, state: string, percentEncode: string -> string)
    ensures "https://" + settings.auth0Domain + "/authorize"
              + "?" + "response_type=code"
              + "&" + "client_id=" + settings.clientId
              + "&" + "redirect_uri=" + percentEncode(settings.redirectUri)
              + "&" + "scope=openid%20profile"
              + "&" + "state=" + state
            == "https://" + settings.auth0Domain + "/authorize" + ['?'] + QueryString(AuthorizeParams(settings, state, percentEncode))
  {
    var parts := Render(AuthorizeParams(settings, state, percentEncode));
    assert parts[0] == "response_type=code";
    assert parts[1] == "client_id=" + settings.clientId;
    assert parts[2] == "redirect_uri=" + percentEncode(settings.redirectUri);
    assert parts[3] == "scope=openid%20profile";
    assert parts[4] == "state=" + state;
    JoinFive(parts, '&');
  }

  /**
   * Read back by a server, the authorization URL carries exactly the
   * parameters of section 4.1.1 of RFC 6749 -- `response_type=code`, the
   * client id, the encoded redirect URI, the scope and the state -- as long
   * as no value contains `&` and the domain contains no `?`.
   */
  lemma AuthorizeUrlParams(settings: AuthSettings, state: string, percentEncode: string -> string)
    requires '?' !in settings.auth0Domain
    requires '&' !in settings.clientId && '&' !in percentEncode(settings.redirectUri) && '&' !in state
    ensures ParseQuery(AuthorizeEndpointUrl(settings, state, percentEncode)) == AuthorizeParams(settings, state, percentEncode)
  {
    var host := "https://" + settings.auth0Domain + "/authorize";
    var params := AuthorizeParams(settings, state, percentEncode);
    assert '?' !in host;
    assert Plain(params) by {
      forall i | 0 <= i < |params|
        ensures '=' !in params[i].0 && '&' !in params[i].0 && '&' !in params[i].1
      {
      }
    }
    ParseRendered(host, params);
  }

  /**
   * The token request and the authorization request agree: the same client
   * id, and the redirect URI whose encoding the authorization URL carries,
   * as section 4.1.3 of RFC 6749 requires; the grant type is
   * `authorization_code` and the code is the one given.
   */
  lemma TokenRequestMatchesAuthorization(settings: AuthSettings, state: string, percentEncode: string -> string, code: string)
    requires '?' !in settings.auth0Domain
    requires '&' !in settings.clientId && '&' !in percentEncode(settings.redirectUri) && '&' !in state
    ensures var tr := TokenRequestFor(settings, code);
            var url := AuthorizeEndpointUrl(settings, state, percentEncode);
            && tr.grantType == "authorization_code" && tr.code == code
            && tr.clientSecret == settings.clientSecret
            && QueryParam(url, "client_id") == Some(tr.clientId)
            && QueryParam(url, "redirect_uri") == Some(percentEncode(tr.redirectUri))
  {
    AuthorizeUrlParams(settings, state, percentEncode);
    var ps := AuthorizeParams(settings, state, percentEncode);
    assert Lookup(ps[2..], "redirect_uri") == Some(percentEncode(settings.redirectUri));
    assert Lookup(ps[1..], "redirect_uri") == Some(percentEncode(settings.redirectUri));
    assert Lookup(ps[1..], "client_id") == Some(settings.clientId);
  }

  /** The number of characters in a state value. */
  const StateLength: nat := 7

  predicate IsAlphanumeric(c: char) {
    'A' <= c <= 'Z' || 'a' <= c <= 'z' || '0' <= c <= '9'
  }

  /** One sample of the alphanumeric distribution: a random number picks one
      of the 62 characters `A`-`Z`, `a`-`z`, `0`-`9`, in that order. */
  function SampleAlphanumeric(n: nat): (c: char)
    ensures IsAlphanumeric(c)
  {
    var k := n % 62;
    if k < 26 then ('A' as int + k) as char
    else if k < 52 then ('a' as int + (k - 26)) as char
    else ('0' as int + (k - 52)) as char
  }

  /** Every alphanumeric character can be drawn. */
  lemma SampleCoversAlphanumeric(c: char)
    requires IsAlphanumeric(c)
    ensures exists n: nat :: SampleAlphanumeric(n) == c
  {
    var n: nat;
    if 'A' <= c <= 'Z' {
      n := c as int - 'A' as int;
    } else if 'a' <= c <= 'z' {
      n := c as int - 'a' as int + 26;
    } else {
      n := c as int - '0' as int + 52;
    }
    assert n < 62 && n % 62 == n;
    assert SampleAlphanumeric(n) == c;
  }


  /** The CSRF state value: the first seven samples of the random stream
      `draw`, so seven alphanumeric characters. */
  function RandomStateString(draw: nat -> nat): (s: string)
    ensures |s| == StateLength
    ensures forall i :: 0 <= i < |s| ==> IsAlphanumeric(s[i])
  {
    var s := seq(StateLength, i requires 0 <= i => SampleAlphanumeric(draw(i)));
    assert forall i :: 0 <= i < |s| ==> s[i] == SampleAlphanumeric(draw(i));
    s
  }

  /** A state value never contains the query separator, so it survives the
      round trip through the authorization URL. */
  lemma StateInUrl(settings: AuthSettings, draw: nat -> nat, percentEncode: string -> string)
    requires '?' !in settings.auth0Domain
    requires '&' !in settings.clientId && '&' !in percentEncode(settings.redirectUri)
    ensures var state := RandomStateString(draw);
            QueryParam(AuthorizeEndpointUrl(settings, state, percentEncode), "state") == Some(state)
  {
    var state := RandomStateString(draw);
    assert '&' !in state;
    AuthorizeUrlParams(settings, state, percentEncode);
    var ps := AuthorizeParams(settings, state, percentEncode);
    assert Lookup(ps[4..], "state") == Some(state);
    assert Lookup(ps[3..], "state") == Some(state);
    assert Lookup(ps[2..], "state") == Some(state);
    assert Lookup(ps[1..], "state") == Some(state);
  }
}
