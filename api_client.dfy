/**
 * The request side of the API module: the request configuration object that both
 * clients pass along, and the authenticated client's interceptor, which attaches the
 * stored access token behind the `Bearer ` scheme prefix. `BearerCredential` is the
 * reading of such a header under section 2.1 of RFC 6750, against which the
 * interceptor's output is checked.
 */
module Api {
  import opened JsText

  const AuthorizationHeader: string := "Authorization"
  const BearerPrefix: string := "Bearer "

  /**
   * The per-request configuration object. The interceptor writes into its header
   * map in place and the demo responder echoes the very same object back.
   */
  class RequestConfig {
    var url: Option<string>
    var httpMethod: Option<string>
    var headers: map<string, string>

    constructor (url: Option<string>, httpMethod: Option<string>, headers: map<string, string>)
      ensures this.url == url && this.httpMethod == httpMethod && this.headers == headers
    {
      this.url := url;
      this.httpMethod := httpMethod;
      this.headers := headers;
    }
  }

  /** The header map after the interceptor has run with the token read from storage. */
  function WithBearer(headers: map<string, string>, token: Option<string>): (r: map<string, string>)
    ensures Truthy(token) ==> AuthorizationHeader in r && r[AuthorizationHeader] == BearerPrefix + token.value
    ensures !Truthy(token) ==> r == headers
    ensures forall k :: k != AuthorizationHeader ==> (k in r <==> k in headers)
    ensures forall k :: k != AuthorizationHeader && k in headers ==> r[k] == headers[k]
    ensures AuthorizationHeader in r <==> Truthy(token) || AuthorizationHeader in headers
  {
    if Truthy(token) then headers[AuthorizationHeader := BearerPrefix + token.value] else headers
  }

  /** A character of RFC 6750's `b64token` other than its trailing `=` padding. */
  predicate IsTokenChar(c: char)
  {
    'A' <= c <= 'Z' || 'a' <= c <= 'z' || '0' <= c <= '9' || c in "-._~+/"
  }

  /** `b64token = 1*( ALPHA / DIGIT / "-" / "." / "_" / "~" / "+" / "/" ) *"="` */
  predicate IsB64Token(s: string)
  {
    && |s| > 0 && IsTokenChar(s[0])
    && (forall i :: 0 <= i < |s| ==> IsTokenChar(s[i]) || s[i] == '=')
    && (forall i, j :: 0 <= i < j < |s| && s[i] == '=' ==> s[j] == '=')
  }

  /** What is left of `s` after its leading spaces. */
  function TrimLeadingSpaces(s: string): (r: string)
    ensures |r| <= |s| && r == s[|s| - |r|..]
    ensures r == [] || r[0] != ' '
    ensures forall i :: 0 <= i < |s| - |r| ==> s[i] == ' '
  {
    if s != [] && s[0] == ' ' then TrimLeadingSpaces(s[1..]) else s
  }

  /**
   * The credential a server reads from an `Authorization` value under section 2.1 of
   * RFC 6750, `credentials = "Bearer" 1*SP b64token`, with the scheme name compared
   * ignoring case.
   */
  function BearerCredential(value: string): (r: Option<string>)
    ensures r.Some? ==> IsB64Token(r.value) && |r.value| < |value| - 6
    ensures r.Some? ==> EqualsIgnoringCase(value[..6], "Bearer") && value[6] == ' '
    ensures r.Some? ==> r.value == value[|value| - |r.value|..]
    ensures r.Some? ==> forall i :: 6 <= i < |value| - |r.value| ==> value[i] == ' '
  {
    if |value| > 6 && EqualsIgnoringCase(value[..6], "Bearer") && value[6] == ' ' then
      var token := TrimLeadingSpaces(value[6..]);
      if IsB64Token(token) then Some(token) else None
    else None
  }

  /** After a single space, the leading-space trim of a token's first character stops. */
  lemma TrimAfterOneSpace(t: string)
    requires t != [] && t[0] != ' '
    ensures TrimLeadingSpaces([' '] + t) == t
  {
    assert ([' '] + t)[1..] == t;
  }

  /** `Bearer <t>` reads back as `t` exactly when `t` has the `b64token` syntax. */
  lemma BearerValueRoundTrip(t: string)
    requires t != ""
    ensures BearerCredential(BearerPrefix + t) == Some(t) <==> IsB64Token(t)
  {
    var v := BearerPrefix + t;
    assert v[..6] == "Bearer" && v[6] == ' ';
    assert EqualsIgnoringCase("Bearer", "Bearer");
    assert v[6..] == [' '] + t;
    if IsB64Token(t) {
      TrimAfterOneSpace(t);
    }
  }

  /**
   * The header the interceptor writes carries the stored token as a Bearer
   * credential exactly when the token has the `b64token` syntax; the interceptor
   * itself sends any truthy token as it is.
   */
  lemma BearerRoundTrip(headers: map<string, string>, token: Option<string>)
    requires Truthy(token)
    ensures BearerCredential(WithBearer(headers, token)[AuthorizationHeader]) == token <==> IsB64Token(token.value)
  {
    BearerValueRoundTrip(token.value);
  }

  /** The scheme name is matched ignoring case. */
  lemma BearerSchemeIgnoresCase()
    ensures BearerCredential("bearer ab") == Some("ab")
  {
    var v := "bearer ab";
    assert v[..6] == "bearer" && v[6..] == [' '] + "ab";
    assert EqualsIgnoringCase("bearer", "Bearer");
    TrimAfterOneSpace("ab");
    assert IsB64Token("ab");
  }

  /** A space inside the token is not part of the `b64token` syntax. */
  lemma BearerRejectsInnerSpace()
    ensures BearerCredential("Bearer a b") == None
  {
    var v := "Bearer a b";
    assert v[6..] == [' '] + "a b";
    TrimAfterOneSpace("a b");
    assert !IsTokenChar("a b"[1]);
  }

  /** Running the interceptor again with the same token changes nothing more. */
  lemma WithBearerIdempotent(headers: map<string, string>, token: Option<string>)
    ensures WithBearer(WithBearer(headers, token), token) == WithBearer(headers, token)
  {
  }

  /**
   * The authenticated client's request interceptor, with the token that
   * `AsyncStorage.getItem('access_token')` resolved to passed in. A truthy token
   * sets the `Authorization` header on the config in place; the same config object
   * is returned in every case.
   */
  method InjectToken(config: RequestConfig, token: Option<string>) returns (r: RequestConfig)
    modifies config
    ensures r == config
    ensures config.headers == WithBearer(old(config.headers), token)
    ensures config.url == old(config.url) && config.httpMethod == old(config.httpMethod)
    ensures !Truthy(token) ==> unchanged(config)
  {
    if Truthy(token) {
      config.headers := config.headers[AuthorizationHeader := BearerPrefix + token.value];
    }
    r := config;
  }
}
