/**
 * The authentication listener: before a request is sent it writes the
 * credentials into it, in the way the configured method tag names. The
 * `Basic` scheme is that of RFC 7617, section 2; base64 is that of
 * RFC 4648, section 4; query parameters are appended as
 * `http_build_query` renders them.
 */
module Auth {
  import opened Php
  import opened Failures
  import opened HttpMessage
  import opened Encoding

  // The method tags, the AUTH_* constants of the client.
  const URL_TOKEN := "url_token"
  const URL_CLIENT_ID := "url_client_id"
  const HTTP_PASSWORD := "http_password"
  const HTTP_TOKEN := "http_token"
  const HTTP_DRUPAL := "http_drupal_login"

  /** The tags the listener knows how to apply. */
  predicate KnownMethod(m: string)
  {
    m == HTTP_PASSWORD || m == HTTP_TOKEN || m == URL_CLIENT_ID || m == URL_TOKEN || m == HTTP_DRUPAL
  }

  /** `$tokenOrLogin . ':' . $password`; a null part reads as "". */
  function Credentials(login: Option<string>, password: Option<string>): string
  {
    OrEmpty(login) + ":" + OrEmpty(password)
  }

  /** The `Authorization` value for `http_password`. */
  function BasicAuthorization(login: Option<string>, password: Option<string>): string
  {
    "Basic " + Base64Encode(Bytes(Credentials(login, password)))
  }

  /** The `Authorization` value for `http_token`. */
  function TokenAuthorization(login: Option<string>): string
  {
    "token " + OrEmpty(login)
  }

  /** The `Drupal-Auth` value for `http_drupal_login`: base64 of the credentials, with no scheme. */
  function DrupalAuth(login: Option<string>, password: Option<string>): string
  {
    Base64Encode(Bytes(Credentials(login, password)))
  }

  /** The query `url_client_id` appends; a null credential is left out, as `http_build_query` skips nulls. */
  function ClientIdQuery(login: Option<string>, password: Option<string>): string
  {
    BuildQuery([("client_id", login), ("client_secret", password)])
  }

  /** The query `url_token` appends. */
  function TokenQuery(login: Option<string>): string
  {
    BuildQuery([("access_token", login)])
  }

  /** `?` before the first query of a url, `&` when the url already holds a `?`. */
  function QuerySeparator(url: string): string
  {
    if '?' in url then "&" else "?"
  }

  function WithQuery(url: string, query: string): string
  {
    url + QuerySeparator(url) + query
  }

  /** `addOptionalRequestCookie`: the literal cookie, when there is one. */
  function WithCookie(headers: Headers, cookie: Option<string>): Headers
  {
    match cookie
    case Some(c) => headers["Cookie" := c]
    case None => headers
  }

  /** The headers a method may write. */
  predicate AuthHeader(name: string)
  {
    name == "Authorization" || name == "Drupal-Auth" || name == "Cookie"
  }

  class AuthListener {
    const login: Option<string>
    const password: Option<string>
    const authMethod: Option<string>
    const cookie: Option<string>

    constructor (login: Option<string>, password: Option<string>, authMethod: Option<string>, cookie: Option<string>)
      ensures this.login == login && this.password == password
      ensures this.authMethod == authMethod && this.cookie == cookie
    {
      this.login := login;
      this.password := password;
      this.authMethod := authMethod;
      this.cookie := cookie;
    }

    /**
     * The url and headers the request has after `onRequestBeforeSend`, or
     * the failure it raises for a tag it does not know.
     */
    function Rewrite(url: string, headers: Headers): (r: Result<(string, Headers), Error>)
      ensures authMethod.None? ==> r == Success((url, headers))
      ensures r.Failure? <==> authMethod.Some? && !KnownMethod(authMethod.value)
      ensures r.Failure? ==> r.error == Runtime(authMethod.value + " not yet implemented", 0)
      ensures r.Success? ==> StartsWith(r.value.0, url)
      ensures r.Success? && r.value.0 != url ==> authMethod == Some(URL_CLIENT_ID) || authMethod == Some(URL_TOKEN)
      ensures r.Success? ==> r.value.1.Keys <= headers.Keys + {"Authorization", "Drupal-Auth", "Cookie"}
      ensures r.Success? ==> forall n :: n in headers && !AuthHeader(n) ==> n in r.value.1 && r.value.1[n] == headers[n]
      ensures r.Success? && "Cookie" in r.value.1 && ("Cookie" !in headers || headers["Cookie"] != r.value.1["Cookie"])
        ==> authMethod == Some(HTTP_DRUPAL) && cookie == Some(r.value.1["Cookie"])
    {
      match authMethod
      case None => Success((url, headers))
      case Some(m) =>
        if m == HTTP_PASSWORD then Success((url, headers["Authorization" := BasicAuthorization(login, password)]))
        else if m == HTTP_TOKEN then Success((url, headers["Authorization" := TokenAuthorization(login)]))
        else if m == URL_CLIENT_ID then Success((WithQuery(url, ClientIdQuery(login, password)), headers))
        else if m == URL_TOKEN then Success((WithQuery(url, TokenQuery(login)), headers))
        else if m == HTTP_DRUPAL then
          Success((url, WithCookie(headers["Drupal-Auth" := DrupalAuth(login, password)], cookie)))
        else Failure(Runtime(m + " not yet implemented", 0))
    }

    /** `onRequestBeforeSend`: rewrites the request in place, or fails and leaves it as it was. */
    method OnRequestBeforeSend(req: Request) returns (o: Outcome<Error>)
      modifies req
      ensures var r := Rewrite(old(req.url), old(req.headers));
        (r.Success? ==> o == Pass && req.url == r.value.0 && req.headers == r.value.1)
        && (r.Failure? ==> o == Fail(r.error) && req.url == old(req.url) && req.headers == old(req.headers))
    {
      if authMethod.None? {
        return Pass;
      }
      var m := authMethod.value;
      if m == HTTP_PASSWORD {
        req.SetHeader("Authorization", BasicAuthorization(login, password));
      } else if m == HTTP_TOKEN {
        req.SetHeader("Authorization", TokenAuthorization(login));
      } else if m == URL_CLIENT_ID {
        var url := req.url;
        url := url + QuerySeparator(url);
        url := url + ClientIdQuery(login, password);
        req.SetUrl(url);
      } else if m == URL_TOKEN {
        var url := req.url;
        url := url + QuerySeparator(url);
        url := url + TokenQuery(login);
        req.SetUrl(url);
      } else if m == HTTP_DRUPAL {
        req.SetHeader("Drupal-Auth", DrupalAuth(login, password));
        AddOptionalRequestCookie(req);
      } else {
        return Fail(Runtime(m + " not yet implemented", 0));
      }
      return Pass;
    }

    /** `addOptionalRequestCookie`: sets `Cookie` to the literal cookie when one is set. */
    method AddOptionalRequestCookie(req: Request)
      modifies req
      ensures req.headers == WithCookie(old(req.headers), cookie)
      ensures req.url == old(req.url)
    {
      if cookie.Some? {
        req.SetHeader("Cookie", cookie.value);
      }
    }
  }

  // ---------------------------------------------------------------------
  // What a server reads back from the rewritten request

  /** The `Basic` value decodes back to the credential bytes. */
  lemma BasicAuthorizationDecodes(login: Option<string>, password: Option<string>)
    ensures StartsWith(BasicAuthorization(login, password), "Basic ")
    ensures Base64Decode(BasicAuthorization(login, password)[6..]) == Some(Bytes(Credentials(login, password)))
  {
    var b := Bytes(Credentials(login, password));
    Base64RoundTrip(b);
    assert BasicAuthorization(login, password)[6..] == Base64Encode(b);
  }

  /** The `Drupal-Auth` value decodes back to the credential bytes. */
  lemma DrupalAuthDecodes(login: Option<string>, password: Option<string>)
    ensures Base64Decode(DrupalAuth(login, password)) == Some(Bytes(Credentials(login, password)))
  {
    Base64RoundTrip(Bytes(Credentials(login, password)));
  }

  /**
   * The user-id ends at the first colon of the credentials, so a login
   * without a colon and any password are recovered (RFC 7617, section 2).
   */
  lemma CredentialsSplit(login: Option<string>, password: Option<string>)
    requires ':' !in OrEmpty(login)
    ensures FirstIndex(Credentials(login, password), ':') == Some(|OrEmpty(login)|)
    ensures Credentials(login, password)[..|OrEmpty(login)|] == OrEmpty(login)
    ensures Credentials(login, password)[|OrEmpty(login)| + 1..] == OrEmpty(password)
  {
    FirstIndexAfter(OrEmpty(login), ':', OrEmpty(password));
  }

  /** The original url is kept, then the separator, then the query. */
  lemma WithQueryShape(url: string, query: string)
    ensures StartsWith(WithQuery(url, query), url)
    ensures WithQuery(url, query)[|url|] == (if '?' in url then '&' else '?')
    ensures WithQuery(url, query)[|url| + 1..] == query
  {
    assert WithQuery(url, query)[..|url|] == url;
  }

  /** A form decoder reads `client_id` and `client_secret` back from the appended query, skipping a null one. */
  lemma ClientIdQueryDecodes(login: Option<string>, password: Option<string>)
    ensures ParseQuery(ClientIdQuery(login, password))
      == (if login.Some? then [(Bytes("client_id"), Bytes(login.value))] else [])
       + (if password.Some? then [(Bytes("client_secret"), Bytes(password.value))] else [])
  {
    var pairs := [("client_id", login), ("client_secret", password)];
    QueryRoundTrip(pairs);
    var first := if login.Some? then [(Bytes("client_id"), Bytes(login.value))] else [];
    var second := if password.Some? then [(Bytes("client_secret"), Bytes(password.value))] else [];
    assert pairs[1..] == [("client_secret", password)];
    assert pairs[1..][1..] == [];
    assert PresentPairs(pairs[1..]) == second + [];
    assert PresentPairs(pairs) == first + PresentPairs(pairs[1..]);
  }

  /** A form decoder reads `access_token` back from the appended query. */
  lemma TokenQueryDecodes(login: Option<string>)
    ensures ParseQuery(TokenQuery(login)) == if login.Some? then [(Bytes("access_token"), Bytes(login.value))] else []
  {
    var pairs := [("access_token", login)];
    QueryRoundTrip(pairs);
    assert pairs[1..] == [];
  }

  lemma BytesOfBob()
    ensures Bytes("bob:pw") == [98, 111, 98, 58, 112, 119]
  {
    var b := Bytes("bob:pw");
    assert b[0] == 98 && b[1] == 111 && b[2] == 98 && b[3] == 58 && b[4] == 112 && b[5] == 119;
  }

  lemma GroupOfBob()
    ensures EncodeGroup(98, 111, 98) == "Ym9i"
  {
  }

  lemma GroupOfColonPw()
    ensures EncodeGroup(58, 112, 119) == "OnB3"
  {
  }

  /** base64 of "bob:pw" is "Ym9iOnB3". */
  lemma DrupalAuthOfBob()
    ensures DrupalAuth(Some("bob"), Some("pw")) == "Ym9iOnB3"
  {
    assert Credentials(Some("bob"), Some("pw")) == "bob:pw";
    BytesOfBob();
    var b: seq<Byte> := [98, 111, 98, 58, 112, 119];
    assert b[3..] == [58, 112, 119];
    assert b[3..][3..] == [];
    GroupOfBob();
    GroupOfColonPw();
    assert Base64Encode(b[3..]) == "OnB3" + "";
    assert Base64Encode(b) == "Ym9i" + "OnB3";
  }

  /**
   * The `http_drupal_login` listener for "bob"/"pw" sets `Drupal-Auth` to
   * "Ym9iOnB3" and sets no cookie without one, and `Cookie: sid=1` with it.
   */
  lemma DrupalLoginOfBob(a: AuthListener, url: string, headers: Headers)
    requires a.login == Some("bob") && a.password == Some("pw") && a.authMethod == Some(HTTP_DRUPAL)
    ensures a.cookie.None? && "Cookie" !in headers ==>
      a.Rewrite(url, headers) == Success((url, headers["Drupal-Auth" := "Ym9iOnB3"]))
    ensures a.cookie == Some("sid=1") ==>
      a.Rewrite(url, headers) == Success((url, headers["Drupal-Auth" := "Ym9iOnB3"]["Cookie" := "sid=1"]))
  {
    DrupalAuthOfBob();
  }

  // ---------------------------------------------------------------------
  // Each method tag, read back from the rewritten request

  /** `http_password`: the url is kept and `Authorization` is a `Basic` value holding the credentials. */
  lemma HttpPasswordRewrite(a: AuthListener, url: string, headers: Headers)
    requires a.authMethod == Some(HTTP_PASSWORD)
    ensures a.Rewrite(url, headers).Success?
    ensures var h := a.Rewrite(url, headers).value.1;
      a.Rewrite(url, headers).value.0 == url && h.Keys == headers.Keys + {"Authorization"}
      && StartsWith(h["Authorization"], "Basic ")
      && Base64Decode(h["Authorization"][6..]) == Some(Bytes(Credentials(a.login, a.password)))
    ensures var h := a.Rewrite(url, headers).value.1;
      forall n :: n in headers && n != "Authorization" ==> n in h && h[n] == headers[n]
  {
    BasicAuthorizationDecodes(a.login, a.password);
  }

  /** `http_token`: the url is kept and `Authorization` is the token scheme with the login. */
  lemma HttpTokenRewrite(a: AuthListener, url: string, headers: Headers)
    requires a.authMethod == Some(HTTP_TOKEN)
    ensures a.Rewrite(url, headers).Success?
    ensures var h := a.Rewrite(url, headers).value.1;
      a.Rewrite(url, headers).value.0 == url && h.Keys == headers.Keys + {"Authorization"}
      && h["Authorization"] == "token " + OrEmpty(a.login)
    ensures var h := a.Rewrite(url, headers).value.1;
      forall n :: n in headers && n != "Authorization" ==> n in h && h[n] == headers[n]
  {
  }

  /** `url_client_id`: the headers are kept and the url gains a query that reads back as the credentials. */
  lemma UrlClientIdRewrite(a: AuthListener, url: string, headers: Headers)
    requires a.authMethod == Some(URL_CLIENT_ID)
    ensures a.Rewrite(url, headers).Success?
    ensures var u := a.Rewrite(url, headers).value.0;
      a.Rewrite(url, headers).value.1 == headers && StartsWith(u, url)
      && u[|url|] == (if '?' in url then '&' else '?')
      && ParseQuery(u[|url| + 1..])
         == (if a.login.Some? then [(Bytes("client_id"), Bytes(a.login.value))] else [])
          + (if a.password.Some? then [(Bytes("client_secret"), Bytes(a.password.value))] else [])
  {
    WithQueryShape(url, ClientIdQuery(a.login, a.password));
    ClientIdQueryDecodes(a.login, a.password);
  }

  /** `url_token`: the headers are kept and the url gains a query that reads back as the token. */
  lemma UrlTokenRewrite(a: AuthListener, url: string, headers: Headers)
    requires a.authMethod == Some(URL_TOKEN)
    ensures a.Rewrite(url, headers).Success?
    ensures var u := a.Rewrite(url, headers).value.0;
      a.Rewrite(url, headers).value.1 == headers && StartsWith(u, url)
      && u[|url|] == (if '?' in url then '&' else '?')
      && ParseQuery(u[|url| + 1..]) == if a.login.Some? then [(Bytes("access_token"), Bytes(a.login.value))] else []
  {
    WithQueryShape(url, TokenQuery(a.login));
    TokenQueryDecodes(a.login);
  }

  /**
   * `http_drupal_login`: the url is kept, `Drupal-Auth` holds the bare
   * base64 of the credentials, and `Cookie` is the literal cookie when
   * there is one and is left alone otherwise.
   */
  lemma DrupalLoginRewrite(a: AuthListener, url: string, headers: Headers)
    requires a.authMethod == Some(HTTP_DRUPAL)
    ensures a.Rewrite(url, headers).Success?
    ensures var h := a.Rewrite(url, headers).value.1;
      a.Rewrite(url, headers).value.0 == url && "Drupal-Auth" in h
      && Base64Decode(h["Drupal-Auth"]) == Some(Bytes(Credentials(a.login, a.password)))
      && (a.cookie.Some? ==> "Cookie" in h && h["Cookie"] == a.cookie.value)
      && (a.cookie.None? ==> h.Keys == headers.Keys + {"Drupal-Auth"})
      && (a.cookie.Some? ==> h.Keys == headers.Keys + {"Drupal-Auth", "Cookie"})
    ensures var h := a.Rewrite(url, headers).value.1;
      forall n :: n in headers && n != "Drupal-Auth" && (n != "Cookie" || a.cookie.None?) ==> n in h && h[n] == headers[n]
  {
    DrupalAuthDecodes(a.login, a.password);
  }
}
