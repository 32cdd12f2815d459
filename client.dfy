/**
 * The gateway to the remote Drupal API: a fixed table of options, the
 * resolution of sub-API names to handlers, the normalisation of the
 * arguments of `authenticate`, and the lazily created transport handle.
 */
module Gateway {
  import opened Php
  import opened Failures
  import opened Auth
  import opened Transport

  const CURLOPT_SSL_VERIFYPEER := 64
  const CURLOPT_SSL_VERIFYHOST := 81

  /** The names the option table is created with; no other name is ever accepted. */
  const OptionNames: set<string> :=
    {"base_url", "user_agent", "timeout", "api_limit", "curl.options", "cache_dir", "api_version"}

  const DEFAULT_BASE_URL := "https://some-url.com/"
  const DEFAULT_USER_AGENT := "drupal-behat-remote-api-driver (https://github.com/kirschbaum/drupal-behat-remote-api-driver)"

  /** The option table a new client starts with. */
  function DefaultOptions(): (m: map<string, Value>)
    ensures m.Keys == OptionNames
    ensures m["api_version"] == Str("v1") && m["cache_dir"] == Null
  {
    map[
      "base_url" := Str(DEFAULT_BASE_URL),
      "user_agent" := Str(DEFAULT_USER_AGENT),
      "timeout" := Int(10),
      "api_limit" := Int(5000),
      "curl.options" := Arr([Entry(IntKey(CURLOPT_SSL_VERIFYHOST), Bool(false)), Entry(IntKey(CURLOPT_SSL_VERIFYPEER), Bool(false))]),
      "cache_dir" := Null,
      "api_version" := Str("v1")
    ]
  }

  /** `getSupportedApiVersions()`. */
  const SupportedApiVersions: seq<string> := ["v1"]

  /** `in_array($value, getSupportedApiVersions())`, which compares loosely. */
  predicate IsSupportedVersion(value: Value)
  {
    exists i :: 0 <= i < |SupportedApiVersions| && LooselyEqualsWord(value, SupportedApiVersions[i])
  }

  /** The loose `in_array` accepts `true` beside "v1", and nothing else. */
  lemma SupportedVersions(v: Value)
    ensures IsSupportedVersion(v) <==> v == Str("v1") || v == Bool(true)
  {
    if v == Str("v1") || v == Bool(true) {
      assert LooselyEqualsWord(v, SupportedApiVersions[0]);
    }
  }

  /** The message that names the rejected version, as `setOption` evidently means to report it. */
  function VersionMessage(value: Value): string
  {
    "Invalid API version (\"" + StringOf(value) + "\"), valid are: " + Implode(", ", SupportedApiVersions)
  }

  /** The message as `setOption` formats it: with the option's name where the value belongs. */
  function VersionMessageAsWritten(name: string, value: Value): string
  {
    "Invalid API version (\"" + name + "\"), valid are: " + Implode(", ", SupportedApiVersions)
  }

  /** The supported versions as the messages list them. */
  lemma SupportedList()
    ensures Implode(", ", SupportedApiVersions) == "v1"
  {
  }

  /** As written, the message never depends on the rejected value: "v2" and "v3" read the same. */
  lemma VersionMessageAsWrittenHidesValue()
    ensures VersionMessageAsWritten("api_version", Str("v2")) == VersionMessageAsWritten("api_version", Str("v3"))
    ensures VersionMessageAsWritten("api_version", Str("v2")) == "Invalid API version (\"" + "api_version" + "\"), valid are: " + "v1"
  {
    SupportedList();
  }

  /** The text between a fixed prefix and a fixed suffix is determined by the whole. */
  lemma Infix(p: string, a: string, b: string, q: string, t: string)
    requires p + a + q + t == p + b + q + t
    ensures a == b
  {
    assert |a| == |b|;
    assert a == (p + a + q + t)[|p|..|p| + |a|];
    assert b == (p + b + q + t)[|p|..|p| + |b|];
  }

  /** The corrected message tells rejected string versions apart, and names the one given. */
  lemma VersionMessageNamesValue(a: string, b: string)
    ensures VersionMessage(Str(a)) == VersionMessage(Str(b)) ==> a == b
    ensures VersionMessage(Str("v2")) == "Invalid API version (\"" + "v2" + "\"), valid are: " + "v1"
  {
    SupportedList();
    var list := Implode(", ", SupportedApiVersions);
    if VersionMessage(Str(a)) == VersionMessage(Str(b)) {
      Infix("Invalid API version (\"", a, b, "\"), valid are: ", list);
    }
  }

  /** The tags `authenticate` accepts in the password position. */
  const PositionalMethods: seq<string> := [URL_TOKEN, URL_CLIENT_ID, HTTP_PASSWORD, HTTP_TOKEN]

  /** The password and method `authenticate` hands to the transport. */
  datatype AuthArgs = AuthArgs(password: Option<string>, authMethod: string)

  /** How `authenticate` reads its password and method arguments. */
  function NormaliseAuth(password: Option<string>, authMethod: Option<string>): (r: Result<AuthArgs, Error>)
    ensures r.Failure? <==> password.None? && authMethod.None?
    ensures r.Failure? ==> r.error == InvalidArgument("You need to specify authentication method!")
    ensures authMethod.Some? ==> r == Success(AuthArgs(password, authMethod.value))
    ensures r.Success? && r.value.password != password ==> r.value.password.None? && authMethod.None?
    ensures r.Success? && r.value.password.None? && password.Some? ==> r.value.authMethod == password.value
    ensures authMethod.None? && password.Some? && password.value in PositionalMethods ==>
      r == Success(AuthArgs(None, password.value))
    ensures authMethod.None? && password.Some? && password.value !in PositionalMethods ==>
      r == Success(AuthArgs(password, HTTP_PASSWORD))
  {
    if password.None? && authMethod.None? then Failure(InvalidArgument("You need to specify authentication method!"))
    else if authMethod.None? && password.value in PositionalMethods then Success(AuthArgs(None, password.value))
    else if authMethod.None? then Success(AuthArgs(password, HTTP_PASSWORD))
    else Success(AuthArgs(password, authMethod.value))
  }

  /** A method tag given as the password means the same as that tag given as the method with no password. */
  lemma PositionalMethodShift(m: string)
    requires m in PositionalMethods
    ensures NormaliseAuth(Some(m), None) == NormaliseAuth(None, Some(m)) == Success(AuthArgs(None, m))
  {
  }

  /** `http_drupal_login` is not read as a tag in the password position: it becomes the password of `http_password`. */
  lemma DrupalLoginIsNotPositional()
    ensures NormaliseAuth(Some(HTTP_DRUPAL), None) == Success(AuthArgs(Some(HTTP_DRUPAL), HTTP_PASSWORD))
  {
  }

  /** What `api()` resolves a name to. */
  datatype HandlerKind = NodeApi | TermApi | UserApi | CacheApi | Extension(className: string)

  /**
   * The classes `class_exists` would find, each mapped to whether it
   * implements the API interface.
   */
  type Registry = map<string, bool>

  predicate BuiltinName(name: string)
  {
    name in {"node", "nodes", "term", "terms", "user", "users", "cache"}
  }

  /** The resolution `api()` performs, before it builds the handler. */
  function Resolve(name: string, registry: Registry): (r: Result<HandlerKind, Error>)
    ensures (name == "node" || name == "nodes") ==> r == Success(NodeApi)
    ensures (name == "term" || name == "terms") ==> r == Success(TermApi)
    ensures (name == "user" || name == "users") ==> r == Success(UserApi)
    ensures name == "cache" ==> r == Success(CacheApi)
    ensures r.Failure? <==> !BuiltinName(name) && !(name in registry && registry[name])
    ensures r.Failure? ==> r.error == InvalidArgument("Undefined api instance called: \"" + name + "\"")
    ensures r.Success? && r.value.Extension? ==> r.value.className == name && !BuiltinName(name)
    ensures !BuiltinName(name) && name in registry && registry[name] ==> r == Success(Extension(name))
  {
    if name == "node" || name == "nodes" then Success(NodeApi)
    else if name == "term" || name == "terms" then Success(TermApi)
    else if name == "user" || name == "users" then Success(UserApi)
    else if name == "cache" then Success(CacheApi)
    else if name in registry && registry[name] then Success(Extension(name))
    else Failure(InvalidArgument("Undefined api instance called: \"" + name + "\""))
  }

  /** A sub-API handler bound to the client that built it. */
  class Handler {
    const kind: HandlerKind
    const client: Client

    constructor (kind: HandlerKind, client: Client)
      ensures this.kind == kind && this.client == client
    {
      this.kind := kind;
      this.client := client;
    }
  }

  class Client {
    var options: map<string, Value>
    var httpClient: HttpClient?

    /** The table keeps exactly its initial names, and the version stays a supported one. */
    ghost predicate Valid()
      reads this
    {
      options.Keys == OptionNames && IsSupportedVersion(options["api_version"])
    }

    constructor (httpClient: HttpClient?)
      ensures Valid()
      ensures options == DefaultOptions() && this.httpClient == httpClient
    {
      options := DefaultOptions();
      this.httpClient := httpClient;
      assert LooselyEqualsWord(DefaultOptions()["api_version"], SupportedApiVersions[0]);
    }

    /** `api($name)`: a fresh handler of the resolved kind, bound to this client. */
    method Api(name: string, registry: Registry) returns (r: Result<Handler, Error>)
      ensures Resolve(name, registry).Failure? ==> r == Failure(Resolve(name, registry).error)
      ensures Resolve(name, registry).Success? ==>
        r.Success? && fresh(r.value) && r.value.kind == Resolve(name, registry).value && r.value.client == this
    {
      match Resolve(name, registry)
      case Failure(e) =>
        return Failure(e);
      case Success(kind) =>
        var handler := new Handler(kind, this);
        return Success(handler);
    }

    /** `getOption($name)`: the stored value, null included, or a failure for a name the table lacks. */
    function GetOption(name: string): (r: Result<Value, Error>)
      reads this
      ensures r.Success? <==> name in options
      ensures r.Success? ==> r.value == options[name]
      ensures r.Failure? ==> r.error == InvalidArgument("Undefined option called: \"" + name + "\"")
    {
      if name in options then Success(options[name])
      else Failure(InvalidArgument("Undefined option called: \"" + name + "\""))
    }

    /**
     * `setOption($name, $value)`: rejects a name the table lacks and an
     * unsupported version, changing nothing; otherwise sets that one entry.
     */
    method SetOption(name: string, value: Value) returns (o: Outcome<Error>)
      modifies this
      ensures httpClient == old(httpClient)
      ensures name !in old(options) ==>
        o == Fail(InvalidArgument("Undefined option called: \"" + name + "\"")) && options == old(options)
      ensures name in old(options) && name == "api_version" && !IsSupportedVersion(value) ==>
        o == Fail(InvalidArgument(VersionMessage(value))) && options == old(options)
      ensures name in old(options) && (name != "api_version" || IsSupportedVersion(value)) ==>
        o == Pass && options == old(options)[name := value]
      ensures old(Valid()) ==> Valid()
    {
      if name !in options {
        return Fail(InvalidArgument("Undefined option called: \"" + name + "\""));
      }
      var supported := SupportedApiVersions;
      if name == "api_version" && !(exists i :: 0 <= i < |supported| && LooselyEqualsWord(value, supported[i])) {
        return Fail(InvalidArgument(VersionMessage(value)));
      }
      options := options[name := value];
      return Pass;
    }

    /** `getBasePath()`: the path prefix of every API call. */
    function GetBasePath(): (p: string)
      reads this
      requires Valid()
      ensures p == "/api/v1" || p == "/api/1"
      ensures options["api_version"] == Str("v1") <==> p == "/api/v1"
    {
      "/api/" + StringOf(options["api_version"])
    }

    /** `getHttpClient()`: the handle, created from the current options the first time it is asked for. */
    method GetHttpClient() returns (h: HttpClient)
      modifies this
      ensures httpClient == h && options == old(options)
      ensures old(httpClient) != null ==> h == old(httpClient)
      ensures old(httpClient) == null ==> fresh(h) && h.options == options && h.listener == null
    {
      if httpClient == null {
        httpClient := new HttpClient(options);
      }
      return httpClient;
    }

    /** `setHttpClient($h)`. */
    method SetHttpClient(h: HttpClient)
      modifies this
      ensures httpClient == h && options == old(options)
    {
      httpClient := h;
    }

    /**
     * `authenticate`: normalises the password and method, then installs
     * the credentials on the (possibly new) transport handle; on failure
     * nothing changes and no handle is created.
     */
    method Authenticate(login: Option<string>, password: Option<string>, authMethod: Option<string>, cookie: Option<string>)
      returns (o: Outcome<Error>)
      modifies this, httpClient
      ensures options == old(options)
      ensures NormaliseAuth(password, authMethod).Failure? ==>
        o == Fail(NormaliseAuth(password, authMethod).error) && httpClient == old(httpClient)
        && (old(httpClient) != null ==> httpClient.listener == old(httpClient.listener))
      ensures NormaliseAuth(password, authMethod).Success? ==>
        var args := NormaliseAuth(password, authMethod).value;
        o == Pass && httpClient != null
        && (old(httpClient) != null ==> httpClient == old(httpClient))
        && (old(httpClient) == null ==> fresh(httpClient) && httpClient.options == options)
        && httpClient.listener != null && fresh(httpClient.listener)
        && httpClient.listener.login == login && httpClient.listener.password == args.password
        && httpClient.listener.authMethod == Some(args.authMethod) && httpClient.listener.cookie == cookie
    {
      if password.None? && authMethod.None? {
        return Fail(InvalidArgument("You need to specify authentication method!"));
      }
      var tag, secret := authMethod, password;
      if tag.None? && secret.value in PositionalMethods {
        tag := secret;
        secret := None;
      }
      if tag.None? {
        tag := Some(HTTP_PASSWORD);
      }
      var http := GetHttpClient();
      http.Authenticate(login, secret, tag, cookie);
      return Pass;
    }
  }

  /** Every name outside the initial table is refused by `getOption`; the null `cache_dir` is found. */
  lemma OptionLookup(c: Client, name: string)
    requires c.Valid()
    ensures c.GetOption(name).Failure? <==> name !in OptionNames
    ensures c.options == DefaultOptions() ==> c.GetOption("cache_dir") == Success(Null)
  {
  }
}
