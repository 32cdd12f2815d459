/**
 * The remote driver: the Behat-facing object that holds the connection
 * settings, builds and authenticates a client on bootstrap, and routes
 * each driver operation to a sub-API of that client. Every ordinary
 * exception a delegated call raises is re-raised as a plain runtime
 * failure carrying the same message; PHP errors pass through.
 */
module Driver {
  import opened Php
  import opened Failures
  import opened Auth
  import opened Gateway

  const DEFAULT_CLIENT_CLASS := "\\Drupal\\Driver\\Remote\\Client"

  /** What the driver's client property holds: null, a class name still to instantiate, or a client. */
  datatype ClientSlot = Unset | Named(name: string) | Bound(client: Client)

  /** The driver operations that delegate to the remote site. */
  datatype Operation =
    | UserCreate(user: Value, config: Value)
    | UserDelete(user: Value, config: Value)
    | UserAddRole(user: Value, role: Value)
    | FetchWatchdog(count: Value, kind: Value, severity: Value)
    | ClearCache(kind: Value)
    | RunCron
    | CreateNode(node: Value, config: Value)
    | NodeDelete(node: Value)
    | CreateTerm(term: Value, config: Value)
    | TermDelete(term: Value)

  /** A method call on a sub-API handler. */
  datatype Call = Call(verb: string, args: seq<Value>)

  /** What the remote handlers answer to a call; they are not part of this model. */
  type Remote = (HandlerKind, Call) -> Result<Value, Error>

  /** The sub-API name each operation asks the client for. */
  function ApiName(op: Operation): string
  {
    match op
    case UserCreate(_, _) => "user"
    case UserDelete(_, _) => "user"
    case UserAddRole(_, _) => "user"
    case FetchWatchdog(_, _, _) => "watchdog"
    case ClearCache(_) => "cache"
    case RunCron => "cron"
    case CreateNode(_, _) => "node"
    case NodeDelete(_) => "node"
    case CreateTerm(_, _) => "term"
    case TermDelete(_) => "term"
  }

  /** The handler call each operation makes; `createTerm` does not pass its configuration on. */
  function CallOf(op: Operation): Call
  {
    match op
    case UserCreate(u, c) => Call("userCreate", [u, c])
    case UserDelete(u, c) => Call("userDelete", [u, c])
    case UserAddRole(u, r) => Call("userAddRole", [u, r])
    case FetchWatchdog(n, t, s) => Call("fetchWatchdog", [n, t, s])
    case ClearCache(t) => Call("clearCache", [t])
    case RunCron => Call("runCron", [])
    case CreateNode(n, c) => Call("createNode", [n, c])
    case NodeDelete(n) => Call("deleteNode", [n])
    case CreateTerm(t, _) => Call("termCreate", [t])
    case TermDelete(t) => Call("termDelete", [t])
  }

  /** Whether the operation returns the handler's answer; the two deletions return nothing. */
  predicate Returns(op: Operation)
  {
    !op.NodeDelete? && !op.TermDelete?
  }

  /**
   * How the driver re-raises a failure: an ordinary exception becomes a
   * runtime exception with the same message and code 0, while a PHP error
   * is not caught and passes through as it is.
   */
  function Rethrow(e: Error): (r: Error)
    ensures Message(r) == Message(e)
    ensures r.Fatal? <==> e.Fatal?
    ensures e.Fatal? ==> r == e
    ensures !e.Fatal? ==> r == Runtime(Message(e), 0)
  {
    if e.Fatal? then e else Runtime(Message(e), 0)
  }

  /** The PHP error for calling `api()` on something that is not an object. */
  function NotAnObject(slot: ClientSlot): Error
  {
    Fatal("Call to a member function api() on " + if slot.Unset? then "null" else "string")
  }

  /**
   * What an operation ends with: the handler's answer, or the failure
   * of the lookup or of the call, as the driver re-raises it.
   */
  function Delegated(slot: ClientSlot, op: Operation, registry: Registry, remote: Remote): Result<Value, Error>
  {
    if !slot.Bound? then Failure(NotAnObject(slot))
    else
      match Resolve(ApiName(op), registry)
      case Failure(e) => Failure(Rethrow(e))
      case Success(kind) =>
        match remote(kind, CallOf(op))
        case Failure(e) => Failure(Rethrow(e))
        case Success(v) => Success(if Returns(op) then v else Null)
  }

  /** `empty($v)`: null, false, 0, "", "0" and the empty array. */
  predicate IsEmpty(v: Value)
  {
    v == Null || v == Bool(false) || v == Int(0) || v == Str("") || v == Str("0") || v == Arr([])
  }

  /** `!$slot`, as `bootstrap` tests the client property. */
  predicate Falsy(slot: ClientSlot)
  {
    slot.Unset? || (slot.Named? && EmptyString(slot.name))
  }

  /** The class `bootstrap` instantiates for a slot that holds no client yet. */
  function ClientClass(slot: ClientSlot): (name: string)
    requires !slot.Bound?
    ensures slot.Named? && !Falsy(slot) ==> name == slot.name
    ensures Falsy(slot) ==> name == DEFAULT_CLIENT_CLASS
  {
    if slot.Named? && !EmptyString(slot.name) then slot.name else DEFAULT_CLIENT_CLASS
  }

  class RemoteDriver {
    const url: Value
    const username: Option<string>
    const password: Option<string>
    const cookie: Option<string>
    var client: ClientSlot
    var bootstrapped: bool

    constructor (url: Value, username: Option<string>, password: Option<string>, cookie: Option<string>, client: ClientSlot)
      ensures this.url == url && this.username == username && this.password == password && this.cookie == cookie
      ensures this.client == client && !bootstrapped
    {
      this.url := url;
      this.username := username;
      this.password := password;
      this.cookie := cookie;
      this.client := client;
      bootstrapped := false;
    }

    /** `__construct`: a base url that PHP deems empty is refused. */
    static method Create(url: Value, username: Option<string>, password: Option<string>, cookie: Option<string>, client: ClientSlot)
      returns (r: Result<RemoteDriver, Error>)
      ensures r.Failure? <==> IsEmpty(url)
      ensures r.Failure? ==> r.error == BootstrapFailure("A site base url is required.")
      ensures r.Success? ==> fresh(r.value) && r.value.url == url && r.value.client == client && !r.value.bootstrapped
      ensures r.Success? ==> r.value.username == username && r.value.password == password && r.value.cookie == cookie
    {
      if url == Null || url == Bool(false) || url == Int(0) || url == Str("") || url == Str("0") || url == Arr([]) {
        return Failure(BootstrapFailure("A site base url is required."));
      }
      var driver := new RemoteDriver(url, username, password, cookie, client);
      return Success(driver);
    }

    /**
     * `bootstrap`: a slot without a client gets a new client of the named
     * (or default) class, pointed at the base url and set up for a Drupal
     * login. A client already there is kept as it is. The set of loadable
     * class names stands for PHP's class table; the default class is always
     * loadable.
     */
    method Bootstrap(classes: set<string>) returns (o: Outcome<Error>)
      modifies this
      ensures old(client).Bound? ==> o == Pass && client == old(client) && bootstrapped
      ensures !old(client).Bound? && ClientClass(old(client)) != DEFAULT_CLIENT_CLASS && ClientClass(old(client)) !in classes ==>
        o == Fail(Fatal("Class \"" + ClientClass(old(client)) + "\" not found"))
        && client == old(client) && bootstrapped == old(bootstrapped)
      ensures !old(client).Bound? && (ClientClass(old(client)) == DEFAULT_CLIENT_CLASS || ClientClass(old(client)) in classes) ==>
        o == Pass && bootstrapped && client.Bound? && fresh(client.client)
        && client.client.options == DefaultOptions()["base_url" := url]
        && client.client.httpClient != null && client.client.httpClient.listener != null
        && client.client.httpClient.listener.login == username
        && client.client.httpClient.listener.password == password
        && client.client.httpClient.listener.authMethod == Some(HTTP_DRUPAL)
        && client.client.httpClient.listener.cookie == cookie
    {
      if !client.Bound? {
        var className := if client.Named? && !EmptyString(client.name) then client.name else DEFAULT_CLIENT_CLASS;
        if className != DEFAULT_CLIENT_CLASS && className !in classes {
          return Fail(Fatal("Class \"" + className + "\" not found"));
        }
        var remote := new Client(null);
        var configured := remote.SetOption("base_url", url);
        var auth := remote.Authenticate(username, password, Some(HTTP_DRUPAL), cookie);
        client := Bound(remote);
      }
      bootstrapped := true;
      return Pass;
    }

    function IsBootstrapped(): (b: bool)
      reads this
      ensures b <==> bootstrapped
    {
      bootstrapped
    }

    /** `setClient`: installs a client; later calls go to it. */
    method SetClient(c: Client)
      modifies this
      ensures client == Bound(c) && bootstrapped == old(bootstrapped)
    {
      client := Bound(c);
    }

    function GetClient(): (slot: ClientSlot)
      reads this
      ensures slot == client
    {
      client
    }

    /** `clearStaticCaches`: a hook with nothing to do for a remote site. */
    method ClearStaticCaches()
      ensures client == old(client) && bootstrapped == old(bootstrapped)
    {
    }

    /** `processBatch`: a hook with nothing to do for a remote site. */
    method ProcessBatch()
      ensures client == old(client) && bootstrapped == old(bootstrapped)
    {
    }

    /** `api($name)`: the client's handler for the name; calling it on a missing client is a PHP error. */
    method Api(name: string, registry: Registry) returns (r: Result<Handler, Error>)
      ensures !client.Bound? ==> r == Failure(NotAnObject(client))
      ensures client.Bound? && Resolve(name, registry).Failure? ==> r == Failure(Resolve(name, registry).error)
      ensures client.Bound? && Resolve(name, registry).Success? ==>
        r.Success? && r.value.kind == Resolve(name, registry).value && r.value.client == client.client
    {
      if !client.Bound? {
        return Failure(NotAnObject(client));
      }
      r := client.client.Api(name, registry);
    }

    /** One delegating operation, with the driver's exception translation. */
    method Run(op: Operation, registry: Registry, remote: Remote) returns (r: Result<Value, Error>)
      ensures r == Delegated(client, op, registry, remote)
    {
      var handler := Api(ApiName(op), registry);
      match handler
      case Failure(e) =>
        return Failure(if e.Fatal? then e else Runtime(Message(e), 0));
      case Success(h) =>
        var answer := remote(h.kind, CallOf(op));
        match answer
        case Failure(e) =>
          return Failure(if e.Fatal? then e else Runtime(Message(e), 0));
        case Success(v) =>
          return Success(if op.NodeDelete? || op.TermDelete? then Null else v);
    }
  }

  // ---------------------------------------------------------------------
  // Properties

  /** Nothing delegated succeeds before a client is there, and what fails then is a PHP error. */
  lemma NoClientIsFatal(slot: ClientSlot, op: Operation, registry: Registry, remote: Remote)
    requires !slot.Bound?
    ensures Delegated(slot, op, registry, remote).Failure?
    ensures Delegated(slot, op, registry, remote).error.Fatal?
  {
  }

  /**
   * No built-in handler answers to `watchdog` or `cron`: unless an extension
   * is registered under the name, those operations fail with the lookup's
   * message.
   */
  lemma UnregisteredApiFails(c: Client, op: Operation, registry: Registry, remote: Remote)
    requires op.FetchWatchdog? || op.RunCron?
    requires !(ApiName(op) in registry && registry[ApiName(op)])
    ensures Delegated(Bound(c), op, registry, remote)
      == Failure(Runtime("Undefined api instance called: \"" + ApiName(op) + "\"", 0))
  {
    assert !BuiltinName(ApiName(op));
  }

  /** The built-in operations always find their handler, and the handler's own answer decides. */
  lemma BuiltinOperationsReachHandler(c: Client, op: Operation, registry: Registry, remote: Remote)
    requires !op.FetchWatchdog? && !op.RunCron?
    ensures Resolve(ApiName(op), registry).Success?
    ensures remote(Resolve(ApiName(op), registry).value, CallOf(op)).Failure? ==>
      var e := remote(Resolve(ApiName(op), registry).value, CallOf(op)).error;
      Delegated(Bound(c), op, registry, remote) == Failure(Rethrow(e))
       && Message(Delegated(Bound(c), op, registry, remote).error) == Message(e)
    ensures remote(Resolve(ApiName(op), registry).value, CallOf(op)).Success? && Returns(op) ==>
      Delegated(Bound(c), op, registry, remote) == Success(remote(Resolve(ApiName(op), registry).value, CallOf(op)).value)
  {
  }

  /** The two deletions never hand back what the handler answered. */
  lemma DeletionsReturnNothing(slot: ClientSlot, op: Operation, registry: Registry, remote: Remote)
    requires op.NodeDelete? || op.TermDelete?
    ensures Delegated(slot, op, registry, remote).Success? ==> Delegated(slot, op, registry, remote).value == Null
  {
  }
}
