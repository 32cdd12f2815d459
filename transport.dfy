/**
 * The transport handle the client creates lazily. Its own source is not
 * part of this model: the client relies only on the handle keeping the
 * options it was built with and installing, on `authenticate`, a listener
 * that carries the credentials.
 */
module Transport {
  import opened Php
  import opened Auth

  class HttpClient {
    const options: map<string, Value>
    var listener: AuthListener?

    constructor (options: map<string, Value>)
      ensures this.options == options && listener == null
    {
      this.options := options;
      listener := null;
    }

    /** Installs a fresh authentication listener with these credentials. */
    method Authenticate(login: Option<string>, password: Option<string>, authMethod: Option<string>, cookie: Option<string>)
      modifies this
      ensures listener != null && fresh(listener)
      ensures listener.login == login && listener.password == password
      ensures listener.authMethod == authMethod && listener.cookie == cookie
    {
      listener := new AuthListener(login, password, authMethod, cookie);
    }
  }
}
