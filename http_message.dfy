/**
 * The HTTP messages the listeners see. A request is an object whose URL and
 * headers the authentication listener rewrites in place; a response is a
 * value. Header names are matched exactly as written.
 */
module HttpMessage {
  import opened Php

  type Headers = map<string, string>

  /** An outgoing request, rewritten in place by the listeners. */
  class Request {
    var url: string
    var headers: Headers

    constructor (url: string, headers: Headers)
      ensures this.url == url && this.headers == headers
    {
      this.url := url;
      this.headers := headers;
    }

    /** `setHeader($name, $value)`: replaces that one header. */
    method SetHeader(name: string, value: string)
      modifies this
      ensures headers == old(headers)[name := value]
      ensures url == old(url)
    {
      headers := headers[name := value];
    }

    /** `setUrl($url)`. */
    method SetUrl(u: string)
      modifies this
      ensures url == u
      ensures headers == old(headers)
    {
      url := u;
    }
  }

  /** A received response: status code, headers and the body as text. */
  datatype Response = Response(status: int, headers: Headers, body: string)

  /** `getHeader($name)`: the header's text, or null when it is absent. */
  function Header(r: Response, name: string): Option<string>
  {
    if name in r.headers then Some(r.headers[name]) else None
  }

  /** `(string) getHeader($name)`: an absent header reads as "". */
  function HeaderText(r: Response, name: string): string
  {
    OrEmpty(Header(r, name))
  }

  predicate IsClientError(r: Response)
  {
    400 <= r.status < 500
  }

  predicate IsServerError(r: Response)
  {
    500 <= r.status < 600
  }
}
