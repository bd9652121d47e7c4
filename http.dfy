/** HTTP status constants and the mutable response objects the core writes to. */
module Http {
  import opened Wrappers

  const OK: int := 200
  const BAD_REQUEST: int := 400
  const INTERNAL_SERVER_ERROR: int := 500
  const APPLICATION_JSON: string := "application/json"

  /** What `HttpStatusCode.valueOf(code)` accepts: a three-digit code. */
  predicate IsStatusCode(code: int) {
    100 <= code <= 999
  }

  /** The response of a WebFlux exchange; its status is unset until written. */
  class ReactiveResponse {
    var statusCode: Option<int>

    constructor ()
      ensures statusCode == None
    {
      statusCode := None;
    }

    method SetStatusCode(code: int)
      modifies this
      ensures statusCode == Some(code)
    {
      statusCode := Some(code);
    }
  }

  /** A `jakarta.servlet.http.HttpServletResponse`; its status starts at 200. */
  class ServletResponse {
    var status: int
    var contentType: Option<string>

    constructor ()
      ensures status == OK && contentType == None
    {
      status := OK;
      contentType := None;
    }

    method SetStatus(code: int)
      modifies this
      ensures status == code && contentType == old(contentType)
    {
      status := code;
    }

    method SetContentType(ct: string)
      modifies this
      ensures contentType == Some(ct) && status == old(status)
    {
      contentType := Some(ct);
    }
  }

  /** A Spring MVC `ServerHttpResponse`. When it is a ServletServerHttpResponse,
      `status` is the wrapped servlet response's current status. */
  class ServerHttpResponse {
    const isServlet: bool
    var status: int
    var contentType: Option<string>

    constructor (isServlet: bool, status: int, contentType: Option<string>)
      ensures this.isServlet == isServlet && this.status == status && this.contentType == contentType
    {
      this.isServlet := isServlet;
      this.status := status;
      this.contentType := contentType;
    }
  }
}
