/**
 * The parts of `HttpListenerContext` and `HttpClient` the request handler
 * touches: the inbound request, the response object it fills in, the request
 * it forwards and what the origin makes of it.
 */
module Http {
  import opened Wrappers

  /** The inbound request: `Request.HttpMethod` and `Request.Url.PathAndQuery`. */
  datatype Request = Request(httpMethod: string, pathAndQuery: string)

  /** The request sent to the origin: the inbound method, an absolute URL, no headers and no body. */
  datatype ForwardedRequest = ForwardedRequest(httpMethod: string, url: string)

  /**
   * What `SendAsync` followed by `ReadAsStringAsync` comes to: a response with
   * some status code and a body, or an exception (unreachable origin, protocol
   * error, malformed URL).
   */
  datatype OriginReply = Received(statusCode: int, body: string) | TransportFailure

  /**
   * `HttpListenerResponse`: header fields, the status code and the content type
   * may be set only until the first body bytes go out; after `Close` nothing may
   * be written.
   */
  class Response {
    var statusCode: int
    var headers: map<string, string>
    var contentType: Option<string>
    var body: string
    var headersSent: bool
    var closed: bool

    /** A response as the listener hands it to a handler. */
    constructor ()
      ensures statusCode == 200 && headers == map[] && contentType == None
      ensures body == "" && !headersSent && !closed
    {
      statusCode := 200;
      headers := map[];
      contentType := None;
      body := "";
      headersSent := false;
      closed := false;
    }

    /** `Headers[name] = value`. */
    method SetHeader(name: string, value: string)
      requires !headersSent && !closed
      modifies this
      ensures headers == old(headers)[name := value]
      ensures statusCode == old(statusCode) && contentType == old(contentType) && body == old(body)
      ensures headersSent == old(headersSent) && closed == old(closed)
    {
      headers := headers[name := value];
    }

    /** `StatusCode = code`. */
    method SetStatusCode(code: int)
      requires !headersSent && !closed
      modifies this
      ensures statusCode == code
      ensures headers == old(headers) && contentType == old(contentType) && body == old(body)
      ensures headersSent == old(headersSent) && closed == old(closed)
    {
      statusCode := code;
    }

    /** `ContentType = mediaType`. */
    method SetContentType(mediaType: string)
      requires !headersSent && !closed
      modifies this
      ensures contentType == Some(mediaType)
      ensures statusCode == old(statusCode) && headers == old(headers) && body == old(body)
      ensures headersSent == old(headersSent) && closed == old(closed)
    {
      contentType := Some(mediaType);
    }

    /** Text written to `OutputStream`; the first write sends the status line and headers. */
    method Write(text: string)
      requires !closed
      modifies this
      ensures body == old(body) + text && headersSent
      ensures statusCode == old(statusCode) && headers == old(headers) && contentType == old(contentType)
      ensures closed == old(closed)
    {
      body := body + text;
      headersSent := true;
    }

    /** `Close()`: the response is complete. */
    method Close()
      modifies this
      ensures closed && headersSent
      ensures statusCode == old(statusCode) && headers == old(headers) && contentType == old(contentType)
      ensures body == old(body)
    {
      headersSent := true;
      closed := true;
    }
  }
}
