/**
 * request.go: building the `http.Request` a handler sees from a REST API
 * event — query from both parameter maps, raw path (optionally the proxy
 * parameter), percent-decoded path, body reader, merged header, remote
 * address, request URI and context.
 */
module RequestBuilder {
  import opened Wrappers
  import opened GoStrings
  import opened Errors
  import opened UrlEscape
  import opened UrlValues
  import opened Events
  import opened GoContext
  import opened Lambda
  import opened Http
  import ProxyContext

  /** The raw path before decoding: the proxy parameter joined onto the root, or the event path. */
  function RawPathOf(event: ProxyRequest, useProxyPath: bool): ByteString
  {
    if useProxyPath then ProxyPath(event.pathParameters) else event.path
  }

  /** The URL before its path is decoded: host header, raw path and encoded merged query. */
  function BuiltURL(event: ProxyRequest, useProxyPath: bool): URL
  {
    URL(Get(event.headers, HostHeader), [], RawPathOf(event, useProxyPath),
        Encode(MergedQuery(event.queryStringParameters, event.multiValueQueryStringParameters)))
  }

  /**
   * `newHTTPRequest`: a malformed escape in the raw path is reported first,
   * then an invalid method; otherwise the request carries the decoded URL,
   * the body reader, the merged header, the source address, the request URI
   * and the context holding the event.
   */
  method NewHTTPRequest(ctx: Context, event: ProxyRequest, useProxyPath: bool) returns (r: Result<Request, Error>)
    ensures var decoded := DecodePath(BuiltURL(event, useProxyPath));
      && (decoded.Failure? ==> r == Failure(decoded.error))
      && (decoded.Success? && event.httpMethod != [] && !ValidMethod(event.httpMethod) ==>
            r == Failure(InvalidMethod(event.httpMethod)))
      && (r.Success? <==> decoded.Success? && (event.httpMethod == [] || ValidMethod(event.httpMethod)))
    ensures r.Success? ==>
      var u := DecodePath(BuiltURL(event, useProxyPath)).value;
      var q := r.value;
      && q.url == u.(host := RemoveEmptyPort(u.host))
      && q.host == RemoveEmptyPort(Get(event.headers, HostHeader))
      && q.httpMethod == (if event.httpMethod == [] then DefaultMethod else event.httpMethod)
      && q.body == EventBody(event.body, event.isBase64Encoded)
      && MergedHeader(q.header, event.headers, event.multiValueHeaders)
      && q.remoteAddr == event.requestContext.sourceIP
      && q.requestURI == RequestURI(q.url)
      && q.ctx == ProxyContext.NewContext(ctx, event)
  {
    var decoded := BuildURL(event, useProxyPath);
    if decoded.Failure? {
      return Failure(decoded.error);
    }
    var u := decoded.value;
    var created := NewRequest(event.httpMethod, u, EventBody(event.body, event.isBase64Encoded));
    if created.Failure? {
      return Failure(created.error);
    }
    var req := created.value;
    var header := MergeHeaders(req.header, event.headers, event.multiValueHeaders);
    RequestURIIgnoresHost(u, req.url.host);
    req := req.(header := header, remoteAddr := event.requestContext.sourceIP, requestURI := RequestURI(u));
    return Success(req.(ctx := ProxyContext.NewContext(ctx, event)));
  }

  /**
   * The URL part of `newHTTPRequest`: the query from both parameter maps,
   * the raw path, then the path decoding.
   */
  method BuildURL(event: ProxyRequest, useProxyPath: bool) returns (r: Result<URL, Error>)
    ensures r == DecodePath(BuiltURL(event, useProxyPath))
  {
    var params := SetValues(map[], event.queryStringParameters);
    assert params == SingleValues(event.queryStringParameters) by {
      EmptyOverlay(SingleValues(event.queryStringParameters));
    }
    params := AssignValues(params, event.multiValueQueryStringParameters);
    var u := URL(Get(event.headers, HostHeader), [], RawPathOf(event, useProxyPath), Encode(params));
    return DecodePath(u);
  }
}
