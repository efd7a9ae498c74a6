/**
 * alb/request.go: building the `http.Request` a handler sees from a load
 * balancer event. Whether the target group sends multi-value headers
 * decides, for the query and for the header alike, which one of the two
 * maps is read.
 */
module AlbRequestBuilder {
  import opened Wrappers
  import opened GoStrings
  import opened Errors
  import opened UrlValues
  import opened Events
  import opened GoContext
  import opened Http
  import AlbContext

  /** `hasMVHeaders`: multi-value mode is on exactly when the event carries multi-value headers. */
  function HasMVHeaders(event: ALBRequest): (on: bool)
    ensures on <==> event.multiValueHeaders != map[]
  {
    |event.multiValueHeaders| > 0
  }

  /** The query parameters of the mode: the multi-value map, or every single value as a one-element list. */
  method BuildQuery(event: ALBRequest) returns (params: Values)
    ensures HasMVHeaders(event) ==> params == event.multiValueQueryStringParameters
    ensures !HasMVHeaders(event) ==> params == SingleValues(event.queryStringParameters)
  {
    params := map[];
    if HasMVHeaders(event) {
      params := AssignValues(params, event.multiValueQueryStringParameters);
    } else {
      params := SetValues(params, event.queryStringParameters);
    }
  }

  /** The URL before its path is decoded: single-value host header, event path, encoded query of the mode. */
  function BuiltURL(event: ALBRequest): URL
  {
    var params := if HasMVHeaders(event) then event.multiValueQueryStringParameters
                  else SingleValues(event.queryStringParameters);
    URL(Get(event.headers, HostHeader), [], event.path, Encode(params))
  }

  method BuildURL(event: ALBRequest) returns (r: Result<URL, Error>)
    ensures r == DecodePath(BuiltURL(event))
  {
    var params := BuildQuery(event);
    var u := URL(Get(event.headers, HostHeader), [], event.path, Encode(params));
    return DecodePath(u);
  }

  /** The header of the mode: multi-value lists under canonical keys, or single values set one by one. */
  method BuildHeader(h: Header, event: ALBRequest) returns (r: Header)
    requires h == map[]
    ensures HasMVHeaders(event) ==> Overlaid(r, map[], event.multiValueHeaders)
    ensures !HasMVHeaders(event) ==> Overlaid(r, map[], SingleValues(event.headers))
  {
    if HasMVHeaders(event) {
      r := AssignHeaders(h, event.multiValueHeaders);
    } else {
      r := SetHeaders(h, event.headers);
    }
  }

  /**
   * `q` is the request built from `event` over `ctx`: the decoded URL with
   * the empty port removed from its host, the method (GET when empty), the
   * body reader, the header of the mode, no remote address, the request URI
   * and the context holding the event.
   */
  ghost predicate BuiltFrom(q: Request, ctx: Context, event: ALBRequest)
    requires DecodePath(BuiltURL(event)).Success?
  {
    var u := DecodePath(BuiltURL(event)).value;
    && q.url == u.(host := RemoveEmptyPort(u.host))
    && q.host == RemoveEmptyPort(Get(event.headers, HostHeader))
    && q.httpMethod == (if event.httpMethod == [] then DefaultMethod else event.httpMethod)
    && q.body == EventBody(event.body, event.isBase64Encoded)
    && (HasMVHeaders(event) ==> Overlaid(q.header, map[], event.multiValueHeaders))
    && (!HasMVHeaders(event) ==> Overlaid(q.header, map[], SingleValues(event.headers)))
    && q.remoteAddr == []
    && q.requestURI == RequestURI(q.url)
    && q.ctx == AlbContext.NewContext(ctx, event)
  }

  /**
   * `newHTTPRequest` of the alb package: a malformed escape is reported
   * first, then an invalid method; otherwise the request carries the decoded
   * URL, the body reader, the header of the mode, the request URI and the
   * context holding the event. No remote address is set.
   */
  method NewHTTPRequest(ctx: Context, event: ALBRequest) returns (r: Result<Request, Error>)
    ensures var decoded := DecodePath(BuiltURL(event));
      && (decoded.Failure? ==> r == Failure(decoded.error))
      && (decoded.Success? && event.httpMethod != [] && !ValidMethod(event.httpMethod) ==>
            r == Failure(InvalidMethod(event.httpMethod)))
      && (r.Success? <==> decoded.Success? && (event.httpMethod == [] || ValidMethod(event.httpMethod)))
    ensures r.Success? ==> BuiltFrom(r.value, ctx, event)
  {
    var decoded := BuildURL(event);
    if decoded.Failure? {
      return Failure(decoded.error);
    }
    var u := decoded.value;
    var created := NewRequest(event.httpMethod, u, EventBody(event.body, event.isBase64Encoded));
    if created.Failure? {
      return Failure(created.error);
    }
    var req := created.value;
    var header := BuildHeader(req.header, event);
    RequestURIIgnoresHost(u, req.url.host);
    req := req.(header := header, requestURI := RequestURI(u));
    return Success(req.(ctx := AlbContext.NewContext(ctx, event)));
  }

  /**
   * The host is read only from the single-value headers: whatever the
   * multi-value headers hold, including a `Host` entry, the URL's host is
   * the single-value `Host` header, "" when there is none.
   */
  lemma MultiValueHostIgnored(event: ALBRequest, mvh: map<ByteString, seq<ByteString>>)
    ensures BuiltURL(event.(multiValueHeaders := mvh)).host == Get(event.headers, HostHeader)
    ensures HostHeader !in event.headers ==> BuiltURL(event.(multiValueHeaders := mvh)).host == []
  {
  }
}
