/**
 * apiwsgw.go: a WebSocket API event becomes the common request record. An
 * action table keyed by the lower-cased event type can replace the method
 * and path and adds a `Connection-Id` header.
 */
module ApiWsGw {
  import opened Wrappers
  import opened GoStrings
  import opened Errors
  import opened Events
  import opened GoContext
  import opened Lambda

  /** The header an override adds, carrying the connection id. */
  const ConnectionIdHeader: ByteString := "Connection-Id"

  /** One entry of the action table: the method and path an event type maps to. */
  datatype ActionOverride = ActionOverride(path: ByteString, httpMethod: ByteString)

  /**
   * The event after the action table is consulted, and whether an entry
   * matched: on a match the path and method are replaced and the
   * `Connection-Id` header is added; otherwise the event is unchanged.
   */
  function ApplyOverride(event: WebsocketRequest, overrides: map<ByteString, ActionOverride>): (r: (WebsocketRequest, bool))
    ensures r.1 <==> ToLower(event.requestContext.eventType) in overrides
    ensures !r.1 ==> r.0 == event
    ensures r.1 ==>
      var v := overrides[ToLower(event.requestContext.eventType)];
      && r.0.path == v.path && r.0.httpMethod == v.httpMethod
      && r.0.headers == event.headers[ConnectionIdHeader := event.requestContext.connectionID]
      && r.0 == event.(path := v.path, httpMethod := v.httpMethod, headers := r.0.headers)
  {
    var action := ToLower(event.requestContext.eventType);
    if action in overrides then
      var v := overrides[action];
      (event.(path := v.path, httpMethod := v.httpMethod,
              headers := event.headers[ConnectionIdHeader := event.requestContext.connectionID]), true)
    else (event, false)
  }

  /**
   * `newAPIGatewayWebsocketRequest` with non-nil options, whose
   * `UseProxyPath` and action table are passed in. `requestContext` stands
   * for `newWebsocketProxyRequestContext`, which is not part of this model,
   * and receives the event after the override.
   */
  function NewAPIGatewayWebsocketRequest(
    ctx: Context, decoded: Result<WebsocketRequest, Error>, useProxyPath: bool,
    overrides: map<ByteString, ActionOverride>,
    requestContext: (Context, WebsocketRequest) -> Context): (r: Result<LambdaRequest, Error>)
    ensures decoded.Failure? ==> r == Failure(decoded.error)
    ensures decoded.Success? && (decoded.value.requestContext.apiID == [] || decoded.value.requestContext.eventType == []) ==>
      r == Failure(APIGatewayWebsocketUnexpectedRequest)
    ensures r.Success? <==> decoded.Success? && decoded.value.requestContext.apiID != [] && decoded.value.requestContext.eventType != []
    ensures r.Success? ==>
      var e := decoded.value;
      var (e', overridden) := ApplyOverride(e, overrides);
      var q := r.value;
      && q.httpMethod == e'.httpMethod
      && q.path == (if useProxyPath && !overridden then ProxyPath(e.pathParameters) else e'.path)
      && q.headers == e'.headers
      && q.queryStringParameters == e.queryStringParameters
      && q.multiValueQueryStringParameters == e.multiValueQueryStringParameters
      && q.multiValueHeaders == e.multiValueHeaders
      && q.body == e.body && q.isBase64Encoded == e.isBase64Encoded
      && q.sourceIP == e.requestContext.sourceIP
      && q.ctx == Some(requestContext(ctx, e'))
      && q.requestType == Auto
  {
    if decoded.Failure? then Failure(decoded.error)
    else if decoded.value.requestContext.apiID == [] || decoded.value.requestContext.eventType == [] then
      Failure(APIGatewayWebsocketUnexpectedRequest)
    else
      var (event, overridden) := ApplyOverride(decoded.value, overrides);
      var req := LambdaRequest(
        event.httpMethod, event.path,
        event.queryStringParameters, event.multiValueQueryStringParameters,
        event.headers, event.multiValueHeaders,
        event.body, event.isBase64Encoded,
        event.requestContext.sourceIP,
        Some(requestContext(ctx, event)),
        Auto);
      Success(if useProxyPath && !overridden then req.(path := ProxyPath(event.pathParameters)) else req)
  }

  /** The table is keyed case-insensitively: event types differing only in ASCII case select the same entry. */
  lemma OverrideIgnoresCase(event: WebsocketRequest, other: ByteString, overrides: map<ByteString, ActionOverride>)
    requires ToLower(other) == ToLower(event.requestContext.eventType)
    ensures ApplyOverride(event.(requestContext := event.requestContext.(eventType := other)), overrides).0
         == ApplyOverride(event, overrides).0.(requestContext := event.requestContext.(eventType := other))
  {
  }

  /** With a matching entry the proxy path is ignored: the entry's path is used. */
  lemma OverridePathWins(ctx: Context, e: WebsocketRequest, overrides: map<ByteString, ActionOverride>,
                          requestContext: (Context, WebsocketRequest) -> Context)
    requires e.requestContext.apiID != [] && e.requestContext.eventType != []
    requires ToLower(e.requestContext.eventType) in overrides
    ensures var r := NewAPIGatewayWebsocketRequest(ctx, Success(e), true, overrides, requestContext);
      r.Success? && r.value.path == overrides[ToLower(e.requestContext.eventType)].path
      && r.value.headers[ConnectionIdHeader] == e.requestContext.connectionID
  {
  }
}
