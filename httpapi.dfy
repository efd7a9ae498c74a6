/**
 * httpapi.go: an HTTP API (payload version 2.0) event becomes the common
 * request record; method, path and source address come from the request
 * context.
 */
module HttpApi {
  import opened Wrappers
  import opened GoStrings
  import opened Errors
  import opened Events
  import opened GoContext
  import opened Lambda

  /** The only payload version accepted. */
  const PayloadVersion: ByteString := "2.0"

  /**
   * `newAPIGatewayV2HTTPRequest`. `requestContext` stands for
   * `newAPIGatewayV2HTTPRequestContext`, which is not part of this model.
   */
  function NewAPIGatewayV2HTTPRequest(
    ctx: Context, decoded: Result<V2HTTPRequest, Error>, useProxyPath: bool,
    requestContext: (Context, V2HTTPRequest) -> Context): (r: Result<LambdaRequest, Error>)
    ensures decoded.Failure? ==> r == Failure(decoded.error)
    ensures decoded.Success? && decoded.value.version != PayloadVersion ==> r == Failure(APIGatewayV2UnexpectedRequest)
    ensures r.Success? <==> decoded.Success? && decoded.value.version == PayloadVersion
    ensures r.Success? ==>
      var e := decoded.value;
      var q := r.value;
      && q.httpMethod == e.http.httpMethod
      && q.path == (if useProxyPath then ProxyPath(e.pathParameters) else e.http.path)
      && q.queryStringParameters == e.queryStringParameters
      && q.multiValueQueryStringParameters == map[]
      && q.headers == e.headers && q.multiValueHeaders == map[]
      && q.body == e.body && q.isBase64Encoded == e.isBase64Encoded
      && q.sourceIP == e.http.sourceIP
      && q.ctx == Some(requestContext(ctx, e))
      && q.requestType == Auto
  {
    if decoded.Failure? then Failure(decoded.error)
    else
      var event := decoded.value;
      if event.version != PayloadVersion then Failure(APIGatewayV2UnexpectedRequest)
      else
        var req := LambdaRequest(
          event.http.httpMethod, event.http.path,
          event.queryStringParameters, map[],
          event.headers, map[],
          event.body, event.isBase64Encoded,
          event.http.sourceIP,
          Some(requestContext(ctx, event)),
          Auto);
        Success(if useProxyPath then req.(path := ProxyPath(event.pathParameters)) else req)
  }
}
