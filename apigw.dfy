/**
 * apigw.go: a REST API (payload version 1.0) event becomes the common
 * request record.
 */
module Apigw {
  import opened Wrappers
  import opened GoStrings
  import opened Errors
  import opened Events
  import opened GoContext
  import opened Lambda

  /**
   * `newAPIGatewayRequest`. `decoded` is the outcome of decoding the payload;
   * `requestContext` stands for `newProxyRequestContext`, which is not part of
   * this model. The request type is left at its zero value.
   */
  function NewAPIGatewayRequest(
    ctx: Context, decoded: Result<ProxyRequest, Error>, useProxyPath: bool,
    requestContext: (Context, ProxyRequest) -> Context): (r: Result<LambdaRequest, Error>)
    ensures decoded.Failure? ==> r == Failure(decoded.error)
    ensures decoded.Success? && decoded.value.requestContext.accountID == [] ==> r == Failure(NonAPIGateway)
    ensures r.Success? <==> decoded.Success? && decoded.value.requestContext.accountID != []
    ensures r.Success? ==>
      var e := decoded.value;
      var q := r.value;
      && q.httpMethod == e.httpMethod
      && q.path == (if useProxyPath then ProxyPath(e.pathParameters) else e.path)
      && q.queryStringParameters == e.queryStringParameters
      && q.multiValueQueryStringParameters == e.multiValueQueryStringParameters
      && q.headers == e.headers && q.multiValueHeaders == e.multiValueHeaders
      && q.body == e.body && q.isBase64Encoded == e.isBase64Encoded
      && q.sourceIP == e.requestContext.sourceIP
      && q.ctx == Some(requestContext(ctx, e))
      && q.requestType == Auto
  {
    if decoded.Failure? then Failure(decoded.error)
    else
      var event := decoded.value;
      if event.requestContext.accountID == [] then Failure(NonAPIGateway)
      else
        Success(LambdaRequest(
          event.httpMethod,
          if useProxyPath then ProxyPath(event.pathParameters) else event.path,
          event.queryStringParameters, event.multiValueQueryStringParameters,
          event.headers, event.multiValueHeaders,
          event.body, event.isBase64Encoded,
          event.requestContext.sourceIP,
          Some(requestContext(ctx, event)),
          Auto))
  }
}
