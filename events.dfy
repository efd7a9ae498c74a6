/**
 * The decoded Lambda event records the adapter reads (the fields of
 * aws-lambda-go's `events` package that the translation touches), and the
 * load-balancer response record.
 */
module Events {
  import opened Wrappers
  import opened GoStrings

  type StringMap = map<ByteString, ByteString>
  type MultiMap = map<ByteString, seq<ByteString>>

  /** The header key the builders read the host from. */
  const HostHeader: ByteString := "Host"

  /** The path parameter that carries the proxied path. */
  const ProxyParameter: ByteString := "proxy"

  /** Go's `m[k]` on a string map: the empty string for a missing key. */
  function Get(m: StringMap, k: ByteString): (v: ByteString)
    ensures k in m ==> v == m[k]
    ensures k !in m ==> v == []
  {
    if k in m then m[k] else []
  }

  /** `events.APIGatewayProxyRequestContext`: the account and the caller's `Identity.SourceIP`. */
  datatype ProxyRequestContext = ProxyRequestContext(accountID: ByteString, sourceIP: ByteString)

  /** `events.APIGatewayProxyRequest` (REST API, payload version 1.0). */
  datatype ProxyRequest = ProxyRequest(
    path: ByteString,
    httpMethod: ByteString,
    headers: StringMap,
    multiValueHeaders: MultiMap,
    queryStringParameters: StringMap,
    multiValueQueryStringParameters: MultiMap,
    pathParameters: StringMap,
    requestContext: ProxyRequestContext,
    body: ByteString,
    isBase64Encoded: bool)

  const ZeroProxyRequest := ProxyRequest([], [], map[], map[], map[], map[], map[], ProxyRequestContext([], []), [], false)

  /** `events.APIGatewayV2HTTPRequestContextHTTPDescription`. */
  datatype V2HTTPDescription = V2HTTPDescription(httpMethod: ByteString, path: ByteString, sourceIP: ByteString)

  /** `events.APIGatewayV2HTTPRequest` (HTTP API, payload version 2.0). */
  datatype V2HTTPRequest = V2HTTPRequest(
    version: ByteString,
    pathParameters: StringMap,
    queryStringParameters: StringMap,
    headers: StringMap,
    body: ByteString,
    isBase64Encoded: bool,
    http: V2HTTPDescription)

  /** `events.APIGatewayWebsocketProxyRequestContext`, with the caller's `Identity.SourceIP`. */
  datatype WebsocketRequestContext = WebsocketRequestContext(
    apiID: ByteString, eventType: ByteString, connectionID: ByteString, sourceIP: ByteString)

  /** `events.APIGatewayWebsocketProxyRequest`. */
  datatype WebsocketRequest = WebsocketRequest(
    path: ByteString,
    httpMethod: ByteString,
    headers: StringMap,
    multiValueHeaders: MultiMap,
    queryStringParameters: StringMap,
    multiValueQueryStringParameters: MultiMap,
    pathParameters: StringMap,
    requestContext: WebsocketRequestContext,
    body: ByteString,
    isBase64Encoded: bool)

  /** `events.ALBTargetGroupRequest`, with `RequestContext.ELB.TargetGroupArn`. */
  datatype ALBRequest = ALBRequest(
    httpMethod: ByteString,
    path: ByteString,
    queryStringParameters: StringMap,
    multiValueQueryStringParameters: MultiMap,
    headers: StringMap,
    multiValueHeaders: MultiMap,
    body: ByteString,
    isBase64Encoded: bool,
    targetGroupArn: ByteString)

  const ZeroALBRequest := ALBRequest([], [], map[], map[], map[], map[], [], false, [])

  /** `events.ALBTargetGroupResponse`; `None` is a nil map. */
  datatype ALBResponse = ALBResponse(
    statusCode: int,
    headers: Option<StringMap>,
    multiValueHeaders: Option<MultiMap>,
    body: ByteString,
    isBase64Encoded: bool)

  const ZeroALBResponse := ALBResponse(0, None, None, [], false)

  /** One `events.SQSMessage`, reduced to its id and body. */
  datatype SQSMessage = SQSMessage(messageID: ByteString, body: ByteString)

  /** `events.SQSEvent`. */
  datatype SQSEvent = SQSEvent(records: seq<SQSMessage>)

  const ZeroSQSEvent := SQSEvent([])
}
