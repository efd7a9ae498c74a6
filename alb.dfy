/**
 * alb.go: an Application Load Balancer event becomes the common request
 * record; the client address is the first entry of `x-forwarded-for`.
 */
module AlbEvent {
  import opened Wrappers
  import opened GoStrings
  import opened Errors
  import opened Events
  import opened GoContext
  import opened Lambda

  const ForwardedFor: ByteString := "x-forwarded-for"

  /**
   * `getALBSourceIP`: the text before the first comma of the first value
   * under the exact key `x-forwarded-for`, not trimmed; "" when that key is
   * missing or holds no value.
   */
  function GetALBSourceIP(event: ALBRequest): (ip: ByteString)
    ensures (ForwardedFor !in event.multiValueHeaders || event.multiValueHeaders[ForwardedFor] == []) ==> ip == []
    ensures ForwardedFor in event.multiValueHeaders && event.multiValueHeaders[ForwardedFor] != [] ==>
      var first := event.multiValueHeaders[ForwardedFor][0];
      && ip <= first
      && ',' !in ip
      && (ip == first || first[|ip|] == ',')
  {
    if ForwardedFor in event.multiValueHeaders && |event.multiValueHeaders[ForwardedFor]| > 0 then
      BeforeFirst(event.multiValueHeaders[ForwardedFor][0], ',')
    else []
  }

  /**
   * `newALBRequest`. `requestContext` stands for
   * `newTargetGroupRequestContext`, which is not part of this model. The
   * target group is checked before the multi-value headers.
   */
  function NewALBRequest(
    ctx: Context, decoded: Result<ALBRequest, Error>,
    requestContext: (Context, ALBRequest) -> Context): (r: Result<LambdaRequest, Error>)
    ensures decoded.Failure? ==> r == Failure(decoded.error)
    ensures decoded.Success? && decoded.value.targetGroupArn == [] ==> r == Failure(NonALBEvent)
    ensures decoded.Success? && decoded.value.targetGroupArn != [] && |decoded.value.multiValueHeaders| == 0 ==>
      r == Failure(ALBExpectedMultiValueHeaders)
    ensures r.Success? <==> decoded.Success? && decoded.value.targetGroupArn != [] && |decoded.value.multiValueHeaders| > 0
    ensures r.Success? ==>
      var e := decoded.value;
      var q := r.value;
      && q.httpMethod == e.httpMethod && q.path == e.path
      && q.queryStringParameters == e.queryStringParameters
      && q.multiValueQueryStringParameters == e.multiValueQueryStringParameters
      && q.headers == e.headers && q.multiValueHeaders == e.multiValueHeaders
      && q.body == e.body && q.isBase64Encoded == e.isBase64Encoded
      && q.sourceIP == GetALBSourceIP(e)
      && q.ctx == Some(requestContext(ctx, e))
      && q.requestType == Auto
  {
    if decoded.Failure? then Failure(decoded.error)
    else
      var event := decoded.value;
      if event.targetGroupArn == [] then Failure(NonALBEvent)
      else if |event.multiValueHeaders| == 0 then Failure(ALBExpectedMultiValueHeaders)
      else
        Success(LambdaRequest(
          event.httpMethod, event.path,
          event.queryStringParameters, event.multiValueQueryStringParameters,
          event.headers, event.multiValueHeaders,
          event.body, event.isBase64Encoded,
          GetALBSourceIP(event),
          Some(requestContext(ctx, event)),
          Auto))
  }

  /** The header lookup is case-sensitive: a key spelled differently is not consulted. */
  lemma SourceIPCaseSensitive(event: ALBRequest, other: ByteString, vals: seq<ByteString>)
    requires ForwardedFor !in event.multiValueHeaders && other != ForwardedFor
    ensures GetALBSourceIP(event.(multiValueHeaders := event.multiValueHeaders[other := vals])) == []
  {
  }

  /** The address is the first value's text up to its first comma, whatever follows. */
  lemma SourceIPOfList(event: ALBRequest, ip: ByteString, rest: ByteString, more: seq<ByteString>)
    requires ',' !in ip
    requires event.multiValueHeaders == map[ForwardedFor := [ip + "," + rest] + more]
    ensures GetALBSourceIP(event) == ip
  {
    var first := ip + "," + rest;
    BeforeFirstUnique(first, ',', ip);
  }
}
