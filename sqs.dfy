/**
 * sqs.go: an SQS batch becomes a fixed `POST /sqs` request whose body is the
 * encoded records; the batch is stored in the context under the SQS request
 * type and handlers get it back with `SQSRequestFromContext`.
 */
module Sqs {
  import opened Wrappers
  import opened GoStrings
  import opened Errors
  import opened Events
  import opened GoContext
  import opened Lambda
  import Http

  /** Every SQS batch is delivered as `POST /sqs`. */
  const SQSMethod: ByteString := "POST"
  const SQSPath: ByteString := "/sqs"

  /**
   * `newSQSRequest`, returning Go's (request, error) pair. `marshal` stands
   * for `json.Marshal` of the records; its error is returned next to the
   * built request.
   */
  function NewSQSRequest(
    ctx: Context, decoded: Result<SQSEvent, Error>,
    marshal: seq<SQSMessage> -> (ByteString, Option<Error>)): (r: (LambdaRequest, Option<Error>))
    ensures decoded.Failure? ==> r == (ZeroLambdaRequest, Some(decoded.error))
    ensures decoded.Success? ==>
      var e := decoded.value;
      var q := r.0;
      && q.httpMethod == SQSMethod && q.path == SQSPath
      && q.body == marshal(e.records).0
      && r.1 == marshal(e.records).1
      && q.requestType == SQS
      && q.ctx.Some? && SQSRequestFromContext(q.ctx.value) == (e, true)
      && (forall k :: k != RequestTypeKey(SQS) ==> Lookup(q.ctx.value, k) == Lookup(ctx, k))
      && q.queryStringParameters == map[] && q.multiValueQueryStringParameters == map[]
      && q.headers == map[] && q.multiValueHeaders == map[]
      && !q.isBase64Encoded && q.sourceIP == []
  {
    if decoded.Failure? then (ZeroLambdaRequest, Some(decoded.error))
    else
      var event := decoded.value;
      var (body, err) := marshal(event.records);
      var req := LambdaRequest(
        SQSMethod, SQSPath, map[], map[], map[], map[], body, false, [],
        Some(WithValue(ctx, RequestTypeKey(SQS), SQSEventValue(event))),
        SQS);
      (req, err)
  }

  /** `newSQSResponse`: the zero response and no error, whatever the handler wrote. */
  function NewSQSResponse(resp: Http.Response): (r: (LambdaResponse, Option<Error>))
    ensures r == (ZeroLambdaResponse, None)
  {
    (ZeroLambdaResponse, None)
  }

  /** `SQSRequestFromContext`: the stored batch, or the empty batch and false. */
  function SQSRequestFromContext(ctx: Context): (r: (SQSEvent, bool))
    ensures Lookup(ctx, RequestTypeKey(SQS)).None? ==> r == (ZeroSQSEvent, false)
    ensures r.1 <==> Lookup(ctx, RequestTypeKey(SQS)).Some? && Lookup(ctx, RequestTypeKey(SQS)).value.SQSEventValue?
    ensures r.1 ==> Lookup(ctx, RequestTypeKey(SQS)) == Some(SQSEventValue(r.0))
    ensures !r.1 ==> r.0 == ZeroSQSEvent
  {
    var val := Lookup(ctx, RequestTypeKey(SQS));
    if val.None? then (ZeroSQSEvent, false)
    else match val.value
      case SQSEventValue(event) => (event, true)
      case _ => (ZeroSQSEvent, false)
  }
}
