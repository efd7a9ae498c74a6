/**
 * context.go: the API Gateway event and the Lambda request id stored in a
 * request's context, and the two lookups handlers use to get them back.
 */
module ProxyContext {
  import opened Wrappers
  import opened GoStrings
  import opened Events
  import opened GoContext

  /** algnhsa's private keys `requestContextKey` (0) and `requestIDContextKey` (1). */
  const RequestContextKey := AlgnhsaKey(0)
  const RequestIDContextKey := AlgnhsaKey(1)

  /** `ProxyRequestFromContext`: the stored event, or the zero event and false. */
  function ProxyRequestFromContext(ctx: Context): (r: (ProxyRequest, bool))
    ensures r.1 <==> Lookup(ctx, RequestContextKey).Some? && Lookup(ctx, RequestContextKey).value.ProxyRequestValue?
    ensures r.1 ==> Lookup(ctx, RequestContextKey) == Some(ProxyRequestValue(r.0))
    ensures !r.1 ==> r.0 == ZeroProxyRequest
  {
    match Lookup(ctx, RequestContextKey)
    case Some(ProxyRequestValue(event)) => (event, true)
    case _ => (ZeroProxyRequest, false)
  }

  /** `RequestIDFromContext`: the stored request id, or "" and false. */
  function RequestIDFromContext(ctx: Context): (r: (ByteString, bool))
    ensures r.1 <==> Lookup(ctx, RequestIDContextKey).Some? && Lookup(ctx, RequestIDContextKey).value.StringValue?
    ensures r.1 ==> Lookup(ctx, RequestIDContextKey) == Some(StringValue(r.0))
    ensures !r.1 ==> r.0 == []
  {
    match Lookup(ctx, RequestIDContextKey)
    case Some(StringValue(id)) => (id, true)
    case _ => ([], false)
  }

  /**
   * `newContext`: when the runtime's Lambda context is present its request
   * id is stored first; the event is stored last.
   */
  function NewContext(ctx: Context, event: ProxyRequest): (r: Context)
    ensures ProxyRequestFromContext(r) == (event, true)
    ensures LambdaContextFrom(ctx).Some? ==> RequestIDFromContext(r) == (LambdaContextFrom(ctx).value.awsRequestID, true)
    ensures LambdaContextFrom(ctx).None? ==> RequestIDFromContext(r) == RequestIDFromContext(ctx)
    ensures forall k :: k != RequestContextKey && k != RequestIDContextKey ==> Lookup(r, k) == Lookup(ctx, k)
  {
    var lc := LambdaContextFrom(ctx);
    var withID := if lc.Some? then WithValue(ctx, RequestIDContextKey, StringValue(lc.value.awsRequestID)) else ctx;
    var r := WithValue(withID, RequestContextKey, ProxyRequestValue(event));
    assert Lookup(r, RequestIDContextKey) == Lookup(withID, RequestIDContextKey);
    r
  }

  /** A bare context has no request id. */
  lemma RequestIDFromBackground()
    ensures RequestIDFromContext(Background) == ([], false)
  {
  }

  /** A request id stored under the request-id key is found again. */
  lemma RequestIDStored(ctx: Context, id: ByteString)
    ensures RequestIDFromContext(WithValue(ctx, RequestIDContextKey, StringValue(id))) == (id, true)
  {
  }

  /** Without a Lambda context, a request built over the background context has no request id. */
  lemma NewContextWithoutLambda(event: ProxyRequest)
    ensures RequestIDFromContext(NewContext(Background, event)) == ([], false)
  {
  }

  /** The two keys are distinct: storing under one leaves the other's lookup as it was. */
  lemma KeysIndependent(ctx: Context, v: Any)
    ensures RequestIDFromContext(WithValue(ctx, RequestContextKey, v)) == RequestIDFromContext(ctx)
    ensures ProxyRequestFromContext(WithValue(ctx, RequestIDContextKey, v)) == ProxyRequestFromContext(ctx)
  {
  }
}
