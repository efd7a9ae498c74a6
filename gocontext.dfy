/**
 * Go's `context.Context` as far as the adapter uses it: a chain of
 * `context.WithValue` bindings over a root, searched innermost first, and
 * aws-lambda-go's `lambdacontext.FromContext`.
 */
module GoContext {
  import opened Wrappers
  import opened GoStrings
  import opened Events

  /** algnhsa's `RequestType`: which kind of Lambda event a request came from. */
  datatype RequestType = Auto | APIGatewayV1 | APIGatewayV2 | ALB | WebSocket | SQS

  /** aws-lambda-go's `lambdacontext.LambdaContext`, reduced to the request id. */
  datatype LambdaContext = LambdaContext(awsRequestID: ByteString)

  /**
   * Context keys. Go compares keys by dynamic type and value, so algnhsa's
   * private `key` type, the alb package's private `key` type, algnhsa's
   * `RequestType` and lambdacontext's key never collide.
   */
  datatype Key = AlgnhsaKey(n: int) | AlbKey(n: int) | RequestTypeKey(t: RequestType) | LambdaContextKey | OtherKey(n: int)

  /** The values stored under keys (Go's `interface{}`). */
  datatype Any =
    | ProxyRequestValue(proxy: ProxyRequest)
    | ALBRequestValue(alb: ALBRequest)
    | SQSEventValue(sqs: SQSEvent)
    | StringValue(s: ByteString)
    | LambdaContextValue(lc: LambdaContext)
    | OtherValue(n: int)

  datatype Context = Background | WithValue(parent: Context, key: Key, val: Any)

  /** The keys bound anywhere along the chain. */
  function Keys(ctx: Context): set<Key>
  {
    match ctx
    case Background => {}
    case WithValue(parent, k, _) => {k} + Keys(parent)
  }

  /** `ctx.Value(key)`: the innermost binding of `key`; `None` is Go's nil. */
  function Lookup(ctx: Context, key: Key): (r: Option<Any>)
    ensures r.None? <==> key !in Keys(ctx)
  {
    match ctx
    case Background => None
    case WithValue(parent, k, v) => if k == key then Some(v) else Lookup(parent, key)
  }

  /** `lambdacontext.FromContext`: the Lambda context stored by the runtime, if any. */
  function LambdaContextFrom(ctx: Context): (r: Option<LambdaContext>)
    ensures r.Some? ==> Lookup(ctx, LambdaContextKey) == Some(LambdaContextValue(r.value))
  {
    match Lookup(ctx, LambdaContextKey)
    case Some(LambdaContextValue(lc)) => Some(lc)
    case _ => None
  }
}
