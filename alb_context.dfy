/**
 * alb/context.go: the load-balancer event stored in a request's context and
 * `TargetGroupRequestFromContext`.
 */
module AlbContext {
  import opened Wrappers
  import opened Events
  import opened GoContext

  /** The alb package's private `requestContextKey` (0), distinct from algnhsa's key 0. */
  const RequestContextKey := AlbKey(0)

  /** `TargetGroupRequestFromContext`: the stored event, or the zero event and false. */
  function TargetGroupRequestFromContext(ctx: Context): (r: (ALBRequest, bool))
    ensures r.1 <==> Lookup(ctx, RequestContextKey).Some? && Lookup(ctx, RequestContextKey).value.ALBRequestValue?
    ensures r.1 ==> Lookup(ctx, RequestContextKey) == Some(ALBRequestValue(r.0))
    ensures !r.1 ==> r.0 == ZeroALBRequest
  {
    match Lookup(ctx, RequestContextKey)
    case Some(ALBRequestValue(event)) => (event, true)
    case _ => (ZeroALBRequest, false)
  }

  /** `newContext`: one binding of the event under the package key. */
  function NewContext(ctx: Context, event: ALBRequest): (r: Context)
    ensures Keys(r) == Keys(ctx) + {RequestContextKey}
    ensures forall k :: k != RequestContextKey ==> Lookup(r, k) == Lookup(ctx, k)
    ensures TargetGroupRequestFromContext(r) == (event, true)
  {
    WithValue(ctx, RequestContextKey, ALBRequestValue(event))
  }

  /** A context without the key yields the zero event and false. */
  lemma LookupWithoutKey(ctx: Context)
    requires RequestContextKey !in Keys(ctx)
    ensures TargetGroupRequestFromContext(ctx) == (ZeroALBRequest, false)
  {
  }

  /** A later event shadows an earlier one. */
  lemma LaterEventShadows(ctx: Context, first: ALBRequest, second: ALBRequest)
    ensures TargetGroupRequestFromContext(NewContext(NewContext(ctx, first), second)) == (second, true)
  {
  }
}
