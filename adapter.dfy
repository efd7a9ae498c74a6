/**
 * adapter.go: `New` and the `lambdaHandler` it returns. One invocation
 * normalizes the event, builds the HTTP request, serves it with the handler
 * on a fresh recorder and encodes the recorded response; an error in the
 * first two steps comes back before the handler runs.
 */
module Adapter {
  import opened Wrappers
  import opened GoStrings
  import opened Errors
  import opened GoContext
  import opened Http
  import opened Lambda
  import opened AlgnhsaOptions
  import BinaryTypeMap

  /** `lambdaHandler`: the HTTP handler and the options it shares with `New`'s caller. */
  datatype LambdaHandler = LambdaHandler(httpHandler: Handler, opts: Options)

  /** `newLambdaRequest`, which detects and normalizes the event; not part of this model. */
  type EventNormalizer = (Context, ByteString, Options) -> Result<LambdaRequest, Error>
  /** The one-argument `newHTTPRequest` the pipeline calls; not part of this model. */
  type RequestBuilder = LambdaRequest -> Result<Request, Error>
  /** The response encoder as the pipeline calls it, with the content-type map and the request type. */
  type ResponseEncoder = (Recorder, map<ByteString, bool>, RequestType) -> (LambdaResponse, Option<Error>)
  /** `json.Marshal` of the response; not part of this model. */
  type Marshal = LambdaResponse -> Result<ByteString, Error>

  /**
   * `New`: a nil handler becomes `defaultServeMux`, nil options become the
   * shared `defaultOptions`, and the chosen options get their content-type
   * map built before they are stored.
   */
  method New(handler: Option<Handler>, opts: Options?, defaultOptions: Options, defaultServeMux: Handler)
    returns (lh: LambdaHandler)
    modifies if opts == null then {defaultOptions} else {opts}
    ensures lh.httpHandler == (if handler.Some? then handler.value else defaultServeMux)
    ensures lh.opts == (if opts == null then defaultOptions else opts)
    ensures lh.opts.binaryContentTypeMap == BinaryTypeMap.TrueMap(lh.opts.binaryContentTypes)
    ensures lh.opts.binaryContentTypes == old(lh.opts.binaryContentTypes)
    ensures lh.opts.useProxyPath == old(lh.opts.useProxyPath)
    ensures lh.opts.translateQueryStringArrayParam == old(lh.opts.translateQueryStringArrayParam)
  {
    var h := if handler.Some? then handler.value else defaultServeMux;
    var o := if opts == null then defaultOptions else opts;
    o.SetBinaryContentTypeMap();
    return LambdaHandler(h, o);
  }

  /**
   * `handleEvent`, with the requests the handler served as a third result:
   * a normalizer or builder error is returned with the zero response and no
   * request served; otherwise the handler serves the built request exactly
   * once and the encoder's answer for the event's request type is returned.
   */
  function HandleEvent(lh: LambdaHandler, ctx: Context, payload: ByteString,
                       newLambdaRequest: EventNormalizer, newHTTPRequest: RequestBuilder,
                       newLambdaResponse: ResponseEncoder): (r: (LambdaResponse, Option<Error>, seq<Request>))
    reads lh.opts
    ensures var eventReq := newLambdaRequest(ctx, payload, lh.opts);
      && (eventReq.Failure? ==> r == (ZeroLambdaResponse, Some(eventReq.error), []))
      && (eventReq.Success? && newHTTPRequest(eventReq.value).Failure? ==>
            r == (ZeroLambdaResponse, Some(newHTTPRequest(eventReq.value).error), []))
    ensures |r.2| <= 1
    ensures r.2 != [] ==>
      var eventReq := newLambdaRequest(ctx, payload, lh.opts).value;
      && newHTTPRequest(eventReq) == Success(r.2[0])
      && (r.0, r.1) == newLambdaResponse(lh.httpHandler(r.2[0]), lh.opts.binaryContentTypeMap, eventReq.requestType)
    ensures r.2 == [] <==>
      (newLambdaRequest(ctx, payload, lh.opts).Failure? || newHTTPRequest(newLambdaRequest(ctx, payload, lh.opts).value).Failure?)
  {
    var eventReq := newLambdaRequest(ctx, payload, lh.opts);
    if eventReq.Failure? then (ZeroLambdaResponse, Some(eventReq.error), [])
    else
      var req := newHTTPRequest(eventReq.value);
      if req.Failure? then (ZeroLambdaResponse, Some(req.error), [])
      else
        var w := lh.httpHandler(req.value);
        var (resp, err) := newLambdaResponse(w, lh.opts.binaryContentTypeMap, eventReq.value.requestType);
        (resp, err, [req.value])
  }

  /** `Invoke`: a `handleEvent` error comes back with nil bytes; otherwise the marshalled response. */
  function Invoke(lh: LambdaHandler, ctx: Context, payload: ByteString,
                  newLambdaRequest: EventNormalizer, newHTTPRequest: RequestBuilder,
                  newLambdaResponse: ResponseEncoder, marshal: Marshal): (r: (Result<ByteString, Error>, seq<Request>))
    reads lh.opts
    ensures var handled := HandleEvent(lh, ctx, payload, newLambdaRequest, newHTTPRequest, newLambdaResponse);
      && r.1 == handled.2
      && (handled.1.Some? ==> r.0 == Failure(handled.1.value))
      && (handled.1.None? ==> r.0 == marshal(handled.0))
  {
    var (resp, err, served) := HandleEvent(lh, ctx, payload, newLambdaRequest, newHTTPRequest, newLambdaResponse);
    if err.Some? then (Failure(err.value), served) else (marshal(resp), served)
  }

  /** A failed invocation with nothing served failed before the handler: in normalization or in request building. */
  lemma UnservedFailureIsEarly(lh: LambdaHandler, ctx: Context, payload: ByteString,
                               newLambdaRequest: EventNormalizer, newHTTPRequest: RequestBuilder,
                               newLambdaResponse: ResponseEncoder, marshal: Marshal)
    requires Invoke(lh, ctx, payload, newLambdaRequest, newHTTPRequest, newLambdaResponse, marshal).1 == []
    ensures var eventReq := newLambdaRequest(ctx, payload, lh.opts);
      && Invoke(lh, ctx, payload, newLambdaRequest, newHTTPRequest, newLambdaResponse, marshal).0 ==
           Failure(if eventReq.Failure? then eventReq.error else newHTTPRequest(eventReq.value).error)
  {
  }
}
