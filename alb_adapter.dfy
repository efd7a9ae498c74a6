/**
 * alb/adapter.go: `HandleEvent` for load balancer events. A request that
 * cannot be built is reported before the handler runs; otherwise the handler
 * serves it once and the response takes the request's multi-value mode.
 */
module AlbAdapter {
  import opened Wrappers
  import opened GoStrings
  import opened Errors
  import opened Events
  import opened GoContext
  import opened Http
  import ConfigOptions
  import AlbRequestBuilder
  import AlbResponse

  /**
   * `HandleEvent`, with the requests the handler served as a third result.
   * A malformed path escape or an invalid method gives the zero response,
   * the error and nothing served; otherwise the built request is served
   * once and encoded with the options' content-type map, multi-value
   * exactly when the request had multi-value headers.
   */
  method HandleEvent(ctx: Context, request: ALBRequest, handler: Handler, opts: ConfigOptions.Options)
    returns (resp: ALBResponse, err: Option<Error>, served: seq<Request>)
    ensures var decoded := DecodePath(AlbRequestBuilder.BuiltURL(request));
      && (decoded.Failure? ==> resp == ZeroALBResponse && err == Some(decoded.error) && served == [])
      && (decoded.Success? && request.httpMethod != [] && !ValidMethod(request.httpMethod) ==>
            resp == ZeroALBResponse && err == Some(InvalidMethod(request.httpMethod)) && served == [])
    ensures |served| <= 1
    ensures served != [] <==> err == None
    ensures served != [] ==>
      && DecodePath(AlbRequestBuilder.BuiltURL(request)).Success?
      && AlbRequestBuilder.BuiltFrom(served[0], ctx, request)
      && AlbResponse.Encodes(resp, handler(served[0]), opts.binaryContentTypeMap, request.multiValueHeaders != map[])
  {
    var built := AlbRequestBuilder.NewHTTPRequest(ctx, request);
    if built.Failure? {
      return ZeroALBResponse, Some(built.error), [];
    }
    var r := built.value;
    var w := handler(r);
    var multiValue := |request.multiValueHeaders| > 0;
    resp, err := AlbResponse.NewALBResponse(w, opts.binaryContentTypeMap, multiValue);
    served := [r];
  }
}
