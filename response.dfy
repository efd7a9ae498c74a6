/**
 * response.go: `newLambdaResponse`, which turns what the handler wrote into
 * the combined Lambda response. A per-type encoder runs first; its error
 * wins; otherwise the status code is copied and the body is sent as text or,
 * for binary content, as standard base64.
 */
module ResponseEncoder {
  import opened Wrappers
  import opened GoStrings
  import opened Errors
  import opened GoContext
  import opened Http
  import opened Lambda
  import Base64
  import Sqs

  /** Listed as a content type, it makes every body binary. */
  const AcceptAllContentType: ByteString := "*/*"
  /** Listed as a content encoding, it makes every body binary. */
  const AcceptAllContentEncoding: ByteString := "*"
  const ContentTypeHeader: ByteString := "Content-Type"
  const ContentEncodingHeader: ByteString := "Content-Encoding"

  /** What `newLambdaResponse` reads from its options: the binary content types and content encodings. */
  datatype BinarySettings = BinarySettings(binaryContentTypes: set<ByteString>, binaryContentEncodings: set<ByteString>)

  /** A per-type encoder whose code is not part of this model: the response it starts from, and its error. */
  type Encoder = Response -> (LambdaResponse, Option<Error>)

  /** The body is binary when a wildcard or the response's own type or encoding is listed. */
  predicate IsBinary(opts: BinarySettings, contentType: ByteString, contentEncoding: ByteString)
  {
    || AcceptAllContentType in opts.binaryContentTypes
    || contentType in opts.binaryContentTypes
    || AcceptAllContentEncoding in opts.binaryContentEncodings
    || contentEncoding in opts.binaryContentEncodings
  }

  /** The binary decision for what the handler recorded. */
  predicate RecordedBinary(w: Recorder, opts: BinarySettings)
  {
    IsBinary(opts, HeaderGet(w.header, ContentTypeHeader), HeaderGet(w.header, ContentEncodingHeader))
  }

  /** The encoder of the request type; the types without one leave the zero response and no error. */
  function Encoded(requestType: RequestType, result: Response, v1: Encoder, alb: Encoder, v2: Encoder): (LambdaResponse, Option<Error>)
  {
    match requestType
    case APIGatewayV1 => v1(result)
    case ALB => alb(result)
    case APIGatewayV2 => v2(result)
    case SQS => Sqs.NewSQSResponse(result)
    case _ => (ZeroLambdaResponse, None)
  }

  /**
   * `newLambdaResponse`: an encoder error comes back with the encoder's
   * response untouched; otherwise the status is the recorded one, the
   * encoder's headers and cookies stay, and the body is base64 (flag set)
   * exactly when it is binary, the recorded bytes (flag as the encoder left
   * it) otherwise.
   */
  function NewLambdaResponse(w: Recorder, opts: BinarySettings, requestType: RequestType, v1: Encoder, alb: Encoder, v2: Encoder): (r: (LambdaResponse, Option<Error>))
    ensures var enc := Encoded(requestType, RecorderResult(w), v1, alb, v2);
      && (enc.1.Some? ==> r == enc)
      && (enc.1.None? ==> r.1 == None)
    ensures requestType !in {APIGatewayV1, ALB, APIGatewayV2} ==> r.1 == None
    ensures requestType !in {APIGatewayV1, ALB, APIGatewayV2} ==>
      r.0.headers == None && r.0.multiValueHeaders == None && r.0.cookies == []
    ensures r.1.None? ==>
      var enc := Encoded(requestType, RecorderResult(w), v1, alb, v2).0;
      && r.0.statusCode == w.code
      && r.0.headers == enc.headers
      && r.0.multiValueHeaders == enc.multiValueHeaders
      && r.0.cookies == enc.cookies
    ensures r.1.None? && RecordedBinary(w, opts) ==> r.0.isBase64Encoded && r.0.body == Base64.Encode(w.body)
    ensures r.1.None? && !RecordedBinary(w, opts) ==>
      r.0.body == w.body && r.0.isBase64Encoded == Encoded(requestType, RecorderResult(w), v1, alb, v2).0.isBase64Encoded
  {
    var result := RecorderResult(w);
    var (resp, err) := Encoded(requestType, result, v1, alb, v2);
    if err.Some? then (resp, err)
    else
      var resp := resp.(statusCode := result.statusCode);
      if RecordedBinary(w, opts) then (resp.(body := Base64.Encode(w.body), isBase64Encoded := true), None)
      else (resp.(body := w.body), None)
  }

  /** A base64 body decodes back to the recorded bytes. */
  lemma BinaryBodyRoundTrip(w: Recorder, opts: BinarySettings, requestType: RequestType, v1: Encoder, alb: Encoder, v2: Encoder)
    requires NewLambdaResponse(w, opts, requestType, v1, alb, v2).1.None?
    requires RecordedBinary(w, opts)
    ensures var r := NewLambdaResponse(w, opts, requestType, v1, alb, v2).0;
      r.isBase64Encoded && Base64.Decode(r.body) == Some(w.body)
  {
    Base64.DecodeEncode(w.body);
  }

  /** A listed Content-Encoding alone, whatever the Content-Type, makes the body base64. */
  lemma ContentEncodingAloneIsBinary(w: Recorder, opts: BinarySettings, requestType: RequestType, v1: Encoder, alb: Encoder, v2: Encoder)
    requires HeaderGet(w.header, ContentEncodingHeader) in opts.binaryContentEncodings
    requires AcceptAllContentType !in opts.binaryContentTypes
    requires HeaderGet(w.header, ContentTypeHeader) !in opts.binaryContentTypes
    requires NewLambdaResponse(w, opts, requestType, v1, alb, v2).1.None?
    ensures var r := NewLambdaResponse(w, opts, requestType, v1, alb, v2).0;
      r.isBase64Encoded && Base64.Decode(r.body) == Some(w.body)
  {
    BinaryBodyRoundTrip(w, opts, requestType, v1, alb, v2);
  }

  /** With nothing listed the recorded bytes go out as text, and an SQS response carries only status and body. */
  lemma SQSTextResponse(w: Recorder, v1: Encoder, alb: Encoder, v2: Encoder)
    ensures NewLambdaResponse(w, BinarySettings({}, {}), SQS, v1, alb, v2) ==
      (LambdaResponse(w.code, None, None, [], w.body, false), None)
  {
  }
}
