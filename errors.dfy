/** The error values the translation engine returns or passes on. */
module Errors {
  import opened GoStrings

  datatype Error =
    /** `json.Unmarshal` or `json.Marshal` failed; the text is the decoder's message. */
    | JsonError(message: ByteString)
    /** apigw.go: `errNonAPIGateway`. */
    | NonAPIGateway
    /** httpapi.go: `errAPIGatewayV2UnexpectedRequest`. */
    | APIGatewayV2UnexpectedRequest
    /** apiwsgw.go: `errAPIGatewayWebsocketUnexpectedRequest`. */
    | APIGatewayWebsocketUnexpectedRequest
    /** alb.go: `errNonALBEvent`. */
    | NonALBEvent
    /** alb.go: `errALBExpectedMultiValueHeaders`. */
    | ALBExpectedMultiValueHeaders
    /** `url.EscapeError`: the offending escape, at most three bytes from its `%`. */
    | InvalidURLEscape(escape: ByteString)
    /** `http.NewRequest` refused the method. */
    | InvalidMethod(httpMethod: ByteString)
    /** An error produced by a collaborator that is not part of this model. */
    | External(message: ByteString)
}
