# algnhsa translation engine in Dafny

This project models the core of algnhsa, a Go adapter that runs an ordinary
`http.Handler` behind AWS Lambda. Every invocation goes through the same steps:

1. **Normalizing.** A Lambda event is turned into the adapter's common request
   record, `lambdaRequest`. There are five event shapes:
   - an API Gateway REST event (payload version 1.0);
   - an API Gateway HTTP API event (payload version 2.0);
   - an API Gateway WebSocket event;
   - an Application Load Balancer event;
   - an SQS batch.
2. **Building.** From that record an `http.Request` is built. The query, the
   percent-decoded path and the merged header are rebuilt, and so are the body
   reader, the request URI and the request context.
3. **Serving.** The handler serves the request on a fresh
   `httptest.ResponseRecorder`.
4. **Encoding.** What the handler recorded is turned back into a Lambda
   response. The body is sent as base64 when the configured binary content
   types or content encodings say so.

The load balancer has its own package (`alb`, with `config`), and it is
modelled as a second pipeline with its own builder, encoder and options.

The model is organised by the source's files:

- One Dafny module per Go file:
  - normalizers: `Apigw`, `HttpApi`, `ApiWsGw`, `AlbEvent`, `Sqs`;
  - request builders: `RequestBuilder`, `AlbRequestBuilder`;
  - response encoders: `ResponseEncoder`, `AlbResponse`;
  - options: `AlgnhsaOptions`, `ConfigOptions`;
  - contexts: `ProxyContext`, `AlbContext`;
  - pipelines: `Adapter`, `AlbAdapter`.
- Modules for the pieces of Go's standard library that the code relies on:
  - `UrlEscape`: `url.PathUnescape`, path and query escaping.
  - `UrlValues`: `url.Values` and its sorted `Encode`.
  - `GoPath`: `path.Join("/", p)`.
  - `Http`: `CanonicalHeaderKey`, `Header.Get`, `URL.RequestURI`, `http.NewRequest`.
  - `Base64`: RFC 4648 standard base64.
  - `GoContext`: `context.WithValue` and `Value`.
- `TestVectors` holds concrete examples.

Go strings are byte strings: `ByteString` is a sequence of characters below 256.

Modelling choices:

- **Pure functions and loops.** Pure Go functions are Dafny functions. The
  loops over Go maps are methods with loop invariants; each loop takes its
  next key with `:|`, so no iteration order is assumed.
- **Options.** The two `Options` types are classes, updated in place by
  `SetBinaryContentTypeMap`.
- **Errors.** An `error` result is a `Result` failure. Where Go returns a
  value and an error together, the model returns both.
- **JSON.** Decoding a payload is outside the model. Each normalizer receives
  the outcome of `json.Unmarshal` as a `Result`, so the decode error path is
  kept. `json.Marshal` is a function parameter.
- **The handler.** It is a function from the request to the recorder state it
  leaves behind. The pipelines also return the list of requests the handler served, so that
  "the handler is not invoked" can be stated.

In these places the model follows the code:

- `getALBSourceIP` does not trim whitespace from the forwarded address (alb.go:17-25).
- No normalizer defaults the method to GET; only `http.NewRequest` does, in the builders.
- The host comes only from the single-value `Host` header, in both builders
  (request.go:26, alb/request.go:41); a multi-value `Host` is ignored. The
  load balancer's own test, alb/adapter_test.go:367-379 (with the headers of
  line 24), sends `Host` only as a multi-value header and expects the handler
  to see `foo.bar.com` as `r.Host`; by alb/request.go:41 the host is "" there.
  `AlbRequestBuilder.MultiValueHostIgnored` states what the code does.

## Model

| member | source | states |
|---|---|---|
| GoStrings.ToLower | apiwsgw.go:28 | ASCII lower-casing keeps the length, leaves no upper-case letter and changes only upper-case letters |
| GoStrings.ToLowerIdempotent | apiwsgw.go:28 | lower-casing twice is lower-casing once |
| GoStrings.BeforeFirst | alb.go:19-21 | the first piece of `SplitN(s, ",", 2)` is a prefix free of the separator that ends at the separator or at the end |
| GoStrings.BeforeFirstUnique | alb.go:19-21 | any such prefix is that first piece |
| UrlEscape.PathUnescape | request.go:35-38 | decoding never lengthens; it shortens when there is a `%`; a failure is an escape error of at most three bytes |
| UrlEscape.PathUnescapeSucceedsIff | request.go:35-38 | `url.PathUnescape` fails exactly when some `%` is not followed by two hexadecimal digits |
| UrlEscape.PathUnescapeIdentityIff | request.go:41-43 | decoding leaves the path unchanged exactly when it holds no `%`, which is when `RawPath` is cleared |
| UrlEscape.EscapePathRoundTrip | request.go:73 | unescaping the escaping of any path gives the path back |
| UrlEscape.EscapePathOfSafe | request.go:73 | a path of path-safe bytes is its own escaping |
| UrlEscape.QueryEscape | request.go:28 | query escaping never shortens and produces only unreserved bytes, `+` and `%` |
| UrlEscape.QueryUnescape | request.go:28 | `url.QueryUnescape` reads `+` as a space and `%XY` as a byte, never lengthens, and fails only with an escape error of at most three bytes |
| UrlEscape.QueryEscapeRoundTrip | request.go:28 | unescaping the query escaping of any text gives the text back |
| Base64.SymbolValue | response.go:55 | every alphabet character has a 6-bit value that maps back to it |
| Base64.Encode | response.go:55 | standard encoding has length `(n+2)/3*4` and only alphabet characters and `=` |
| Base64.Decode | request.go:47-49 | a successful decode had whole groups and yields at most three bytes per group |
| Base64.GroupRoundTrip | request.go:47-49 | a full group of three bytes decodes back to those bytes |
| Base64.DecodeEncode | request.go:47-49 | decoding the standard encoding of any bytes gives them back |
| UrlValues.SingleValues | request.go:18-20 | `Values.Set` per key gives each key the one-element list of its value |
| UrlValues.MergedQuery | request.go:17-23 | the query has the keys of both maps, multi-value lists win, other keys have `[v]` |
| UrlValues.SetValues | request.go:18-20 | the loop of `params.Set(k, v)` overlays the single values on the parameters |
| UrlValues.AssignValues | request.go:21-23 | the loop of `params[k] = vals` overlays the multi-value map on the parameters |
| UrlValues.LessTotal | request.go:28 | byte-wise string order is total |
| UrlValues.LessIrreflexive | request.go:28 | no string sorts before itself |
| UrlValues.LessAsymmetric | request.go:28 | no two strings sort before each other |
| UrlValues.LessTransitive | request.go:28 | byte-wise string order is transitive |
| UrlValues.LeastExists | request.go:28 | every non-empty set of keys has a least key |
| UrlValues.LeastUnique | request.go:28 | a set has at most one least key |
| UrlValues.SortedKeys | request.go:28 | `Encode` visits every key once, in strictly increasing byte order |
| UrlValues.PieceParses | request.go:28 | every `key=value` piece of the encoded query holds no `&` or `;`, splits at its first `=` into the escaped key and value, and both unescape to the original key and value |
| UrlValues.EncodeEmptyIff | request.go:28 | the encoded query is empty exactly when every key has an empty list |
| GoPath.Split | request.go:31 | splitting on `/` gives at least one piece, none holding `/` |
| GoPath.JoinSplit | request.go:31 | joining the pieces with `/` gives the text back |
| GoPath.SplitJoin | request.go:31 | splitting a join of clean segments gives the segments back |
| GoPath.ResolveGood | request.go:31 | cleaning keeps segments that are not empty, `.` or `..` |
| GoPath.JoinRootOfCleanRelative | request.go:31 | `path.Join("/", p)` of a clean relative path is `"/" + p` |
| GoPath.JoinRootIdempotent | request.go:31 | joining an already joined path to the root changes nothing |
| Lambda.ProxyPath | apigw.go:27-28 | the proxy path always starts with `/` |
| Lambda.ProxyPathOfClean | apigw.go:27-28 | a clean proxy parameter becomes `/` followed by it |
| Lambda.ProxyPathMissing | apigw.go:27-28 | a missing proxy parameter gives `/` |
| GoContext.Lookup | context.go:30 | `Value` is nil exactly when the key is bound nowhere in the chain |
| GoContext.LambdaContextFrom | context.go:21 | a Lambda context found is the one stored under the runtime's key |
| Http.CanonicalCase | request.go:66 | recasing keeps the length, changes only letter case and keeps token bytes tokens |
| Http.CanonicalHeaderKeyShape | request.go:66 | for a key of token bytes, the first letter and every letter after `-` are upper case and all other letters lower case |
| Http.CanonicalHeaderKeyCaseOnly | request.go:66 | canonicalising a header key only changes letter case |
| Http.CanonicalHeaderKeyIdempotent | request.go:66 | canonicalising a canonical key changes nothing |
| Http.HeaderGet | response.go:49-50 | `Header.Get` is the first value under the canonical key, or "" when there is none |
| Http.SetHeaders | request.go:62-64 | the loop of `Header.Set` stores each single value as a one-element list under its canonical key and keeps the other entries |
| Http.AssignHeaders | request.go:65-67 | the loop assigns each multi-value list under its canonical key and keeps the other entries |
| Http.MergeHeaders | request.go:62-67 | the header has the canonical keys of both maps; under a multi-value key's canonical form a multi-value list wins |
| Http.OverlaidTwice | request.go:62-67 | the two loops one after the other give the merged header |
| Http.MultiValueWins | request.go:62-67 | a multi-value key without a canonical collision keeps its whole list, whatever the single-value headers say |
| Http.SingleValueKept | request.go:62-67 | a single-value key without a multi-value or single-value collision ends up as `[v]` |
| Http.DecodePath | request.go:34-43 | a bad escape is the error; otherwise `Path` is the decoding and `RawPath` is cleared exactly when equal to it |
| Http.DecodePathKeepsRawIff | request.go:41-43 | `RawPath` survives exactly when the raw path holds a `%` |
| Http.DecodedPathEscapesToRaw | request.go:41-43 | a surviving valid raw path is what the escaped path shows |
| Http.EscapedPathDecodes | request.go:73 | the escaped path decodes back to the path and is empty only for an empty path |
| Http.EscapedPathNoQuery | request.go:73 | the escaped path holds no `?` |
| Http.RequestURIIgnoresHost | request.go:73 | the request URI does not depend on the host |
| Http.RequestURIParts | request.go:73 | the request URI is the path (or `/`) and, exactly when the query is non-empty, `?` and the query |
| Http.EventBody | request.go:46-49 | a base64-flagged body is read through a decoder, any other body as it is |
| Http.EventBodyOfEncoded | request.go:46-49 | a flagged body holding the encoding of some bytes reads back as those bytes |
| Http.RemoveEmptyPort | request.go:52 | a host ending in `:` loses the colon; any other host is kept |
| Http.NewRequest | request.go:52-55 | an empty method becomes GET, an invalid one is an error; the request starts with an empty header and the background context |
| Http.RecorderResult | response.go:28 | the result carries the recorded status, header and body |
| RequestBuilder.BuildURL | request.go:16-43 | the URL has the `Host` header, the raw or proxy path, the merged query encoded, and the decoded path |
| RequestBuilder.NewHTTPRequest | request.go:15-76 | the path error comes first, then the method error (and only these); otherwise URL, host, method, body, merged header, remote address, request URI and context are as built |
| ProxyContext.ProxyRequestFromContext | context.go:29-32 | the event is found exactly when one is stored under the request key; otherwise the zero event and false |
| ProxyContext.RequestIDFromContext | context.go:35-38 | the id is found exactly when a string is stored under the id key; otherwise "" and false |
| ProxyContext.RequestIDFromBackground | context.go:35-38 | a bare context has no request id |
| ProxyContext.RequestIDStored | context.go:21-23 | an id stored under the id key is found again |
| ProxyContext.NewContext | context.go:17-26 | the event is found again; the Lambda request id is stored when present; every other key is unchanged |
| ProxyContext.NewContextWithoutLambda | context.go:21-23 | without a Lambda context no request id appears |
| ProxyContext.KeysIndependent | context.go:12-15 | storing under one key leaves the other key's lookup unchanged |
| AlbContext.TargetGroupRequestFromContext | alb/context.go:18-21 | the event is found exactly when one is stored under the package key |
| AlbContext.NewContext | alb/context.go:13-15 | adds exactly the package key, other lookups unchanged, event found again |
| AlbContext.LookupWithoutKey | alb/context.go:18-21 | without the key the lookup gives the zero event and false |
| AlbContext.LaterEventShadows | alb/context.go:13-21 | of two stored events the later one is found |
| Apigw.NewAPIGatewayRequest | apigw.go:16-43 | a decode error or an empty account id is the error (and only these); otherwise every field is copied, with the proxy path when configured |
| HttpApi.NewAPIGatewayV2HTTPRequest | httpapi.go:16-41 | a version other than "2.0" is the error; otherwise method, path and source come from the HTTP context and there are no multi-value maps |
| ApiWsGw.ApplyOverride | apiwsgw.go:26-39 | a matching action entry replaces path and method and adds `Connection-Id`; otherwise nothing changes |
| ApiWsGw.NewAPIGatewayWebsocketRequest | apiwsgw.go:17-59 | an empty API id or event type is the error; the proxy path is used only when no entry matched |
| ApiWsGw.OverrideIgnoresCase | apiwsgw.go:28 | event types that differ only in ASCII case select the same entry |
| ApiWsGw.OverridePathWins | apiwsgw.go:54-56 | with a matching entry the entry's path is kept even when the proxy path is configured |
| AlbEvent.GetALBSourceIP | alb.go:17-25 | the address is the first value of `x-forwarded-for` up to its first comma, or "" when missing |
| AlbEvent.NewALBRequest | alb.go:27-52 | the target group is checked before the multi-value headers; on success every field is copied and the source is the forwarded address |
| AlbEvent.SourceIPOfList | alb.go:17-25 | whatever follows the first comma and whatever later values exist, the address is the text before the comma |
| AlbEvent.SourceIPCaseSensitive | alb.go:18 | the lookup is case-sensitive: only the exact key `x-forwarded-for` is consulted |
| Sqs.NewSQSRequest | sqs.go:20-34 | POST /sqs with the marshalled records as body, the marshal error passed on, and the batch retrievable from the context |
| Sqs.NewSQSResponse | sqs.go:36-39 | the zero response and no error |
| Sqs.SQSRequestFromContext | sqs.go:42-49 | the batch is found exactly when one is stored under the SQS key |
| AlbRequestBuilder.HasMVHeaders | alb/request.go:19-21 | multi-value mode is on exactly when there are multi-value headers |
| AlbRequestBuilder.BuildQuery | alb/request.go:27-38 | in multi-value mode the query is exactly the multi-value map; otherwise exactly the single values |
| AlbRequestBuilder.BuildURL | alb/request.go:24-55 | the URL has the `Host` header, the event path, the query of the mode encoded, and the decoded path |
| AlbRequestBuilder.BuildHeader | alb/request.go:69-78 | the header overlays only the map of the mode |
| AlbRequestBuilder.MultiValueHostIgnored | alb/request.go:40-44 | the URL's host is the single-value `Host` header ("" when missing), whatever the multi-value headers hold |
| AlbRequestBuilder.NewHTTPRequest | alb/request.go:23-87 | path error, then method error; otherwise the header of the mode, no remote address, the request URI and the event in the context |
| ResponseEncoder.NewLambdaResponse | response.go:27-62 | an encoder error is returned untouched; otherwise status copied, base64 body and flag exactly when binary, the recorded text otherwise |
| ResponseEncoder.BinaryBodyRoundTrip | response.go:55-56 | a binary body decodes back to the recorded bytes |
| ResponseEncoder.ContentEncodingAloneIsBinary | response.go:51-56 | a listed Content-Encoding alone makes the body base64 |
| ResponseEncoder.SQSTextResponse | response.go:32-58 | an SQS response with nothing listed carries the recorded status and body as text and nothing else |
| AlbResponse.NewALBResponse | alb/response.go:12-45 | never fails; status copied; the whole header in multi-value mode, one value per key otherwise; base64 exactly when binary by content type |
| AlbResponse.FirstValueOfCanonical | alb/response.go:25-32 | under a canonical key the single-value header is the key's first recorded value |
| AlbResponse.EncodesOneHeaderMap | alb/response.go:21-33 | exactly one of the two header maps is present, the multi-value one exactly in multi-value mode |
| AlbResponse.EncodedBodyRoundTrip | alb/response.go:37-39 | a base64 body decodes back to the recorded bytes |
| BinaryTypeMap.TrueMapKeys | options.go:19-25 | the map's keys are exactly the listed content types |
| BinaryTypeMap.TrueMapAllTrue | options.go:22 | every entry is true |
| BinaryTypeMap.ListedIff | options.go:19-25 | a content type reads true exactly when it is listed |
| BinaryTypeMap.TrueMapSize | options.go:20-23 | there are no more entries than listed strings |
| BinaryTypeMap.TrueMapRepeat | options.go:21-23 | listing a type again changes nothing |
| BinaryTypeMap.TrueMapEmptyIff | options.go:20-24 | the map is empty exactly when the list is |
| AlgnhsaOptions.Options.constructor | options.go:4-17 | an options literal holds the given fields and an empty (nil) content-type map |
| ConfigOptions.Options.constructor | config/options.go:4-13 | an options literal holds the given fields and an empty (nil) content-type map |
| AlgnhsaOptions.Options.SetBinaryContentTypeMap | options.go:19-25 | the map is replaced by the listed types, each true; the other fields are unchanged |
| ConfigOptions.Options.SetBinaryContentTypeMap | config/options.go:15-21 | the exported map is replaced by the listed types, each true; the other fields are unchanged |
| Adapter.New | adapter.go:15-24 | a nil handler becomes the default mux, nil options the default options, whose map is built |
| Adapter.HandleEvent | adapter.go:44-59 | a normalizer or builder error is returned with the zero response and nothing served; otherwise one request is served and encoded for its request type |
| Adapter.Invoke | adapter.go:33-42 | a handling error comes back with nil bytes; otherwise the marshalled response |
| Adapter.UnservedFailureIsEarly | adapter.go:44-55 | an invocation that served nothing failed with the normalizer's or the builder's error |
| AlbAdapter.HandleEvent | alb/adapter.go:13-24 | a build error gives the zero response, the error and nothing served; otherwise the one request served is the one the builder makes from the event (URL, host, method, body, header of the mode, request URI, context) and its response takes the request's multi-value mode and the options' map |
| TestVectors.PathUnescapeExample | request.go:35-39 | `a%2Fb` decodes to `a/b` |
| TestVectors.EncodedPathExample | request.go:34-43 | `/path/encode%2Ftest%7C` decodes to `/path/encode/test` followed by a vertical bar (`%7C`) |
| TestVectors.Base64Ok | alb/response.go:38 | "ok" is sent as "b2s=" and decodes back |
| TestVectors.CanonicalExample | request.go:66 | `x-b` is canonicalised to `X-B` |
| TestVectors.SourceIPExample | alb.go:17-25 | `1.2.3.4,5.6.7.8` gives `1.2.3.4` |

## Left out

- JSON: `json.Unmarshal` of the payload is replaced by its outcome as a parameter. `json.Marshal` (adapter.go:41, sqs.go:25) is a function parameter.
- `newLambdaRequest` is not part of this model. It is the event-type detector that adapter.go:48 calls.
- The one-argument `newHTTPRequest` that adapter.go:52 calls is not part of this model. The request builder modelled here takes three arguments (request.go:15).
- The `new*RequestContext` helpers the normalizers call are not part of this model. They appear as function parameters.
- The v1, v2 and ALB response encoders that response.go:34-38 dispatch to are not part of this model. They appear as function parameters.
- The `RequestType` declaration is not part of this model. The request types are a datatype.
- `binaryCase` is not modelled: no implementation of it is shown. apigw/adapter.go is not modelled either; it wraps functions of package `apigw` that are not shown.
- The options do not line up across files:
  - response.go:51-54 reads `binaryContentTypes` and `binaryContentEncodings` sets that `Options` (options.go:4-17) does not declare. `ResponseEncoder.BinarySettings` stands for them.
  - adapter.go:58 passes the content-type map where an `*Options` is declared. The adapter therefore takes the response encoder as a parameter.
  - `DebugLog` (adapter.go:38, 45) is not declared, and its printing is left out.
- alb/adapter.go:23 calls `newALBResponse`, while alb/response.go:12 defines `NewALBResponse`. The model calls `AlbResponse.NewALBResponse`.
- `ListenAndServe` and `lambda.Start` are left out. They start the runtime, which is I/O.
- `TranslateQueryStringArrayParam` is a field of `AlgnhsaOptions.Options` with no behaviour. No shown code reads it.
- `ApiWsGw.NewAPIGatewayWebsocketRequest` does not model nil options. apiwsgw.go:27 checks for nil, yet apiwsgw.go:54 dereferences the options anyway, so nil options panic. The model takes `UseProxyPath` and the action table as values.
- `Http.NewRequest` does not model the `url.Parse` of `u.String()`, or the errors a malformed host could raise there. It keeps the URL fields as built.
- `UrlValues.Encode` is not inverted as a whole. `url.ParseQuery` splitting the query at `&` and rebuilding the map is not modelled; `UrlValues.PieceParses` proves the round trip for each `key=value` piece. A key whose list is empty writes no piece and would not come back.
- `Http.NewRequest` does not set `ContentLength` or the protocol fields.
- `Base64.Decode` decodes the whole body at once. The lazy reader's streaming and its skipping of `\r` and `\n` are left out.
- `GoStrings.ToLower` lowers ASCII letters only. Go's `strings.ToLower` also maps other Unicode letters.
- `Http.MergeHeaders` does not say which list is kept when two keys of one map share a canonical form. Go's map iteration order decides that; the contract states that one of them is kept.
- `Http.Recorder` is the recorder's state after the handler returns. A handler that changes the header after writing, or streams, is not distinguished.
