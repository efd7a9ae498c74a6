/**
 * The adapter's own request and response records: `lambdaRequest`, the
 * common shape every event normalizer produces, and `lambdaResponse`, the
 * combined response of response.go.
 */
module Lambda {
  import opened Wrappers
  import opened GoStrings
  import opened Events
  import opened GoContext
  import GoPath

  /** `lambdaRequest`; a `None` context is the nil context of the zero record. */
  datatype LambdaRequest = LambdaRequest(
    httpMethod: ByteString,
    path: ByteString,
    queryStringParameters: StringMap,
    multiValueQueryStringParameters: MultiMap,
    headers: StringMap,
    multiValueHeaders: MultiMap,
    body: ByteString,
    isBase64Encoded: bool,
    sourceIP: ByteString,
    ctx: Option<Context>,
    requestType: RequestType)

  const ZeroLambdaRequest := LambdaRequest([], [], map[], map[], map[], map[], [], false, [], None, Auto)

  /** `lambdaResponse`; a `None` map is a nil map, omitted from the JSON. */
  datatype LambdaResponse = LambdaResponse(
    statusCode: int,
    headers: Option<StringMap>,
    multiValueHeaders: Option<MultiMap>,
    cookies: seq<ByteString>,
    body: ByteString,
    isBase64Encoded: bool)

  const ZeroLambdaResponse := LambdaResponse(0, None, None, [], [], false)

  /** `path.Join("/", pathParameters[ProxyParameter])`: the proxy path parameter, rooted and cleaned. */
  function ProxyPath(pathParameters: StringMap): (p: ByteString)
    ensures |p| > 0 && p[0] == '/'
  {
    GoPath.JoinRoot(Get(pathParameters, ProxyParameter))
  }

  /** A proxy parameter made of clean segments is the path with a leading `/`. */
  lemma ProxyPathOfClean(pathParameters: StringMap)
    requires ProxyParameter in pathParameters && GoPath.AllGood(GoPath.Split(pathParameters[ProxyParameter]))
    ensures ProxyPath(pathParameters) == "/" + pathParameters[ProxyParameter]
  {
    GoPath.JoinRootOfCleanRelative(pathParameters[ProxyParameter]);
  }

  /** A missing proxy parameter gives the root. */
  lemma ProxyPathMissing(pathParameters: StringMap)
    requires ProxyParameter !in pathParameters
    ensures ProxyPath(pathParameters) == "/"
  {
    GoPath.JoinRootSegments([]);
    assert GoPath.Split([]) == [[]];
    assert GoPath.Resolve([], [[]]) == [];
  }
}
