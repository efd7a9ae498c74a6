/**
 * options.go: the adapter's `Options`. `SetBinaryContentTypeMap` replaces
 * the unexported content-type map with one built from `BinaryContentTypes`.
 */
module AlgnhsaOptions {
  import opened GoStrings
  import opened BinaryTypeMap

  class Options {
    var binaryContentTypes: seq<ByteString>
    var binaryContentTypeMap: map<ByteString, bool>
    var useProxyPath: bool
    var translateQueryStringArrayParam: bool

    /** An options literal; the map starts nil, seen here as empty. */
    constructor (binaryContentTypes: seq<ByteString>, useProxyPath: bool, translateQueryStringArrayParam: bool)
      ensures this.binaryContentTypes == binaryContentTypes
      ensures binaryContentTypeMap == map[]
      ensures this.useProxyPath == useProxyPath
      ensures this.translateQueryStringArrayParam == translateQueryStringArrayParam
    {
      this.binaryContentTypes := binaryContentTypes;
      binaryContentTypeMap := map[];
      this.useProxyPath := useProxyPath;
      this.translateQueryStringArrayParam := translateQueryStringArrayParam;
    }

    /** `setBinaryContentTypeMap`: the map becomes the listed types, each true; nothing else changes. */
    method SetBinaryContentTypeMap()
      modifies this
      ensures binaryContentTypeMap == TrueMap(binaryContentTypes)
      ensures binaryContentTypes == old(binaryContentTypes)
      ensures useProxyPath == old(useProxyPath)
      ensures translateQueryStringArrayParam == old(translateQueryStringArrayParam)
    {
      var types: map<ByteString, bool> := map[];
      var i := 0;
      while i < |binaryContentTypes|
        invariant 0 <= i <= |binaryContentTypes|
        invariant types == TrueMap(binaryContentTypes[..i])
      {
        assert binaryContentTypes[..i + 1][..i] == binaryContentTypes[..i];
        types := types[binaryContentTypes[i] := true];
        i := i + 1;
      }
      assert binaryContentTypes[..i] == binaryContentTypes;
      binaryContentTypeMap := types;
    }
  }
}
