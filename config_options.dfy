/**
 * config/options.go: the `Options` of the load balancer adapter, whose
 * content-type map is exported so that the alb package can read it.
 */
module ConfigOptions {
  import opened GoStrings
  import opened BinaryTypeMap

  class Options {
    var binaryContentTypes: seq<ByteString>
    var binaryContentTypeMap: map<ByteString, bool>
    var useProxyPath: bool

    /** An options literal; the map starts nil, seen here as empty. */
    constructor (binaryContentTypes: seq<ByteString>, useProxyPath: bool)
      ensures this.binaryContentTypes == binaryContentTypes
      ensures binaryContentTypeMap == map[]
      ensures this.useProxyPath == useProxyPath
    {
      this.binaryContentTypes := binaryContentTypes;
      binaryContentTypeMap := map[];
      this.useProxyPath := useProxyPath;
    }

    /** `SetBinaryContentTypeMap`: the map becomes the listed types, each true; the other fields stay. */
    method SetBinaryContentTypeMap()
      modifies this
      ensures binaryContentTypeMap == TrueMap(binaryContentTypes)
      ensures binaryContentTypes == old(binaryContentTypes)
      ensures useProxyPath == old(useProxyPath)
    {
      var types: map<ByteString, bool> := map[];
      var i := 0;
      while i < |binaryContentTypes|
        invariant 0 <= i <= |binaryContentTypes|
        invariant types == TrueMap(binaryContentTypes[..i])
      {
        assert binaryContentTypes[..i + 1][..i] == binaryContentTypes[..i];
        types := types[binaryContentTypes[i] := true];
        i := i + 1;
      }
      assert binaryContentTypes[..i] == binaryContentTypes;
      binaryContentTypeMap := types;
    }
  }
}
