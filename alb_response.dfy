/**
 * alb/response.go: `NewALBResponse`, the load balancer's response. The
 * header goes out in exactly one of two shapes: the whole multi-value map,
 * or one value per key when multi-value headers are off. Only the content
 * type decides whether the body is binary.
 */
module AlbResponse {
  import opened Wrappers
  import opened GoStrings
  import opened Errors
  import opened Events
  import opened Http
  import Base64

  /** Listed as a content type, it makes every body binary. */
  const AcceptAllContentType: ByteString := "*/*"
  const ContentTypeHeader: ByteString := "Content-Type"

  /** `m[k]` on a Go `map[string]bool`: a missing key reads as false. */
  function Flag(m: map<ByteString, bool>, k: ByteString): bool
  {
    k in m && m[k]
  }

  predicate IsBinary(binaryContentTypes: map<ByteString, bool>, contentType: ByteString)
  {
    Flag(binaryContentTypes, AcceptAllContentType) || Flag(binaryContentTypes, contentType)
  }

  /** `h` has the recorded keys, each with what `Header.Get` returns for it. */
  ghost predicate FirstValues(h: StringMap, header: Header)
  {
    && h.Keys == header.Keys
    && forall k :: k in h ==> h[k] == HeaderGet(header, k)
  }

  /** The response the load balancer accepts: exactly one of the two header maps present. */
  predicate HasOneHeaderMap(event: ALBResponse)
  {
    event.headers.Some? != event.multiValueHeaders.Some?
  }

  /**
   * What `NewALBResponse` promises of `event` for the recorder `w`: status
   * copied; multi-value mode sends the recorded header as it is, single mode
   * one value per recorded key; the body is standard base64 with the flag set
   * exactly when it is binary, the recorded bytes otherwise.
   */
  ghost predicate Encodes(event: ALBResponse, w: Recorder, binaryContentTypes: map<ByteString, bool>, multiValue: bool)
  {
    && event.statusCode == w.code
    && (multiValue ==> event.multiValueHeaders == Some(w.header) && event.headers == None)
    && (!multiValue ==> event.multiValueHeaders == None && event.headers.Some? && FirstValues(event.headers.value, w.header))
    && (event.isBase64Encoded <==> IsBinary(binaryContentTypes, HeaderGet(w.header, ContentTypeHeader)))
    && (event.isBase64Encoded ==> event.body == Base64.Encode(w.body))
    && (!event.isBase64Encoded ==> event.body == w.body)
  }

  /** `NewALBResponse`: the response `Encodes` describes; it never fails. */
  method NewALBResponse(w: Recorder, binaryContentTypes: map<ByteString, bool>, multiValue: bool)
    returns (event: ALBResponse, err: Option<Error>)
    ensures err == None
    ensures Encodes(event, w, binaryContentTypes, multiValue)
  {
    event := ZeroALBResponse.(statusCode := w.code);
    var header := RecorderResult(w).header;
    if multiValue {
      event := event.(multiValueHeaders := Some(header));
    } else {
      var single: StringMap := map[];
      var remaining := header.Keys;
      while remaining != {}
        invariant remaining <= header.Keys
        invariant single.Keys == header.Keys - remaining
        invariant forall k :: k in single ==> single[k] == HeaderGet(header, k)
        decreases |remaining|
      {
        var key :| key in remaining;
        single := single[key := HeaderGet(header, key)];
        remaining := remaining - {key};
      }
      event := event.(headers := Some(single));
    }
    var contentType := HeaderGet(w.header, ContentTypeHeader);
    if Flag(binaryContentTypes, AcceptAllContentType) || Flag(binaryContentTypes, contentType) {
      event := event.(body := Base64.Encode(w.body), isBase64Encoded := true);
    } else {
      event := event.(body := w.body);
    }
    err := None;
  }

  /** Under a canonical key the single-value map holds that key's first recorded value, or "" for an empty list. */
  lemma FirstValueOfCanonical(h: StringMap, header: Header, k: ByteString)
    requires FirstValues(h, header)
    requires k in header && CanonicalHeaderKey(k) == k
    ensures k in h
    ensures h[k] == (if header[k] == [] then [] else header[k][0])
  {
    assert h[k] == HeaderGet(header, k);
  }

  /** Exactly one of the two header maps is present, as the load balancer requires. */
  lemma EncodesOneHeaderMap(event: ALBResponse, w: Recorder, binaryContentTypes: map<ByteString, bool>, multiValue: bool)
    requires Encodes(event, w, binaryContentTypes, multiValue)
    ensures HasOneHeaderMap(event)
    ensures event.multiValueHeaders.Some? <==> multiValue
  {
  }

  /** A base64 body decodes back to the recorded bytes, e.g. "ok" is sent as "b2s=". */
  lemma EncodedBodyRoundTrip(event: ALBResponse, w: Recorder, binaryContentTypes: map<ByteString, bool>, multiValue: bool)
    requires Encodes(event, w, binaryContentTypes, multiValue)
    requires event.isBase64Encoded
    ensures Base64.Decode(event.body) == Some(w.body)
  {
    Base64.DecodeEncode(w.body);
  }
}
