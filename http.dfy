/**
 * The parts of Go's net/http and net/url the request builders rely on:
 * canonical header keys, `Header.Get`/`Header.Set`, the URL fields and
 * `URL.RequestURI`, `http.NewRequest`, and the recorder the handler writes
 * into.
 */
module Http {
  import opened Wrappers
  import opened GoStrings
  import opened Errors
  import opened UrlEscape
  import opened UrlValues
  import opened GoContext
  import Base64

  /** A byte allowed in a header field name (an RFC 7230 token character). */
  predicate IsTokenByte(c: char)
  {
    IsAlnum(c) || c in "!#$%&'*+-.^_`|~"
  }

  predicate AllTokens(s: ByteString)
  {
    forall i :: 0 <= i < |s| ==> IsTokenByte(s[i])
  }

  /**
   * Canonical casing from one position on: upper case at the start and
   * after each `-`, lower case elsewhere.
   */
  function CanonicalCase(s: ByteString, upper: bool): (r: ByteString)
    ensures |r| == |s|
    ensures forall i :: 0 <= i < |s| ==> LowerByte(r[i]) == LowerByte(s[i])
    ensures AllTokens(s) ==> AllTokens(r)
  {
    if s == [] then []
    else
      var c := if upper && IsLowerAscii(s[0]) then UpperByte(s[0])
               else if !upper && IsUpperAscii(s[0]) then LowerByte(s[0])
               else s[0];
      [c] + CanonicalCase(s[1..], c == '-')
  }

  /**
   * `http.CanonicalHeaderKey`: a key holding a byte that is not a token
   * character is returned unchanged; otherwise it is recased.
   */
  function CanonicalHeaderKey(s: ByteString): (r: ByteString)
  {
    if AllTokens(s) then CanonicalCase(s, true) else s
  }

  /** Canonicalisation only changes letter case. */
  lemma CanonicalHeaderKeyCaseOnly(s: ByteString)
    ensures |CanonicalHeaderKey(s)| == |s|
    ensures ToLower(CanonicalHeaderKey(s)) == ToLower(s)
  {
    ToLowerSameLower(CanonicalHeaderKey(s), s);
  }

  lemma {:induction false} CanonicalCaseIdempotent(s: ByteString, upper: bool)
    ensures CanonicalCase(CanonicalCase(s, upper), upper) == CanonicalCase(s, upper)
    decreases |s|
  {
    if s != [] {
      var r := CanonicalCase(s, upper);
      CanonicalCaseIdempotent(s[1..], r[0] == '-');
      assert r[1..] == CanonicalCase(s[1..], r[0] == '-');
    }
  }

  /**
   * The shape of the recasing: a letter at the start (when `upper`) or right
   * after a `-` is upper case, every other letter lower case.
   */
  lemma {:induction false} CanonicalCaseShape(s: ByteString, upper: bool)
    ensures var r := CanonicalCase(s, upper);
      forall i :: 0 <= i < |s| ==>
        r[i] == (if (i == 0 && upper) || (i > 0 && s[i - 1] == '-') then UpperByte(s[i]) else LowerByte(s[i]))
    decreases |s|
  {
    if s != [] {
      var r := CanonicalCase(s, upper);
      CanonicalCaseShape(s[1..], r[0] == '-');
      assert r[1..] == CanonicalCase(s[1..], r[0] == '-');
      assert r[0] == '-' <==> s[0] == '-';
      assert r[0] == (if upper then UpperByte(s[0]) else LowerByte(s[0]));
      forall i | 0 <= i < |s|
        ensures r[i] == (if (i == 0 && upper) || (i > 0 && s[i - 1] == '-') then UpperByte(s[i]) else LowerByte(s[i]))
      {
        if i > 0 {
          assert r[i] == r[1..][i - 1] && s[i] == s[1..][i - 1];
          if i > 1 {
            assert s[i - 1] == s[1..][i - 2];
          }
        }
      }
    }
  }

  /**
   * For a key of token bytes, `http.CanonicalHeaderKey` upper-cases the first
   * letter and every letter after a `-`, and lower-cases all the others.
   */
  lemma CanonicalHeaderKeyShape(s: ByteString)
    requires AllTokens(s)
    ensures forall i :: 0 <= i < |s| ==>
      CanonicalHeaderKey(s)[i] == (if i == 0 || s[i - 1] == '-' then UpperByte(s[i]) else LowerByte(s[i]))
  {
    CanonicalCaseShape(s, true);
    assert CanonicalHeaderKey(s) == CanonicalCase(s, true);
    forall i | 0 <= i < |s|
      ensures CanonicalHeaderKey(s)[i] == (if i == 0 || s[i - 1] == '-' then UpperByte(s[i]) else LowerByte(s[i]))
    {
      assert CanonicalCase(s, true)[i] == (if (i == 0 && true) || (i > 0 && s[i - 1] == '-') then UpperByte(s[i]) else LowerByte(s[i]));
    }
  }

  /** Canonicalising a canonical key changes nothing. */
  lemma CanonicalHeaderKeyIdempotent(s: ByteString)
    ensures CanonicalHeaderKey(CanonicalHeaderKey(s)) == CanonicalHeaderKey(s)
  {
    if AllTokens(s) {
      CanonicalCaseIdempotent(s, true);
    }
  }

  /** `http.Header`: canonical key to the list of values. */
  type Header = map<ByteString, seq<ByteString>>

  /** `Header.Get`: the first value under the canonical form of `key`, or "". */
  function HeaderGet(h: Header, key: ByteString): (v: ByteString)
    ensures CanonicalHeaderKey(key) in h && h[CanonicalHeaderKey(key)] != [] ==> v == h[CanonicalHeaderKey(key)][0]
    ensures CanonicalHeaderKey(key) !in h || h[CanonicalHeaderKey(key)] == [] ==> v == []
  {
    var ck := CanonicalHeaderKey(key);
    if ck in h && h[ck] != [] then h[ck][0] else []
  }

  /** The canonical forms of a map's keys. */
  function CanonKeys<V>(m: map<ByteString, V>): set<ByteString>
  {
    set k | k in m :: CanonicalHeaderKey(k)
  }

  /** Some key of `m` with canonical form `ck` holds exactly the list `vals`. */
  ghost predicate FromSomeKey(m: map<ByteString, seq<ByteString>>, ck: ByteString, vals: seq<ByteString>)
  {
    exists k :: k in m && CanonicalHeaderKey(k) == ck && m[k] == vals
  }

  /**
   * `r` is `h` after assigning, for every key of `m`, that key's list to its
   * canonical form. When two keys of `m` share a canonical form, one of the
   * two lists is kept; which one depends on map iteration order.
   */
  ghost predicate Overlaid(r: Header, h: Header, m: map<ByteString, seq<ByteString>>)
  {
    && r.Keys == h.Keys + CanonKeys(m)
    && (forall ck :: ck in r && ck in CanonKeys(m) ==> FromSomeKey(m, ck, r[ck]))
    && (forall ck :: ck in r && ck !in CanonKeys(m) ==> r[ck] == h[ck])
  }

  lemma CanonKeysAdd<V>(m: map<ByteString, V>, k: ByteString, v: V)
    ensures CanonKeys(m[k := v]) == CanonKeys(m) + {CanonicalHeaderKey(k)}
  {
  }

  /** Assigning one more key keeps the overlay relation. */
  lemma OverlaidStep(r: Header, h: Header, m: map<ByteString, seq<ByteString>>, k: ByteString, v: seq<ByteString>)
    requires Overlaid(r, h, m) && k !in m
    ensures Overlaid(r[CanonicalHeaderKey(k) := v], h, m[k := v])
  {
    var r', m' := r[CanonicalHeaderKey(k) := v], m[k := v];
    CanonKeysAdd(m, k, v);
    assert r'.Keys == h.Keys + CanonKeys(m');
    OverlaidStepFrom(r, h, m, k, v, r', m');
    OverlaidStepKept(r, h, m, k, v, r', m');
  }

  /** After the step every overlaid key still holds the list of some key of the extended map. */
  lemma OverlaidStepFrom(r: Header, h: Header, m: map<ByteString, seq<ByteString>>, k: ByteString, v: seq<ByteString>,
                         r': Header, m': map<ByteString, seq<ByteString>>)
    requires Overlaid(r, h, m) && k !in m
    requires r' == r[CanonicalHeaderKey(k) := v] && m' == m[k := v]
    requires CanonKeys(m') == CanonKeys(m) + {CanonicalHeaderKey(k)}
    ensures forall c :: c in r' && c in CanonKeys(m') ==> FromSomeKey(m', c, r'[c])
  {
    var ck := CanonicalHeaderKey(k);
    forall c | c in r' && c in CanonKeys(m')
      ensures FromSomeKey(m', c, r'[c])
    {
      if c == ck {
        assert k in m' && m'[k] == r'[c];
      } else {
        assert c in CanonKeys(m);
        var j :| j in m && CanonicalHeaderKey(j) == c && m[j] == r[c];
        assert j in m' && m'[j] == m[j];
      }
    }
  }

  /** After the step every key outside the overlay still holds its original list. */
  lemma OverlaidStepKept(r: Header, h: Header, m: map<ByteString, seq<ByteString>>, k: ByteString, v: seq<ByteString>,
                         r': Header, m': map<ByteString, seq<ByteString>>)
    requires Overlaid(r, h, m)
    requires r' == r[CanonicalHeaderKey(k) := v] && m' == m[k := v]
    requires CanonKeys(m') == CanonKeys(m) + {CanonicalHeaderKey(k)}
    ensures forall c :: c in r' && c !in CanonKeys(m') ==> r'[c] == h[c]
  {
  }

  /** Taking one more key out of `remaining` adds that key's entry to what is done. */
  lemma DoneStep<V>(m: map<ByteString, V>, remaining: set<ByteString>, k: ByteString)
    requires k in remaining && k in m
    ensures k !in m - remaining
    ensures m - (remaining - {k}) == (m - remaining)[k := m[k]]
  {
  }

  /** `for k, v := range single { h.Set(k, v) }`. */
  method SetHeaders(h: Header, single: map<ByteString, ByteString>) returns (r: Header)
    ensures Overlaid(r, h, SingleValues(single))
  {
    r := h;
    var remaining := single.Keys;
    ghost var done: map<ByteString, seq<ByteString>> := map[];
    while remaining != {}
      invariant remaining <= single.Keys
      invariant done.Keys == single.Keys - remaining
      invariant forall j :: j in done ==> done[j] == [single[j]]
      invariant Overlaid(r, h, done)
      decreases |remaining|
    {
      var k :| k in remaining;
      OverlaidStep(r, h, done, k, [single[k]]);
      r := r[CanonicalHeaderKey(k) := [single[k]]];
      done := done[k := [single[k]]];
      remaining := remaining - {k};
    }
    assert done == SingleValues(single);
  }

  /** `for k, vals := range multi { h[http.CanonicalHeaderKey(k)] = vals }`. */
  method AssignHeaders(h: Header, multi: map<ByteString, seq<ByteString>>) returns (r: Header)
    ensures Overlaid(r, h, multi)
  {
    r := h;
    var remaining := multi.Keys;
    assert multi - remaining == map[];
    while remaining != {}
      invariant remaining <= multi.Keys
      invariant Overlaid(r, h, multi - remaining)
      decreases |remaining|
    {
      var k :| k in remaining;
      DoneStep(multi, remaining, k);
      OverlaidStep(r, h, multi - remaining, k, multi[k]);
      r := r[CanonicalHeaderKey(k) := multi[k]];
      remaining := remaining - {k};
    }
    assert multi - {} == multi;
  }

  /**
   * The header the root builder produces: single-value headers set first,
   * then every multi-value list assigned under its canonical key, so a
   * multi-value key wins over a single-value key with the same canonical form.
   */
  ghost predicate MergedHeader(r: Header, single: map<ByteString, ByteString>, multi: map<ByteString, seq<ByteString>>)
  {
    && r.Keys == CanonKeys(single) + CanonKeys(multi)
    && (forall ck :: ck in r && ck in CanonKeys(multi) ==> FromSomeKey(multi, ck, r[ck]))
    && (forall ck :: ck in r && ck !in CanonKeys(multi) ==> FromSomeKey(SingleValues(single), ck, r[ck]))
  }

  /** The two loops of the root builder, one after the other, give the merged header. */
  lemma OverlaidTwice(h1: Header, h2: Header, single: map<ByteString, ByteString>, multi: map<ByteString, seq<ByteString>>)
    requires Overlaid(h1, map[], SingleValues(single))
    requires Overlaid(h2, h1, multi)
    ensures MergedHeader(h2, single, multi)
  {
    assert CanonKeys(SingleValues(single)) == CanonKeys(single);
    forall ck | ck in h2 && ck !in CanonKeys(multi)
      ensures FromSomeKey(SingleValues(single), ck, h2[ck])
    {
      assert h2[ck] == h1[ck];
    }
  }

  /** The root builder's two header loops: single values set first, then multi-value lists assigned. */
  method MergeHeaders(h: Header, single: map<ByteString, ByteString>, multi: map<ByteString, seq<ByteString>>) returns (r: Header)
    requires h == map[]
    ensures MergedHeader(r, single, multi)
  {
    var withSingle := SetHeaders(h, single);
    r := AssignHeaders(withSingle, multi);
    OverlaidTwice(withSingle, r, single, multi);
  }

  /** A multi-value key no other multi-value key collides with keeps its whole list. */
  lemma MultiValueWins(r: Header, single: map<ByteString, ByteString>, multi: map<ByteString, seq<ByteString>>, k: ByteString)
    requires MergedHeader(r, single, multi)
    requires k in multi
    requires forall j :: j in multi && CanonicalHeaderKey(j) == CanonicalHeaderKey(k) ==> j == k
    ensures CanonicalHeaderKey(k) in r && r[CanonicalHeaderKey(k)] == multi[k]
  {
    var ck := CanonicalHeaderKey(k);
    assert ck in CanonKeys(multi);
    var j :| j in multi && CanonicalHeaderKey(j) == ck && multi[j] == r[ck];
  }

  /**
   * A single-value key whose canonical form no multi-value key has, and no
   * other single-value key shares, keeps its value as a one-element list.
   */
  lemma SingleValueKept(r: Header, single: map<ByteString, ByteString>, multi: map<ByteString, seq<ByteString>>, k: ByteString)
    requires MergedHeader(r, single, multi)
    requires k in single && CanonicalHeaderKey(k) !in CanonKeys(multi)
    requires forall j :: j in single && CanonicalHeaderKey(j) == CanonicalHeaderKey(k) ==> j == k
    ensures CanonicalHeaderKey(k) in r && r[CanonicalHeaderKey(k)] == [single[k]]
  {
    var ck := CanonicalHeaderKey(k);
    assert ck in CanonKeys(single);
    var j :| j in SingleValues(single) && CanonicalHeaderKey(j) == ck && SingleValues(single)[j] == r[ck];
  }

  /** The fields of `url.URL` the builders set (no scheme, user, opaque part or fragment). */
  datatype URL = URL(host: ByteString, path: ByteString, rawPath: ByteString, rawQuery: ByteString)

  /**
   * The builders' path step: `Path` becomes the percent-decoding of
   * `RawPath`, and `RawPath` is cleared when decoding changed nothing; a
   * malformed escape is an error.
   */
  function DecodePath(u: URL): (r: Result<URL, Error>)
    ensures r.Failure? <==> PathUnescape(u.rawPath).Failure?
    ensures r.Failure? ==> r.error == PathUnescape(u.rawPath).error
    ensures r.Success? ==>
      && r.value.path == PathUnescape(u.rawPath).value
      && r.value.rawPath == (if r.value.path == u.rawPath then [] else u.rawPath)
      && r.value.host == u.host && r.value.rawQuery == u.rawQuery
  {
    var p := PathUnescape(u.rawPath);
    if p.Failure? then Failure(p.error)
    else
      var decoded := u.(path := p.value);
      Success(if decoded.path == decoded.rawPath then decoded.(rawPath := []) else decoded)
  }

  /** The raw path survives exactly when it holds an escape. */
  lemma DecodePathKeepsRawIff(u: URL)
    requires DecodePath(u).Success?
    ensures DecodePath(u).value.rawPath != [] <==> '%' in u.rawPath
  {
    PathUnescapeIdentityIff(u.rawPath);
  }

  /** A kept raw path made of allowed bytes is what the request URI shows. */
  lemma DecodedPathEscapesToRaw(u: URL)
    requires DecodePath(u).Success? && DecodePath(u).value.rawPath != []
    requires ValidEncodedPath(u.rawPath)
    ensures EscapedPath(DecodePath(u).value) == u.rawPath
  {
  }

  /**
   * `URL.EscapedPath`: `RawPath` when it is a valid encoding of `Path`,
   * otherwise `Path` escaped (`*` is left alone).
   */
  function EscapedPath(u: URL): ByteString
  {
    if u.rawPath != [] && ValidEncodedPath(u.rawPath) && PathUnescape(u.rawPath) == Success(u.path) then u.rawPath
    else if u.path == "*" then "*"
    else EscapePath(u.path)
  }

  /** A non-empty escaped path never decodes to the empty path. */
  lemma DecodedNonEmpty(s: ByteString)
    requires s != [] && PathUnescape(s).Success?
    ensures PathUnescape(s).value != []
  {
    if s[0] == '%' {
      var rest := s[3..];
      assert s == ['%', s[1], s[2]] + rest;
      PathUnescapeEscapePrefix(s[1], s[2], rest);
    } else {
      assert s == [s[0]] + s[1..];
      PathUnescapePlainPrefix([s[0]], s[1..]);
    }
  }

  /** The escaped path decodes to the path. */
  lemma EscapedPathDecodes(u: URL)
    ensures PathUnescape(EscapedPath(u)) == Success(u.path)
    ensures EscapedPath(u) == [] <==> u.path == []
  {
    if u.rawPath != [] && ValidEncodedPath(u.rawPath) && PathUnescape(u.rawPath) == Success(u.path) {
      DecodedNonEmpty(u.rawPath);
    } else if u.path == "*" {
      PathUnescapeIdentityIff("*");
    } else {
      EscapePathRoundTrip(u.path);
    }
  }

  /** The escaped path holds no `?`, so a request URI splits unambiguously. */
  lemma EscapedPathNoQuery(u: URL)
    ensures '?' !in EscapedPath(u)
  {
    assert !PathSafe('?') && !IsHex('?');
  }

  /** `URL.RequestURI`: the escaped path (`/` when empty), then `?` and the query when there is one. */
  function RequestURI(u: URL): ByteString
  {
    var p := EscapedPath(u);
    var path := if p == [] then "/" else p;
    if u.rawQuery != [] then path + "?" + u.rawQuery else path
  }

  /** The request URI does not depend on the host. */
  lemma RequestURIIgnoresHost(u: URL, host: ByteString)
    ensures RequestURI(u.(host := host)) == RequestURI(u)
  {
    assert EscapedPath(u.(host := host)) == EscapedPath(u);
  }

  /**
   * Reading a request URI back: the part before the first `?` decodes to the
   * path (`/` for an empty path), and the query follows the `?`, which is
   * there exactly when the query is non-empty.
   */
  lemma RequestURIParts(u: URL)
    ensures var ru := RequestURI(u); var before := BeforeFirst(ru, '?');
      && PathUnescape(before) == Success(if u.path == [] then "/" else u.path)
      && ('?' in ru <==> u.rawQuery != [])
      && (u.rawQuery != [] ==> ru[|before| + 1..] == u.rawQuery)
  {
    EscapedPathDecodes(u);
    EscapedPathNoQuery(u);
    var p := EscapedPath(u);
    var path: ByteString := if p == [] then "/" else p;
    assert '?' !in path;
    if p == [] {
      PathUnescapeIdentityIff("/");
    }
    var ru := RequestURI(u);
    if u.rawQuery != [] {
      assert ru == path + (['?'] + u.rawQuery);
      BeforeFirstUnique(ru, '?', path);
      assert ru[|path|] == '?';
    } else {
      BeforeFirstUnique(ru, '?', path);
    }
  }

  /** The request body: the event body as a reader, or a base64 decoder over it. */
  datatype Body = StringReader(text: ByteString) | Base64Decoder(encoded: ByteString)

  /** Everything a reader yields; `None` when the base64 decoder hits corrupt input. */
  function BodyBytes(b: Body): Option<seq<Byte>>
  {
    match b
    case StringReader(text) => Some(text)
    case Base64Decoder(encoded) => Base64.Decode(encoded)
  }

  /** The reader the builders pass to `http.NewRequest`. */
  function EventBody(body: ByteString, isBase64Encoded: bool): (b: Body)
    ensures isBase64Encoded ==> b.Base64Decoder? && b.encoded == body
    ensures !isBase64Encoded ==> BodyBytes(b) == Some(body)
  {
    if isBase64Encoded then Base64Decoder(body) else StringReader(body)
  }

  /** A base64-flagged body carrying the encoding of some bytes reads back as those bytes. */
  lemma EventBodyOfEncoded(data: seq<Byte>)
    ensures BodyBytes(EventBody(Base64.Encode(data), true)) == Some(data)
  {
    Base64.DecodeEncode(data);
  }

  /** The fields of `http.Request` the builders set or `http.NewRequest` fills. */
  datatype Request = Request(
    httpMethod: ByteString,
    url: URL,
    host: ByteString,
    header: Header,
    body: Body,
    remoteAddr: ByteString,
    requestURI: ByteString,
    ctx: Context)

  /** The method `http.NewRequest` substitutes for an empty one. */
  const DefaultMethod: ByteString := "GET"

  /** `validMethod`: a non-empty token. */
  predicate ValidMethod(m: ByteString)
  {
    m != [] && AllTokens(m)
  }

  /** `removeEmptyPort`: a host ending in `:` with no port loses the colon. */
  function RemoveEmptyPort(host: ByteString): (r: ByteString)
    ensures host != [] && host[|host| - 1] == ':' ==> r == host[..|host| - 1]
    ensures (host == [] || host[|host| - 1] != ':') ==> r == host
  {
    if host != [] && host[|host| - 1] == ':' then host[..|host| - 1] else host
  }

  /**
   * `http.NewRequest(method, u.String(), body)`: an empty method means GET,
   * any other method must be a token; the request starts with an empty
   * header, no remote address or request URI and the background context.
   */
  function NewRequest(httpMethod: ByteString, u: URL, body: Body): (r: Result<Request, Error>)
    ensures r.Failure? <==> httpMethod != [] && !ValidMethod(httpMethod)
    ensures r.Failure? ==> r.error == InvalidMethod(httpMethod)
    ensures r.Success? ==>
      && r.value.httpMethod == (if httpMethod == [] then DefaultMethod else httpMethod)
      && ValidMethod(r.value.httpMethod)
      && r.value.url == u.(host := RemoveEmptyPort(u.host))
      && r.value.host == RemoveEmptyPort(u.host)
      && r.value.header == map[]
      && r.value.body == body
      && r.value.remoteAddr == [] && r.value.requestURI == [] && r.value.ctx == Background
  {
    var m: ByteString := if httpMethod == [] then DefaultMethod else httpMethod;
    if !ValidMethod(m) then Failure(InvalidMethod(httpMethod))
    else
      var host := RemoveEmptyPort(u.host);
      Success(Request(m, u.(host := host), host, map[], body, [], [], Background))
  }

  /** The state `httptest.ResponseRecorder` holds once the handler has returned. */
  datatype Recorder = Recorder(code: int, header: Header, body: seq<Byte>)

  /** The fields of `http.Response` the encoders read. */
  datatype Response = Response(statusCode: int, header: Header, body: seq<Byte>)

  /** `ResponseRecorder.Result`: the recorded status, header and body. */
  function RecorderResult(w: Recorder): (r: Response)
    ensures r.statusCode == w.code && r.header == w.header && r.body == w.body
  {
    Response(w.code, w.header, w.body)
  }

  /** An `http.Handler`, seen from outside: the recorder it leaves behind for a request. */
  type Handler = Request -> Recorder
}
