/**
 * Concrete examples of the model's behaviour, taken from the adapter's
 * documented cases.
 */
module TestVectors {
  import opened Wrappers
  import opened GoStrings
  import opened UrlEscape
  import opened Events
  import Base64
  import Http
  import AlbEvent

  /** An escaped slash decodes to a slash: "a%2Fb" is "a/b". */
  lemma PathUnescapeExample()
    ensures PathUnescape("a%2Fb") == Success("a/b")
  {
    var e: ByteString := ['%', '2', 'F'];
    assert "a%2Fb" == ['a'] + (e + ['b']);
    assert Unhex('2') == 2 && Unhex('F') == 15;
    PathUnescapePlainPrefix(['b'], []);
    assert ['b'] + [] == ['b'];
    assert PathUnescape(['b']) == Success(['b']);
    PathUnescapeEscapePrefix('2', 'F', ['b']);
    assert PathUnescape(e + ['b']) == Success(['/'] + ['b']);
    PathUnescapePlainPrefix(['a'], e + ['b']);
    assert PathUnescape("a%2Fb") == Success(['a'] + (['/'] + ['b']));
    assert ['a'] + (['/'] + ['b']) == "a/b";
  }

  /** The documented escaped path: "/path/encode%2Ftest%7C" decodes to "/path/encode/test|". */
  lemma EncodedPathExample()
    ensures PathUnescape("/path/encode%2Ftest%7C") == Success("/path/encode/test|")
  {
    var a: ByteString := "/path/encode";
    var b: ByteString := "test";
    EncodedPathPieces(a, b);
    assert Unhex('7') * 16 + Unhex('C') == 124;
    PathUnescapeEscapePrefix('7', 'C', []);
    assert ['%', '7', 'C'] + [] == ['%', '7', 'C'];
    assert PathUnescape(['%', '7', 'C']) == Success(['|'] + []);
    PathUnescapePlainPrefix(b, ['%', '7', 'C']);
    assert Unhex('2') * 16 + Unhex('F') == 47;
    PathUnescapeEscapePrefix('2', 'F', b + ['%', '7', 'C']);
    PathUnescapePlainPrefix(a, ['%', '2', 'F'] + (b + ['%', '7', 'C']));
  }

  /** The path of the example cut at its escapes, and the decoded path put together. */
  lemma EncodedPathPieces(a: ByteString, b: ByteString)
    requires a == "/path/encode" && b == "test"
    ensures '%' !in a && '%' !in b
    ensures "/path/encode%2Ftest%7C" == a + (['%', '2', 'F'] + (b + ['%', '7', 'C']))
    ensures a + (['/'] + (b + (['|'] + []))) == "/path/encode/test|"
  {
  }

  /** A two-byte body goes out as one padded group: "ok" is "b2s=". */
  lemma Base64Ok()
    ensures Base64.Encode("ok") == "b2s="
    ensures Base64.Decode("b2s=") == Some("ok")
  {
    var ok: ByteString := "ok";
    assert ok[0] as int == 111 && ok[1] as int == 107;
    assert Base64.Encode(ok) == [Base64.Symbol(27), Base64.Symbol(54), Base64.Symbol(44), '='];
    Base64.DecodeEncode(ok);
  }

  /** A lower-case header name is canonicalised word by word. */
  lemma CanonicalExample()
    ensures Http.CanonicalHeaderKey("x-b") == "X-B"
  {
    var s: ByteString := "x-b";
    assert Http.AllTokens(s) by {
      assert Http.IsTokenByte('x') && Http.IsTokenByte('-') && Http.IsTokenByte('b');
    }
    assert s[1..][1..] == "b";
    assert Http.CanonicalCase("b", true) == "B";
    assert s[1..] == "-b";
    assert Http.CanonicalCase("-b", false) == "-B";
  }

  /** The client address is the first forwarded address, up to its comma. */
  lemma SourceIPExample(event: ALBRequest)
    requires event.multiValueHeaders == map[AlbEvent.ForwardedFor := ["1.2.3.4,5.6.7.8"]]
    ensures AlbEvent.GetALBSourceIP(event) == "1.2.3.4"
  {
    var first: ByteString := "1.2.3.4,5.6.7.8";
    var p: ByteString := "1.2.3.4";
    assert p <= first && first[|p|] == ',';
    assert ',' !in p;
    BeforeFirstUnique(first, ',', p);
  }
}
