/**
 * Percent-encoding as Go's net/url package applies it to paths and query
 * components (section 2.1 of RFC 3986): `url.PathUnescape`, the escaping
 * `URL.EscapedPath` uses, `url.QueryEscape`, and the `validEncoded` check.
 */
module UrlEscape {
  import opened Wrappers
  import opened GoStrings
  import opened Errors

  predicate IsHex(c: char)
  {
    IsDigit(c) || 'a' <= c <= 'f' || 'A' <= c <= 'F'
  }

  function Unhex(c: char): (n: nat)
    requires IsHex(c)
    ensures n < 16
  {
    if IsDigit(c) then c as int - '0' as int
    else if 'a' <= c <= 'f' then c as int - 'a' as int + 10
    else c as int - 'A' as int + 10
  }

  /** Upper-case hexadecimal digit, as Go's escaper writes it. */
  function HexDigit(n: nat): (c: Byte)
    requires n < 16
    ensures IsHex(c) && Unhex(c) == n
  {
    if n < 10 then ('0' as int + n) as char else ('A' as int + n - 10) as char
  }

  /** The three-byte escape `%XY` of one byte. */
  function PercentByte(b: Byte): (r: ByteString)
    ensures |r| == 3 && r[0] == '%' && IsHex(r[1]) && IsHex(r[2])
    ensures (Unhex(r[1]) * 16 + Unhex(r[2])) as char == b
  {
    ['%', HexDigit(b as int / 16), HexDigit(b as int % 16)]
  }

  /** Every `%` in `s` starts a complete escape of two hexadecimal digits. */
  ghost predicate WellEscaped(s: ByteString)
  {
    forall i :: 0 <= i < |s| && s[i] == '%' ==> i + 2 < |s| && IsHex(s[i + 1]) && IsHex(s[i + 2])
  }

  /**
   * `url.PathUnescape`: decode every `%XY`; the first malformed escape is an
   * error carrying at most three bytes from its `%`. `+` is left alone.
   */
  function PathUnescape(s: ByteString): (r: Result<ByteString, Error>)
    ensures r.Success? ==> |r.value| <= |s|
    ensures r.Success? && '%' in s ==> |r.value| < |s|
    ensures r.Failure? ==> r.error.InvalidURLEscape? && |r.error.escape| <= 3
    decreases |s|
  {
    if s == [] then Success([])
    else if s[0] != '%' then Prepend([s[0]], PathUnescape(s[1..]))
    else if |s| < 3 || !IsHex(s[1]) || !IsHex(s[2]) then
      Failure(InvalidURLEscape(if |s| < 3 then s else s[..3]))
    else Prepend([(Unhex(s[1]) * 16 + Unhex(s[2])) as char], PathUnescape(s[3..]))
  }

  /** `p` in front of a successful decoding; an error passes through. */
  function Prepend(p: ByteString, r: Result<ByteString, Error>): Result<ByteString, Error>
  {
    if r.Success? then Success(p + r.value) else r
  }

  /** Decoding fails exactly when some `%` does not start a complete escape. */
  lemma {:induction false} PathUnescapeSucceedsIff(s: ByteString)
    ensures PathUnescape(s).Success? <==> WellEscaped(s)
    decreases |s|
  {
    if s == [] {
    } else if s[0] != '%' {
      PathUnescapeSucceedsIff(s[1..]);
      WellEscapedPlain(s);
    } else if |s| < 3 || !IsHex(s[1]) || !IsHex(s[2]) {
      assert !WellEscaped(s) by { assert s[0] == '%'; }
    } else {
      PathUnescapeSucceedsIff(s[3..]);
      WellEscapedEscape(s);
    }
  }

  /** A leading byte other than `%` does not affect well-formedness. */
  lemma WellEscapedPlain(s: ByteString)
    requires s != [] && s[0] != '%'
    ensures WellEscaped(s) <==> WellEscaped(s[1..])
  {
    assert forall i :: 1 <= i < |s| ==> s[i] == s[1..][i - 1];
  }

  /** A leading complete escape does not affect well-formedness. */
  lemma WellEscapedEscape(s: ByteString)
    requires |s| >= 3 && s[0] == '%' && IsHex(s[1]) && IsHex(s[2])
    ensures WellEscaped(s) <==> WellEscaped(s[3..])
  {
    assert forall i :: 3 <= i < |s| ==> s[i] == s[3..][i - 3];
    if WellEscaped(s[3..]) {
      forall i | 0 <= i < |s| && s[i] == '%'
        ensures i + 2 < |s| && IsHex(s[i + 1]) && IsHex(s[i + 2])
      {
        if i >= 3 {
          assert s[3..][i - 3] == '%';
        } else {
          assert i == 0;
        }
      }
    } else {
      var j :| 0 <= j < |s[3..]| && s[3..][j] == '%' && !(j + 2 < |s[3..]| && IsHex(s[3..][j + 1]) && IsHex(s[3..][j + 2]));
      assert s[j + 3] == '%';
    }
  }

  /** A path without `%` decodes to itself, and only such a path does. */
  lemma {:induction false} PathUnescapeIdentityIff(s: ByteString)
    ensures PathUnescape(s) == Success(s) <==> '%' !in s
    decreases |s|
  {
    if s != [] && s[0] != '%' {
      PathUnescapeIdentityIff(s[1..]);
      assert '%' in s <==> '%' in s[1..] by {
        assert s == [s[0]] + s[1..];
      }
      if PathUnescape(s[1..]).Success? {
        var rest := PathUnescape(s[1..]).value;
        assert PathUnescape(s) == Success([s[0]] + rest);
        assert [s[0]] + rest == s <==> rest == s[1..];
      }
    }
  }

  /** A prefix without `%` passes through decoding unchanged. */
  lemma {:induction false} PathUnescapePlainPrefix(a: ByteString, b: ByteString)
    requires '%' !in a
    ensures PathUnescape(a + b) == Prepend(a, PathUnescape(b))
    decreases |a|
  {
    if a == [] {
      assert a + b == b;
      if PathUnescape(b).Success? {
        assert a + PathUnescape(b).value == PathUnescape(b).value;
      }
    } else {
      assert (a + b)[1..] == a[1..] + b;
      assert a[0] in a;
      PathUnescapePlainPrefix(a[1..], b);
      if PathUnescape(b).Success? {
        assert [a[0]] + (a[1..] + PathUnescape(b).value) == a + PathUnescape(b).value;
      }
    }
  }

  /** A complete escape in front decodes to its byte. */
  lemma PathUnescapeEscapePrefix(x: Byte, y: Byte, b: ByteString)
    requires IsHex(x) && IsHex(y)
    ensures PathUnescape(['%', x, y] + b) == Prepend([(Unhex(x) * 16 + Unhex(y)) as char], PathUnescape(b))
  {
    assert (['%', x, y] + b)[3..] == b;
  }

  /** Bytes `URL.EscapedPath` leaves alone (Go's `shouldEscape` in path mode is false). */
  predicate PathSafe(c: Byte)
  {
    IsAlnum(c) || c in "-_.~$&+,/:;=@"
  }

  /** `escape(p, encodePath)`: every byte that is not path-safe becomes `%XY`. */
  function EscapePath(s: ByteString): (r: ByteString)
    ensures forall c :: c in r && c != '%' ==> PathSafe(c) || IsHex(c)
    ensures |r| >= |s|
  {
    if s == [] then []
    else (if PathSafe(s[0]) then [s[0]] else PercentByte(s[0])) + EscapePath(s[1..])
  }

  /** Escaping a path and unescaping it gives the path back. */
  lemma {:induction false} EscapePathRoundTrip(s: ByteString)
    ensures PathUnescape(EscapePath(s)) == Success(s)
    decreases |s|
  {
    if s != [] {
      EscapePathRoundTrip(s[1..]);
      var rest := EscapePath(s[1..]);
      if PathSafe(s[0]) {
        assert s[0] != '%';
        assert EscapePath(s) == [s[0]] + rest;
        assert (EscapePath(s))[1..] == rest;
        assert PathUnescape(EscapePath(s)) == Success([s[0]] + s[1..]);
        assert [s[0]] + s[1..] == s;
      } else {
        var e := PercentByte(s[0]);
        assert EscapePath(s) == e + rest;
        assert e == ['%', e[1], e[2]];
        PathUnescapeEscapePrefix(e[1], e[2], rest);
        assert [s[0]] + s[1..] == s;
      }
    }
  }

  /** A path made of path-safe bytes is its own escaping. */
  lemma {:induction false} EscapePathOfSafe(s: ByteString)
    requires forall c :: c in s ==> PathSafe(c)
    ensures EscapePath(s) == s
    decreases |s|
  {
    if s != [] {
      assert s[0] in s;
      assert forall c :: c in s[1..] ==> c in s;
      EscapePathOfSafe(s[1..]);
    }
  }

  /** Go's `validEncoded(s, encodePath)`: `s` may stand as an escaped path verbatim. */
  predicate ValidEncodedPath(s: ByteString)
  {
    forall c :: c in s ==> c in "!$&'()*+,;=:@[]%" || PathSafe(c)
  }

  /** Bytes `url.QueryEscape` leaves alone: the unreserved characters of RFC 3986. */
  predicate QuerySafe(c: Byte)
  {
    IsAlnum(c) || c in "-_.~"
  }

  /** `url.QueryEscape`: space becomes `+`, other unsafe bytes become `%XY`. */
  function QueryEscape(s: ByteString): (r: ByteString)
    ensures |r| >= |s|
    ensures forall c :: c in r ==> QuerySafe(c) || c == '+' || c == '%'
  {
    if s == [] then []
    else (if QuerySafe(s[0]) then [s[0]] else if s[0] == ' ' then ['+'] else PercentByte(s[0])) + QueryEscape(s[1..])
  }

  /**
   * `url.QueryUnescape`, which `url.ParseQuery` applies to every key and
   * value: `+` is a space, `%XY` a byte, and a malformed escape an error.
   */
  function QueryUnescape(s: ByteString): (r: Result<ByteString, Error>)
    ensures r.Success? ==> |r.value| <= |s|
    ensures r.Success? && '%' !in s ==> |r.value| == |s|
    ensures r.Failure? ==> r.error.InvalidURLEscape? && |r.error.escape| <= 3
    decreases |s|
  {
    if s == [] then Success([])
    else if s[0] == '+' then Prepend([' '], QueryUnescape(s[1..]))
    else if s[0] != '%' then Prepend([s[0]], QueryUnescape(s[1..]))
    else if |s| < 3 || !IsHex(s[1]) || !IsHex(s[2]) then
      Failure(InvalidURLEscape(if |s| < 3 then s else s[..3]))
    else Prepend([(Unhex(s[1]) * 16 + Unhex(s[2])) as char], QueryUnescape(s[3..]))
  }

  /** One escaped byte in front of `b`, as `QueryEscape` writes it, unescapes to that byte. */
  lemma QueryUnescapeOne(c: Byte, b: ByteString)
    ensures QueryUnescape((if QuerySafe(c) then [c] else if c == ' ' then ['+'] else PercentByte(c)) + b)
         == Prepend([c], QueryUnescape(b))
  {
    var e := if QuerySafe(c) then [c] else if c == ' ' then ['+'] else PercentByte(c);
    assert (e + b)[0] == e[0];
    assert (e + b)[|e|..] == b;
    if !QuerySafe(c) && c != ' ' {
      assert (e + b)[1] == e[1] && (e + b)[2] == e[2];
    }
  }

  /** Unescaping the query escaping of any text gives the text back. */
  lemma {:induction false} QueryEscapeRoundTrip(s: ByteString)
    ensures QueryUnescape(QueryEscape(s)) == Success(s)
    decreases |s|
  {
    if s != [] {
      QueryEscapeRoundTrip(s[1..]);
      QueryUnescapeOne(s[0], QueryEscape(s[1..]));
      assert [s[0]] + s[1..] == s;
    }
  }
}
