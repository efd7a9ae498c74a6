/**
 * The standard base64 alphabet with padding (section 4 of RFC 4648), as Go's
 * `base64.StdEncoding` encodes and decodes it.
 */
module Base64 {
  import opened Wrappers
  import opened GoStrings

  /** The character for a 6-bit value. */
  function Symbol(n: nat): (c: Byte)
    requires n < 64
  {
    if n < 26 then ('A' as int + n) as char
    else if n < 52 then ('a' as int + n - 26) as char
    else if n < 62 then ('0' as int + n - 52) as char
    else if n == 62 then '+'
    else '/'
  }

  predicate IsSymbol(c: char)
  {
    IsAlnum(c) || c == '+' || c == '/'
  }

  /** The 6-bit value of an alphabet character. */
  function SymbolValue(c: char): (n: nat)
    requires IsSymbol(c)
    ensures n < 64 && Symbol(n) == c
  {
    if IsUpperAscii(c) then c as int - 'A' as int
    else if IsLowerAscii(c) then c as int - 'a' as int + 26
    else if IsDigit(c) then c as int - '0' as int + 52
    else if c == '+' then 62
    else 63
  }

  lemma SymbolRoundTrip(n: nat)
    requires n < 64
    ensures IsSymbol(Symbol(n)) && SymbolValue(Symbol(n)) == n
  {
  }

  /** Four characters for three bytes. */
  function EncodeGroup(b0: Byte, b1: Byte, b2: Byte): ByteString
  {
    [Symbol(b0 as int / 4), Symbol(b0 as int % 4 * 16 + b1 as int / 16),
     Symbol(b1 as int % 16 * 4 + b2 as int / 64), Symbol(b2 as int % 64)]
  }

  /** `base64.StdEncoding.EncodeToString`. */
  function Encode(b: seq<Byte>): (r: ByteString)
    ensures |r| == (|b| + 2) / 3 * 4
    ensures forall i :: 0 <= i < |r| ==> IsSymbol(r[i]) || r[i] == '='
    decreases |b|
  {
    if |b| == 0 then []
    else if |b| == 1 then [Symbol(b[0] as int / 4), Symbol(b[0] as int % 4 * 16), '=', '=']
    else if |b| == 2 then
      [Symbol(b[0] as int / 4), Symbol(b[0] as int % 4 * 16 + b[1] as int / 16), Symbol(b[1] as int % 16 * 4), '=']
    else EncodeGroup(b[0], b[1], b[2]) + Encode(b[3..])
  }

  /** The three bytes that four 6-bit values carry. */
  function DecodeGroup(v0: nat, v1: nat, v2: nat, v3: nat): seq<Byte>
    requires v0 < 64 && v1 < 64 && v2 < 64 && v3 < 64
  {
    [(v0 * 4 + v1 / 16) as char, (v1 % 16 * 16 + v2 / 4) as char, (v2 % 4 * 64 + v3) as char]
  }

  /**
   * The last four characters: a full group, or one or two bytes followed by
   * `=` padding. Bits below the last byte are ignored, as Go's non-strict
   * decoder does.
   */
  function DecodeLast(c0: Byte, c1: Byte, c2: Byte, c3: Byte): Option<seq<Byte>>
  {
    if !IsSymbol(c0) || !IsSymbol(c1) then None
    else if c2 == '=' && c3 == '=' then Some(DecodeGroup(SymbolValue(c0), SymbolValue(c1), 0, 0)[..1])
    else if !IsSymbol(c2) then None
    else if c3 == '=' then Some(DecodeGroup(SymbolValue(c0), SymbolValue(c1), SymbolValue(c2), 0)[..2])
    else if !IsSymbol(c3) then None
    else Some(DecodeGroup(SymbolValue(c0), SymbolValue(c1), SymbolValue(c2), SymbolValue(c3)))
  }

  /**
   * Reading everything from `base64.NewDecoder(base64.StdEncoding, s)`:
   * `None` when the input is corrupt or ends inside a group.
   */
  function Decode(s: ByteString): (r: Option<seq<Byte>>)
    ensures r.Some? ==> |s| % 4 == 0 && |r.value| <= |s| / 4 * 3
    decreases |s|
  {
    if |s| == 0 then Some([])
    else if |s| < 4 then None
    else if |s| == 4 then DecodeLast(s[0], s[1], s[2], s[3])
    else if !(IsSymbol(s[0]) && IsSymbol(s[1]) && IsSymbol(s[2]) && IsSymbol(s[3])) then None
    else
      match Decode(s[4..])
      case None => None
      case Some(rest) =>
        Some(DecodeGroup(SymbolValue(s[0]), SymbolValue(s[1]), SymbolValue(s[2]), SymbolValue(s[3])) + rest)
  }

  lemma GroupRoundTrip(b0: Byte, b1: Byte, b2: Byte)
    ensures var e := EncodeGroup(b0, b1, b2);
      IsSymbol(e[0]) && IsSymbol(e[1]) && IsSymbol(e[2]) && IsSymbol(e[3]) &&
      DecodeGroup(SymbolValue(e[0]), SymbolValue(e[1]), SymbolValue(e[2]), SymbolValue(e[3])) == [b0, b1, b2]
  {
    var x, y, z := b0 as int, b1 as int, b2 as int;
    SymbolRoundTrip(x / 4);
    SymbolRoundTrip(x % 4 * 16 + y / 16);
    SymbolRoundTrip(y % 16 * 4 + z / 64);
    SymbolRoundTrip(z % 64);
    assert (x / 4) * 4 + (x % 4 * 16 + y / 16) / 16 == x;
    assert (x % 4 * 16 + y / 16) % 16 * 16 + (y % 16 * 4 + z / 64) / 4 == y;
    assert (y % 16 * 4 + z / 64) % 4 * 64 + z % 64 == z;
  }

  lemma OneByteRoundTrip(b0: Byte)
    ensures Decode(Encode([b0])) == Some([b0])
  {
    var x := b0 as int;
    SymbolRoundTrip(x / 4);
    SymbolRoundTrip(x % 4 * 16);
    assert (x / 4) * 4 + (x % 4 * 16) / 16 == x;
    assert DecodeGroup(x / 4, x % 4 * 16, 0, 0)[..1] == [b0];
  }

  lemma TwoBytesRoundTrip(b0: Byte, b1: Byte)
    ensures Decode(Encode([b0, b1])) == Some([b0, b1])
  {
    var x, y := b0 as int, b1 as int;
    SymbolRoundTrip(x / 4);
    SymbolRoundTrip(x % 4 * 16 + y / 16);
    SymbolRoundTrip(y % 16 * 4);
    assert (x / 4) * 4 + (x % 4 * 16 + y / 16) / 16 == x;
    assert (x % 4 * 16 + y / 16) % 16 * 16 + (y % 16 * 4) / 4 == y;
    assert DecodeGroup(x / 4, x % 4 * 16 + y / 16, y % 16 * 4, 0)[..2] == [b0, b1];
  }

  /** A full group in front of a non-empty remainder decodes group by group. */
  lemma DecodeFullGroup(g: ByteString, rest: ByteString)
    requires |g| == 4 && IsSymbol(g[0]) && IsSymbol(g[1]) && IsSymbol(g[2]) && IsSymbol(g[3])
    requires rest != []
    ensures Decode(g + rest) ==
      match Decode(rest)
      case None => None
      case Some(tail) => Some(DecodeGroup(SymbolValue(g[0]), SymbolValue(g[1]), SymbolValue(g[2]), SymbolValue(g[3])) + tail)
  {
    var s := g + rest;
    assert s[4..] == rest;
    assert s[0] == g[0] && s[1] == g[1] && s[2] == g[2] && s[3] == g[3];
  }

  lemma ThreeBytesRoundTrip(b0: Byte, b1: Byte, b2: Byte)
    ensures Decode(Encode([b0, b1, b2])) == Some([b0, b1, b2])
  {
    GroupRoundTrip(b0, b1, b2);
    var b := [b0, b1, b2];
    assert b[3..] == [];
    assert Encode(b) == EncodeGroup(b0, b1, b2) + [];
  }

  /** The first group of a longer input decodes in front of the rest. */
  lemma LongRoundTrip(b: seq<Byte>)
    requires |b| > 3
    requires Decode(Encode(b[3..])) == Some(b[3..])
    ensures Decode(Encode(b)) == Some(b)
  {
    var g := EncodeGroup(b[0], b[1], b[2]);
    var rest := Encode(b[3..]);
    assert rest != [];
    GroupRoundTrip(b[0], b[1], b[2]);
    assert Encode(b) == g + rest;
    DecodeFullGroup(g, rest);
    FirstThree(b);
  }

  lemma FirstThree(b: seq<Byte>)
    requires |b| >= 3
    ensures [b[0], b[1], b[2]] + b[3..] == b
  {
  }

  /** Decoding what was encoded gives the bytes back. */
  lemma {:induction false} DecodeEncode(b: seq<Byte>)
    ensures Decode(Encode(b)) == Some(b)
    decreases |b|
  {
    if |b| == 1 {
      assert b == [b[0]];
      OneByteRoundTrip(b[0]);
    } else if |b| == 2 {
      assert b == [b[0], b[1]];
      TwoBytesRoundTrip(b[0], b[1]);
    } else if |b| == 3 {
      assert b == [b[0], b[1], b[2]];
      ThreeBytesRoundTrip(b[0], b[1], b[2]);
    } else if |b| > 3 {
      DecodeEncode(b[3..]);
      LongRoundTrip(b);
    }
  }
}
