/**
 * Go strings are immutable byte sequences. A `Byte` is a character whose
 * code is below 256 and stands for one byte; a `ByteString` is a Go string.
 */
module GoStrings {

  type Byte = c: char | c as int < 256

  type ByteString = seq<Byte>

  predicate IsUpperAscii(c: char) { 'A' <= c <= 'Z' }

  predicate IsLowerAscii(c: char) { 'a' <= c <= 'z' }

  predicate IsDigit(c: char) { '0' <= c <= '9' }

  predicate IsAlnum(c: char) { IsUpperAscii(c) || IsLowerAscii(c) || IsDigit(c) }

  function LowerByte(c: Byte): Byte
  {
    if IsUpperAscii(c) then (c as int + 32) as char else c
  }

  function UpperByte(c: Byte): Byte
  {
    if IsLowerAscii(c) then (c as int - 32) as char else c
  }

  /** `strings.ToLower` on the ASCII letters of `s`. */
  function ToLower(s: ByteString): (r: ByteString)
    ensures |r| == |s|
    ensures forall i :: 0 <= i < |r| ==> !IsUpperAscii(r[i])
    ensures forall i :: 0 <= i < |r| && !IsUpperAscii(s[i]) ==> r[i] == s[i]
    ensures forall i :: 0 <= i < |r| && IsUpperAscii(s[i]) ==> r[i] as int == s[i] as int + 32
  {
    if s == [] then [] else [LowerByte(s[0])] + ToLower(s[1..])
  }

  /** Lower-casing a lower-cased string changes nothing. */
  lemma {:induction false} ToLowerIdempotent(s: ByteString)
    ensures ToLower(ToLower(s)) == ToLower(s)
  {
    var t := ToLower(s);
    assert forall i :: 0 <= i < |t| ==> ToLower(t)[i] == t[i];
  }

  /** Strings that agree byte by byte up to case lower-case to the same string. */
  lemma {:induction false} ToLowerSameLower(a: ByteString, b: ByteString)
    requires |a| == |b|
    requires forall i :: 0 <= i < |a| ==> LowerByte(a[i]) == LowerByte(b[i])
    ensures ToLower(a) == ToLower(b)
    decreases |a|
  {
    if a != [] {
      assert forall i :: 0 <= i < |a| - 1 ==> a[1..][i] == a[i + 1] && b[1..][i] == b[i + 1];
      ToLowerSameLower(a[1..], b[1..]);
    }
  }

  /**
   * The first element of `strings.SplitN(s, sep, 2)`: the text before the
   * first `sep`, or all of `s` when it holds none.
   */
  function BeforeFirst(s: ByteString, sep: Byte): (r: ByteString)
    ensures r <= s
    ensures sep !in r
    ensures r == s || s[|r|] == sep
  {
    if s == [] then []
    else if s[0] == sep then []
    else [s[0]] + BeforeFirst(s[1..], sep)
  }

  /** Any prefix free of `sep` that ends at a `sep` or at the end of `s` is `BeforeFirst(s, sep)`. */
  lemma {:induction false} BeforeFirstUnique(s: ByteString, sep: Byte, p: ByteString)
    requires p <= s && sep !in p && (p == s || s[|p|] == sep)
    ensures p == BeforeFirst(s, sep)
  {
    var r := BeforeFirst(s, sep);
    assert p == s[..|p|] == r;
  }
}
