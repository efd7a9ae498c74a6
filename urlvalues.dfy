/**
 * `url.Values` from Go's net/url package: a map from a query key to its list
 * of values, `Values.Set`, and `Values.Encode`, which writes the pairs in
 * byte-wise sorted key order as `key=value` joined by `&`.
 */
module UrlValues {
  import opened Wrappers
  import opened GoStrings
  import opened UrlEscape

  type Values = map<ByteString, seq<ByteString>>

  /** Every key of a single-value map holding the one-element list of its value (`Values.Set` per key). */
  function SingleValues(single: map<ByteString, ByteString>): (v: Values)
    ensures v.Keys == single.Keys
    ensures forall k :: k in v ==> v[k] == [single[k]]
  {
    map k | k in single :: [single[k]]
  }

  /**
   * The query the root builder assembles: every single-value parameter as a
   * one-element list, then every multi-value parameter's list, which wins.
   */
  function MergedQuery(single: map<ByteString, ByteString>, multi: Values): (v: Values)
    ensures v.Keys == single.Keys + multi.Keys
    ensures forall k :: k in multi ==> v[k] == multi[k]
    ensures forall k :: k in single && k !in multi ==> v[k] == [single[k]]
  {
    SingleValues(single) + multi
  }

  /**
   * Loop state of an overlay of `m` on `params`: the keys of `m` outside
   * `remaining` are done, and `r` is `params` with exactly those entries set.
   */
  ghost predicate Overlaying(r: Values, params: Values, m: Values, remaining: set<ByteString>)
  {
    && remaining <= m.Keys
    && r.Keys == params.Keys + (m.Keys - remaining)
    && (forall k :: k in m && k !in remaining ==> r[k] == m[k])
    && (forall k :: k in params && (k !in m || k in remaining) ==> r[k] == params[k])
  }

  lemma OverlayingStep(r: Values, params: Values, m: Values, remaining: set<ByteString>, k: ByteString)
    requires Overlaying(r, params, m, remaining) && k in remaining
    ensures Overlaying(r[k := m[k]], params, m, remaining - {k})
  {
  }

  lemma OverlayingDone(r: Values, params: Values, m: Values)
    requires Overlaying(r, params, m, {})
    ensures r == params + m
  {
    var e := params + m;
    assert r.Keys == e.Keys;
    assert forall k :: k in r ==> r[k] == e[k];
  }

  /** Overlaying on no parameters gives the overlay itself. */
  lemma EmptyOverlay(m: Values)
    ensures map[] + m == m
  {
  }

  /** `for k, v := range single { params.Set(k, v) }`. */
  method SetValues(params: Values, single: map<ByteString, ByteString>) returns (r: Values)
    ensures r == params + SingleValues(single)
  {
    ghost var m := SingleValues(single);
    r := params;
    var remaining := single.Keys;
    while remaining != {}
      invariant Overlaying(r, params, m, remaining)
      decreases |remaining|
    {
      var k :| k in remaining;
      OverlayingStep(r, params, m, remaining, k);
      r := r[k := [single[k]]];
      remaining := remaining - {k};
    }
    OverlayingDone(r, params, m);
  }

  /** `for k, vals := range multi { params[k] = vals }`. */
  method AssignValues(params: Values, multi: Values) returns (r: Values)
    ensures r == params + multi
  {
    r := params;
    var remaining := multi.Keys;
    while remaining != {}
      invariant Overlaying(r, params, multi, remaining)
      decreases |remaining|
    {
      var k :| k in remaining;
      OverlayingStep(r, params, multi, remaining, k);
      r := r[k := multi[k]];
      remaining := remaining - {k};
    }
    OverlayingDone(r, params, multi);
  }

  /** Byte-wise lexicographic order of Go string comparison. */
  predicate Less(a: ByteString, b: ByteString)
    decreases |a|
  {
    if a == [] then b != []
    else if b == [] then false
    else if a[0] != b[0] then a[0] < b[0]
    else Less(a[1..], b[1..])
  }

  lemma {:induction false} LessIrreflexive(a: ByteString)
    ensures !Less(a, a)
    decreases |a|
  {
    if a != [] {
      LessIrreflexive(a[1..]);
    }
  }

  lemma {:induction false} LessTotal(a: ByteString, b: ByteString)
    ensures a == b || Less(a, b) || Less(b, a)
    decreases |a|
  {
    if a != [] && b != [] && a[0] == b[0] {
      LessTotal(a[1..], b[1..]);
      if a[1..] == b[1..] {
        assert a == [a[0]] + a[1..] && b == [b[0]] + b[1..];
      }
    }
  }

  lemma {:induction false} LessAsymmetric(a: ByteString, b: ByteString)
    ensures !(Less(a, b) && Less(b, a))
    decreases |a|
  {
    if a != [] && b != [] && a[0] == b[0] {
      LessAsymmetric(a[1..], b[1..]);
    }
  }

  lemma {:induction false} LessTransitive(a: ByteString, b: ByteString, c: ByteString)
    requires Less(a, b) && Less(b, c)
    ensures Less(a, c)
    decreases |a|
  {
    if a != [] && a[0] == b[0] && b[0] == c[0] {
      LessTransitive(a[1..], b[1..], c[1..]);
    }
  }

  /** `k` is the least key of `keys`. */
  predicate IsLeast(k: ByteString, keys: set<ByteString>)
  {
    k in keys && forall j :: j in keys && j != k ==> Less(k, j)
  }

  lemma {:induction false} LeastExists(keys: set<ByteString>)
    requires keys != {}
    ensures exists k :: IsLeast(k, keys)
    decreases |keys|
  {
    var x :| x in keys;
    if keys != {x} {
      LeastExists(keys - {x});
      var m :| IsLeast(m, keys - {x});
      LessTotal(x, m);
      if Less(x, m) {
        forall j | j in keys && j != x ensures Less(x, j) {
          if j != m {
            LessTransitive(x, m, j);
          }
        }
        assert IsLeast(x, keys);
      } else {
        assert IsLeast(m, keys);
      }
    } else {
      assert IsLeast(x, keys);
    }
  }

  lemma LeastUnique(keys: set<ByteString>)
    ensures forall a, b :: IsLeast(a, keys) && IsLeast(b, keys) ==> a == b
  {
    forall a, b | IsLeast(a, keys) && IsLeast(b, keys) ensures a == b {
      LessAsymmetric(a, b);
    }
  }

  /** The keys in increasing order (Go sorts them before encoding). */
  function SortedKeys(keys: set<ByteString>): (r: seq<ByteString>)
    ensures |r| == |keys|
    ensures forall k :: k in r <==> k in keys
    ensures forall i, j :: 0 <= i < j < |r| ==> Less(r[i], r[j])
    decreases |keys|
  {
    if keys == {} then []
    else
      LeastExists(keys);
      LeastUnique(keys);
      var k :| IsLeast(k, keys);
      var rest := SortedKeys(keys - {k});
      assert forall j :: j in rest ==> j in keys && j != k && Less(k, j);
      [k] + rest
  }

  /** The `key=value` pieces for one key, in the order of its values. */
  function KeyPieces(key: ByteString, vals: seq<ByteString>): (r: seq<ByteString>)
    ensures |r| == |vals|
    ensures forall i :: 0 <= i < |r| ==> '=' in r[i]
  {
    if vals == [] then []
    else
      var piece := Piece(key, vals[0]);
      assert piece[|QueryEscape(key)|] == '=';
      [piece] + KeyPieces(key, vals[1..])
  }

  /** One `key=value` pair, both sides query-escaped. */
  function Piece(key: ByteString, val: ByteString): ByteString
  {
    QueryEscape(key) + "=" + QueryEscape(val)
  }

  /**
   * What `url.ParseQuery` does with one piece gives the pair back: the piece
   * holds no `&` or `;`, its first `=` ends the escaped key, and both sides
   * unescape to the key and the value.
   */
  lemma PieceParses(key: ByteString, val: ByteString)
    ensures var piece := Piece(key, val);
      && '&' !in piece && ';' !in piece
      && BeforeFirst(piece, '=') == QueryEscape(key)
      && QueryUnescape(BeforeFirst(piece, '=')) == Success(key)
      && QueryUnescape(piece[|QueryEscape(key)| + 1..]) == Success(val)
  {
    var ek, ev := QueryEscape(key), QueryEscape(val);
    NoSeparators(ek);
    NoSeparators(ev);
    SplitAtEquals(ek, ev);
    assert Piece(key, val) == ek + "=" + ev;
    QueryEscapeRoundTrip(key);
    QueryEscapeRoundTrip(val);
  }

  /** Query-escaped text holds none of the bytes `url.ParseQuery` splits on. */
  lemma NoSeparators(e: ByteString)
    requires forall c :: c in e ==> QuerySafe(c) || c == '+' || c == '%'
    ensures '=' !in e && '&' !in e && ';' !in e
  {
    assert !QuerySafe('=') && !QuerySafe('&') && !QuerySafe(';');
  }

  /** `a=b` with no `=` in `a` splits at its first `=` into `a` and `b`. */
  lemma SplitAtEquals(a: ByteString, b: ByteString)
    requires '=' !in a
    ensures '&' !in a && '&' !in b && ';' !in a && ';' !in b ==> '&' !in a + "=" + b && ';' !in a + "=" + b
    ensures BeforeFirst(a + "=" + b, '=') == a
    ensures (a + "=" + b)[|a| + 1..] == b
  {
    var p := a + "=" + b;
    assert p[..|a|] == a && p[|a|] == '=';
    BeforeFirstUnique(p, '=', a);
  }

  /** The pieces of every key in the given order. */
  function Pieces(v: Values, keys: seq<ByteString>): (r: seq<ByteString>)
    requires forall i :: 0 <= i < |keys| ==> keys[i] in v
    ensures forall i :: 0 <= i < |r| ==> r[i] != []
    ensures r == [] <==> forall i :: 0 <= i < |keys| ==> v[keys[i]] == []
  {
    if keys == [] then []
    else KeyPieces(keys[0], v[keys[0]]) + Pieces(v, keys[1..])
  }

  /** `strings.Join(pieces, "&")`. */
  function JoinAmpersand(pieces: seq<ByteString>): (r: ByteString)
    ensures r == [] <==> pieces == [] || pieces == [[]]
  {
    if pieces == [] then []
    else if |pieces| == 1 then pieces[0]
    else pieces[0] + "&" + JoinAmpersand(pieces[1..])
  }

  /** `Values.Encode`. */
  function Encode(v: Values): ByteString
  {
    var keys := SortedKeys(v.Keys);
    JoinAmpersand(Pieces(v, keys))
  }

  /** The encoded query is empty exactly when no key has a value. */
  lemma EncodeEmptyIff(v: Values)
    ensures Encode(v) == [] <==> forall k :: k in v ==> v[k] == []
  {
    var keys := SortedKeys(v.Keys);
    var pieces := Pieces(v, keys);
    if forall i :: 0 <= i < |keys| ==> v[keys[i]] == [] {
      forall k | k in v ensures v[k] == [] {
        var i :| 0 <= i < |keys| && keys[i] == k;
      }
    }
  }
}
