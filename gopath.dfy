/**
 * `path.Join("/", p)` from Go's path package: the elements are joined with
 * `/` and the result is lexically cleaned. The first element is the root, so
 * only rooted cleaning is needed: empty and `.` segments vanish, `..` removes
 * the segment before it (and is dropped at the root), and no trailing slash
 * survives.
 */
module GoPath {
  import opened GoStrings

  /** `strings.Split(s, "/")`: always at least one piece, none containing `/`. */
  function Split(s: ByteString): (r: seq<ByteString>)
    ensures |r| >= 1
    ensures NoSlash(r)
    decreases |s|
  {
    var head := BeforeFirst(s, '/');
    if head == s then [s] else [head] + Split(s[|head| + 1..])
  }

  /** `strings.Join(segs, "/")`. */
  function JoinSegments(segs: seq<ByteString>): ByteString
  {
    if segs == [] then []
    else if |segs| == 1 then segs[0]
    else segs[0] + "/" + JoinSegments(segs[1..])
  }

  predicate NoSlash(segs: seq<ByteString>)
  {
    forall i :: 0 <= i < |segs| ==> '/' !in segs[i]
  }

  /** Segments that survive cleaning unchanged: none is empty, `.` or `..`. */
  predicate AllGood(segs: seq<ByteString>)
  {
    forall i :: 0 <= i < |segs| ==> segs[i] != "" && segs[i] != "." && segs[i] != ".."
  }

  /** Process the segments of a rooted path onto the stack of kept segments. */
  function Resolve(stack: seq<ByteString>, segs: seq<ByteString>): (r: seq<ByteString>)
    ensures AllGood(stack) ==> AllGood(r)
    ensures NoSlash(stack) && NoSlash(segs) ==> NoSlash(r)
    decreases |segs|
  {
    if segs == [] then stack
    else if segs[0] == "" || segs[0] == "." then Resolve(stack, segs[1..])
    else if segs[0] == ".." then Resolve(if stack == [] then [] else stack[..|stack| - 1], segs[1..])
    else Resolve(stack + [segs[0]], segs[1..])
  }

  /** `path.Clean` of a path that starts with `/`. */
  function CleanRooted(p: ByteString): (r: ByteString)
    requires |p| > 0 && p[0] == '/'
    ensures |r| > 0 && r[0] == '/'
  {
    "/" + JoinSegments(Resolve([], Split(p)))
  }

  /** `path.Join("/", p)`: the two elements joined by `/`, then cleaned. */
  function JoinRoot(p: ByteString): (r: ByteString)
    ensures |r| > 0 && r[0] == '/'
  {
    CleanRooted("/" + "/" + p)
  }

  lemma SplitSlashPrefix(p: ByteString)
    ensures Split("/" + p) == [""] + Split(p)
  {
    var s := "/" + p;
    assert s[0] == '/';
    BeforeFirstUnique(s, '/', []);
    assert s[1..] == p;
  }

  /** Joining the pieces of a split gives the text back. */
  lemma {:induction false} JoinSplit(s: ByteString)
    ensures JoinSegments(Split(s)) == s
    decreases |s|
  {
    var head := BeforeFirst(s, '/');
    if head != s {
      var rest := s[|head| + 1..];
      JoinSplit(rest);
      JoinCons(head, Split(rest));
      SlashAfterFirst(s);
    }
  }

  /** A text with a `/` is its first piece, the slash, and the rest. */
  lemma SlashAfterFirst(s: ByteString)
    requires BeforeFirst(s, '/') != s
    ensures var head := BeforeFirst(s, '/');
      s == head + "/" + s[|head| + 1..]
  {
    var head := BeforeFirst(s, '/');
    assert s == s[..|head|] + [s[|head|]] + s[|head| + 1..];
  }

  lemma JoinCons(head: ByteString, pieces: seq<ByteString>)
    requires pieces != []
    ensures JoinSegments([head] + pieces) == head + "/" + JoinSegments(pieces)
  {
    assert ([head] + pieces)[1..] == pieces;
  }

  /** Splitting a join of good segments gives the segments back. */
  lemma {:induction false} SplitJoin(segs: seq<ByteString>)
    requires segs != [] && AllGood(segs) && NoSlash(segs)
    ensures Split(JoinSegments(segs)) == segs
    decreases |segs|
  {
    if |segs| == 1 {
      BeforeFirstUnique(segs[0], '/', segs[0]);
    } else {
      var rest := JoinSegments(segs[1..]);
      var s := segs[0] + "/" + rest;
      BeforeFirstUnique(s, '/', segs[0]);
      assert s[|segs[0]| + 1..] == rest;
      SplitJoin(segs[1..]);
      assert segs == [segs[0]] + segs[1..];
    }
  }

  /** Good segments are kept as they are. */
  lemma {:induction false} ResolveGood(stack: seq<ByteString>, segs: seq<ByteString>)
    requires AllGood(segs)
    ensures Resolve(stack, segs) == stack + segs
    decreases |segs|
  {
    if segs != [] {
      ResolveGood(stack + [segs[0]], segs[1..]);
      assert stack + [segs[0]] + segs[1..] == stack + segs;
    }
  }

  lemma ResolveSkipEmpty(stack: seq<ByteString>, segs: seq<ByteString>)
    ensures Resolve(stack, [""] + segs) == Resolve(stack, segs)
  {
    assert ([""] + segs)[1..] == segs;
  }

  /** Joining onto the root keeps the resolved segments of `p` behind one `/`. */
  lemma JoinRootSegments(p: ByteString)
    ensures JoinRoot(p) == "/" + JoinSegments(Resolve([], Split(p)))
  {
    var s1: ByteString := "/" + p;
    var s2: ByteString := "/" + s1;
    assert "/" + "/" + p == s2;
    SplitSlashPrefix(p);
    SplitSlashPrefix(s1);
    ResolveSkipEmpty([], [""] + Split(p));
    ResolveSkipEmpty([], Split(p));
  }

  /**
   * A relative path whose segments are all good is just rooted: this is the
   * proxy path `a/b` becoming `/a/b`.
   */
  lemma JoinRootOfCleanRelative(p: ByteString)
    requires AllGood(Split(p))
    ensures JoinRoot(p) == "/" + p
  {
    JoinRootSegments(p);
    ResolveGood([], Split(p));
    assert [] + Split(p) == Split(p);
    JoinSplit(p);
  }

  /** Joining an already joined path onto the root changes nothing. */
  lemma JoinRootIdempotent(p: ByteString)
    ensures JoinRoot(JoinRoot(p)) == JoinRoot(p)
  {
    var kept := Resolve([], Split(p));
    var j := JoinSegments(kept);
    JoinRootSegments(p);
    JoinRootSegments("/" + j);
    SplitSlashPrefix(j);
    ResolveSkipEmpty([], Split(j));
    if kept == [] {
      assert Split(j) == [""];
      ResolveSkipEmpty([], []);
    } else {
      SplitJoin(kept);
      ResolveGood([], kept);
      assert [] + kept == kept;
    }
  }
}
