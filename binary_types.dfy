/**
 * The content-type map both `Options` types build from their list of binary
 * content types: every listed string maps to true.
 */
module BinaryTypeMap {
  import opened GoStrings

  /** The map left after setting each listed string to true, in list order. */
  function TrueMap(list: seq<ByteString>): map<ByteString, bool>
  {
    if list == [] then map[] else TrueMap(list[..|list| - 1])[list[|list| - 1] := true]
  }

  /** The keys are exactly the listed strings. */
  lemma {:induction false} TrueMapKeys(list: seq<ByteString>)
    ensures TrueMap(list).Keys == set s | s in list
  {
    if list != [] {
      var init := list[..|list| - 1];
      TrueMapKeys(init);
      assert list == init + [list[|list| - 1]];
      assert (set s | s in list) == (set s | s in init) + {list[|list| - 1]};
    }
  }

  /** Every entry is true. */
  lemma {:induction false} TrueMapAllTrue(list: seq<ByteString>)
    ensures forall k :: k in TrueMap(list) ==> TrueMap(list)[k]
  {
    if list != [] {
      TrueMapAllTrue(list[..|list| - 1]);
    }
  }

  /** Membership with Go's missing-key-is-false reading: true exactly for the listed strings. */
  lemma ListedIff(list: seq<ByteString>, k: ByteString)
    ensures (k in TrueMap(list) && TrueMap(list)[k]) <==> k in list
  {
    TrueMapKeys(list);
    TrueMapAllTrue(list);
  }

  /** Duplicates collapse: there are no more entries than listed strings, and repeating one changes nothing. */
  lemma {:induction false} TrueMapSize(list: seq<ByteString>)
    ensures |TrueMap(list)| <= |list|
  {
    if list != [] {
      TrueMapSize(list[..|list| - 1]);
    }
  }

  lemma TrueMapRepeat(list: seq<ByteString>, s: ByteString)
    requires s in list
    ensures TrueMap(list + [s]) == TrueMap(list)
  {
    assert (list + [s])[..|list|] == list;
    TrueMapKeys(list);
    TrueMapAllTrue(list);
  }

  /** The map is empty exactly when the list is. */
  lemma TrueMapEmptyIff(list: seq<ByteString>)
    ensures TrueMap(list) == map[] <==> list == []
  {
    TrueMapKeys(list);
    if list != [] {
      assert list[0] in TrueMap(list).Keys;
    }
  }
}
