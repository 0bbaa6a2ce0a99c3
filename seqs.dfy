/**
 * Facts about plain sequences shared by the whole model: repetition-free
 * lists, lists with distinct keys, and the set of a list's elements.
 */
module Seqs {

  /** No element occurs twice in `s`. */
  ghost predicate Distinct<T>(s: seq<T>) {
    forall i, j :: 0 <= i < j < |s| ==> s[i] != s[j]
  }

  /** No two elements of `s` share a key. */
  ghost predicate KeysDistinct<T>(s: seq<T>, key: T -> int) {
    forall i, j :: 0 <= i < j < |s| ==> key(s[i]) != key(s[j])
  }

  /** The set of elements of `s`. */
  function Elems<T>(s: seq<T>): set<T> {
    set x | x in s
  }

  /** In a list without repeats no element occurs before its own position. */
  lemma {:induction false} FirstOccurrences<T>(s: seq<T>)
    requires Distinct(s)
    ensures forall k :: 0 <= k < |s| ==> s[k] !in s[..k]
  {
    forall k | 0 <= k < |s| ensures s[k] !in s[..k] {
      forall j | 0 <= j < k ensures s[..k][j] != s[k] {
        assert s[..k][j] == s[j];
      }
    }
  }

  /** The elements of a sequence without repetitions are as many as its length. */
  lemma {:induction false} DistinctElemsCount<T>(s: seq<T>)
    requires Distinct(s)
    ensures |Elems(s)| == |s|
  {
    if s != [] {
      var init := s[..|s| - 1];
      DistinctElemsCount(init);
      assert Elems(s) == Elems(init) + {s[|s| - 1]};
      assert s[|s| - 1] !in Elems(init);
    }
  }
}
