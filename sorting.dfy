/**
 * A stable sort on sequences by an integer key, standing for Python's
 * built-in `sorted(xs, key=...)`. Elements with equal keys keep their
 * input order; a descending sort is an ascending sort on the negated key.
 */
module Sorting {
  import opened Seqs

  /** `s` is in non-decreasing order of `key`. */
  ghost predicate SortedBy<T>(s: seq<T>, key: T -> int) {
    forall i, j :: 0 <= i < j < |s| ==> key(s[i]) <= key(s[j])
  }

  /**
   * Inserts `x` into the sorted `s` after every element whose key is at
   * most key(x), which is what keeps the sort stable.
   */
  function InsertBy<T(!new)>(s: seq<T>, x: T, key: T -> int): (r: seq<T>)
    requires SortedBy(s, key)
    ensures SortedBy(r, key)
    ensures |r| == |s| + 1
    ensures multiset(r) == multiset(s) + multiset{x}
  {
    if s == [] then [x]
    else if key(x) < key(s[0]) then [x] + s
    else
      var rest := InsertBy(s[1..], x, key);
      InsertAfterHead(s, x, key, rest);
      ConsSorted(s[0], rest, key);
      assert s == [s[0]] + s[1..];
      [s[0]] + rest
  }

  /** What is inserted behind the head of a sorted sequence has keys no smaller than the head's. */
  lemma {:induction false} InsertAfterHead<T>(s: seq<T>, x: T, key: T -> int, rest: seq<T>)
    requires SortedBy(s, key) && s != [] && key(s[0]) <= key(x)
    requires multiset(rest) == multiset(s[1..]) + multiset{x}
    ensures forall j :: 0 <= j < |rest| ==> key(s[0]) <= key(rest[j])
  {
    forall j | 0 <= j < |rest| ensures key(s[0]) <= key(rest[j]) {
      assert rest[j] in multiset(rest);
      if rest[j] != x {
        assert rest[j] in s[1..];
        var k :| 0 <= k < |s| - 1 && s[1..][k] == rest[j];
        assert s[k + 1] == rest[j];
      }
    }
  }

  /** A head whose key is at most every key of a sorted tail keeps the sequence sorted. */
  lemma {:induction false} ConsSorted<T>(h: T, rest: seq<T>, key: T -> int)
    requires SortedBy(rest, key)
    requires forall j :: 0 <= j < |rest| ==> key(h) <= key(rest[j])
    ensures SortedBy([h] + rest, key)
  {
    var r := [h] + rest;
    forall i, j | 0 <= i < j < |r| ensures key(r[i]) <= key(r[j]) {
      if i == 0 {
        assert r[j] == rest[j - 1];
      } else {
        assert r[i] == rest[i - 1] && r[j] == rest[j - 1];
      }
    }
  }

  /** Inserting a new element keeps a sequence free of repetitions. */
  lemma {:induction false} InsertKeepsDistinct<T(!new)>(s: seq<T>, x: T, key: T -> int)
    requires SortedBy(s, key) && Distinct(s) && x !in s
    ensures Distinct(InsertBy(s, x, key))
  {
    if s != [] && key(x) >= key(s[0]) {
      var rest := InsertBy(s[1..], x, key);
      InsertKeepsDistinct(s[1..], x, key);
      assert s == [s[0]] + s[1..];
      assert s[0] !in multiset(rest);
    }
  }

  /** Inserting an element with a fresh key keeps the keys distinct. */
  lemma {:induction false} InsertKeepsKeysDistinct<T(!new)>(s: seq<T>, x: T, key: T -> int)
    requires SortedBy(s, key) && KeysDistinct(s, key)
    requires forall y :: y in s ==> key(y) != key(x)
    ensures KeysDistinct(InsertBy(s, x, key), key)
  {
    if s != [] && key(x) >= key(s[0]) {
      var rest := InsertBy(s[1..], x, key);
      InsertKeepsKeysDistinct(s[1..], x, key);
      assert s == [s[0]] + s[1..];
      assert key(s[0]) != key(x) by { assert s[0] in s; }
      InsertAfterHeadKeys(s, x, key, rest);
      ConsKeysDistinct(s[0], rest, key);
    }
  }

  /** What is inserted behind the head, under a key the head does not have, has keys other than the head's. */
  lemma {:induction false} InsertAfterHeadKeys<T>(s: seq<T>, x: T, key: T -> int, rest: seq<T>)
    requires KeysDistinct(s, key) && s != [] && key(s[0]) != key(x)
    requires multiset(rest) == multiset(s[1..]) + multiset{x}
    ensures forall j :: 0 <= j < |rest| ==> key(rest[j]) != key(s[0])
  {
    forall j | 0 <= j < |rest| ensures key(rest[j]) != key(s[0]) {
      assert rest[j] in multiset(rest);
      if rest[j] != x {
        assert rest[j] in s[1..];
        var k :| 0 <= k < |s| - 1 && s[1..][k] == rest[j];
        assert s[k + 1] == rest[j];
      }
    }
  }

  /** A head whose key differs from every key of a tail with distinct keys keeps the keys distinct. */
  lemma {:induction false} ConsKeysDistinct<T>(h: T, rest: seq<T>, key: T -> int)
    requires KeysDistinct(rest, key)
    requires forall j :: 0 <= j < |rest| ==> key(rest[j]) != key(h)
    ensures KeysDistinct([h] + rest, key)
  {
    var r := [h] + rest;
    forall i, j | 0 <= i < j < |r| ensures key(r[i]) != key(r[j]) {
      if i == 0 {
        assert r[j] == rest[j - 1];
      } else {
        assert r[i] == rest[i - 1] && r[j] == rest[j - 1];
      }
    }
  }

  /** The stable sort of `s` by `key`: each element in turn inserted into the sorted prefix. */
  function SortBy<T(!new)>(s: seq<T>, key: T -> int): (r: seq<T>)
    ensures SortedBy(r, key)
    ensures |r| == |s|
    ensures multiset(r) == multiset(s)
  {
    if s == [] then []
    else
      var init, last := s[..|s| - 1], s[|s| - 1];
      assert s == init + [last];
      InsertBy(SortBy(init, key), last, key)
  }

  /** Sorting keeps a sequence free of repetitions. */
  lemma {:induction false} SortKeepsDistinct<T(!new)>(s: seq<T>, key: T -> int)
    requires Distinct(s)
    ensures Distinct(SortBy(s, key))
  {
    if s != [] {
      var init, last := s[..|s| - 1], s[|s| - 1];
      SortKeepsDistinct(init, key);
      assert last !in multiset(SortBy(init, key));
      InsertKeepsDistinct(SortBy(init, key), last, key);
    }
  }

  /** Sorting keeps the keys of a sequence distinct. */
  lemma {:induction false} SortKeepsKeysDistinct<T(!new)>(s: seq<T>, key: T -> int)
    requires KeysDistinct(s, key)
    ensures KeysDistinct(SortBy(s, key), key)
  {
    if s != [] {
      var init, last := s[..|s| - 1], s[|s| - 1];
      var sorted := SortBy(init, key);
      SortKeepsKeysDistinct(init, key);
      forall y | y in sorted ensures key(y) != key(last) {
        assert y in multiset(init);
      }
      InsertKeepsKeysDistinct(sorted, last, key);
    }
  }

  /** Inserting an element whose key is at least every key already present appends it. */
  lemma {:induction false} InsertLargest<T(!new)>(s: seq<T>, x: T, key: T -> int)
    requires SortedBy(s, key)
    requires forall y :: y in s ==> key(y) <= key(x)
    ensures InsertBy(s, x, key) == s + [x]
  {
    if s != [] {
      InsertLargest(s[1..], x, key);
    }
  }

  /** Sorting an already sorted sequence changes nothing (the sort is stable). */
  lemma {:induction false} SortSortedIsIdentity<T(!new)>(s: seq<T>, key: T -> int)
    requires SortedBy(s, key)
    ensures SortBy(s, key) == s
  {
    if s != [] {
      var init, last := s[..|s| - 1], s[|s| - 1];
      SortSortedIsIdentity(init, key);
      InsertLargest(init, last, key);
      assert init + [last] == s;
    }
  }
}
