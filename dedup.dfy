/**
 * Order-preserving, first-wins removal of duplicates under a key, the
 * pattern both the word-list heuristic (exact text) and the grammar pass
 * (lower-cased word) implement with a `seen` set.  The specification walks
 * the sequence from the front, as those loops do, so it is defined on the
 * last element of a prefix.
 */
module Dedup {

  /** The keys of the elements of `s`: the `seen` set after visiting all of `s`. */
  function KeySet<T, K(==)>(s: seq<T>, key: T -> K): set<K>
    decreases |s|
  {
    if s == [] then {} else KeySet(s[..|s| - 1], key) + {key(s[|s| - 1])}
  }

  /** `s` with every element whose key occurred earlier removed. */
  function DedupBy<T, K(==)>(s: seq<T>, key: T -> K): seq<T>
    decreases |s|
  {
    if s == [] then []
    else
      var prefix := s[..|s| - 1];
      if key(s[|s| - 1]) in KeySet(prefix, key) then DedupBy(prefix, key)
      else DedupBy(prefix, key) + [s[|s| - 1]]
  }

  /** How many elements of `s` repeat an earlier key. */
  function Duplicates<T, K(==)>(s: seq<T>, key: T -> K): nat
    decreases |s|
  {
    if s == [] then 0
    else
      var prefix := s[..|s| - 1];
      Duplicates(prefix, key) + if key(s[|s| - 1]) in KeySet(prefix, key) then 1 else 0
  }

  /** `a` is `b` with some elements left out and the rest in the same order. */
  predicate Subsequence<T(==)>(a: seq<T>, b: seq<T>)
    decreases |b|
  {
    a == [] ||
    (b != [] &&
     if a[|a| - 1] == b[|b| - 1] then Subsequence(a[..|a| - 1], b[..|b| - 1])
     else Subsequence(a, b[..|b| - 1]))
  }

  predicate DistinctKeys<T, K(==)>(s: seq<T>, key: T -> K) {
    forall i, j :: 0 <= i < j < |s| ==> key(s[i]) != key(s[j])
  }

  lemma {:induction false} KeyInKeySet<T, K>(s: seq<T>, key: T -> K, i: nat)
    requires i < |s|
    ensures key(s[i]) in KeySet(s, key)
    decreases |s|
  {
    if i < |s| - 1 {
      KeyInKeySet(s[..|s| - 1], key, i);
    }
  }

  lemma {:induction false} KeyIndex<T, K>(s: seq<T>, key: T -> K, k: K) returns (i: nat)
    requires k in KeySet(s, key)
    ensures i < |s| && key(s[i]) == k
    decreases |s|
  {
    if key(s[|s| - 1]) == k {
      i := |s| - 1;
    } else {
      i := KeyIndex(s[..|s| - 1], key, k);
    }
  }

  /** Every key survives: the kept elements have the same key set as the input. */
  lemma {:induction false} DedupKeySet<T, K>(s: seq<T>, key: T -> K)
    ensures KeySet(DedupBy(s, key), key) == KeySet(s, key)
    decreases |s|
  {
    if s != [] {
      var prefix, x := s[..|s| - 1], s[|s| - 1];
      DedupKeySet(prefix, key);
      var d := DedupBy(prefix, key);
      if key(x) !in KeySet(prefix, key) {
        assert (d + [x])[..|d + [x]| - 1] == d;
      }
    }
  }

  /** No two kept elements share a key. */
  lemma {:induction false} DedupDistinct<T, K>(s: seq<T>, key: T -> K)
    ensures DistinctKeys(DedupBy(s, key), key)
    decreases |s|
  {
    if s != [] {
      var prefix, x := s[..|s| - 1], s[|s| - 1];
      DedupDistinct(prefix, key);
      var d := DedupBy(prefix, key);
      if key(x) !in KeySet(prefix, key) {
        DedupKeySet(prefix, key);
        forall j | 0 <= j < |d| ensures key(d[j]) != key(x) {
          KeyInKeySet(d, key, j);
        }
        var r := d + [x];
        forall i, j | 0 <= i < j < |r| ensures key(r[i]) != key(r[j]) {
          if j == |d| {
            assert r[i] == d[i] && r[j] == x;
          } else {
            assert r[i] == d[i] && r[j] == d[j];
          }
        }
      }
    }
  }

  /** Kept plus removed is everything. */
  lemma {:induction false} DedupLength<T, K>(s: seq<T>, key: T -> K)
    ensures |DedupBy(s, key)| + Duplicates(s, key) == |s|
    decreases |s|
  {
    if s != [] {
      DedupLength(s[..|s| - 1], key);
    }
  }

  lemma {:induction false} SubsequenceExtend<T>(a: seq<T>, b: seq<T>, x: T)
    requires Subsequence(a, b)
    ensures Subsequence(a, b + [x])
    decreases |b|, 1
  {
    assert (b + [x])[..|b|] == b;
    if a != [] && a[|a| - 1] == x {
      SubsequenceDropLast(a, b);
    }
  }

  lemma {:induction false} SubsequenceDropLast<T>(a: seq<T>, b: seq<T>)
    requires a != [] && Subsequence(a, b)
    ensures Subsequence(a[..|a| - 1], b)
    decreases |b|, 0
  {
    var a', b' := a[..|a| - 1], b[..|b| - 1];
    assert b == b' + [b[|b| - 1]];
    if a[|a| - 1] == b[|b| - 1] {
      SubsequenceExtend(a', b', b[|b| - 1]);
    } else {
      SubsequenceDropLast(a, b');
      SubsequenceExtend(a', b', b[|b| - 1]);
    }
  }

  /** The kept elements appear in the input, in the input's order. */
  lemma {:induction false} DedupSubsequence<T, K>(s: seq<T>, key: T -> K)
    ensures Subsequence(DedupBy(s, key), s)
    decreases |s|
  {
    if s != [] {
      var prefix, x := s[..|s| - 1], s[|s| - 1];
      DedupSubsequence(prefix, key);
      var d := DedupBy(prefix, key);
      assert s == prefix + [x];
      if key(x) in KeySet(prefix, key) {
        SubsequenceExtend(d, prefix, x);
      } else {
        assert (d + [x])[..|d|] == d;
      }
    }
  }

  /** The first element with each key is the one kept. */
  lemma {:induction false} DedupKeepsFirst<T, K>(s: seq<T>, key: T -> K, i: nat)
    requires i < |s| && key(s[i]) !in KeySet(s[..i], key)
    ensures s[i] in DedupBy(s, key)
    decreases |s|
  {
    var prefix := s[..|s| - 1];
    if i < |s| - 1 {
      assert prefix[..i] == s[..i];
      DedupKeepsFirst(prefix, key, i);
    }
  }

  /** A sequence whose keys are already distinct is left as it is. */
  lemma {:induction false} DedupOfDistinct<T, K>(s: seq<T>, key: T -> K)
    requires DistinctKeys(s, key)
    ensures DedupBy(s, key) == s
    decreases |s|
  {
    if s != [] {
      var prefix, x := s[..|s| - 1], s[|s| - 1];
      DedupOfDistinct(prefix, key);
      forall k | k in KeySet(prefix, key) ensures k != key(x) {
        var i := KeyIndex(prefix, key, k);
        assert prefix[i] == s[i];
      }
      assert s == prefix + [x];
    }
  }

  /** Removing duplicates a second time changes nothing. */
  lemma DedupIdempotent<T, K>(s: seq<T>, key: T -> K)
    ensures DedupBy(DedupBy(s, key), key) == DedupBy(s, key)
  {
    DedupDistinct(s, key);
    DedupOfDistinct(DedupBy(s, key), key);
  }

  /** The result for a prefix of the input is a prefix of the result. */
  lemma {:induction false} DedupPrefix<T, K>(s: seq<T>, key: T -> K, i: nat)
    requires i <= |s|
    ensures DedupBy(s[..i], key) <= DedupBy(s, key)
    decreases |s| - i
  {
    if i < |s| {
      var prefix := s[..|s| - 1];
      assert prefix[..i] == s[..i];
      DedupPrefix(prefix, key, i);
    } else {
      assert s[..i] == s;
    }
  }

  /** Every kept element is an element of the input. */
  lemma {:induction false} DedupMembers<T, K>(s: seq<T>, key: T -> K)
    ensures forall x :: x in DedupBy(s, key) ==> x in s
    decreases |s|
  {
    if s != [] {
      var prefix := s[..|s| - 1];
      DedupMembers(prefix, key);
      assert s == prefix + [s[|s| - 1]];
    }
  }
}
