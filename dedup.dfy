/**
 * pandas' `drop_duplicates(subset=..., keep='first')` over a table held as a
 * sequence of rows: rows are scanned in order and a row is kept exactly when no
 * earlier row has the same key. The key is a function of the row; the whole row
 * (`Whole`) models `drop_duplicates()` without a subset.
 */
module Dedup {

  /** The set of keys that occur in `s`. */
  function Keys<T, K>(s: seq<T>, key: T -> K): set<K>
  {
    set i | 0 <= i < |s| :: key(s[i])
  }

  /** No two rows of `s` share a key. */
  ghost predicate KeysDistinct<T, K>(s: seq<T>, key: T -> K)
  {
    forall i, j :: 0 <= i < j < |s| ==> key(s[i]) != key(s[j])
  }

  /**
   * Every row of `r` is the first row of `s` with its key, and the rows of `r`
   * appear in the order of those positions in `s`.
   */
  ghost predicate FirstOccurrencesInOrder<T, K>(s: seq<T>, key: T -> K, r: seq<T>)
  {
    && (forall k :: 0 <= k < |r| ==> key(r[k]) in Keys(s, key) && r[k] == s[FirstIndexOf(s, key, key(r[k]))])
    && (forall a, b :: 0 <= a < b < |r| && key(r[a]) in Keys(s, key) && key(r[b]) in Keys(s, key) ==>
          FirstIndexOf(s, key, key(r[a])) < FirstIndexOf(s, key, key(r[b])))
  }

  /** The key of a row taken as a whole: every column is part of the subset. */
  function Whole<T>(x: T): T { x }

  /**
   * The scan behind `drop_duplicates`: `seen` holds the keys of the rows kept so far.
   */
  function DedupBy<T, K(==)>(s: seq<T>, key: T -> K, seen: set<K>): (r: seq<T>)
    ensures |r| <= |s|
    ensures forall k :: 0 <= k < |r| ==> key(r[k]) !in seen && key(r[k]) in Keys(s, key)
    decreases |s|
  {
    if s == [] then []
    else
      KeysOfTail(s, key);
      if key(s[0]) in seen then DedupBy(s[1..], key, seen)
      else [s[0]] + DedupBy(s[1..], key, seen + {key(s[0])})
  }

  /** `drop_duplicates(subset=key, keep='first')` on a whole table. */
  function DropDuplicates<T, K(==)>(s: seq<T>, key: T -> K): seq<T>
  {
    DedupBy(s, key, {})
  }

  /** The position of the first row of `s` whose key is `k`. */
  function FirstIndexOf<T, K(==)>(s: seq<T>, key: T -> K, k: K): (i: nat)
    requires k in Keys(s, key)
    ensures i < |s| && key(s[i]) == k
    ensures forall j :: 0 <= j < i ==> key(s[j]) != k
    decreases |s|
  {
    KeysOfTail(s, key);
    if key(s[0]) == k then 0 else 1 + FirstIndexOf(s[1..], key, k)
  }

  /** The keys of a non-empty table are the head's key and the keys of its tail. */
  lemma KeysOfTail<T, K>(s: seq<T>, key: T -> K)
    requires s != []
    ensures Keys(s, key) == {key(s[0])} + Keys(s[1..], key)
  {
    forall k | k in Keys(s, key) ensures k in {key(s[0])} + Keys(s[1..], key) {
      var i :| 0 <= i < |s| && key(s[i]) == k;
      if i > 0 {
        assert key(s[1..][i - 1]) == k;
      }
    }
    forall k | k in Keys(s[1..], key) ensures k in Keys(s, key) {
      var i :| 0 <= i < |s[1..]| && key(s[1..][i]) == k;
      assert key(s[i + 1]) == k;
    }
  }

  /** The keys of a concatenation are the keys of its parts. */
  lemma KeysOfAppend<T, K>(a: seq<T>, b: seq<T>, key: T -> K)
    ensures Keys(a + b, key) == Keys(a, key) + Keys(b, key)
  {
    forall k | k in Keys(a + b, key) ensures k in Keys(a, key) + Keys(b, key) {
      var i :| 0 <= i < |a + b| && key((a + b)[i]) == k;
      if i >= |a| {
        assert key(b[i - |a|]) == k;
      }
    }
    forall k | k in Keys(a, key) ensures k in Keys(a + b, key) {
      var i :| 0 <= i < |a| && key(a[i]) == k;
      assert key((a + b)[i]) == k;
    }
    forall k | k in Keys(b, key) ensures k in Keys(a + b, key) {
      var i :| 0 <= i < |b| && key(b[i]) == k;
      assert key((a + b)[|a| + i]) == k;
    }
  }

  /** A row that satisfies the defining property of `FirstIndexOf` is at that index. */
  lemma FirstIndexOfUnique<T, K>(s: seq<T>, key: T -> K, k: K, i: nat)
    requires i < |s| && key(s[i]) == k
    requires forall j :: 0 <= j < i ==> key(s[j]) != k
    ensures k in Keys(s, key) && FirstIndexOf(s, key, k) == i
  {
    assert k in Keys(s, key);
  }

  /** Every kept key occurs only once. */
  lemma {:induction false} DedupByDistinct<T, K>(s: seq<T>, key: T -> K, seen: set<K>)
    ensures KeysDistinct(DedupBy(s, key, seen), key)
    decreases |s|
  {
    if s != [] {
      if key(s[0]) in seen {
        DedupByDistinct(s[1..], key, seen);
      } else {
        var rest := DedupBy(s[1..], key, seen + {key(s[0])});
        DedupByDistinct(s[1..], key, seen + {key(s[0])});
        var r := [s[0]] + rest;
        forall i, j | 0 <= i < j < |r| ensures key(r[i]) != key(r[j]) {
          if i == 0 {
            assert r[j] == rest[j - 1];
          } else {
            assert r[i] == rest[i - 1] && r[j] == rest[j - 1];
          }
        }
      }
    }
  }

  /** The kept keys are exactly the keys of the input that had not been seen. */
  lemma {:induction false} DedupByKeys<T, K>(s: seq<T>, key: T -> K, seen: set<K>)
    ensures Keys(DedupBy(s, key, seen), key) == Keys(s, key) - seen
    decreases |s|
  {
    if s == [] {
    } else {
      KeysOfTail(s, key);
      if key(s[0]) in seen {
        DedupByKeys(s[1..], key, seen);
      } else {
        var rest := DedupBy(s[1..], key, seen + {key(s[0])});
        DedupByKeys(s[1..], key, seen + {key(s[0])});
        var r := [s[0]] + rest;
        assert r[1..] == rest;
        KeysOfTail(r, key);
      }
    }
  }

  /**
   * Each kept row is the first row of the input with its key, and kept rows
   * keep the relative order of their positions in the input.
   */
  lemma {:induction false} DedupByFirstInOrder<T, K>(s: seq<T>, key: T -> K, seen: set<K>)
    ensures FirstOccurrencesInOrder(s, key, DedupBy(s, key, seen))
    decreases |s|
  {
    if s != [] {
      var s' := s[1..];
      var seen' := if key(s[0]) in seen then seen else seen + {key(s[0])};
      var rest := DedupBy(s', key, seen');
      DedupByFirstInOrder(s', key, seen');
      var r := DedupBy(s, key, seen);
      // A key kept from the tail differs from the head's key, so its first
      // position in `s` is one past its first position in the tail.
      forall k | 0 <= k < |rest|
        ensures FirstIndexOf(s, key, key(rest[k])) == 1 + FirstIndexOf(s', key, key(rest[k]))
        ensures rest[k] == s[FirstIndexOf(s, key, key(rest[k]))]
      {
        var x := key(rest[k]);
        var f := FirstIndexOf(s', key, x);
        assert rest[k] == s'[f];
        assert x != key(s[0]);
        assert key(s[1 + f]) == x;
        FirstIndexOfUnique(s, key, x, 1 + f);
      }
      if key(s[0]) !in seen {
        assert r == [s[0]] + rest;
        FirstIndexOfUnique(s, key, key(s[0]), 0);
        forall k | 0 <= k < |r| ensures r[k] == s[FirstIndexOf(s, key, key(r[k]))] {
          if k > 0 {
            assert r[k] == rest[k - 1];
          }
        }
        forall a, b | 0 <= a < b < |r|
          ensures FirstIndexOf(s, key, key(r[a])) < FirstIndexOf(s, key, key(r[b]))
        {
          assert r[b] == rest[b - 1];
          if a > 0 {
            assert r[a] == rest[a - 1];
          }
        }
      } else {
        assert r == rest;
      }
    }
  }

  /**
   * `drop_duplicates(subset=key, keep='first')`: keys are pairwise distinct, the
   * key set is unchanged, every kept row is the first row with its key, and the
   * input order is kept.
   */
  lemma DropDuplicatesSpec<T, K>(s: seq<T>, key: T -> K)
    ensures var r := DropDuplicates(s, key);
      && KeysDistinct(r, key)
      && Keys(r, key) == Keys(s, key)
      && FirstOccurrencesInOrder(s, key, r)
  {
    DedupByDistinct(s, key, {});
    DedupByKeys(s, key, {});
    DedupByFirstInOrder(s, key, {});
  }
}
