/**
 * A stable sort, standing for JavaScript's Array.prototype.sort, which is
 * stable since ES2019. Every comparator of the original compares a few integer
 * ranks lexicographically, so a comparator is given here as a key function
 * into SortKey.
 */
module Sorting {

  /** A lexicographic key of three integer components. */
  datatype SortKey = SortKey(primary: int, secondary: int, tertiary: int)

  /** Strict lexicographic order on keys. */
  predicate KeyLess(a: SortKey, b: SortKey) {
    || a.primary < b.primary
    || (a.primary == b.primary && a.secondary < b.secondary)
    || (a.primary == b.primary && a.secondary == b.secondary && a.tertiary < b.tertiary)
  }

  /** No later element has a strictly smaller key than an earlier one. */
  predicate SortedBy<T>(s: seq<T>, key: T -> SortKey) {
    forall i, j :: 0 <= i < j < |s| ==> !KeyLess(key(s[j]), key(s[i]))
  }

  /** The subsequence of the elements of `s` whose key is `k`. */
  function WithKey<T>(s: seq<T>, key: T -> SortKey, k: SortKey): seq<T> {
    if s == [] then []
    else (if key(s[0]) == k then [s[0]] else []) + WithKey(s[1..], key, k)
  }

  /** Inserts `x` in front of the first element whose key is not smaller. */
  function Insert<T>(x: T, s: seq<T>, key: T -> SortKey): (r: seq<T>)
    ensures multiset(r) == multiset(s) + multiset{x}
    ensures SortedBy(s, key) ==> SortedBy(r, key)
  {
    if s == [] || !KeyLess(key(s[0]), key(x)) then
      InsertFront(x, s, key);
      [x] + s
    else
      var rest := Insert(x, s[1..], key);
      InsertBehind(x, s, key, rest);
      [s[0]] + rest
  }

  /** Key order is transitive: no key below one that is not below another. */
  lemma NotLessTrans(a: SortKey, b: SortKey, c: SortKey)
    requires !KeyLess(b, a) && !KeyLess(c, b)
    ensures !KeyLess(c, a)
  {
  }

  lemma InsertFront<T>(x: T, s: seq<T>, key: T -> SortKey)
    requires s == [] || !KeyLess(key(s[0]), key(x))
    ensures multiset([x] + s) == multiset(s) + multiset{x}
    ensures SortedBy(s, key) ==> SortedBy([x] + s, key)
  {
    if SortedBy(s, key) {
      var r := [x] + s;
      forall i, j | 0 <= i < j < |r| ensures !KeyLess(key(r[j]), key(r[i])) {
        if i == 0 {
          assert r[j] == s[j - 1];
          if j > 1 {
            NotLessTrans(key(x), key(s[0]), key(s[j - 1]));
          }
        } else {
          assert r[i] == s[i - 1] && r[j] == s[j - 1];
        }
      }
    }
  }

  lemma InsertBehind<T>(x: T, s: seq<T>, key: T -> SortKey, rest: seq<T>)
    requires s != [] && KeyLess(key(s[0]), key(x))
    requires multiset(rest) == multiset(s[1..]) + multiset{x}
    requires SortedBy(s[1..], key) ==> SortedBy(rest, key)
    ensures multiset([s[0]] + rest) == multiset(s) + multiset{x}
    ensures SortedBy(s, key) ==> SortedBy([s[0]] + rest, key)
  {
    assert s == [s[0]] + s[1..];
    if SortedBy(s, key) {
      assert SortedBy(s[1..], key) by {
        forall i, j | 0 <= i < j < |s[1..]| ensures !KeyLess(key(s[1..][j]), key(s[1..][i])) {
          assert s[1..][i] == s[i + 1] && s[1..][j] == s[j + 1];
        }
      }
      var r := [s[0]] + rest;
      forall i, j | 0 <= i < j < |r| ensures !KeyLess(key(r[j]), key(r[i])) {
        if i == 0 {
          var y := r[j];
          assert y == rest[j - 1];
          assert y in multiset(rest);
          if y != x {
            assert y in multiset(s[1..]);
            var m :| 0 <= m < |s[1..]| && s[1..][m] == y;
            assert s[m + 1] == y;
          }
        } else {
          assert r[i] == rest[i - 1] && r[j] == rest[j - 1];
        }
      }
    }
  }

  /** Insertion sort: a sorted permutation of `s`. */
  function StableSort<T>(s: seq<T>, key: T -> SortKey): (r: seq<T>)
    ensures multiset(r) == multiset(s)
    ensures |r| == |s|
    ensures SortedBy(r, key)
  {
    if s == [] then []
    else
      assert s == [s[0]] + s[1..];
      Insert(s[0], StableSort(s[1..], key), key)
  }

  lemma {:induction false} WithKeyInsert<T>(x: T, s: seq<T>, key: T -> SortKey, k: SortKey)
    ensures WithKey(Insert(x, s, key), key, k)
         == (if key(x) == k then [x] else []) + WithKey(s, key, k)
  {
    if s == [] || !KeyLess(key(s[0]), key(x)) {
      assert Insert(x, s, key) == [x] + s;
      assert ([x] + s)[1..] == s;
    } else {
      var rest := Insert(x, s[1..], key);
      assert Insert(x, s, key) == [s[0]] + rest;
      WithKeyInsert(x, s[1..], key, k);
      WithKeyBehind(x, s, key, k, rest);
    }
  }

  lemma WithKeyBehind<T>(x: T, s: seq<T>, key: T -> SortKey, k: SortKey, rest: seq<T>)
    requires s != [] && KeyLess(key(s[0]), key(x))
    requires WithKey(rest, key, k) == (if key(x) == k then [x] else []) + WithKey(s[1..], key, k)
    ensures WithKey([s[0]] + rest, key, k) == (if key(x) == k then [x] else []) + WithKey(s, key, k)
  {
    assert ([s[0]] + rest)[1..] == rest;
    var w := WithKey(s[1..], key, k);
    var hx := if key(x) == k then [x] else [];
    var h0 := if key(s[0]) == k then [s[0]] else [];
    assert WithKey([s[0]] + rest, key, k) == h0 + (hx + w);
    assert WithKey(s, key, k) == h0 + w;
    if key(s[0]) == k {
      assert key(x) != k;
      assert hx == [];
      assert hx + w == w;
    } else {
      assert h0 == [];
      assert h0 + (hx + w) == hx + w;
      assert h0 + w == w;
    }
  }

  /** Stability: for every key, the elements carrying that key keep their input order. */
  lemma {:induction false} StableSortIsStable<T>(s: seq<T>, key: T -> SortKey, k: SortKey)
    ensures WithKey(StableSort(s, key), key, k) == WithKey(s, key, k)
  {
    if s != [] {
      StableSortIsStable(s[1..], key, k);
      WithKeyInsert(s[0], StableSort(s[1..], key), key, k);
    }
  }

  /** No element occurs twice. */
  predicate Distinct<T(==)>(s: seq<T>) {
    forall i, j :: 0 <= i < j < |s| ==> s[i] != s[j]
  }

  lemma {:induction false} DistinctCount<T>(s: seq<T>, x: T)
    requires Distinct(s)
    ensures multiset(s)[x] <= 1
  {
    if s != [] {
      assert s == [s[0]] + s[1..];
      assert Distinct(s[1..]) by {
        forall i, j | 0 <= i < j < |s[1..]| ensures s[1..][i] != s[1..][j] {
          assert s[1..][i] == s[i + 1] && s[1..][j] == s[j + 1];
        }
      }
      DistinctCount(s[1..], x);
      if x == s[0] {
        assert x !in s[1..] by {
          forall k | 0 <= k < |s[1..]| ensures s[1..][k] != x {
            assert s[1..][k] == s[k + 1];
          }
        }
      }
    }
  }

  /** A permutation of a sequence without repeats has no repeats. */
  lemma DistinctPermutation<T>(a: seq<T>, b: seq<T>)
    requires multiset(a) == multiset(b) && Distinct(a)
    ensures Distinct(b)
  {
    forall i, j | 0 <= i < j < |b| ensures b[i] != b[j] {
      if b[i] == b[j] {
        var x := b[i];
        assert b == b[..j] + [b[j]] + b[j + 1..];
        assert x in multiset(b[..j]);
        assert multiset(b)[x] >= 2;
        DistinctCount(a, x);
        assert false;
      }
    }
  }

  /** The key of a numeric sort, `(a, b) => a - b`. */
  function IntKey(d: int): SortKey { SortKey(d, 0, 0) }

  /** Non-decreasing integers. */
  predicate Ascending(s: seq<int>) {
    forall i, j :: 0 <= i < j < |s| ==> s[i] <= s[j]
  }

  lemma SortedAscending(s: seq<int>)
    requires SortedBy(s, IntKey)
    ensures Ascending(s)
  {
    forall i, j | 0 <= i < j < |s| ensures s[i] <= s[j] {
      assert !KeyLess(IntKey(s[j]), IntKey(s[i]));
    }
  }

  /** Two ascending arrangements of the same integers are the same sequence. */
  lemma {:induction false} AscendingUnique(a: seq<int>, b: seq<int>)
    requires Ascending(a) && Ascending(b) && multiset(a) == multiset(b)
    ensures a == b
  {
    if a != [] {
      assert |b| == |multiset(b)| == |a|;
      AscendingHeads(a, b);
      TailMultisets(a, b);
      AscendingTail(a);
      AscendingTail(b);
      AscendingUnique(a[1..], b[1..]);
      assert a == [a[0]] + a[1..] && b == [b[0]] + b[1..];
    }
  }

  /** Ascending arrangements of the same integers start with the same, smallest, one. */
  lemma AscendingHeads(a: seq<int>, b: seq<int>)
    requires Ascending(a) && Ascending(b) && multiset(a) == multiset(b) && a != [] && b != []
    ensures a[0] == b[0]
  {
    assert a[0] in multiset(b) && b[0] in multiset(a);
    var i :| 0 <= i < |b| && b[i] == a[0];
    var j :| 0 <= j < |a| && a[j] == b[0];
    assert b[0] <= b[i] && a[0] <= a[j];
  }

  lemma TailMultisets(a: seq<int>, b: seq<int>)
    requires multiset(a) == multiset(b) && a != [] && b != [] && a[0] == b[0]
    ensures multiset(a[1..]) == multiset(b[1..])
  {
    assert a == [a[0]] + a[1..] && b == [b[0]] + b[1..];
    assert multiset(a[1..]) == multiset(a) - multiset{a[0]};
    assert multiset(b[1..]) == multiset(b) - multiset{b[0]};
  }

  lemma AscendingTail(s: seq<int>)
    requires Ascending(s) && s != []
    ensures Ascending(s[1..])
  {
    forall i, j | 0 <= i < j < |s[1..]| ensures s[1..][i] <= s[1..][j] {
      assert s[1..][i] == s[i + 1] && s[1..][j] == s[j + 1];
    }
  }
}
