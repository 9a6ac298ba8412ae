/** Stable ascending sort by an integer key. `Array.prototype.sort` is required
    to be stable (section 23.1.3.30 of ECMA-262, 2023 edition), and a comparator
    `(a, b) => key(a) - key(b)` orders by the key, so its result is the unique
    rearrangement that is sorted by the key and keeps equal-key elements in
    their input order; `SortBy` computes that rearrangement. */
module Sorting {
  import opened Lists

  predicate SortedBy<T>(s: seq<T>, key: T -> int) {
    forall i, j :: 0 <= i < j < |s| ==> key(s[i]) <= key(s[j])
  }

  /** The test that selects the elements whose key is `k`. */
  function HasKey<T>(key: T -> int, k: int): T -> bool {
    x => key(x) == k
  }

  /** `r` keeps the elements of every key in the order they have in `s`. */
  ghost predicate Stable<T(!new)>(r: seq<T>, s: seq<T>, key: T -> int) {
    forall k :: Filter(r, HasKey(key, k)) == Filter(s, HasKey(key, k))
  }

  /** `x` inserted into `t` in front of the first element whose key is not below its own. */
  function Insert<T>(x: T, t: seq<T>, key: T -> int): (r: seq<T>)
    ensures multiset(r) == multiset(t) + multiset{x}
    ensures forall y :: y in r ==> y == x || y in t
    ensures SortedBy(t, key) ==> SortedBy(r, key)
  {
    if t == [] then [x]
    else if key(x) <= key(t[0]) then [x] + t
    else
      var rest := Insert(x, t[1..], key);
      var r := [t[0]] + rest;
      assert t == [t[0]] + t[1..];
      assert SortedBy(t, key) ==> SortedBy(r, key) by {
        if SortedBy(t, key) {
          assert SortedBy(t[1..], key);
          forall j | 0 < j < |r|
            ensures key(t[0]) <= key(r[j])
          {
            assert r[j] in rest;
          }
        }
      }
      r
  }

  function SortBy<T>(s: seq<T>, key: T -> int): (r: seq<T>)
    ensures multiset(r) == multiset(s)
    ensures SortedBy(r, key)
  {
    if s == [] then []
    else
      assert s == [s[0]] + s[1..];
      Insert(s[0], SortBy(s[1..], key), key)
  }

  lemma {:induction false} InsertKeepsKeyOrder<T(!new)>(x: T, t: seq<T>, key: T -> int, k: int)
    ensures Filter(Insert(x, t, key), HasKey(key, k)) ==
            (if key(x) == k then [x] else []) + Filter(t, HasKey(key, k))
  {
    var p := HasKey(key, k);
    var r := Insert(x, t, key);
    if t == [] {
      FilterFirst(r, p);
    } else if key(x) <= key(t[0]) {
      assert r == [x] + t;
      FilterFirst(r, p);
      assert r[1..] == t;
    } else {
      var rest := Insert(x, t[1..], key);
      assert r == [t[0]] + rest;
      assert r[0] == t[0] && r[1..] == rest;
      InsertKeepsKeyOrder(x, t[1..], key, k);
      FilterFirst(r, p);
      FilterFirst(t, p);
      var head := if p(t[0]) then [t[0]] else [];
      var mid := if key(x) == k then [x] else [];
      assert key(x) == k ==> !p(t[0]);
      SwapEmpty(head, mid, Filter(t[1..], p));
    }
  }

  lemma SwapEmpty<T>(a: seq<T>, b: seq<T>, c: seq<T>)
    requires a == [] || b == []
    ensures a + (b + c) == b + (a + c)
  {
  }

  /** Elements with equal keys keep their relative order. */
  lemma {:induction false} SortByIsStable<T(!new)>(s: seq<T>, key: T -> int)
    ensures Stable(SortBy(s, key), s, key)
  {
    if s != [] {
      forall k ensures Filter(SortBy(s, key), HasKey(key, k)) == Filter(s, HasKey(key, k)) {
        SortByIsStable(s[1..], key);
        InsertKeepsKeyOrder(s[0], SortBy(s[1..], key), key, k);
        assert s == [s[0]] + s[1..];
        FilterAppend([s[0]], s[1..], HasKey(key, k));
      }
    }
  }

  /** Any rearrangement of `s` that is sorted by the key and stable is `SortBy(s, key)`:
      a stable sort has exactly one possible result. */
  lemma StableSortIsUnique<T(!new)>(r: seq<T>, s: seq<T>, key: T -> int)
    requires SortedBy(r, key)
    requires Stable(r, s, key)
    ensures r == SortBy(s, key)
  {
    SortByIsStable(s, key);
    SortedStableUnique(r, SortBy(s, key), s, key);
  }

  /** A stable rearrangement holds the same elements as its input. */
  lemma StableSameElements<T(!new)>(r: seq<T>, s: seq<T>, key: T -> int)
    requires Stable(r, s, key)
    ensures multiset(r) == multiset(s)
  {
    forall x ensures multiset(r)[x] == multiset(s)[x] {
      var p := HasKey(key, key(x));
      assert Filter(r, p) == Filter(s, p);
    }
  }

  /** Two rearrangements sorted by the same key and holding the same elements
      start with elements of equal key. */
  lemma FirstKeysAgree<T>(a: seq<T>, b: seq<T>, key: T -> int)
    requires a != [] && b != []
    requires SortedBy(a, key) && SortedBy(b, key)
    requires multiset(a) == multiset(b)
    ensures key(a[0]) == key(b[0])
  {
    assert a[0] in multiset(b) && b[0] in multiset(a);
    var i :| 0 <= i < |b| && b[i] == a[0];
    var j :| 0 <= j < |a| && a[j] == b[0];
    assert i == 0 || key(b[0]) <= key(b[i]);
    assert j == 0 || key(a[0]) <= key(a[j]);
  }

  /** When `a` and `b` keep the same order within every key and start with
      equal keys, they start with the same element and their tails again keep
      the same order within every key. */
  lemma StableFirstAndRest<T(!new)>(a: seq<T>, b: seq<T>, key: T -> int)
    requires a != [] && b != [] && key(a[0]) == key(b[0])
    requires Stable(a, b, key)
    ensures a[0] == b[0]
    ensures Stable(a[1..], b[1..], key)
  {
    var p := HasKey(key, key(a[0]));
    FilterFirst(a, p);
    FilterFirst(b, p);
    assert Filter(a, p) == Filter(b, p);
    assert Filter(a, p)[0] == a[0] && Filter(b, p)[0] == b[0];
    forall k ensures Filter(a[1..], HasKey(key, k)) == Filter(b[1..], HasKey(key, k)) {
      var q := HasKey(key, k);
      var h := if q(a[0]) then [a[0]] else [];
      FilterFirst(a, q);
      FilterFirst(b, q);
      assert Filter(a, q) == Filter(b, q);
      assert Filter(a, q) == h + Filter(a[1..], q) && Filter(b, q) == h + Filter(b[1..], q);
      assert Filter(a[1..], q) == Filter(a, q)[|h|..];
    }
  }

  lemma SortedTail<T>(a: seq<T>, key: T -> int)
    requires a != [] && SortedBy(a, key)
    ensures SortedBy(a[1..], key)
  {
    forall i, j | 0 <= i < j < |a[1..]|
      ensures key(a[1..][i]) <= key(a[1..][j])
    {
      assert a[1..][i] == a[i + 1] && a[1..][j] == a[j + 1];
    }
  }

  lemma {:induction false} SortedStableUnique<T(!new)>(a: seq<T>, b: seq<T>, s: seq<T>, key: T -> int)
    requires SortedBy(a, key) && SortedBy(b, key)
    requires Stable(a, s, key) && Stable(b, s, key)
    ensures a == b
    decreases |a|
  {
    StableSameElements(a, s, key);
    StableSameElements(b, s, key);
    assert |a| == |b| by {
      assert |multiset(a)| == |multiset(b)|;
    }
    if a != [] {
      assert Stable(a, b, key) by {
        forall k ensures Filter(a, HasKey(key, k)) == Filter(b, HasKey(key, k)) {
          assert Filter(a, HasKey(key, k)) == Filter(s, HasKey(key, k));
          assert Filter(b, HasKey(key, k)) == Filter(s, HasKey(key, k));
        }
      }
      FirstKeysAgree(a, b, key);
      StableFirstAndRest(a, b, key);
      SortedTail(a, key);
      SortedTail(b, key);
      SortedStableUnique(a[1..], b[1..], b[1..], key);
      assert a == [a[0]] + a[1..] && b == [b[0]] + b[1..];
    }
  }
}
