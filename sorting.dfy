/** The stable sort behind JavaScript's `Array.prototype.sort` as this code base uses it:
    every comparator here is `key(b) - key(a)` or a `localeCompare` of date strings, which
    is a descending (or, with a negated key, ascending) order on one integer key.
    Modelled as an insertion sort; what matters is its specification below. */
module Sorting {

  /** Non-increasing in the key. */
  ghost predicate SortedDesc<T>(s: seq<T>, key: T -> int)
  {
    forall i, j :: 0 <= i < j < |s| ==> key(s[i]) >= key(s[j])
  }

  /** The elements whose key equals v, in their order in s. */
  function WithKey<T>(s: seq<T>, key: T -> int, v: int): (r: seq<T>)
    ensures |r| <= |s|
  {
    if s == [] then []
    else (if key(s[0]) == v then [s[0]] else []) + WithKey(s[1..], key, v)
  }

  /** Places x in front of the first element whose key is at most key(x). */
  function Insert<T>(x: T, s: seq<T>, key: T -> int): (r: seq<T>)
    ensures multiset(r) == multiset(s) + multiset{x}
    ensures |r| == |s| + 1
  {
    if s == [] || key(s[0]) <= key(x) then [x] + s
    else
      assert s == [s[0]] + s[1..];
      [s[0]] + Insert(x, s[1..], key)
  }

  function SortDesc<T>(s: seq<T>, key: T -> int): (r: seq<T>)
    ensures multiset(r) == multiset(s)
    ensures |r| == |s|
  {
    if s == [] then []
    else
      assert s == [s[0]] + s[1..];
      Insert(s[0], SortDesc(s[1..], key), key)
  }

  lemma {:induction false} InsertSorted<T>(x: T, s: seq<T>, key: T -> int)
    requires SortedDesc(s, key)
    ensures SortedDesc(Insert(x, s, key), key)
  {
    if s == [] || key(s[0]) <= key(x) {
    } else {
      assert SortedDesc(s[1..], key);
      InsertSorted(x, s[1..], key);
      InsertBounded(x, s[1..], key, key(s[0]));
      SortedCons(s[0], Insert(x, s[1..], key), key);
    }
  }

  /** Inserting keeps every key at most b when x and all of s have keys at most b. */
  lemma InsertBounded<T>(x: T, s: seq<T>, key: T -> int, b: int)
    requires key(x) <= b && forall i :: 0 <= i < |s| ==> key(s[i]) <= b
    ensures forall j :: 0 <= j < |Insert(x, s, key)| ==> key(Insert(x, s, key)[j]) <= b
  {
    var t := Insert(x, s, key);
    forall j | 0 <= j < |t| ensures key(t[j]) <= b {
      assert t[j] in multiset(t);
      if t[j] != x {
        assert t[j] in multiset(s);
        var k :| 0 <= k < |s| && s[k] == t[j];
      }
    }
  }

  /** A sorted sequence stays sorted behind an element whose key bounds all of it. */
  lemma SortedCons<T>(h: T, t: seq<T>, key: T -> int)
    requires SortedDesc(t, key) && forall j :: 0 <= j < |t| ==> key(t[j]) <= key(h)
    ensures SortedDesc([h] + t, key)
  {
    var r := [h] + t;
    forall i, j | 0 <= i < j < |r| ensures key(r[i]) >= key(r[j]) {
      assert r[j] == t[j - 1];
      if i > 0 {
        assert r[i] == t[i - 1];
      }
    }
  }

  /** The result is sorted, non-increasing in the key. */
  lemma {:induction false} SortDescSorted<T>(s: seq<T>, key: T -> int)
    ensures SortedDesc(SortDesc(s, key), key)
  {
    if s != [] {
      SortDescSorted(s[1..], key);
      InsertSorted(s[0], SortDesc(s[1..], key), key);
    }
  }

  lemma WithKeyAppend<T>(a: seq<T>, b: seq<T>, key: T -> int, v: int)
    ensures WithKey(a + b, key, v) == WithKey(a, key, v) + WithKey(b, key, v)
  {
    if a == [] {
      assert a + b == b;
    } else {
      assert (a + b)[0] == a[0];
      assert (a + b)[1..] == a[1..] + b;
      WithKeyAppend(a[1..], b, key, v);
    }
  }

  lemma {:induction false} InsertStable<T>(x: T, s: seq<T>, key: T -> int, v: int)
    requires SortedDesc(s, key)
    ensures WithKey(Insert(x, s, key), key, v) == WithKey([x] + s, key, v)
  {
    if s == [] || key(s[0]) <= key(x) {
    } else {
      assert SortedDesc(s[1..], key);
      InsertStable(x, s[1..], key, v);
      // key(s[0]) > key(x): at most one of the two can carry the key v
      var hs := if key(s[0]) == v then [s[0]] else [];
      var hx := if key(x) == v then [x] else [];
      var r := Insert(x, s, key);
      assert r[0] == s[0] && r[1..] == Insert(x, s[1..], key);
      var xs := [x] + s[1..];
      assert xs[0] == x && xs[1..] == s[1..];
      assert WithKey(r, key, v) == hs + hx + WithKey(s[1..], key, v);
      var ys := [x] + s;
      assert ys[0] == x && ys[1..] == s;
      assert WithKey(ys, key, v) == hx + hs + WithKey(s[1..], key, v);
      assert hs == [] || hx == [];
    }
  }

  /** Stability: for every key value, the elements carrying it keep their input order. */
  lemma {:induction false} SortDescStable<T>(s: seq<T>, key: T -> int, v: int)
    ensures WithKey(SortDesc(s, key), key, v) == WithKey(s, key, v)
  {
    if s != [] {
      var t := SortDesc(s[1..], key);
      calc {
        WithKey(SortDesc(s, key), key, v);
        WithKey(Insert(s[0], t, key), key, v);
        { SortDescSorted(s[1..], key); InsertStable(s[0], t, key, v); }
        WithKey([s[0]] + t, key, v);
        { WithKeyAppend([s[0]], t, key, v); }
        WithKey([s[0]], key, v) + WithKey(t, key, v);
        { SortDescStable(s[1..], key, v); }
        WithKey([s[0]], key, v) + WithKey(s[1..], key, v);
        { WithKeyAppend([s[0]], s[1..], key, v); assert [s[0]] + s[1..] == s; }
        WithKey(s, key, v);
      }
    }
  }

  /** An input that is already sorted is returned unchanged. */
  lemma {:induction false} SortDescOfSorted<T>(s: seq<T>, key: T -> int)
    requires SortedDesc(s, key)
    ensures SortDesc(s, key) == s
  {
    if s != [] {
      assert SortedDesc(s[1..], key);
      SortDescOfSorted(s[1..], key);
      assert s[1..] == [] || key(s[1]) <= key(s[0]);
      assert [s[0]] + s[1..] == s;
    }
  }
}
