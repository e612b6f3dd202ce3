/** Python's `list.sort(key=...)` as the converters use it: a stable sort
    whose key is an integer, a real, or a pair of them compared
    lexicographically. The sort is written as insertion sort; what makes it
    Python's sort is proved below: its result is ordered, is a permutation,
    keeps equal-key elements in input order, and is the only sequence with
    those three properties. */
module StableSort {

  /** A sort key, compared as Python compares the pair `(major, minor)`.
      A key that is a single number `z` is `SortKey(0, z)`. */
  datatype SortKey = SortKey(major: int, minor: real)

  predicate KeyLe(a: SortKey, b: SortKey) {
    a.major < b.major || (a.major == b.major && a.minor <= b.minor)
  }

  /** Non-decreasing in the key. */
  predicate SortedBy<T>(s: seq<T>, key: T -> SortKey) {
    forall i, j :: 0 <= i < j < |s| ==> KeyLe(key(s[i]), key(s[j]))
  }

  /** The elements of `s` whose key is `k`, in their order in `s`. */
  function WithKey<T(!new)>(s: seq<T>, key: T -> SortKey, k: SortKey): (r: seq<T>)
    ensures forall x :: x in r <==> x in s && key(x) == k
  {
    if s == [] then []
    else (if key(s[0]) == k then [s[0]] else []) + WithKey(s[1..], key, k)
  }

  /** Putting below a sorted list an element no greater than any of its
      elements keeps it sorted. */
  lemma {:induction false} ConsSorted<T>(h: T, t: seq<T>, key: T -> SortKey)
    requires SortedBy(t, key)
    requires forall j :: 0 <= j < |t| ==> KeyLe(key(h), key(t[j]))
    ensures SortedBy([h] + t, key)
  {
  }

  /** The head of a sorted list is no greater than anything made of its
      tail and an element not below the head. */
  lemma {:induction false} HeadBelowRest<T>(x: T, s: seq<T>, tail: seq<T>, key: T -> SortKey)
    requires s != [] && SortedBy(s, key) && KeyLe(key(s[0]), key(x))
    requires multiset(tail) == multiset(s[1..]) + multiset{x}
    ensures forall j :: 0 <= j < |tail| ==> KeyLe(key(s[0]), key(tail[j]))
  {
    forall j | 0 <= j < |tail|
      ensures KeyLe(key(s[0]), key(tail[j]))
    {
      assert tail[j] in multiset(tail);
      if tail[j] != x {
        assert tail[j] in multiset(s[1..]);
        assert tail[j] in s[1..];
      }
    }
  }

  /** `x` placed in front of the first element whose key is not below its own. */
  function Insert<T>(x: T, s: seq<T>, key: T -> SortKey): (r: seq<T>)
    requires SortedBy(s, key)
    ensures multiset(r) == multiset(s) + multiset{x}
    ensures SortedBy(r, key)
  {
    if s == [] || KeyLe(key(x), key(s[0])) then
      [x] + s
    else
      var tail := Insert(x, s[1..], key);
      HeadBelowRest(x, s, tail, key);
      ConsSorted(s[0], tail, key);
      assert s == [s[0]] + s[1..];
      [s[0]] + tail
  }

  /** Python's `list.sort(key=key)`, as a value. */
  function Sort<T>(s: seq<T>, key: T -> SortKey): (r: seq<T>)
    ensures multiset(r) == multiset(s)
    ensures SortedBy(r, key)
  {
    if s == [] then []
    else
      assert s == [s[0]] + s[1..];
      Insert(s[0], Sort(s[1..], key), key)
  }

  lemma {:induction false} InsertWithKey<T(!new)>(x: T, s: seq<T>, key: T -> SortKey, k: SortKey)
    requires SortedBy(s, key)
    ensures WithKey(Insert(x, s, key), key, k)
         == (if key(x) == k then [x] else []) + WithKey(s, key, k)
  {
    if s == [] || KeyLe(key(x), key(s[0])) {
      assert Insert(x, s, key)[1..] == s;
    } else {
      var r, rest := Insert(x, s, key), Insert(x, s[1..], key);
      assert r[0] == s[0] && r[1..] == rest;
      WithKeyTail(r, key, k);
      WithKeyTail(s, key, k);
      InsertWithKey(x, s[1..], key, k);
      if key(s[0]) == k {
        // x sorts after s[0], so its key differs from s[0]'s
        assert key(x) != k;
      }
    }
  }

  /** Stability: for every key, the elements carrying it leave the sort in
      the order they entered it. */
  lemma {:induction false} SortStable<T(!new)>(s: seq<T>, key: T -> SortKey, k: SortKey)
    ensures WithKey(Sort(s, key), key, k) == WithKey(s, key, k)
  {
    if s != [] {
      SortStable(s[1..], key, k);
      InsertWithKey(s[0], Sort(s[1..], key), key, k);
    }
  }

  /** Sorting a sequence that is already in order changes nothing, so the
      sort is idempotent. */
  lemma {:induction false} SortOfSorted<T>(s: seq<T>, key: T -> SortKey)
    requires SortedBy(s, key)
    ensures Sort(s, key) == s
  {
    if s != [] {
      SortOfSorted(s[1..], key);
      assert s == [s[0]] + s[1..];
    }
  }

  lemma {:induction false} SortIdempotent<T>(s: seq<T>, key: T -> SortKey)
    ensures Sort(Sort(s, key), key) == Sort(s, key)
  {
    SortOfSorted(Sort(s, key), key);
  }

  /** Dropping the head of `s` drops it from its key's elements and from no
      other key's. */
  lemma {:induction false} WithKeyTail<T(!new)>(s: seq<T>, key: T -> SortKey, k: SortKey)
    requires s != []
    ensures key(s[0]) == k ==> WithKey(s, key, k) == [s[0]] + WithKey(s[1..], key, k)
    ensures key(s[0]) != k ==> WithKey(s, key, k) == WithKey(s[1..], key, k)
  {
  }

  /** In an ordered sequence, the head's key is at or below every key that
      occurs in it. */
  lemma {:induction false} HeadKeyIsLeast<T(!new)>(s: seq<T>, key: T -> SortKey, k: SortKey)
    requires SortedBy(s, key)
    requires WithKey(s, key, k) != []
    ensures s != [] && KeyLe(key(s[0]), k)
  {
    var x := WithKey(s, key, k)[0];
    assert x in WithKey(s, key, k);
    var i :| 0 <= i < |s| && s[i] == x;
    if i > 0 {
      assert KeyLe(key(s[0]), key(s[i]));
    }
  }

  /** Two ordered sequences that agree on every key's elements, in order, are
      equal. */
  lemma {:induction false} OrderedAgreeingEqual<T(!new)>(a: seq<T>, b: seq<T>, key: T -> SortKey)
    requires SortedBy(a, key) && SortedBy(b, key)
    requires forall k :: WithKey(a, key, k) == WithKey(b, key, k)
    ensures a == b
    decreases |a|
  {
    assert a == [] <==> b == [] by {
      if a != [] {
        WithKeyTail(a, key, key(a[0]));
        assert WithKey(b, key, key(a[0])) != [];
      }
      if b != [] {
        WithKeyTail(b, key, key(b[0]));
        assert WithKey(a, key, key(b[0])) != [];
      }
    }
    if a != [] {
      var m := key(a[0]);
      WithKeyTail(a, key, m);
      assert WithKey(a, key, m) == WithKey(b, key, m);
      HeadKeyIsLeast(b, key, m);
      var n := key(b[0]);
      WithKeyTail(b, key, n);
      assert WithKey(a, key, n) == WithKey(b, key, n);
      HeadKeyIsLeast(a, key, n);
      assert m == n;
      WithKeyTail(b, key, m);
      assert WithKey(a, key, m)[0] == a[0] && WithKey(b, key, m)[0] == b[0];
      forall k
        ensures WithKey(a[1..], key, k) == WithKey(b[1..], key, k)
      {
        WithKeyTail(a, key, k);
        WithKeyTail(b, key, k);
        assert WithKey(a, key, k) == WithKey(b, key, k);
        if k == m {
          assert WithKey(a[1..], key, k) == WithKey(a, key, k)[1..];
          assert WithKey(b[1..], key, k) == WithKey(b, key, k)[1..];
        }
      }
      OrderedAgreeingEqual(a[1..], b[1..], key);
      assert a == [a[0]] + a[1..] && b == [b[0]] + b[1..];
    }
  }

  /** The result of `Sort` is the only ordered sequence that lists every
      key's elements in their input order: any stable sort of `s` gives it. */
  lemma {:induction false} SortUnique<T(!new)>(s: seq<T>, r: seq<T>, key: T -> SortKey)
    requires SortedBy(r, key)
    requires forall k :: WithKey(r, key, k) == WithKey(s, key, k)
    ensures r == Sort(s, key)
  {
    forall k
      ensures WithKey(r, key, k) == WithKey(Sort(s, key), key, k)
    {
      SortStable(s, key, k);
    }
    OrderedAgreeingEqual(r, Sort(s, key), key);
  }
}
