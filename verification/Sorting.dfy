/** Stable sorting by an integer key, as sort.SliceStable promises it: sorted,
    and equal keys keep their order. The promise has exactly one answer. */
module Sorting {
  function Filter<T>(s: seq<T>, p: T -> bool): seq<T> {
    if s == [] then [] else (if p(s[0]) then [s[0]] else []) + Filter(s[1..], p)
  }

  function HasKey<T>(key: T -> int, k: int): T -> bool {
    x => key(x) == k
  }

  function WithKey<T>(key: T -> int, s: seq<T>, k: int): seq<T> {
    Filter(s, HasKey(key, k))
  }

  ghost predicate SortedBy<T>(key: T -> int, s: seq<T>) {
    forall i, j | 0 <= i < j < |s| :: key(s[i]) <= key(s[j])
  }

  function Insert<T>(key: T -> int, x: T, s: seq<T>): seq<T> {
    if s == [] || key(x) <= key(s[0]) then [x] + s else [s[0]] + Insert(key, x, s[1..])
  }

  function StableSort<T>(key: T -> int, s: seq<T>): seq<T> {
    if s == [] then [] else Insert(key, s[0], StableSort(key, s[1..]))
  }

  /** Sorted, and the same elements in the same order under every key. */
  ghost predicate IsStableSortOf<T>(key: T -> int, s: seq<T>, out: seq<T>) {
    SortedBy(key, out) && forall k :: WithKey(key, out, k) == WithKey(key, s, k)
  }

  // ----- filtering -----

  lemma {:induction false} FilterMember<T>(s: seq<T>, p: T -> bool, x: T)
    ensures x in Filter(s, p) <==> x in s && p(x)
  {
    if s != [] {
      FilterMember(s[1..], p, x);
    }
  }

  lemma {:induction false} FilterAppend<T>(a: seq<T>, b: seq<T>, p: T -> bool)
    ensures Filter(a + b, p) == Filter(a, p) + Filter(b, p)
  {
    if a == [] {
      assert a + b == b;
    } else {
      assert (a + b)[0] == a[0] && (a + b)[1..] == a[1..] + b;
      FilterAppend(a[1..], b, p);
      var head := if p(a[0]) then [a[0]] else [];
      assert head + (Filter(a[1..], p) + Filter(b, p)) == (head + Filter(a[1..], p)) + Filter(b, p);
    }
  }

  // ----- insertion -----

  lemma {:induction false} InsertMultiset<T>(key: T -> int, x: T, s: seq<T>)
    ensures multiset(Insert(key, x, s)) == multiset([x] + s)
  {
    if s != [] && !(key(x) <= key(s[0])) {
      InsertMultiset(key, x, s[1..]);
      assert s == [s[0]] + s[1..];
    }
  }

  lemma MemberMultiset<T>(a: seq<T>, b: seq<T>, x: T)
    requires multiset(a) == multiset(b)
    ensures x in a <==> x in b
  {
    assert x in multiset(a) <==> x in multiset(b);
  }

  lemma {:induction false} InsertSorted<T>(key: T -> int, x: T, s: seq<T>)
    requires SortedBy(key, s)
    ensures SortedBy(key, Insert(key, x, s))
  {
    if s != [] && !(key(x) <= key(s[0])) {
      InsertSorted(key, x, s[1..]);
      InsertMultiset(key, x, s[1..]);
      var rest := Insert(key, x, s[1..]);
      forall i | 0 <= i < |rest| ensures key(s[0]) <= key(rest[i]) {
        MemberMultiset(rest, [x] + s[1..], rest[i]);
      }
    }
  }

  lemma {:induction false} InsertWithKey<T>(key: T -> int, x: T, s: seq<T>, k: int)
    ensures WithKey(key, Insert(key, x, s), k) == WithKey(key, [x] + s, k)
  {
    if s != [] && !(key(x) <= key(s[0])) {
      InsertWithKey(key, x, s[1..], k);
      var has := HasKey(key, k);
      FilterAppend([s[0]], Insert(key, x, s[1..]), has);
      FilterAppend([x], s, has);
      FilterAppend([x], s[1..], has);
    }
  }

  // ----- sorting -----

  lemma {:induction false} StableSortIs<T>(key: T -> int, s: seq<T>)
    ensures IsStableSortOf(key, s, StableSort(key, s))
    ensures multiset(StableSort(key, s)) == multiset(s)
  {
    if s != [] {
      var rest := StableSort(key, s[1..]);
      StableSortIs(key, s[1..]);
      InsertSorted(key, s[0], rest);
      InsertMultiset(key, s[0], rest);
      assert s == [s[0]] + s[1..];
      forall k ensures WithKey(key, StableSort(key, s), k) == WithKey(key, s, k) {
        InsertWithKey(key, s[0], rest, k);
        assert WithKey(key, rest, k) == WithKey(key, s[1..], k);
        FilterAppend([s[0]], rest, HasKey(key, k));
        FilterAppend([s[0]], s[1..], HasKey(key, k));
      }
    }
  }

  lemma {:induction false} HeadOfKey<T>(key: T -> int, s: seq<T>, t: seq<T>)
    requires s != [] && SortedBy(key, t) && WithKey(key, t, key(s[0])) == WithKey(key, s, key(s[0]))
    ensures t != [] && key(t[0]) <= key(s[0])
  {
    var has := HasKey(key, key(s[0]));
    FilterMember(s, has, s[0]);
    FilterMember(t, has, s[0]);
    var i :| 0 <= i < |t| && t[i] == s[0];
    assert t[0] == t[i] || key(t[0]) <= key(t[i]);
  }

  /** Whatever the algorithm, a stable sort has one answer. */
  lemma {:induction false} StableSortUnique<T>(key: T -> int, a: seq<T>, b: seq<T>)
    requires SortedBy(key, a) && SortedBy(key, b)
    requires forall k :: WithKey(key, a, k) == WithKey(key, b, k)
    ensures a == b
    decreases |a|
  {
    if a == [] {
      if b != [] {
        HeadOfKey(key, b, a);
      }
    } else {
      HeadOfKey(key, a, b);
      HeadOfKey(key, b, a);
      var k0 := key(a[0]);
      assert WithKey(key, a, k0)[0] == a[0] && WithKey(key, b, k0)[0] == b[0];
      forall k ensures WithKey(key, a[1..], k) == WithKey(key, b[1..], k) {
        var n := if k == k0 then 1 else 0;
        assert WithKey(key, a, k) == WithKey(key, b, k);
        assert WithKey(key, a[1..], k) == WithKey(key, a, k)[n..];
        assert WithKey(key, b[1..], k) == WithKey(key, b, k)[n..];
      }
      StableSortUnique(key, a[1..], b[1..]);
      assert a == [a[0]] + a[1..] && b == [b[0]] + b[1..];
    }
  }
}
