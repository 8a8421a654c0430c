/** What the source may rely on after `sort.Slice`, which promises a sorted permutation and nothing else. */
module Sorting {

  ghost predicate StrictWeakOn<T>(s: seq<T>, less: (T, T) -> bool) {
    && (forall a, b :: a in s && b in s && less(a, b) ==> !less(b, a))
    && (forall a, b, c :: a in s && b in s && c in s && less(a, c) ==> less(a, b) || less(b, c))
  }

  ghost predicate Sorted<T>(s: seq<T>, less: (T, T) -> bool) {
    forall i, j :: 0 <= i < j < |s| ==> !less(s[j], s[i])
  }

  ghost predicate StrictlySorted<T>(s: seq<T>, less: (T, T) -> bool) {
    forall i, j :: 0 <= i < j < |s| ==> less(s[i], s[j])
  }

  ghost predicate SameElements<T>(a: seq<T>, b: seq<T>) {
    (forall x :: x in a ==> x in b) && (forall x :: x in b ==> x in a)
  }

  /** Two strictly ascending listings of the same things are one listing. */
  lemma {:induction false} AscendingIsUnique<T>(a: seq<T>, b: seq<T>, less: (T, T) -> bool)
    requires StrictlySorted(a, less) && StrictlySorted(b, less) && SameElements(a, b)
    requires forall x, y :: x in a && y in a && less(x, y) ==> !less(y, x)
    ensures a == b
  {
    assert |b| > 0 ==> b[0] in b;
    if a != [] {
      assert a[0] in a && a[0] in b;
      assert b[0] in b && b[0] in a;
      assert forall k :: 0 < k < |a| ==> less(a[0], a[k]);
      assert forall k :: 0 < k < |b| ==> less(b[0], b[k]);
      assert a[0] == b[0] by {
        var i :| 0 <= i < |b| && b[i] == a[0];
        var j :| 0 <= j < |a| && a[j] == b[0];
      }
      forall x | x in a || x in b ensures x in a[1..] <==> x in b[1..] {
        TailMember(a, x, less);
        TailMember(b, x, less);
      }
      AscendingIsUnique(a[1..], b[1..], less);
      assert a == [a[0]] + a[1..] && b == [b[0]] + b[1..];
    }
  }

  lemma TailMember<T>(s: seq<T>, x: T, less: (T, T) -> bool)
    requires s != [] && StrictlySorted(s, less)
    requires forall a, b :: a in s && b in s && less(a, b) ==> !less(b, a)
    ensures x in s[1..] <==> x in s && x != s[0]
  {
    if x in s[1..] {
      var i :| 0 <= i < |s| - 1 && s[1..][i] == x;
      assert less(s[0], s[i + 1]);
    }
    if x in s && x != s[0] {
      var i :| 0 <= i < |s| && s[i] == x;
      assert s[1..][i - 1] == x;
    }
  }

  method Insert<T>(s: seq<T>, x: T, less: (T, T) -> bool) returns (r: seq<T>)
    requires Sorted(s, less) && StrictWeakOn(s + [x], less)
    ensures Sorted(r, less) && multiset(r) == multiset(s) + multiset{x}
  {
    hide Sorted;
    var i := |s|;
    while i > 0 && less(x, s[i - 1])
      invariant 0 <= i <= |s|
      invariant forall k :: i <= k < |s| ==> less(x, s[k])
    {
      assert s[i - 1] in s + [x] && x in s + [x];
      i := i - 1;
    }
    r := s[..i] + [x] + s[i..];
    InsertedIsSorted(s, x, i, less);
    InsertedIsMore(s, x, i);
  }

  lemma InsertedIsMore<T>(s: seq<T>, x: T, i: nat)
    requires i <= |s|
    ensures multiset(s[..i] + [x] + s[i..]) == multiset(s) + multiset{x}
  {
    assert s == s[..i] + s[i..];
  }

  lemma InsertedIsSorted<T>(s: seq<T>, x: T, i: nat, less: (T, T) -> bool)
    requires Sorted(s, less) && StrictWeakOn(s + [x], less) && i <= |s|
    requires forall k :: i <= k < |s| ==> less(x, s[k])
    requires i > 0 ==> !less(x, s[i - 1])
    ensures Sorted(s[..i] + [x] + s[i..], less)
  {
    var r := s[..i] + [x] + s[i..];
    forall k | 0 <= k < i ensures !less(x, s[k]) {
      assert s[k] in s + [x] && s[i - 1] in s + [x] && x in s + [x];
      assert k < i - 1 ==> !less(s[i - 1], s[k]);
    }
    forall a, b | 0 <= a < b < |r| ensures !less(r[b], r[a]) {
      if a == i {
        assert s[b - 1] in s + [x] && x in s + [x];
        assert r[a] == x && r[b] == s[b - 1] && less(x, s[b - 1]);
      } else if b != i {
        assert r[a] == s[if a < i then a else a - 1] && r[b] == s[if b < i then b else b - 1];
      }
    }
  }

  lemma SubStrictWeak<T>(s: seq<T>, t: seq<T>, less: (T, T) -> bool)
    requires StrictWeakOn(s, less) && forall x :: x in t ==> x in s
    ensures StrictWeakOn(t, less)
  {
  }

  /** Some sorting of `s`: callers see only that it is a sorted permutation. */
  method Sort<T>(s: seq<T>, less: (T, T) -> bool) returns (r: seq<T>)
    requires StrictWeakOn(s, less)
    ensures Sorted(r, less) && multiset(r) == multiset(s)
    ensures SameElements(r, s) && |r| == |s|
  {
    r := [];
    var i := 0;
    while i < |s|
      invariant 0 <= i <= |s|
      invariant Sorted(r, less) && multiset(r) == multiset(s[..i])
    {
      forall x | x in r + [s[i]] ensures x in s {
        if x in r { assert x in multiset(r); assert x in s[..i]; }
      }
      SubStrictWeak(s, r + [s[i]], less);
      r := Insert(r, s[i], less);
      assert s[..i + 1] == s[..i] + [s[i]];
      i := i + 1;
    }
    assert s[..|s|] == s;
    SamePermutation(r, s);
  }

  lemma SamePermutation<T>(a: seq<T>, b: seq<T>)
    requires multiset(a) == multiset(b)
    ensures SameElements(a, b) && |a| == |b|
  {
    forall x | x in a || x in b ensures x in a && x in b {
      assert x in a <==> x in multiset(a);
      assert x in b <==> x in multiset(b);
    }
    assert |multiset(a)| == |a| && |multiset(b)| == |b|;
  }

  /** When only equal things are incomparable, a sorted permutation is unique. */
  lemma {:induction false} SortedIsUnique<T>(a: seq<T>, b: seq<T>, less: (T, T) -> bool)
    requires Sorted(a, less) && Sorted(b, less) && multiset(a) == multiset(b)
    requires forall x, y :: x in a && y in a && !less(x, y) && !less(y, x) ==> x == y
    ensures a == b
  {
    SamePermutation(a, b);
    if a != [] {
      SameHead(a, b, less);
      SplitHead(a);
      SplitHead(b);
      hide Sorted;
      TailSorted(a, less);
      TailSorted(b, less);
      assert forall x :: x in a[1..] ==> x in a;
      SortedIsUnique(a[1..], b[1..], less);
    }
  }

  lemma SameHead<T>(a: seq<T>, b: seq<T>, less: (T, T) -> bool)
    requires Sorted(a, less) && Sorted(b, less) && SameElements(a, b) && a != [] && b != []
    requires forall x, y :: x in a && y in a && !less(x, y) && !less(y, x) ==> x == y
    ensures a[0] == b[0]
  {
    assert a[0] in a && a[0] in b && b[0] in b && b[0] in a;
    var i :| 0 <= i < |b| && b[i] == a[0];
    var j :| 0 <= j < |a| && a[j] == b[0];
    assert i > 0 ==> !less(b[i], b[0]);
    assert j > 0 ==> !less(a[j], a[0]);
  }

  lemma SplitHead<T>(a: seq<T>)
    requires a != []
    ensures a == [a[0]] + a[1..] && multiset(a[1..]) == multiset(a) - multiset{a[0]}
  {
    assert a == [a[0]] + a[1..];
  }

  lemma TailSorted<T>(a: seq<T>, less: (T, T) -> bool)
    requires Sorted(a, less) && a != []
    ensures Sorted(a[1..], less)
  {
  }

  // ---- sets

  lemma SomeMember<T>(s: set<T>) returns (x: T)
    requires s != {}
    ensures x in s
  {
    x :| x in s;
  }

  lemma SubsetCount<T>(a: set<T>, b: set<T>)
    requires a <= b
    ensures |a| <= |b|
  {
    assert b == a + (b - a);
  }

  lemma DisjointCount<T>(a: set<T>, b: set<T>)
    requires a !! b
    ensures |a + b| == |a| + |b|
  {
  }
}
