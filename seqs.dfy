/** Generic sequence operations that stand for the array methods the widget
    uses: `filter`, `slice(0, n)` and the duplicate-free arrays behind a `Set`. */
module Seqs {

  /** No element occurs twice: what a JavaScript `Set` guarantees. */
  predicate NoDups<T(==)>(s: seq<T>) {
    forall i, j :: 0 <= i < j < |s| ==> s[i] != s[j]
  }

  /** `s.slice(0, n)`: the first `n` elements, or all of them. */
  function Take<T>(s: seq<T>, n: nat): (r: seq<T>)
    ensures |r| == if |s| < n then |s| else n
    ensures r == s[..|r|]
  {
    if |s| <= n then s else s[..n]
  }

  /** `s.filter(y => y !== x)`. */
  function Without<T(==)>(s: seq<T>, x: T): (r: seq<T>)
    ensures x !in r
    ensures forall y :: y in r ==> y in s
    ensures forall y :: y in s && y != x ==> y in r
    ensures multiset(r) == multiset(s)[x := 0]
    ensures |r| <= |s|
  {
    if |s| == 0 then []
    else
      var rest := Without(s[1..], x);
      assert s == [s[0]] + s[1..];
      if s[0] == x then rest else [s[0]] + rest
  }

  /** `s.filter(f)`. */
  function Filter<T>(s: seq<T>, f: T -> bool): (r: seq<T>)
    ensures |r| <= |s|
    ensures forall y :: y in r ==> y in s && f(y)
    ensures forall y :: y in s && f(y) ==> y in r
  {
    if |s| == 0 then []
    else
      var rest := Filter(s[1..], f);
      if f(s[0]) then [s[0]] + rest else rest
  }

  /** Filtering by a predicate and by its negation splits the elements. */
  lemma {:induction false} FilterSplits<T>(s: seq<T>, f: T -> bool)
    ensures multiset(Filter(s, f)) + multiset(Filter(s, y => !f(y))) == multiset(s)
  {
    if |s| > 0 {
      FilterSplits(s[1..], f);
      assert s == [s[0]] + s[1..];
    }
  }

  /** `Without` keeps a duplicate-free sequence duplicate-free. */
  lemma {:induction false} WithoutNoDups<T>(s: seq<T>, x: T)
    requires NoDups(s)
    ensures NoDups(Without(s, x))
  {
    if |s| > 0 {
      WithoutNoDups(s[1..], x);
      var rest := Without(s[1..], x);
      if s[0] != x {
        assert s[0] !in s[1..];
        assert s[0] !in rest;
      }
    }
  }

  /** Removing an element that is absent changes nothing. */
  lemma {:induction false} WithoutAbsent<T>(s: seq<T>, x: T)
    requires x !in s
    ensures Without(s, x) == s
  {
    if |s| > 0 {
      WithoutAbsent(s[1..], x);
      assert s == [s[0]] + s[1..];
    }
  }

  /** Removing keeps the relative order of the remaining elements:
      `Without` distributes over concatenation. */
  lemma {:induction false} WithoutAppend<T>(a: seq<T>, b: seq<T>, x: T)
    ensures Without(a + b, x) == Without(a, x) + Without(b, x)
  {
    if |a| > 0 {
      WithoutAppend(a[1..], b, x);
      assert (a + b)[1..] == a[1..] + b;
    } else {
      assert a + b == b;
    }
  }

  /** A prefix of a duplicate-free sequence is duplicate-free. */
  lemma TakeNoDups<T>(s: seq<T>, n: nat)
    requires NoDups(s)
    ensures NoDups(Take(s, n))
  {
  }

  /** In a duplicate-free sequence every element occurs once. */
  lemma {:induction false} NoDupsCount<T>(a: seq<T>, x: T)
    requires NoDups(a)
    ensures multiset(a)[x] == if x in a then 1 else 0
  {
    if |a| > 0 {
      NoDupsCount(a[1..], x);
      assert a == [a[0]] + a[1..];
    }
  }

  /** Two duplicate-free sequences with the same elements are permutations of
      each other. */
  lemma SameMembersSameMultiset<T>(a: seq<T>, b: seq<T>)
    requires NoDups(a) && NoDups(b)
    requires forall x :: x in a <==> x in b
    ensures multiset(a) == multiset(b)
  {
    forall x ensures multiset(a)[x] == multiset(b)[x] {
      NoDupsCount(a, x);
      NoDupsCount(b, x);
    }
  }
}
