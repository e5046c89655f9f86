/** Move-to-front lists: the order in which the buffer cache keeps its buffers, most
    recently released first, and the searches `bget` makes along that order. */
module Recency {
  import opened Options

  predicate Distinct<T(==,!new)>(s: seq<T>) {
    forall i, j :: 0 <= i < j < |s| ==> s[i] != s[j]
  }

  function Without<T(==,!new)>(s: seq<T>, x: T): (r: seq<T>)
    ensures |r| <= |s| && x !in r
    ensures forall y :: y in r <==> y in s && y != x
  {
    if s == [] then [] else if s[0] == x then Without(s[1..], x) else [s[0]] + Without(s[1..], x)
  }

  function MoveToFront<T(==,!new)>(s: seq<T>, x: T): (r: seq<T>)
    ensures forall y :: y in r <==> y in s || y == x
  {
    [x] + Without(s, x)
  }

  lemma {:induction false} WithoutDistinct<T(!new)>(s: seq<T>, x: T)
    requires Distinct(s)
    ensures Distinct(Without(s, x))
    ensures |Without(s, x)| == if x in s then |s| - 1 else |s|
  {
    if s != [] {
      WithoutDistinct(s[1..], x);
      assert s[0] !in s[1..];
      assert forall y :: y in s <==> y == s[0] || y in s[1..];
    }
  }

  lemma MoveToFrontDistinct<T(!new)>(s: seq<T>, x: T)
    requires Distinct(s)
    ensures Distinct(MoveToFront(s, x))
    ensures |MoveToFront(s, x)| == if x in s then |s| else |s| + 1
  {
    WithoutDistinct(s, x);
  }

  /** The numbers below `n`, each once. */
  ghost predicate Permutation(s: seq<nat>, n: nat) {
    |s| == n && Distinct(s) && forall b :: b in s <==> 0 <= b < n
  }

  lemma MoveToFrontPermutes(s: seq<nat>, n: nat, b: nat)
    requires Permutation(s, n) && b < n
    ensures Permutation(MoveToFront(s, b), n)
  {
    MoveToFrontDistinct(s, b);
  }

  /** The first element of `s` that satisfies `p`. */
  function First<T(!new)>(s: seq<T>, p: T -> bool): (r: Option<T>)
    ensures r.Some? ==> r.value in s && p(r.value)
    ensures r.None? ==> forall x :: x in s ==> !p(x)
  {
    if s == [] then None else if p(s[0]) then Some(s[0]) else First(s[1..], p)
  }

  /** The last element of `s` that satisfies `p`. */
  function Last<T(!new)>(s: seq<T>, p: T -> bool): (r: Option<T>)
    ensures r.Some? ==> r.value in s && p(r.value)
    ensures r.None? ==> forall x :: x in s ==> !p(x)
  {
    if s == [] then None else if p(s[|s| - 1]) then Some(s[|s| - 1]) else Last(s[..|s| - 1], p)
  }

  lemma {:induction false} WithoutAbsent<T(!new)>(s: seq<T>, x: T)
    requires x !in s
    ensures Without(s, x) == s
  {
    if s != [] {
      WithoutAbsent(s[1..], x);
    }
  }

  lemma {:induction false} WithoutOnce<T(!new)>(s: seq<T>, k: nat)
    requires k < |s| && s[k] !in s[..k] && s[k] !in s[k + 1..]
    ensures Without(s, s[k]) == s[..k] + s[k + 1..]
  {
    if k == 0 {
      WithoutAbsent(s[1..], s[0]);
    } else {
      assert s[0] in s[..k];
      assert s[1..][..k - 1] == s[..k][1..] && s[1..][k..] == s[k + 1..];
      WithoutOnce(s[1..], k - 1);
    }
  }

  lemma WithoutAt<T(!new)>(s: seq<T>, k: nat)
    requires Distinct(s) && k < |s|
    ensures Without(s, s[k]) == s[..k] + s[k + 1..]
  {
    WithoutOnce(s, k);
  }

  // ---------- recency ----------

  /** The distinct elements of a history, most recent first. */
  function ByRecency<T(==,!new)>(h: seq<T>): (r: seq<T>)
    ensures forall x :: x in r <==> x in h
    decreases |h|
  {
    if h == [] then []
    else
      assert forall x :: x in h <==> x in h[..|h| - 1] || x == h[|h| - 1];
      MoveToFront(ByRecency(h[..|h| - 1]), h[|h| - 1])
  }

  lemma {:induction false} RecencyDistinct<T(!new)>(h: seq<T>)
    ensures Distinct(ByRecency(h))
    decreases |h|
  {
    if h != [] {
      RecencyDistinct(h[..|h| - 1]);
      MoveToFrontDistinct(ByRecency(h[..|h| - 1]), h[|h| - 1]);
    }
  }

  /** The distinct elements that came after the last `k` of a history. */
  function Since<T(==)>(h: seq<T>, k: T): set<T>
    decreases |h|
  {
    if h == [] || h[|h| - 1] == k then {} else {h[|h| - 1]} + Since(h[..|h| - 1], k)
  }

  /** What stands in front of `k`. */
  function Before<T(==)>(r: seq<T>, k: T): set<T> {
    if r == [] || r[0] == k then {} else {r[0]} + Before(r[1..], k)
  }

  lemma {:induction false} BeforeWithout<T(!new)>(r: seq<T>, k: T, x: T)
    requires x != k && Distinct(r)
    ensures Before(Without(r, x), k) == Before(r, k) - {x}
  {
    if r != [] {
      BeforeWithout(r[1..], k, x);
      if r[0] == x {
        WithoutAbsent(r[1..], x);
        NotBefore(r[1..], k, x);
      }
    }
  }

  lemma {:induction false} NotBefore<T(!new)>(r: seq<T>, k: T, x: T)
    requires x !in r
    ensures x !in Before(r, k)
  {
    if r != [] {
      NotBefore(r[1..], k, x);
    }
  }

  /** In recency order exactly the elements seen since `k` stand in front of it. */
  lemma {:induction false} BeforeIsSince<T(!new)>(h: seq<T>, k: T)
    requires k in h
    ensures Before(ByRecency(h), k) == Since(h, k)
    decreases |h|
  {
    var x := h[|h| - 1];
    if x != k {
      assert k in h[..|h| - 1];
      BeforeIsSince(h[..|h| - 1], k);
      RecencyDistinct(h[..|h| - 1]);
      BeforeWithout(ByRecency(h[..|h| - 1]), k, x);
      assert ByRecency(h)[1..] == Without(ByRecency(h[..|h| - 1]), x);
    }
  }

  lemma {:induction false} BeforeCounts<T(!new)>(r: seq<T>, i: nat)
    requires Distinct(r) && i < |r|
    ensures |Before(r, r[i])| == i
  {
    if i > 0 {
      BeforeCounts(r[1..], i - 1);
      NotBefore(r[1..], r[i], r[0]);
      assert r[0] !in r[1..];
    }
  }
}
