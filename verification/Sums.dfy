/** Counting over sequences: what SQL's count(*) FILTER computes, and how one
    row update or one appended row changes it. */
module Sums {

  function Count<T>(s: seq<T>, p: T -> bool): nat {
    if s == [] then 0
    else Count(s[..|s| - 1], p) + (if p(s[|s| - 1]) then 1 else 0)
  }

  function Sum<T>(s: seq<T>, f: T -> int): int {
    if s == [] then 0
    else Sum(s[..|s| - 1], f) + f(s[|s| - 1])
  }

  /** A count is the number of positions that satisfy the predicate. */
  lemma {:induction false} CountIsCard<T>(s: seq<T>, p: T -> bool, positions: set<int>)
    requires forall i :: i in positions <==> 0 <= i < |s| && p(s[i])
    ensures Count(s, p) == |positions|
  {
    if s == [] {
      assert forall i :: i !in positions;
    } else {
      var n := |s| - 1;
      assert n in positions <==> p(s[n]);
      CountIsCard(s[..n], p, positions - {n});
      assert positions == if p(s[n]) then (positions - {n}) + {n} else positions - {n};
    }
  }

  lemma CountAppend<T>(s: seq<T>, x: T, p: T -> bool)
    ensures Count(s + [x], p) == Count(s, p) + (if p(x) then 1 else 0)
  {
    assert (s + [x])[..|s|] == s;
  }

  lemma SumAppend<T>(s: seq<T>, x: T, f: T -> int)
    ensures Sum(s + [x], f) == Sum(s, f) + f(x)
  {
    assert (s + [x])[..|s|] == s;
  }

  lemma {:induction false} CountUpdate<T>(s: seq<T>, i: nat, x: T, p: T -> bool)
    requires i < |s|
    ensures Count(s[i := x], p) + (if p(s[i]) then 1 else 0) == Count(s, p) + (if p(x) then 1 else 0)
  {
    var n := |s| - 1;
    if i == n {
      assert s[i := x][..n] == s[..n];
    } else {
      assert s[i := x][..n] == s[..n][i := x];
      CountUpdate(s[..n], i, x, p);
    }
  }

  lemma {:induction false} SumUpdate<T>(s: seq<T>, i: nat, x: T, f: T -> int)
    requires i < |s|
    ensures Sum(s[i := x], f) == Sum(s, f) - f(s[i]) + f(x)
  {
    var n := |s| - 1;
    if i == n {
      assert s[i := x][..n] == s[..n];
    } else {
      assert s[i := x][..n] == s[..n][i := x];
      SumUpdate(s[..n], i, x, f);
    }
  }

  /** Pointwise implication bounds the counts. */
  lemma {:induction false} CountMono<T>(a: seq<T>, p: T -> bool, b: seq<T>, q: T -> bool)
    requires forall j :: 0 <= j < |a| && p(a[j]) ==> j < |b| && q(b[j])
    ensures Count(a, p) <= Count(b, q)
    decreases |a| + |b|
  {
    if |a| == 0 {
    } else if |a| < |b| {
      CountMono(a, p, b[..|b| - 1], q);
    } else if |a| > |b| {
      CountMono(a[..|a| - 1], p, b, q);
    } else {
      CountMono(a[..|a| - 1], p, b[..|b| - 1], q);
    }
  }

  /** One position where only the right-hand side holds makes the bound strict. */
  lemma {:induction false} CountStrict<T>(a: seq<T>, p: T -> bool, b: seq<T>, q: T -> bool, k: nat)
    requires |a| == |b| && k < |a|
    requires forall j :: 0 <= j < |a| && p(a[j]) ==> q(b[j])
    requires !p(a[k]) && q(b[k])
    ensures Count(a, p) < Count(b, q)
  {
    var n := |a| - 1;
    if k == n {
      CountMono(a[..n], p, b[..n], q);
    } else {
      CountStrict(a[..n], p, b[..n], q, k);
    }
  }

  /** Counts agree when the predicates agree position by position. */
  lemma CountSame<T>(a: seq<T>, p: T -> bool, b: seq<T>, q: T -> bool)
    requires |a| == |b|
    requires forall j :: 0 <= j < |a| ==> (p(a[j]) <==> q(b[j]))
    ensures Count(a, p) == Count(b, q)
  {
    CountMono(a, p, b, q);
    CountMono(b, q, a, p);
  }

  lemma {:induction false} CountZero<T>(s: seq<T>, p: T -> bool)
    ensures Count(s, p) == 0 <==> forall j :: 0 <= j < |s| ==> !p(s[j])
  {
    if s != [] {
      var n := |s| - 1;
      CountZero(s[..n], p);
      assert forall j :: 0 <= j < n ==> s[..n][j] == s[j];
      if p(s[n]) { assert Count(s, p) > 0; }
    }
  }

  /** The count reaches the length exactly when every element satisfies p. */
  lemma {:induction false} CountAll<T>(s: seq<T>, p: T -> bool)
    ensures Count(s, p) <= |s|
    ensures Count(s, p) == |s| <==> forall j :: 0 <= j < |s| ==> p(s[j])
  {
    if s != [] {
      var n := |s| - 1;
      CountAll(s[..n], p);
      assert forall j :: 0 <= j < n ==> s[..n][j] == s[j];
      if !p(s[n]) { assert Count(s, p) <= n; }
    }
  }

  /** Two disjoint predicates that cover a third split its count. */
  lemma {:induction false} CountSplit<T>(s: seq<T>, whole: T -> bool, p: T -> bool, q: T -> bool)
    requires forall x :: x in s ==> (whole(x) <==> p(x) || q(x)) && !(p(x) && q(x))
    ensures Count(s, whole) == Count(s, p) + Count(s, q)
  {
    if s != [] {
      CountSplit(s[..|s| - 1], whole, p, q);
    }
  }

  /** Sums keep pointwise order. */
  lemma {:induction false} SumMono<T>(s: seq<T>, f: T -> int, g: T -> int)
    requires forall x :: x in s ==> 0 <= f(x) <= g(x)
    ensures 0 <= Sum(s, f) <= Sum(s, g)
  {
    if s != [] { SumMono(s[..|s| - 1], f, g); }
  }

  /** A sum of bounded terms is bounded. */
  lemma {:induction false} SumBound<T>(s: seq<T>, f: T -> int, bound: nat)
    requires forall x :: x in s ==> 0 <= f(x) <= bound
    ensures 0 <= Sum(s, f) <= bound * |s|
  {
    if s != [] {
      SumBound(s[..|s| - 1], f, bound);
      assert bound * |s| == bound * (|s| - 1) + bound;
    }
  }
}
