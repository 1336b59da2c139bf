/** Values and sums shared by every module of the model. */
module Prelude {

  datatype Option<+T> = None | Some(value: T)

  /** A computation that may raise: `Failure` carries the kind of error raised. */
  datatype Result<+T> = Success(value: T) | Failure(error: string)

  function Max(a: int, b: int): int {
    if a >= b then a else b
  }

  function Min(a: int, b: int): int {
    if a <= b then a else b
  }

  /** Sum of `f` over `s`, unfolding from the end so that loops extend it one element at a time. */
  function SumOf<T>(f: T -> int, s: seq<T>): int {
    if s == [] then 0 else SumOf(f, s[..|s| - 1]) + f(s[|s| - 1])
  }

  lemma {:induction false} SumExtend<T>(f: T -> int, s: seq<T>, i: nat)
    requires i < |s|
    ensures SumOf(f, s[..i + 1]) == SumOf(f, s[..i]) + f(s[i])
  {
    assert s[..i + 1][..i] == s[..i];
  }

  lemma SumPush<T>(f: T -> int, s: seq<T>, x: T)
    ensures SumOf(f, s + [x]) == SumOf(f, s) + f(x)
  {
    assert (s + [x])[..|s|] == s;
  }

  lemma SumSingle<T>(f: T -> int, x: T)
    ensures SumOf(f, [x]) == f(x)
  {
    assert [x][..0] == [];
  }

  lemma {:induction false} SumConcat<T>(f: T -> int, a: seq<T>, b: seq<T>)
    ensures SumOf(f, a + b) == SumOf(f, a) + SumOf(f, b)
  {
    if b == [] {
      assert a + b == a;
    } else {
      SumConcat(f, a, b[..|b| - 1]);
      assert (a + b)[..|a + b| - 1] == a + b[..|b| - 1];
    }
  }

  lemma SumSplit<T>(f: T -> int, s: seq<T>, k: nat)
    requires k <= |s|
    ensures SumOf(f, s) == SumOf(f, s[..k]) + SumOf(f, s[k..])
  {
    SumConcat(f, s[..k], s[k..]);
    assert s[..k] + s[k..] == s;
  }

  lemma {:induction false} SumUpdate<T>(f: T -> int, s: seq<T>, i: nat, x: T)
    requires i < |s|
    ensures SumOf(f, s[i := x]) == SumOf(f, s) - f(s[i]) + f(x)
  {
    var n := |s| - 1;
    if i == n {
      assert s[i := x][..n] == s[..n];
    } else {
      SumUpdate(f, s[..n], i, x);
      assert s[i := x][..n] == s[..n][i := x];
    }
  }

  /** A sum of non-negative terms is non-negative. */
  lemma {:induction false} SumNonNegative<T>(f: T -> int, s: seq<T>)
    requires forall i :: 0 <= i < |s| ==> f(s[i]) >= 0
    ensures SumOf(f, s) >= 0
  {
    if s != [] {
      SumNonNegative(f, s[..|s| - 1]);
    }
  }

  /** Every term of a sum of non-negative terms is at most the whole. */
  lemma {:induction false} SumAtLeastTerm<T>(f: T -> int, s: seq<T>, i: nat)
    requires i < |s|
    requires forall k :: 0 <= k < |s| ==> f(s[k]) >= 0
    ensures f(s[i]) <= SumOf(f, s)
  {
    var n := |s| - 1;
    SumNonNegative(f, s[..n]);
    if i < n {
      SumAtLeastTerm(f, s[..n], i);
    }
  }

  lemma {:induction false} SumSame<T>(f: T -> int, s: seq<T>, r: seq<T>)
    requires |r| == |s| && forall i :: 0 <= i < |s| ==> f(r[i]) == f(s[i])
    ensures SumOf(f, r) == SumOf(f, s)
  {
    if s != [] {
      SumSame(f, s[..|s| - 1], r[..|r| - 1]);
    }
  }

  lemma {:induction false} SumAtMost<T>(f: T -> int, g: T -> int, s: seq<T>)
    requires forall i :: 0 <= i < |s| ==> f(s[i]) <= g(s[i])
    ensures SumOf(f, s) <= SumOf(g, s)
  {
    if s != [] {
      SumAtMost(f, g, s[..|s| - 1]);
    }
  }

  /** A bound on each term, of a fixed part plus a share per counted item, bounds the sum. */
  lemma {:induction false} SumShared<T>(f: T -> int, fixed: T -> int, counted: T -> int, share: int, s: seq<T>, r: seq<T>)
    requires |r| == |s| && forall i :: 0 <= i < |s| ==> f(r[i]) <= fixed(s[i]) + share * counted(s[i])
    ensures SumOf(f, r) <= SumOf(fixed, s) + share * SumOf(counted, s)
  {
    if s != [] {
      var n := |s| - 1;
      SumShared(f, fixed, counted, share, s[..n], r[..n]);
      Distribute(share, SumOf(counted, s[..n]), counted(s[n]));
    }
  }

  lemma {:induction false} SumSharedExactly<T>(f: T -> int, fixed: T -> int, counted: T -> int, share: int, s: seq<T>, r: seq<T>)
    requires |r| == |s| && forall i :: 0 <= i < |s| ==> f(r[i]) == fixed(s[i]) + share * counted(s[i])
    ensures SumOf(f, r) == SumOf(fixed, s) + share * SumOf(counted, s)
  {
    if s != [] {
      var n := |s| - 1;
      SumSharedExactly(f, fixed, counted, share, s[..n], r[..n]);
      Distribute(share, SumOf(counted, s[..n]), counted(s[n]));
    }
  }

  lemma Distribute(k: int, a: int, b: int)
    ensures k * (a + b) == k * a + k * b
  {
  }

  /** `a + b`, as an empty list extends nothing. */
  function Join<T>(a: seq<T>, b: seq<T>): seq<T> {
    if b == [] then a else if a == [] then b else a + b
  }

  lemma SumJoin<T>(f: T -> int, a: seq<T>, b: seq<T>)
    ensures SumOf(f, Join(a, b)) == SumOf(f, a) + SumOf(f, b)
  {
    SumConcat(f, a, b);
  }

  function Without<T>(s: seq<T>, j: nat): seq<T>
    requires j < |s|
  {
    s[..j] + s[j + 1..]
  }

  lemma MultisetWithout<T>(s: seq<T>, j: nat)
    requires j < |s|
    ensures multiset(Without(s, j)) == multiset(s) - multiset{s[j]}
  {
    assert s == s[..j] + [s[j]] + s[j + 1..];
    assert multiset(s) == multiset(s[..j]) + multiset{s[j]} + multiset(s[j + 1..]);
  }

  lemma SumWithout<T>(f: T -> int, s: seq<T>, j: nat)
    requires j < |s|
    ensures SumOf(f, Without(s, j)) == SumOf(f, s) - f(s[j])
  {
    var a, b := s[..j], s[j + 1..];
    assert s == s[..j + 1] + b;
    SumConcat(f, a, b);
    SumConcat(f, s[..j + 1], b);
    SumExtend(f, s, j);
  }

  /** A sum does not depend on the order of its terms. */
  lemma {:induction false} SumPermutation<T>(f: T -> int, a: seq<T>, b: seq<T>)
    requires multiset(a) == multiset(b)
    ensures SumOf(f, a) == SumOf(f, b)
  {
    if a == [] {
      assert |multiset(b)| == 0;
    } else {
      var x := a[0];
      assert x in multiset(b);
      var j :| 0 <= j < |b| && b[j] == x;
      MultisetWithout(a, 0);
      MultisetWithout(b, j);
      SumPermutation(f, Without(a, 0), Without(b, j));
      SumWithout(f, a, 0);
      SumWithout(f, b, j);
    }
  }

  /** Adding terms, anywhere, never lowers a sum of non-negative terms. */
  lemma {:induction false} SumOfMore<T>(f: T -> int, a: seq<T>, b: seq<T>)
    requires multiset(a) <= multiset(b)
    requires forall x :: f(x) >= 0
    ensures SumOf(f, a) <= SumOf(f, b)
  {
    if a == [] {
      SumNonNegative(f, b);
    } else {
      var x := a[0];
      assert x in multiset(b);
      var j :| 0 <= j < |b| && b[j] == x;
      MultisetWithout(a, 0);
      MultisetWithout(b, j);
      SumOfMore(f, Without(a, 0), Without(b, j));
      SumWithout(f, a, 0);
      SumWithout(f, b, j);
    }
  }

  /** The positions below `n` at which `p` holds. */
  ghost function Where<T>(p: T -> bool, s: seq<T>, n: nat): set<int>
    requires n <= |s|
  {
    set i | 0 <= i < n && p(s[i])
  }

  /** A sum of ones counts the positions. */
  lemma {:induction false} CountWhere<T>(f: T -> int, p: T -> bool, s: seq<T>, n: nat)
    requires n <= |s| && forall x :: f(x) == if p(x) then 1 else 0
    ensures SumOf(f, s[..n]) == |Where(p, s, n)|
  {
    if n > 0 {
      CountWhere(f, p, s, n - 1);
      SumExtend(f, s, n - 1);
      assert Where(p, s, n) == Where(p, s, n - 1) + (if p(s[n - 1]) then {n - 1} else {});
    }
  }

  /** Sum of `f` over `s` in the reals. */
  function RealSumOf<T>(f: T -> real, s: seq<T>): real {
    if s == [] then 0.0 else RealSumOf(f, s[..|s| - 1]) + f(s[|s| - 1])
  }

  lemma {:induction false} RealSumUpdate<T>(f: T -> real, s: seq<T>, i: nat, x: T)
    requires i < |s|
    ensures RealSumOf(f, s[i := x]) == RealSumOf(f, s) - f(s[i]) + f(x)
  {
    var n := |s| - 1;
    if i == n {
      assert s[i := x][..n] == s[..n];
    } else {
      RealSumUpdate(f, s[..n], i, x);
      assert s[i := x][..n] == s[..n][i := x];
    }
  }

  // The nonlinear facts about reals, one each, so that no other proof multiplies.

  lemma NonNegative(x: real, y: real)
    requires 0.0 <= x && 0.0 <= y
    ensures 0.0 <= x * y
  {
  }

  lemma Positive(x: real, y: real)
    requires 0.0 < x && 0.0 < y
    ensures 0.0 < x * y
  {
  }

  lemma Difference(a: real, b: real, k: real)
    ensures (b - a) * k == b * k - a * k
  {
  }

  /** Scaling by a non-negative factor keeps the order. */
  lemma Scale(a: real, b: real, k: real)
    requires a <= b && 0.0 <= k
    ensures a * k <= b * k
  {
    NonNegative(b - a, k);
    Difference(a, b, k);
  }

  lemma RealCancel(a: real, b: real, k: real)
    requires 0.0 < k
    ensures a * k <= b * k <==> a <= b
    ensures a * k < b * k <==> a < b
  {
    Difference(a, b, k);
    Difference(b, a, k);
    if a < b {
      Positive(b - a, k);
    } else if b < a {
      Positive(a - b, k);
    }
  }

  lemma RealQuotient(c: real, k: real)
    requires 0.0 < k
    ensures c / k * k == c
  {
  }

  lemma QuotientIs(c: real, k: real, x: real)
    requires 0.0 < k && x * k == c
    ensures c / k == x
  {
    RealQuotient(c, k);
    RealCancel(c / k, x, k);
    RealCancel(x, c / k, k);
  }

  /** `f` applied `n` times. */
  function Iterate<T>(f: T -> T, x: T, n: nat): T {
    if n == 0 then x else f(Iterate(f, x, n - 1))
  }

  lemma {:induction false} IterateShift<T>(f: T -> T, x: T, n: nat)
    ensures Iterate(f, f(x), n) == Iterate(f, x, n + 1)
  {
    if n > 0 {
      IterateShift(f, x, n - 1);
    }
  }

  lemma {:induction false} IterateFixed<T>(f: T -> T, x: T, n: nat)
    requires f(x) == x
    ensures Iterate(f, x, n) == x
  {
    if n > 0 {
      IterateFixed(f, x, n - 1);
    }
  }

  /** `x` stops changing after `n` applications. */
  ghost predicate FixedAfter<T>(f: T -> T, x: T, n: nat) {
    f(Iterate(f, x, n)) == Iterate(f, x, n)
  }

  /** Once fixed, fixed for good. */
  lemma FixedLater<T>(f: T -> T, x: T, n: nat, m: nat)
    requires FixedAfter(f, x, n) && n <= m
    ensures Iterate(f, x, m) == Iterate(f, x, n) && FixedAfter(f, x, m)
  {
    var k := n;
    while k < m
      invariant n <= k <= m && Iterate(f, x, k) == Iterate(f, x, n)
    {
      k := k + 1;
    }
  }

  /** If the next value is fixed after `n`, this one is after `n + 1`. */
  lemma FixedAfterNext<T>(f: T -> T, x: T, n: nat)
    requires FixedAfter(f, f(x), n)
    ensures FixedAfter(f, x, n + 1)
  {
    IterateShift(f, x, n);
  }
}
