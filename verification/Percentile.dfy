/** Order statistics over runs: agent_driver/evals/aggregate.py, in exact reals. */
module Percentile {
  import opened Prelude

  // ---------------------------------------------------------------- sorting

  ghost predicate Ascending(s: seq<real>) {
    forall i, j :: 0 <= i <= j < |s| ==> s[i] <= s[j]
  }

  function Insert(x: real, s: seq<real>): (r: seq<real>)
    ensures |r| == |s| + 1
  {
    if s == [] || x <= s[0] then [x] + s else [s[0]] + Insert(x, s[1..])
  }

  /** `sorted(values)`. */
  function Sort(s: seq<real>): (r: seq<real>)
    ensures |r| == |s|
  {
    if s == [] then [] else Insert(s[0], Sort(s[1..]))
  }

  lemma {:induction false} InsertAbove(x: real, s: seq<real>, low: real)
    requires low <= x && forall i :: 0 <= i < |s| ==> low <= s[i]
    ensures forall i :: 0 <= i < |Insert(x, s)| ==> low <= Insert(x, s)[i]
  {
    if s != [] && x > s[0] {
      InsertAbove(x, s[1..], low);
    }
  }

  lemma {:induction false} InsertAscending(x: real, s: seq<real>)
    requires Ascending(s)
    ensures Ascending(Insert(x, s))
  {
    if s != [] && x > s[0] {
      InsertAscending(x, s[1..]);
      InsertAbove(x, s[1..], s[0]);
    }
  }

  lemma {:induction false} InsertMembers(x: real, s: seq<real>)
    ensures multiset(Insert(x, s)) == multiset(s) + multiset{x}
  {
    if s != [] && x > s[0] {
      InsertMembers(x, s[1..]);
      assert s == [s[0]] + s[1..];
    }
  }

  lemma {:induction false} SortCorrect(s: seq<real>)
    ensures Ascending(Sort(s)) && multiset(Sort(s)) == multiset(s)
  {
    if s != [] {
      SortCorrect(s[1..]);
      InsertAscending(s[0], Sort(s[1..]));
      InsertMembers(s[0], Sort(s[1..]));
      assert s == [s[0]] + s[1..];
    }
  }

  lemma SameElements(a: seq<real>, b: seq<real>, k: nat)
    requires multiset(a) == multiset(b) && k < |a|
    ensures a[k] in b
  {
    assert a[k] in multiset(a);
  }

  lemma HeadIsLeast(a: seq<real>, x: real)
    requires Ascending(a) && x in a
    ensures a[0] <= x
  {
  }

  lemma AscendingHead(a: seq<real>, b: seq<real>)
    requires Ascending(a) && Ascending(b) && multiset(a) == multiset(b) && a != []
    ensures b != [] && a[0] == b[0]
  {
    SameElements(a, b, 0);
    SameElements(b, a, 0);
    HeadIsLeast(a, b[0]);
    HeadIsLeast(b, a[0]);
  }

  lemma TailMultiset(a: seq<real>)
    requires a != []
    ensures multiset(a[1..]) == multiset(a) - multiset{a[0]}
  {
    assert a == [a[0]] + a[1..];
  }

  /** Two ascending arrangements of the same values are the same list. */
  lemma {:induction false} AscendingUnique(a: seq<real>, b: seq<real>)
    requires Ascending(a) && Ascending(b) && multiset(a) == multiset(b)
    ensures a == b
  {
    if a == [] {
      assert |multiset(b)| == 0;
    } else {
      AscendingHead(a, b);
      TailMultiset(a);
      TailMultiset(b);
      AscendingUnique(a[1..], b[1..]);
      assert a == [a[0]] + a[1..] && b == [b[0]] + b[1..];
    }
  }

  /** Pointwise order between lists of equal length. */
  ghost predicate Below(a: seq<real>, b: seq<real>) {
    |a| == |b| && forall i :: 0 <= i < |a| ==> a[i] <= b[i]
  }

  lemma InsertHead(s: seq<real>)
    requires s != [] && Ascending(s)
    ensures Insert(s[0], s[1..]) == s
  {
    assert s == [s[0]] + s[1..];
  }

  lemma {:induction false} InsertMonotone(x: real, y: real, s: seq<real>, t: seq<real>)
    requires x <= y && Ascending(s) && Ascending(t) && Below(s, t)
    ensures Below(Insert(x, s), Insert(y, t))
    decreases |s|
  {
    if s != [] {
      if x <= s[0] && y > t[0] {
        InsertMonotone(s[0], y, s[1..], t[1..]);
        InsertHead(s);
      } else if x > s[0] && y <= t[0] {
        InsertMonotone(x, t[0], s[1..], t[1..]);
        InsertHead(t);
      } else if x > s[0] {
        InsertMonotone(x, y, s[1..], t[1..]);
      }
    }
  }

  /** Sorting preserves pointwise dominance. */
  lemma {:induction false} SortMonotone(a: seq<real>, b: seq<real>)
    requires Below(a, b)
    ensures Below(Sort(a), Sort(b))
    decreases |a|
  {
    if a != [] {
      SortMonotone(a[1..], b[1..]);
      SortCorrect(a[1..]);
      SortCorrect(b[1..]);
      InsertMonotone(a[0], b[0], Sort(a[1..]), Sort(b[1..]));
    }
  }

  // ---------------------------------------------------------------- the value at a position

  function Interpolate(a: real, b: real, frac: real): real {
    a + (b - a) * frac
  }

  /** `x` is a position in a list of `n` values, from 0 to n - 1 and anything between. */
  predicate IsPosition(n: nat, x: real) {
    n >= 1 && 0.0 <= x <= (n - 1) as real
  }

  function Low(n: nat, x: real): (low: nat)
    requires IsPosition(n, x)
    ensures low < n && low as real <= x < low as real + 1.0
  {
    x.Floor
  }

  function High(n: nat, x: real): (high: nat)
    requires IsPosition(n, x)
    ensures Low(n, x) <= high < n
  {
    Min(Low(n, x) + 1, n - 1)
  }

  /** The value at position `x` of a list: an element, or between two neighbours on the line through them. */
  function ValueAt(o: seq<real>, x: real): real
    requires IsPosition(|o|, x)
  {
    Interpolate(o[Low(|o|, x)], o[High(|o|, x)], x - Low(|o|, x) as real)
  }

  lemma InterpolateBounds(a: real, b: real, frac: real)
    requires a <= b && 0.0 <= frac <= 1.0
    ensures a <= Interpolate(a, b, frac) <= b
  {
    var d := b - a;
    NonNegative(d, frac);
    NonNegative(d, 1.0 - frac);
    Complement(d, frac);
  }

  lemma Complement(d: real, frac: real)
    ensures d * frac + d * (1.0 - frac) == d
  {
  }

  lemma InterpolateMonotone(a: real, b: real, a': real, b': real, frac: real)
    requires a <= a' && b <= b' && 0.0 <= frac <= 1.0
    ensures Interpolate(a, b, frac) <= Interpolate(a', b', frac)
  {
    RaiseHigh(a, b, b', frac);
    RaiseLow(a, a', b', frac);
  }

  lemma RaiseHigh(a: real, b: real, b': real, frac: real)
    requires b <= b' && 0.0 <= frac
    ensures Interpolate(a, b, frac) <= Interpolate(a, b', frac)
  {
    Scale(b - a, b' - a, frac);
  }

  lemma RaiseLow(a: real, a': real, b: real, frac: real)
    requires a <= a' && frac <= 1.0
    ensures Interpolate(a, b, frac) <= Interpolate(a', b, frac)
  {
    var d, wide, narrow := a' - a, b - a, b - a';
    NonNegative(d, 1.0 - frac);
    Complement(d, frac);
    Difference(narrow, wide, frac);
  }

  lemma InterpolateInFraction(a: real, b: real, f: real, g: real)
    requires a <= b && f <= g
    ensures Interpolate(a, b, f) <= Interpolate(a, b, g)
  {
    Scale(f, g, b - a);
  }

  lemma InterpolateStart(a: real, b: real, frac: real)
    requires frac == 0.0
    ensures Interpolate(a, b, frac) == a
  {
  }

  lemma InterpolateHalf(a: real, b: real, frac: real)
    requires frac == 0.5
    ensures 2.0 * Interpolate(a, b, frac) == a + b
  {
  }

  lemma InterpolateEnd(a: real, b: real, frac: real)
    requires frac == 1.0
    ensures Interpolate(a, b, frac) == b
  {
  }

  /** Interpolation commutes with moving both ends. */
  lemma ShiftMix(f: real, g: real, t: real, d: real)
    ensures Interpolate(f - d, g - d, t) == Interpolate(f, g, t) - d
  {
  }

  /** Interpolation commutes with scaling both ends. */
  lemma ScaledMix(p: real, q: real, t: real, e: real)
    ensures Interpolate(p, q, t) * e == Interpolate(p * e, q * e, t)
  {
    var d := q - p;
    Difference(p, q, e);
    assert (p + d * t) * e == p * e + d * e * t;
  }

  lemma LineMix(a: real, b: real, f: real, g: real, t: real)
    ensures Interpolate(a, b, Interpolate(f, g, t)) == Interpolate(Interpolate(a, b, f), Interpolate(a, b, g), t)
  {
    ScaledMix(f, g, t, b - a);
    ShiftMix(Interpolate(a, b, f), Interpolate(a, b, g), t, a);
  }

  lemma ValueBounds(o: seq<real>, x: real)
    requires IsPosition(|o|, x) && Ascending(o)
    ensures o[Low(|o|, x)] <= ValueAt(o, x) <= o[High(|o|, x)]
  {
    InterpolateBounds(o[Low(|o|, x)], o[High(|o|, x)], x - Low(|o|, x) as real);
  }

  /** At a whole position stands that element. */
  lemma ValueAtElement(o: seq<real>, k: nat)
    requires k < |o|
    ensures ValueAt(o, k as real) == o[k]
  {
    InterpolateStart(o[k], o[High(|o|, k as real)], k as real - Low(|o|, k as real) as real);
  }

  /** From one element to the next, both included, the value is on the line through them. */
  lemma ValueOnLine(o: seq<real>, x: real, k: nat)
    requires k + 1 < |o| && k as real <= x <= (k + 1) as real
    ensures ValueAt(o, x) == Interpolate(o[k], o[k + 1], x - k as real)
  {
    if x == (k + 1) as real {
      ValueAtElement(o, k + 1);
      InterpolateEnd(o[k], o[k + 1], x - k as real);
    } else {
      assert Low(|o|, x) == k;
    }
  }

  /** Between an earlier and a later element. */
  lemma ValueBetween(o: seq<real>, x: real, low: nat, high: nat)
    requires Ascending(o) && low as real <= x <= high as real && high < |o|
    ensures o[low] <= ValueAt(o, x) <= o[high]
  {
    ValueBounds(o, x);
    if x == Low(|o|, x) as real {
      ValueAtElement(o, Low(|o|, x));
    }
  }

  lemma ValueMonotone(o: seq<real>, x: real, y: real)
    requires IsPosition(|o|, x) && IsPosition(|o|, y) && x <= y && Ascending(o)
    ensures ValueAt(o, x) <= ValueAt(o, y)
  {
    var n := |o|;
    if Low(n, x) == Low(n, y) {
      InterpolateInFraction(o[Low(n, x)], o[High(n, x)], x - Low(n, x) as real, y - Low(n, x) as real);
    } else {
      ValueBounds(o, x);
      ValueBounds(o, y);
    }
  }

  lemma ValueMonotoneInValues(o: seq<real>, o': seq<real>, x: real)
    requires IsPosition(|o|, x) && Below(o, o')
    ensures ValueAt(o, x) <= ValueAt(o', x)
  {
    var low, high := Low(|o|, x), High(|o|, x);
    InterpolateMonotone(o[low], o[high], o'[low], o'[high], x - low as real);
  }

  /** Within one cell the value moves linearly with the position. */
  lemma ValueLinear(o: seq<real>, x: real, y: real, t: real, k: nat)
    requires k + 1 < |o| && k as real <= x <= (k + 1) as real && k as real <= y <= (k + 1) as real
    requires k as real <= Interpolate(x, y, t) <= (k + 1) as real
    ensures ValueAt(o, Interpolate(x, y, t)) == Interpolate(ValueAt(o, x), ValueAt(o, y), t)
  {
    ValueOnLine(o, x, k);
    ValueOnLine(o, y, k);
    ValueOnLine(o, Interpolate(x, y, t), k);
    LineMix(o[k], o[k + 1], x - k as real, y - k as real, t);
    ShiftMix(x, y, t, k as real);
  }

  // ---------------------------------------------------------------- percentile

  function Rank(n: nat, q: real): real {
    q / 100.0 * (n - 1) as real
  }

  /** The rank is the position q hundredths of the way from the first of `n` values to the last. */
  lemma RankMeans(n: nat, q: real)
    requires n >= 1
    ensures 100.0 * Rank(n, q) == q * (n - 1) as real
  {
  }

  lemma RankIsPosition(n: nat, q: real)
    requires n >= 1 && 0.0 <= q <= 100.0
    ensures IsPosition(n, Rank(n, q))
  {
    var f, k := q / 100.0, (n - 1) as real;
    ShareOf(f, k);
    assert Rank(n, q) == f * k;
  }

  lemma ShareOf(f: real, k: real)
    requires 0.0 <= f <= 1.0 && 0.0 <= k
    ensures 0.0 <= f * k <= k
  {
    NonNegative(f, k);
    NonNegative(1.0 - f, k);
    Difference(f, 1.0, k);
  }

  lemma RankMonotone(n: nat, p: real, q: real)
    requires n >= 1 && p <= q
    ensures Rank(n, p) <= Rank(n, q)
  {
    Scale(p / 100.0, q / 100.0, (n - 1) as real);
  }

  /** The type-7 value at `q` of an ascending list. */
  function Type7(ordered: seq<real>, q: real): real
    requires |ordered| >= 1 && 0.0 <= q <= 100.0
  {
    RankIsPosition(|ordered|, q);
    if |ordered| == 1 then ordered[0] else ValueAt(ordered, Rank(|ordered|, q))
  }

  function Percentile(values: seq<real>, q: real): Result<real> {
    if values == [] then Success(0.0)
    else if !(0.0 <= q <= 100.0) then Failure("q must be in [0, 100]")
    else Success(Type7(Sort(values), q))
  }

  /** The percentile of any values is the value of the sorted list at the rank. */
  lemma PercentileIsValueAtRank(values: seq<real>, q: real, x: real)
    requires values != [] && 0.0 <= q <= 100.0 && x == Rank(|values|, q)
    ensures IsPosition(|values|, x) && Percentile(values, q) == Success(ValueAt(Sort(values), x))
  {
    RankIsPosition(|values|, q);
    if |values| == 1 {
      assert x == 0.0;
      ValueAtElement(Sort(values), 0);
    }
  }

  /** Empty input gives zero and a `q` outside [0, 100] is refused, the empty input first. */
  lemma PercentileEdges(values: seq<real>, q: real)
    ensures values == [] ==> Percentile(values, q) == Success(0.0)
    ensures values != [] ==> (Percentile(values, q).Failure? <==> q < 0.0 || q > 100.0)
  {
  }

  /** Monotone in `q`. */
  lemma PercentileMonotoneInQ(values: seq<real>, p: real, q: real)
    requires 0.0 <= p <= q <= 100.0
    ensures Percentile(values, p).Success? && Percentile(values, q).Success?
    ensures Percentile(values, p).value <= Percentile(values, q).value
  {
    SortCorrect(values);
    if values != [] {
      var n := |values|;
      RankMonotone(n, p, q);
      PercentileIsValueAtRank(values, p, Rank(n, p));
      PercentileIsValueAtRank(values, q, Rank(n, q));
      ValueMonotone(Sort(values), Rank(n, p), Rank(n, q));
    }
  }

  /** Raising any values never lowers a percentile. */
  lemma PercentileMonotoneInValues(a: seq<real>, b: seq<real>, q: real)
    requires Below(a, b) && 0.0 <= q <= 100.0
    ensures Percentile(a, q).Success? && Percentile(b, q).Success?
    ensures Percentile(a, q).value <= Percentile(b, q).value
  {
    SortMonotone(a, b);
    if a != [] {
      PercentileIsValueAtRank(a, q, Rank(|a|, q));
      PercentileIsValueAtRank(b, q, Rank(|b|, q));
      ValueMonotoneInValues(Sort(a), Sort(b), Rank(|a|, q));
    }
  }

  /** The order of the input does not matter, for any `q`. */
  lemma PercentileOrderFree(a: seq<real>, b: seq<real>, q: real)
    requires multiset(a) == multiset(b)
    ensures Percentile(a, q) == Percentile(b, q)
  {
    SortCorrect(a);
    SortCorrect(b);
    AscendingUnique(Sort(a), Sort(b));
    assert |multiset(a)| == |multiset(b)|;
  }

  /** Where the rank is a whole number k, the percentile is the k-th order statistic. */
  lemma PercentileAtRank(values: seq<real>, q: real, k: nat)
    requires k < |values| && 0.0 <= q <= 100.0 && Rank(|values|, q) == k as real
    ensures Percentile(values, q) == Success(Sort(values)[k])
  {
    PercentileIsValueAtRank(values, q, k as real);
    ValueAtElement(Sort(values), k);
  }

  /** Where the rank x is between k and k + 1, the percentile is on the line through those two. */
  lemma PercentileBetweenRanks(values: seq<real>, q: real, x: real, k: nat)
    requires k + 1 < |values| && 0.0 <= q <= 100.0
    requires x == Rank(|values|, q) && k as real <= x <= (k + 1) as real
    ensures Percentile(values, q) == Success(Interpolate(Sort(values)[k], Sort(values)[k + 1], x - k as real))
  {
    PercentileIsValueAtRank(values, q, x);
    ValueOnLine(Sort(values), x, k);
  }

  /** Between neighbouring order statistics the percentile moves linearly in `q`. */
  lemma PercentileLinear(values: seq<real>, p: real, q: real, t: real, k: nat)
    requires k + 1 < |values| && 0.0 <= p <= 100.0 && 0.0 <= q <= 100.0 && 0.0 <= t <= 1.0
    requires k as real <= Rank(|values|, p) <= (k + 1) as real
    requires k as real <= Rank(|values|, q) <= (k + 1) as real
    ensures 0.0 <= Interpolate(p, q, t) <= 100.0
    ensures Percentile(values, Interpolate(p, q, t)).value ==
            Interpolate(Percentile(values, p).value, Percentile(values, q).value, t)
  {
    var n, mid := |values|, Interpolate(p, q, t);
    var x, y := Rank(n, p), Rank(n, q);
    MixInside(p, q, t, 0.0, 100.0);
    MixInside(x, y, t, k as real, (k + 1) as real);
    RankMix(n, p, q, t);
    PercentileIsValueAtRank(values, p, x);
    PercentileIsValueAtRank(values, q, y);
    PercentileIsValueAtRank(values, mid, Interpolate(x, y, t));
    ValueLinear(Sort(values), x, y, t, k);
  }

  /** A mix of two numbers lies in every interval that holds both. */
  lemma MixInside(p: real, q: real, t: real, low: real, high: real)
    requires low <= p <= high && low <= q <= high && 0.0 <= t <= 1.0
    ensures low <= Interpolate(p, q, t) <= high
  {
    if p <= q {
      InterpolateBounds(p, q, t);
    } else {
      InterpolateFlip(p, q, t);
      InterpolateBounds(q, p, 1.0 - t);
    }
  }

  lemma InterpolateFlip(p: real, q: real, t: real)
    ensures Interpolate(p, q, t) == Interpolate(q, p, 1.0 - t)
  {
    Weighted(p, q, t, 1.0 - t);
    Weighted(q, p, 1.0 - t, t);
  }

  /** Interpolation weighs both ends. */
  lemma Weighted(a: real, b: real, frac: real, rest: real)
    requires rest == 1.0 - frac
    ensures Interpolate(a, b, frac) == a * rest + b * frac
  {
  }

  lemma RankMix(n: nat, p: real, q: real, t: real)
    requires n >= 1
    ensures Rank(n, Interpolate(p, q, t)) == Interpolate(Rank(n, p), Rank(n, q), t)
  {
    var e := (n - 1) as real / 100.0;
    RankIsProduct(n, p, e);
    RankIsProduct(n, q, e);
    RankIsProduct(n, Interpolate(p, q, t), e);
    ScaledMix(p, q, t, e);
  }

  lemma RankIsProduct(n: nat, q: real, e: real)
    requires n >= 1 && e == (n - 1) as real / 100.0
    ensures Rank(n, q) == q * e
  {
  }

  function AtMost(v: real): real -> int {
    (x: real) => if x <= v then 1 else 0
  }

  function AtLeast(v: real): real -> int {
    (x: real) => if x >= v then 1 else 0
  }

  lemma {:induction false} AllCount(f: real -> int, s: seq<real>)
    requires forall i :: 0 <= i < |s| ==> f(s[i]) == 1
    ensures SumOf(f, s) == |s|
  {
    if s != [] {
      AllCount(f, s[..|s| - 1]);
    }
  }

  /**
    * What a percentile is, without reference to sorting: with the rank between `low` and `high`, more than
    * `low` of the values are at most it and at least n - `high` are at least it.
    */
  lemma PercentileSplitsValues(values: seq<real>, q: real, x: real, low: nat, high: nat)
    requires values != [] && 0.0 <= q <= 100.0 && x == Rank(|values|, q)
    requires low as real <= x <= high as real && high < |values|
    ensures var v := Percentile(values, q).value;
            SumOf(AtMost(v), values) > low && SumOf(AtLeast(v), values) >= |values| - high
  {
    var o, v := Sort(values), Percentile(values, q).value;
    SortCorrect(values);
    PercentileIsValueAtRank(values, q, x);
    ValueBetween(o, x, low, high);
    SumPermutation(AtMost(v), o, values);
    SumPermutation(AtLeast(v), o, values);
    CountBelow(o, low, v);
    CountAbove(o, high, v);
  }

  lemma CountBelow(o: seq<real>, k: nat, v: real)
    requires k < |o| && Ascending(o) && o[k] <= v
    ensures SumOf(AtMost(v), o) >= k + 1
  {
    assert o == o[..k + 1] + o[k + 1..];
    SumConcat(AtMost(v), o[..k + 1], o[k + 1..]);
    AllCount(AtMost(v), o[..k + 1]);
    SumNonNegative(AtMost(v), o[k + 1..]);
  }

  lemma CountAbove(o: seq<real>, k: nat, v: real)
    requires k < |o| && Ascending(o) && v <= o[k]
    ensures SumOf(AtLeast(v), o) >= |o| - k
  {
    assert o == o[..k] + o[k..];
    SumConcat(AtLeast(v), o[..k], o[k..]);
    AllCount(AtLeast(v), o[k..]);
    SumNonNegative(AtLeast(v), o[..k]);
  }

  // ---------------------------------------------------------------- summary

  function MinOf(s: seq<real>): (m: real)
    requires s != []
    ensures m in s && forall x :: x in s ==> m <= x
  {
    if |s| == 1 then s[0]
    else
      var m := MinOf(s[1..]);
      assert s == [s[0]] + s[1..];
      if s[0] <= m then s[0] else m
  }

  function MaxOf(s: seq<real>): (m: real)
    requires s != []
    ensures m in s && forall x :: x in s ==> x <= m
  {
    if |s| == 1 then s[0]
    else
      var m := MaxOf(s[1..]);
      assert s == [s[0]] + s[1..];
      if s[0] >= m then s[0] else m
  }

  function Identity(x: real): real {
    x
  }

  function Mean(s: seq<real>): (m: real)
    requires s != []
    ensures m * |s| as real == RealSumOf(Identity, s)
  {
    RealSumOf(Identity, s) / |s| as real
  }

  datatype MetricSummary = MetricSummary(
    n: nat, mean: real, median: real, p5: real, p95: real, minimum: real, maximum: real)

  /** The values among the first `k` that are not missing. */
  function PresentUpTo(values: seq<Option<real>>, k: nat): seq<real>
    requires k <= |values|
  {
    if k == 0 then []
    else
      match values[k - 1]
      case None => PresentUpTo(values, k - 1)
      case Some(v) => PresentUpTo(values, k - 1) + [v]
  }

  function Present(values: seq<Option<real>>): seq<real> {
    PresentUpTo(values, |values|)
  }

  /** The positions that hold `v`, and those that hold any value. */
  ghost function Holding(values: seq<Option<real>>, k: nat, v: real): set<int>
    requires k <= |values|
  {
    set i | 0 <= i < k && values[i] == Some(v)
  }

  ghost function Filled(values: seq<Option<real>>, k: nat): set<int>
    requires k <= |values|
  {
    set i | 0 <= i < k && values[i].Some?
  }

  /** One present value per filled position. */
  lemma {:induction false} PresentCount(values: seq<Option<real>>, k: nat)
    requires k <= |values|
    ensures |PresentUpTo(values, k)| == |Filled(values, k)|
  {
    if k > 0 {
      PresentCount(values, k - 1);
      if values[k - 1].Some? {
        assert Filled(values, k) == Filled(values, k - 1) + {k - 1};
      } else {
        assert Filled(values, k) == Filled(values, k - 1);
      }
    }
  }

  /** Each value is present as often as positions hold it. */
  lemma {:induction false} PresentExact(values: seq<Option<real>>, k: nat, v: real)
    requires k <= |values|
    ensures multiset(PresentUpTo(values, k))[v] == |Holding(values, k, v)|
  {
    if k > 0 {
      PresentExact(values, k - 1, v);
      HoldingStep(values, k - 1, v);
      var before, now := PresentUpTo(values, k - 1), PresentUpTo(values, k);
      if values[k - 1].Some? {
        assert now == before + [values[k - 1].value];
        BagPush(before, values[k - 1].value, v);
      } else {
        assert now == before;
      }
    }
  }

  lemma BagPush(s: seq<real>, w: real, v: real)
    ensures multiset(s + [w])[v] == multiset(s)[v] + (if w == v then 1 else 0)
  {
  }

  lemma HoldingStep(values: seq<Option<real>>, k: nat, v: real)
    requires k < |values|
    ensures |Holding(values, k + 1, v)| == |Holding(values, k, v)| + (if values[k] == Some(v) then 1 else 0)
  {
    assert Holding(values, k + 1, v) == Holding(values, k, v) + (if values[k] == Some(v) then {k as int} else {});
  }

  /** `MetricSummary.of`. */
  function Summarize(values: seq<Option<real>>): MetricSummary {
    var clean := Present(values);
    if clean == [] then MetricSummary(0, 0.0, 0.0, 0.0, 0.0, 0.0, 0.0)
    else
      MetricSummary(
        |clean|,
        Mean(clean),
        Percentile(clean, 50.0).value,
        Percentile(clean, 5.0).value,
        Percentile(clean, 95.0).value,
        MinOf(clean),
        MaxOf(clean))
  }

  lemma {:induction false} SumBetween(s: seq<real>, lo: real, hi: real)
    requires forall i :: 0 <= i < |s| ==> lo <= s[i] <= hi
    ensures lo * |s| as real <= RealSumOf(Identity, s) <= hi * |s| as real
  {
    if s != [] {
      var n := |s| - 1;
      SumBetween(s[..n], lo, hi);
      assert lo * |s| as real == lo * n as real + lo;
      assert hi * |s| as real == hi * n as real + hi;
    }
  }

  lemma PercentileInRange(values: seq<real>, q: real)
    requires values != [] && 0.0 <= q <= 100.0
    ensures MinOf(values) <= Percentile(values, q).value <= MaxOf(values)
  {
    var o, n := Sort(values), |values|;
    SortCorrect(values);
    PercentileIsValueAtRank(values, q, Rank(n, q));
    ValueBetween(o, Rank(n, q), 0, n - 1);
    SortInRange(values, 0);
    SortInRange(values, n - 1);
  }

  lemma SortInRange(values: seq<real>, k: nat)
    requires k < |values|
    ensures MinOf(values) <= Sort(values)[k] <= MaxOf(values)
  {
    SortCorrect(values);
    SameElements(Sort(values), values, k);
  }

  lemma MeanInRange(s: seq<real>, lo: real, hi: real)
    requires s != [] && forall i :: 0 <= i < |s| ==> lo <= s[i] <= hi
    ensures lo <= Mean(s) <= hi
  {
    SumBetween(s, lo, hi);
    RealCancel(lo, Mean(s), |s| as real);
    RealCancel(Mean(s), hi, |s| as real);
  }

  /**
    * What the plain numbers of a summary are, over the present values: their count, the extremes, and the
    * mean. With no value present all are zero.
    */
  lemma SummaryMeans(values: seq<Option<real>>)
    ensures var s, clean := Summarize(values), Present(values);
            && s.n == |Filled(values, |values|)| == |clean|
            && (clean == [] ==> s == MetricSummary(0, 0.0, 0.0, 0.0, 0.0, 0.0, 0.0))
            && (clean != [] ==>
                 && s.minimum in clean && s.maximum in clean
                 && (forall x :: x in clean ==> s.minimum <= x <= s.maximum)
                 && s.mean == Mean(clean))
  {
    PresentCount(values, |values|);
  }

  /** The tails of a summary are the values at 0.05 and 0.95 of the way from the first to the last of the sorted values. */
  lemma SummaryTails(values: seq<Option<real>>, low: nat, high: nat)
    requires var last := (|Present(values)| - 1) as real;
             && low as real <= 0.05 * last <= (low + 1) as real && low + 1 < |Present(values)|
             && high as real <= 0.95 * last <= (high + 1) as real && high + 1 < |Present(values)|
    ensures var s, o, last := Summarize(values), Sort(Present(values)), (|Present(values)| - 1) as real;
            && s.p5 == Interpolate(o[low], o[low + 1], 0.05 * last - low as real)
            && s.p95 == Interpolate(o[high], o[high + 1], 0.95 * last - high as real)
  {
    var clean := Present(values);
    var last := (|clean| - 1) as real;
    PercentileBetweenRanks(clean, 5.0, 0.05 * last, low);
    PercentileBetweenRanks(clean, 95.0, 0.95 * last, high);
  }

  /**
    * The median halves the present values: at least half are at or below it and at least half at or above
    * it. It is the middle value of an odd count and the mean of the middle two of an even one.
    */
  lemma MedianHalves(values: seq<Option<real>>)
    requires Present(values) != []
    ensures var v, clean := Summarize(values).median, Present(values);
            var n, o := |clean|, Sort(clean);
            && 2 * SumOf(AtMost(v), clean) >= n && 2 * SumOf(AtLeast(v), clean) >= n
            && (n % 2 == 1 ==> v == o[n / 2])
            && (n % 2 == 0 ==> 2.0 * v == o[n / 2 - 1] + o[n / 2])
  {
    MedianOf(Present(values));
  }

  lemma MedianOf(clean: seq<real>)
    requires clean != []
    ensures var v, n, o := Percentile(clean, 50.0).value, |clean|, Sort(clean);
            && 2 * SumOf(AtMost(v), clean) >= n && 2 * SumOf(AtLeast(v), clean) >= n
            && (n % 2 == 1 ==> v == o[n / 2])
            && (n % 2 == 0 ==> 2.0 * v == o[n / 2 - 1] + o[n / 2])
  {
    var n := |clean|;
    if n % 2 == 1 {
      MiddleValue(clean, n / 2);
    } else {
      MiddleTwo(clean, n / 2);
      PercentileSplitsValues(clean, 50.0, (n / 2) as real - 0.5, n / 2 - 1, n / 2);
    }
  }

  lemma MiddleValue(clean: seq<real>, m: nat)
    requires |clean| == 2 * m + 1
    ensures Percentile(clean, 50.0) == Success(Sort(clean)[m])
    ensures var v := Percentile(clean, 50.0).value; SumOf(AtMost(v), clean) > m && SumOf(AtLeast(v), clean) > m
  {
    PercentileSplitsValues(clean, 50.0, m as real, m, m);
    PercentileAtRank(clean, 50.0, m);
  }

  lemma MiddleTwo(clean: seq<real>, m: nat)
    requires |clean| == 2 * m && m > 0
    ensures Percentile(clean, 50.0).Success?
    ensures 2.0 * Percentile(clean, 50.0).value == Sort(clean)[m - 1] + Sort(clean)[m]
  {
    var x := m as real - 0.5;
    PercentileBetweenRanks(clean, 50.0, x, m - 1);
    InterpolateHalf(Sort(clean)[m - 1], Sort(clean)[m], x - (m - 1) as real);
  }

  /** Every summary is ordered, and its mean lies in the range. */
  lemma SummaryOrdered(values: seq<Option<real>>)
    ensures var s := Summarize(values);
            && s.minimum <= s.p5 <= s.median <= s.p95 <= s.maximum
            && s.minimum <= s.mean <= s.maximum
  {
    var clean := Present(values);
    if clean != [] {
      PercentileInRange(clean, 5.0);
      PercentileInRange(clean, 95.0);
      PercentileMonotoneInQ(clean, 5.0, 50.0);
      PercentileMonotoneInQ(clean, 50.0, 95.0);
      assert forall i :: 0 <= i < |clean| ==> clean[i] in clean;
      MeanInRange(clean, MinOf(clean), MaxOf(clean));
    }
  }
}
