/** Token estimates and their calibration: agent_driver/context/token_estimation.py, in exact reals. */
module TokenEstimation {
  import opened Prelude

  const DEFAULT_RATIO: real := 4.0
  const MIN_RATIO: real := 2.0
  const MAX_RATIO: real := 8.0

  /** `int(x)` for a float: truncation toward zero. */
  function Truncate(x: real): int {
    if x >= 0.0 then x.Floor else -((-x).Floor)
  }

  function EstimateTokens(chars: int, ratio: real): int {
    if ratio <= 0.0 then chars else (chars as real / ratio).Floor
  }

  function CharsForTokens(tokens: int, ratio: real): int {
    Truncate(tokens as real * ratio)
  }

  function RealMax(a: real, b: real): real {
    if a >= b then a else b
  }

  function RealMin(a: real, b: real): real {
    if a <= b then a else b
  }

  function Clamp(ratio: real): real {
    RealMax(MIN_RATIO, RealMin(MAX_RATIO, ratio))
  }

  ghost predicate InRange(ratio: real) {
    MIN_RATIO <= ratio <= MAX_RATIO
  }

  lemma DivideMonotone(a: real, b: real, k: real)
    requires a <= b && 0.0 < k
    ensures a / k <= b / k
  {
    RealQuotient(a, k);
    RealQuotient(b, k);
    RealCancel(a / k, b / k, k);
  }

  /** More characters never mean fewer tokens. */
  lemma EstimateMonotone(a: int, b: int, ratio: real)
    requires a <= b
    ensures EstimateTokens(a, ratio) <= EstimateTokens(b, ratio)
  {
    if ratio > 0.0 {
      DivideMonotone(a as real, b as real, ratio);
    }
  }

  /** At the default ratio the estimate is integer division by four. */
  lemma EstimateDefault(chars: nat)
    ensures EstimateTokens(chars, DEFAULT_RATIO) == chars / 4
  {
    assert chars == 4 * (chars / 4) + chars % 4;
    assert chars as real / 4.0 == (chars / 4) as real + (chars % 4) as real / 4.0;
  }

  /** `chars` characters hold `n` whole tokens and no more. */
  predicate HoldsTokens(chars: int, n: int, ratio: real) {
    n as real * ratio <= chars as real < (n + 1) as real * ratio
  }

  /** The estimate is the number of whole tokens the characters hold. */
  lemma EstimateIs(chars: int, n: int, ratio: real)
    requires ratio > 0.0
    ensures EstimateTokens(chars, ratio) == n <==> HoldsTokens(chars, n, ratio)
  {
    QuotientIn(chars as real, ratio, n as real, (n + 1) as real);
  }

  lemma QuotientIn(c: real, k: real, low: real, high: real)
    requires k > 0.0
    ensures low <= c / k < high <==> low * k <= c < high * k
  {
    RealQuotient(c, k);
    RealCancel(low, c / k, k);
    RealCancel(c / k, high, k);
  }

  /**
    * The estimate of the character budget for `t` tokens is `t` or `t - 1`, and is `t` exactly when
    * the budget needed no rounding.
    */
  lemma BudgetRoundTrip(t: nat, ratio: real)
    requires InRange(ratio)
    ensures t - 1 <= EstimateTokens(CharsForTokens(t, ratio), ratio) <= t
    ensures EstimateTokens(CharsForTokens(t, ratio), ratio) == t <==>
            CharsForTokens(t, ratio) as real == t as real * ratio
  {
    var chars := CharsForTokens(t, ratio);
    FloorOfProduct(t, ratio);
    RealQuotient(chars as real, ratio);
    FloorBetween(chars as real / ratio, t, chars, ratio);
  }

  lemma FloorBetween(tokens: real, t: nat, chars: int, ratio: real)
    requires InRange(ratio) && tokens * ratio == chars as real
    requires chars as real <= t as real * ratio < chars as real + 1.0
    ensures t - 1 <= tokens.Floor <= t
    ensures tokens.Floor == t <==> chars as real == t as real * ratio
  {
    QuotientBetween(tokens, t as real, chars as real, ratio);
  }

  lemma QuotientBetween(x: real, whole: real, chars: real, ratio: real)
    requires ratio >= 2.0 && x * ratio == chars
    requires chars <= whole * ratio < chars + 1.0
    ensures whole - 1.0 < x <= whole
    ensures x == whole <==> chars == whole * ratio
  {
    RealCancel(x, whole, ratio);
    OneLess(whole, ratio);
    RealCancel(whole - 1.0, x, ratio);
  }

  lemma OneLess(x: real, k: real)
    ensures (x - 1.0) * k == x * k - k
  {
  }

  lemma FloorOfProduct(t: nat, ratio: real)
    requires InRange(ratio)
    ensures CharsForTokens(t, ratio) as real <= t as real * ratio < CharsForTokens(t, ratio) as real + 1.0
  {
    NonNegative(t as real, ratio);
  }

  // ---------------------------------------------------------------- calibration

  /** One provider response: the characters sent and the input tokens it reported, if any. */
  datatype Observation = Observation(charsSent: int, actual: Option<int>)

  predicate IsValid(o: Observation) {
    o.actual.Some? && o.actual.value > 0 && o.charsSent > 0
  }

  function ObservedRatio(o: Observation): real
    requires IsValid(o)
  {
    Clamp(o.charsSent as real / o.actual.value as real)
  }

  function Calibrate(prior: real, o: Observation): real {
    if !IsValid(o) then Clamp(prior)
    else Clamp((1.0 - 0.3) * prior + 0.3 * ObservedRatio(o))
  }

  /** The ratio after a whole run of responses. */
  function CalibrateAll(start: real, os: seq<Observation>): real {
    if os == [] then start else Calibrate(CalibrateAll(start, os[..|os| - 1]), os[|os| - 1])
  }

  function ValidCount(os: seq<Observation>): nat {
    if os == [] then 0
    else ValidCount(os[..|os| - 1]) + (if IsValid(os[|os| - 1]) then 1 else 0)
  }

  function Decay(k: nat): real {
    if k == 0 then 1.0 else 0.7 * Decay(k - 1)
  }

  /** Whatever the responses report, the ratio stays in [2, 8]; one response pulls any start into it. */
  lemma {:induction false} RatioBounded(start: real, os: seq<Observation>)
    requires InRange(start) || os != []
    ensures InRange(CalibrateAll(start, os))
  {
  }

  /** `gap` after `k` shrinks by 0.7. */
  function Shrink(k: nat, gap: real): real {
    if k == 0 then gap else 0.7 * Shrink(k - 1, gap)
  }

  /** In closed form: a gap shrunk `k` times is 0.7^k of itself. */
  lemma {:induction false} ShrinkIsDecay(k: nat, gap: real)
    ensures Shrink(k, gap) == Decay(k) * gap
  {
    if k > 0 {
      ShrinkIsDecay(k - 1, gap);
      var d := Decay(k - 1);
      assert 0.7 * (d * gap) == (0.7 * d) * gap;
    }
  }

  /**
    * The start is forgotten at a fixed rate: the gap between two in-range starts shrinks by exactly 0.7
    * per valid response and not at all on the others.
    */
  lemma {:induction false} StartForgotten(a: real, b: real, os: seq<Observation>)
    requires InRange(a) && InRange(b)
    ensures CalibrateAll(a, os) - CalibrateAll(b, os) == Shrink(ValidCount(os), a - b)
  {
    if os != [] {
      var n := |os| - 1;
      StartForgotten(a, b, os[..n]);
      RatioBounded(a, os[..n]);
      RatioBounded(b, os[..n]);
      GapStep(CalibrateAll(a, os[..n]), CalibrateAll(b, os[..n]), os[n]);
    }
  }

  /** One response shrinks the gap by 0.7 or leaves it. */
  lemma GapStep(a: real, b: real, o: Observation)
    requires InRange(a) && InRange(b)
    ensures Calibrate(a, o) - Calibrate(b, o) == (if IsValid(o) then 0.7 * (a - b) else a - b)
  {
    if IsValid(o) {
      NoClampNeeded(a, ObservedRatio(o));
      NoClampNeeded(b, ObservedRatio(o));
    }
  }

  lemma NoClampNeeded(prior: real, observed: real)
    requires InRange(prior) && InRange(observed)
    ensures Clamp((1.0 - 0.3) * prior + 0.3 * observed) == (1.0 - 0.3) * prior + 0.3 * observed
  {
  }

  /** The response reports `truth` characters per token. */
  ghost predicate Reports(o: Observation, truth: real) {
    o.actual.Some? && o.actual.value > 0 && o.charsSent > 0 && o.charsSent as real == truth * o.actual.value as real
  }

  lemma ObservedIs(o: Observation, truth: real)
    requires Reports(o, truth)
    ensures IsValid(o) && ObservedRatio(o) == Clamp(truth)
  {
    QuotientIs(o.charsSent as real, o.actual.value as real, truth);
  }

  /**
    * One response moves the ratio three tenths of the way to the characters per token it reports, taken as
    * 2 below that and as 8 above; a response without tokens or characters leaves it.
    */
  lemma CalibrateMeans(prior: real, o: Observation, truth: real)
    requires InRange(prior)
    ensures Reports(o, truth) && 2.0 <= truth <= 8.0 ==> Calibrate(prior, o) == 0.7 * prior + 0.3 * truth
    ensures Reports(o, truth) && truth < 2.0 ==> Calibrate(prior, o) == 0.7 * prior + 0.3 * 2.0
    ensures Reports(o, truth) && truth > 8.0 ==> Calibrate(prior, o) == 0.7 * prior + 0.3 * 8.0
    ensures o.actual.None? || o.actual.value <= 0 || o.charsSent <= 0 ==> Calibrate(prior, o) == prior
  {
    if Reports(o, truth) {
      ObservedIs(o, truth);
      NoClampNeeded(prior, Clamp(truth));
    }
  }

  /** Every response that counts reports `truth` characters per token. */
  ghost predicate Steady(os: seq<Observation>, truth: real) {
    forall i :: 0 <= i < |os| && IsValid(os[i]) ==> Reports(os[i], truth)
  }

  /**
    * On content of one steady ratio the error decays by 0.7 per valid response: toward the true ratio where
    * that is in range, else toward the nearer bound.
    */
  lemma SteadyContentConverges(start: real, os: seq<Observation>, truth: real)
    requires InRange(start) && Steady(os, truth)
    ensures 2.0 <= truth <= 8.0 ==> CalibrateAll(start, os) - truth == Shrink(ValidCount(os), start - truth)
    ensures truth < 2.0 ==> CalibrateAll(start, os) - 2.0 == Shrink(ValidCount(os), start - 2.0)
    ensures truth > 8.0 ==> CalibrateAll(start, os) - 8.0 == Shrink(ValidCount(os), start - 8.0)
  {
    StartForgotten(start, Clamp(truth), os);
    SteadyIsFixed(os, truth);
  }

  lemma {:induction false} SteadyIsFixed(os: seq<Observation>, truth: real)
    requires Steady(os, truth)
    ensures CalibrateAll(Clamp(truth), os) == Clamp(truth)
  {
    if os != [] {
      var n := |os| - 1;
      SteadyIsFixed(os[..n], truth);
      if IsValid(os[n]) {
        ObservedIs(os[n], truth);
      }
    }
  }
}
