/** Typed run budgets and how they meet the pressure ladder: agent_driver/context/run_budget.py. */
module RunBudget {
  import opened Prelude
  import opened TokenEstimation
  import opened TokenPressure

  const MAX_ITEMS: int := 4096
  const MAX_PREVIEW_CHARS: int := 8192
  const COMPACTION_FRACTION: real := 0.8

  datatype Budget = Budget(
    inputTokens: int,
    outputTokens: int,
    maxMessages: Option<int>,
    maxObservations: Option<int>,
    protectRecentMessages: Option<int>,
    preserveRecentObservations: Option<int>,
    maxPreviewChars: Option<int>,
    maxCompactionChars: Option<int>)

  datatype Defaults = Defaults(
    maxMessages: Option<int>,
    maxObservations: Option<int>,
    protectRecentMessages: Option<int>,
    preserveRecentObservations: Option<int>,
    maxPreviewChars: Option<int>,
    contextWindow: int,
    maxCompactionChars: int)

  datatype Resolved = Resolved(
    inputTokens: int,
    outputTokens: int,
    maxChars: int,
    maxMessages: Option<int>,
    maxObservations: Option<int>,
    protectRecentMessages: Option<int>,
    preserveRecentObservations: Option<int>,
    maxPreviewChars: Option<int>,
    contextWindow: int,
    warning: int,
    compact: int,
    blocking: int,
    maxCompactionChars: int)

  /** The bounds the budget contract puts on what a caller declares. */
  predicate ValidBudget(b: Budget) {
    && 1 <= b.inputTokens <= 2_000_000
    && 0 <= b.outputTokens <= 2_000_000
    && (b.maxCompactionChars.Some? ==> 1 <= b.maxCompactionChars.value <= 262_144)
  }

  /** `ceil(value * input / baseline)` between the declared value and the ceiling. */
  function Scaled(value: int, inputTokens: int, baseline: int, ceiling: int): int
    requires baseline >= 1
  {
    Min(ceiling, Max(value, (value * inputTokens + baseline - 1) / baseline))
  }

  function ScaledCap(value: Option<int>, inputTokens: int, baseline: int, ceiling: int): Option<int>
    requires baseline >= 1
  {
    if value.None? || value.value < 0 then value
    else Some(Scaled(value.value, inputTokens, baseline, ceiling))
  }

  function Share(inputTokens: int, fraction: real): int {
    Max(1, Truncate(inputTokens as real * fraction))
  }

  /** A declared cap, else the runner default scaled to the window. */
  function Pick(declared: Option<int>, default: Option<int>, inputTokens: int, baseline: int, ceiling: int): Option<int>
    requires baseline >= 1
  {
    if declared.Some? then declared else ScaledCap(default, inputTokens, baseline, ceiling)
  }

  function WindowCharCap(inputTokens: int, ratio: real): int {
    Max(1, Truncate(inputTokens as real * ratio * COMPACTION_FRACTION))
  }

  function CompactionChars(b: Budget, d: Defaults, windowCap: int): int {
    var chosen := match b.maxCompactionChars
      case Some(declared) => declared
      case None =>
        ScaledCap(Some(d.maxCompactionChars), b.inputTokens, Max(1, d.contextWindow), windowCap).value;
    Min(chosen, windowCap)
  }

  /** The typed branch of `resolve_run_context_budget`. */
  function Resolve(b: Budget, d: Defaults, ratio: real): Resolved {
    var n := b.inputTokens;
    var baseline := Max(1, d.contextWindow);
    Resolved(
      n, b.outputTokens, CharsForTokens(n, ratio),
      Pick(b.maxMessages, d.maxMessages, n, baseline, MAX_ITEMS),
      Pick(b.maxObservations, d.maxObservations, n, baseline, MAX_ITEMS),
      Pick(b.protectRecentMessages, d.protectRecentMessages, n, baseline, MAX_ITEMS),
      Pick(b.preserveRecentObservations, d.preserveRecentObservations, n, baseline, MAX_ITEMS),
      Pick(b.maxPreviewChars, d.maxPreviewChars, n, baseline, MAX_PREVIEW_CHARS),
      n + b.outputTokens,
      Share(n, 0.75), Share(n, 0.90), Share(n, 0.98),
      CompactionChars(b, d, WindowCharCap(n, ratio)))
  }

  // ---------------------------------------------------------------- scaled caps

  lemma CeilDiv(x: int, k: int)
    requires k >= 1
    ensures var c := (x + k - 1) / k; (c - 1) * k < x <= c * k
  {
    var c := (x + k - 1) / k;
    assert x + k - 1 == c * k + (x + k - 1) % k;
  }

  /**
    * A scaled cap is the least whole number whose share of the baseline covers the value's share of the
    * window, never below the value itself, and cut off at the ceiling.
    */
  lemma ScaledCapMeaning(value: nat, inputTokens: int, baseline: int, ceiling: int)
    requires baseline >= 1
    ensures var r := Scaled(value, inputTokens, baseline, ceiling);
            && Min(value, ceiling) <= r <= ceiling
            && (r < ceiling ==> value * inputTokens <= r * baseline)
            && (r > value ==> (r - 1) * baseline < value * inputTokens)
  {
    CeilDiv(value * inputTokens, baseline);
    var c := (value * inputTokens + baseline - 1) / baseline;
    var r := Scaled(value, inputTokens, baseline, ceiling);
    TimesMonotone(c, Max(value, c), baseline);
    TimesMonotone(r - 1, c - 1, baseline);
  }

  lemma TimesMonotone(a: int, b: int, k: nat)
    ensures a <= b ==> a * k <= b * k
  {
  }

  /** A larger window never gets a smaller cap. */
  lemma ScaledCapMonotone(value: nat, n: int, m: int, baseline: int, ceiling: int)
    requires baseline >= 1 && n <= m
    ensures Scaled(value, n, baseline, ceiling) <= Scaled(value, m, baseline, ceiling)
  {
    TimesMonotone(n, m, value);
    CeilMonotone(value * n, value * m, baseline);
  }

  lemma CeilMonotone(x: int, y: int, k: int)
    requires x <= y && k >= 1
    ensures (x + k - 1) / k <= (y + k - 1) / k
  {
    CeilDiv(x, k);
    CeilDiv(y, k);
    var a, b := (x + k - 1) / k, (y + k - 1) / k;
    TimesMonotone(b, a - 1, k);
  }

  // ---------------------------------------------------------------- the resolved fields

  /** A cap as declared, else the default: kept where there is none or it is negative, else scaled to the window. */
  ghost predicate IsCap(cap: Option<int>, declared: Option<int>, default: Option<int>, n: int, baseline: int, ceiling: int) {
    if declared.Some? then cap == declared
    else if default.None? || default.value < 0 then cap == default
    else cap.Some? && IsScaled(cap.value, default.value, n, baseline, ceiling)
  }

  /** `r` is the least number from `value` up to the ceiling whose share of the baseline covers value's of `n`. */
  ghost predicate IsScaled(r: int, value: int, n: int, baseline: int, ceiling: int) {
    && Min(value, ceiling) <= r <= ceiling
    && (r < ceiling ==> value * n <= r * baseline)
    && (r > value ==> (r - 1) * baseline < value * n)
  }

  lemma PickMeans(declared: Option<int>, default: Option<int>, n: int, baseline: int, ceiling: int)
    requires baseline >= 1
    ensures IsCap(Pick(declared, default, n, baseline, ceiling), declared, default, n, baseline, ceiling)
  {
    if declared.None? && default.Some? && default.value >= 0 {
      ScaledCapMeaning(default.value, n, baseline, ceiling);
    }
  }

  /** Each field of a resolved budget comes from its own declaration and default, with its own ceiling. */
  lemma ResolveMeans(b: Budget, d: Defaults, ratio: real)
    ensures var r, n, baseline := Resolve(b, d, ratio), b.inputTokens, Max(1, d.contextWindow);
            && r.inputTokens == b.inputTokens && r.outputTokens == b.outputTokens
            && r.contextWindow == b.inputTokens + b.outputTokens
            && IsCap(r.maxMessages, b.maxMessages, d.maxMessages, n, baseline, 4096)
            && IsCap(r.maxObservations, b.maxObservations, d.maxObservations, n, baseline, 4096)
            && IsCap(r.protectRecentMessages, b.protectRecentMessages, d.protectRecentMessages, n, baseline, 4096)
            && IsCap(r.preserveRecentObservations, b.preserveRecentObservations, d.preserveRecentObservations, n, baseline, 4096)
            && IsCap(r.maxPreviewChars, b.maxPreviewChars, d.maxPreviewChars, n, baseline, 8192)
  {
    var n, baseline := b.inputTokens, Max(1, d.contextWindow);
    PickMeans(b.maxMessages, d.maxMessages, n, baseline, 4096);
    PickMeans(b.maxObservations, d.maxObservations, n, baseline, 4096);
    PickMeans(b.protectRecentMessages, d.protectRecentMessages, n, baseline, 4096);
    PickMeans(b.preserveRecentObservations, d.preserveRecentObservations, n, baseline, 4096);
    PickMeans(b.maxPreviewChars, d.maxPreviewChars, n, baseline, 8192);
  }

  /** The thresholds are three quarters, nine tenths and forty-nine fiftieths of the window, rounded down. */
  lemma ThresholdsMean(b: Budget, d: Defaults, ratio: real)
    requires b.inputTokens >= 1
    ensures var r, n := Resolve(b, d, ratio), b.inputTokens;
            r.warning == Max(1, 3 * n / 4) && r.compact == Max(1, 9 * n / 10) && r.blocking == Max(1, 49 * n / 50)
  {
    var n := b.inputTokens;
    assert n as real * 0.75 == (3 * n) as real / 4.0;
    assert n as real * 0.90 == (9 * n) as real / 10.0;
    assert n as real * 0.98 == (49 * n) as real / 50.0;
  }

  /** The summariser's budget under a cap: the declared one, or the default scaled to the window, within the cap. */
  lemma CompactionMeans(b: Budget, d: Defaults, cap: int)
    requires cap >= 1
    ensures var chars := CompactionChars(b, d, cap);
            match b.maxCompactionChars
            case Some(declared) => chars == Min(declared, cap)
            case None =>
              if d.maxCompactionChars < 0 then chars == d.maxCompactionChars
              else IsScaled(chars, d.maxCompactionChars, b.inputTokens, Max(1, d.contextWindow), cap)
  {
    if d.maxCompactionChars >= 0 {
      ScaledCapMeaning(d.maxCompactionChars, b.inputTokens, Max(1, d.contextWindow), cap);
    }
  }

  /** The character budgets: what the window holds at the ratio, and four fifths of that as the summariser's cap. */
  lemma CharBudgetsMean(b: Budget, d: Defaults, ratio: real, chars: real) returns (cap: int)
    requires b.inputTokens >= 1 && InRange(ratio) && chars == b.inputTokens as real * ratio
    ensures var r := Resolve(b, d, ratio);
            && r.maxChars as real <= chars < r.maxChars as real + 1.0
            && cap >= 1 && cap as real <= 0.8 * chars < cap as real + 1.0
            && r.maxCompactionChars == CompactionChars(b, d, cap)
  {
    FloorOfProduct(b.inputTokens, ratio);
    WindowCapFits(b.inputTokens, ratio);
    WindowCapMeans(b.inputTokens, ratio, chars);
    cap := WindowCharCap(b.inputTokens, ratio);
  }

  lemma WindowCapMeans(inputTokens: int, ratio: real, chars: real)
    requires inputTokens >= 1 && InRange(ratio) && chars == inputTokens as real * ratio
    ensures var cap := WindowCharCap(inputTokens, ratio); cap as real <= 0.8 * chars < cap as real + 1.0
  {
    Scale(1.0, inputTokens as real, ratio);
    EightTenths(chars);
  }

  lemma EightTenths(x: real)
    requires x >= 2.0
    ensures var cap := Max(1, Truncate(x * COMPACTION_FRACTION)); cap as real <= 0.8 * x < cap as real + 1.0
  {
  }

  // ---------------------------------------------------------------- thresholds

  /** The typed thresholds are ordered, positive, and never above the input window. */
  lemma ThresholdsOrdered(b: Budget, d: Defaults, ratio: real)
    requires b.inputTokens >= 1
    ensures var r := Resolve(b, d, ratio);
            1 <= r.warning <= r.compact <= r.blocking <= r.inputTokens
    ensures Resolve(b, d, ratio).blocking < b.inputTokens || b.inputTokens == 1
  {
  }

  /** The usage ratios at which the caller lets each state begin. */
  datatype Rungs = Rungs(early: real, delegate: real, compact: real, blocking: real)

  /** The pressure thresholds of a resolved budget, estimated with the ratio it was resolved with. */
  function ThresholdsUnder(b: Budget, d: Defaults, ratio: real, rungs: Rungs): Thresholds {
    var r := Resolve(b, d, ratio);
    Thresholds(r.contextWindow, ratio, r.warning, r.compact, r.blocking,
               rungs.early, rungs.delegate, rungs.compact, rungs.blocking)
  }

  /** An estimate that reaches the input window is always blocking, whatever the ratio rungs. */
  lemma FullWindowBlocks(b: Budget, d: Defaults, ratio: real, rungs: Rungs, used: int)
    requires b.inputTokens >= 1 && used >= b.inputTokens
    ensures PressureState(ThresholdsUnder(b, d, ratio, rungs), used) == Blocking
  {
    ThresholdsOrdered(b, d, ratio);
  }

  /** The pressure of a request under a resolved budget. */
  function StateUnder(b: Budget, d: Defaults, ratio: real, rungs: Rungs, request: Request): Pressure {
    State(ThresholdsUnder(b, d, ratio, rungs), request)
  }

  ghost predicate Fills(b: Budget, d: Defaults, ratio: real, request: Request) {
    TotalChars(request) >= Resolve(b, d, ratio).maxChars
  }

  /** The blocking rung is met by an empty window. */
  predicate RungAtZero(b: Budget, rungs: Rungs) {
    b.inputTokens + b.outputTokens > 0 && rungs.blocking <= 0.0
  }

  /**
    * The character budget and the trigger agree: a request filling the resolved `max_chars` is blocking
    * under the ratio it was resolved with, except that a one-token budget also needs the characters of a
    * whole token, which rounding `max_chars` down may have dropped.
    */
  lemma FullCharBudgetBlocksIff(b: Budget, d: Defaults, ratio: real, rungs: Rungs, request: Request)
    requires b.inputTokens >= 1 && InRange(ratio) && Fills(b, d, ratio, request)
    ensures StateUnder(b, d, ratio, rungs, request) == Blocking <==>
            b.inputTokens >= 2 || TotalChars(request) as real >= ratio || RungAtZero(b, rungs)
  {
    FilledTokens(b.inputTokens, TotalChars(request), ratio);
    NearlyFullBlocksIff(b, d, ratio, rungs, UsedTokens(ThresholdsUnder(b, d, ratio, rungs), request));
  }

  /** Characters filling the budget for `n` tokens hold at least `n - 1` of them. */
  lemma FilledTokens(n: nat, chars: int, ratio: real)
    requires n >= 1 && InRange(ratio) && chars >= CharsForTokens(n, ratio)
    ensures EstimateTokens(chars, ratio) >= n - 1
    ensures n == 1 ==> (EstimateTokens(chars, ratio) >= 1 <==> chars as real >= ratio)
  {
    BudgetRoundTrip(n, ratio);
    EstimateMonotone(CharsForTokens(n, ratio), chars, ratio);
    EstimateIs(chars, 0, ratio);
  }

  lemma NearlyFullBlocksIff(b: Budget, d: Defaults, ratio: real, rungs: Rungs, used: int)
    requires b.inputTokens >= 1 && used >= b.inputTokens - 1
    ensures PressureState(ThresholdsUnder(b, d, ratio, rungs), used) == Blocking <==>
            b.inputTokens >= 2 || used >= 1 || RungAtZero(b, rungs)
  {
    ThresholdsOrdered(b, d, ratio);
    if b.inputTokens + b.outputTokens > 0 {
      NoUsage(b.inputTokens + b.outputTokens);
    }
  }

  lemma NoUsage(window: int)
    requires window > 0
    ensures Round4(0.0 / window as real) == 0.0
  {
  }

  /** Every request that fills the budget is blocking exactly when none is left a fraction of a token short. */
  lemma FullCharBudgetAlwaysBlocksIff(b: Budget, d: Defaults, ratio: real, rungs: Rungs)
    requires b.inputTokens >= 1 && InRange(ratio)
    ensures (forall request | Fills(b, d, ratio, request) :: StateUnder(b, d, ratio, rungs, request) == Blocking)
       <==> b.inputTokens >= 2 || ratio == ratio.Floor as real || RungAtZero(b, rungs)
  {
    forall request | Fills(b, d, ratio, request)
      ensures b.inputTokens >= 2 || ratio == ratio.Floor as real || RungAtZero(b, rungs) ==>
              StateUnder(b, d, ratio, rungs, request) == Blocking
    {
      FullCharBudgetBlocksIff(b, d, ratio, rungs, request);
    }
    var tight := PlainRequest(ratio.Floor);
    PlainChars(ratio.Floor);
    if b.inputTokens == 1 {
      assert Fills(b, d, ratio, tight);
      FullCharBudgetBlocksIff(b, d, ratio, rungs, tight);
    }
  }

  function PlainRequest(n: nat): Request {
    Request([Message("user", Text(seq(n, _ => 'a')), NoMetadata)], [], [])
  }

  lemma PlainChars(n: nat)
    ensures TotalChars(PlainRequest(n)) == n
  {
    var ms := PlainRequest(n).messages;
    assert ms[..0] == [];
    assert SumOf(ContentChars, ms) == SumOf(ContentChars, ms[..0]) + n;
    assert SumOf(MetadataChars, ms) == SumOf(MetadataChars, ms[..0]) + 0;
  }

  /** A one-token budget at two and a half characters per token: two characters fill it and nothing blocks. */
  lemma OneTokenBudgetStaysOk(b: Budget, d: Defaults, rungs: Rungs)
    requires b.inputTokens == 1 && b.outputTokens >= 0
    requires rungs.early > 0.0 && rungs.delegate > 0.0 && rungs.compact > 0.0 && rungs.blocking > 0.0
    ensures Fills(b, d, 2.5, PlainRequest(2)) && StateUnder(b, d, 2.5, rungs, PlainRequest(2)) == Ok
  {
    PlainChars(2);
    EstimateIs(2, 0, 2.5);
    NoUsage(1 + b.outputTokens);
  }

  /** The summariser never reads more than the message budget, and always at least one character. */
  lemma CompactionWithinWindow(b: Budget, d: Defaults, ratio: real)
    requires ValidBudget(b) && InRange(ratio)
    ensures Resolve(b, d, ratio).maxCompactionChars <= Resolve(b, d, ratio).maxChars
    ensures b.maxCompactionChars.Some? || d.maxCompactionChars >= 1 <==>
            Resolve(b, d, ratio).maxCompactionChars >= 1
  {
    WindowCapFits(b.inputTokens, ratio);
    CompactionCapped(b, d, WindowCharCap(b.inputTokens, ratio));
  }

  lemma WindowCapFits(inputTokens: int, ratio: real)
    requires inputTokens >= 1 && InRange(ratio)
    ensures 1 <= WindowCharCap(inputTokens, ratio) <= CharsForTokens(inputTokens, ratio)
  {
    Scale(1.0, inputTokens as real, ratio);
    FractionFits(inputTokens as real * ratio);
  }

  lemma FractionFits(x: real)
    requires x >= 2.0
    ensures 1 <= Max(1, Truncate(x * COMPACTION_FRACTION)) <= Truncate(x)
  {
  }

  lemma CompactionCapped(b: Budget, d: Defaults, windowCap: int)
    requires windowCap >= 1 && (b.maxCompactionChars.Some? ==> b.maxCompactionChars.value >= 1)
    ensures CompactionChars(b, d, windowCap) <= windowCap
    ensures CompactionChars(b, d, windowCap) >= 1 <==> b.maxCompactionChars.Some? || d.maxCompactionChars >= 1
  {
    if b.maxCompactionChars.None? && d.maxCompactionChars >= 0 {
      ScaledCapMeaning(d.maxCompactionChars, b.inputTokens, Max(1, d.contextWindow), windowCap);
      ScaledZero(b.inputTokens, Max(1, d.contextWindow), windowCap);
    }
  }

  lemma ScaledZero(inputTokens: int, baseline: int, ceiling: int)
    requires baseline >= 1 && ceiling >= 0
    ensures Scaled(0, inputTokens, baseline, ceiling) == 0
  {
    assert (baseline - 1) / baseline == 0;
  }
}
