/** The pressure estimate and its ladder of states: agent_driver/context/token_pressure.py. */
module TokenPressure {
  import opened Prelude
  import opened TokenEstimation

  /** `str(value)` of a value that is not a string: never empty for JSON values. */
  type Rendered = s: string | s != "" witness "None"

  /** A message's content: absent, a string, or another value with its rendering and truth value. */
  datatype Content = Missing | Text(text: string) | Other(rendered: Rendered, truthy: bool)

  /** Message metadata: falsy, or its JSON text and whether it carries a truthy scaffolding tag. */
  datatype Metadata = NoMetadata | Metadata(serialized: string, scaffolding: bool)

  datatype Message = Message(role: string, content: Content, metadata: Metadata)

  datatype Thresholds = Thresholds(
    window: int,
    ratio: real,
    warning: int,
    compact: int,
    blocking: int,
    earlyWarningRatio: real,
    delegateRatio: real,
    compactRatio: real,
    blockingRatio: real)

  /** The request being sized; tool schemas are given by their JSON text. */
  datatype Request = Request(messages: seq<Message>, toolSchemas: seq<string>, observations: seq<Content>)

  /** `len(str(item.get("content", "")))`. */
  function RenderedChars(c: Content): int {
    match c
    case Missing => 0
    case Text(text) => |text|
    case Other(rendered, _) => |rendered|
  }

  function ContentChars(m: Message): int {
    RenderedChars(m.content)
  }

  function MetadataChars(m: Message): int {
    match m.metadata
    case NoMetadata => 0
    case Metadata(serialized, _) => |serialized|
  }

  function Length(s: string): int {
    |s|
  }

  function TotalChars(r: Request): int {
    SumOf(ContentChars, r.messages) + SumOf(MetadataChars, r.messages)
    + SumOf(RenderedChars, r.observations) + SumOf(Length, r.toolSchemas)
  }

  function UsedTokens(t: Thresholds, r: Request): int {
    EstimateTokens(TotalChars(r), t.ratio)
  }

  /** `round(x, 4)`, halves to even. */
  function Round4(x: real): real {
    RoundHalfEven(x * 10000.0) as real / 10000.0
  }

  function RoundHalfEven(x: real): int {
    var n := x.Floor;
    var half := x - n as real;
    if half < 0.5 then n else if half > 0.5 then n + 1 else if n % 2 == 0 then n else n + 1
  }

  function UsageRatio(t: Thresholds, used: int): Option<real> {
    if t.window > 0 then Some(Round4(used as real / t.window as real)) else None
  }

  predicate RatioAtLeast(value: Option<real>, threshold: real) {
    value.Some? && value.value >= threshold
  }

  datatype Pressure = Ok | EarlyWarning | DelegateOrSummarize | CompactRecommended | Blocking

  function Rank(p: Pressure): nat {
    match p
    case Ok => 0
    case EarlyWarning => 1
    case DelegateOrSummarize => 2
    case CompactRecommended => 3
    case Blocking => 4
  }

  function PressureState(t: Thresholds, used: int): Pressure {
    var usage := UsageRatio(t, used);
    if used >= t.blocking || RatioAtLeast(usage, t.blockingRatio) then Blocking
    else if used >= t.compact || RatioAtLeast(usage, t.compactRatio) then CompactRecommended
    else if RatioAtLeast(usage, t.delegateRatio) then DelegateOrSummarize
    else if used >= t.warning || RatioAtLeast(usage, t.earlyWarningRatio) then EarlyWarning
    else Ok
  }

  function State(t: Thresholds, r: Request): Pressure {
    PressureState(t, UsedTokens(t, r))
  }

  // ---------------------------------------------------------------- what is measured

  /** The characters of a content: of its text, of the rendering of another value, or none. */
  ghost predicate HasChars(c: Content, n: int) {
    match c
    case Missing => n == 0
    case Text(text) => n == |text|
    case Other(rendered, _) => n == |rendered|
  }

  /**
    * Every part of a request counts in full: a message by its content and its metadata, a tool schema by its
    * text, an observation by its content. An empty request counts nothing.
    */
  lemma RequestGrows(r: Request, m: Message, n: int, schema: string, observation: Content, k: int)
    requires HasChars(m.content, n) && HasChars(observation, k)
    ensures TotalChars(Request([], [], [])) == 0
    ensures TotalChars(r.(messages := r.messages + [m])) ==
            TotalChars(r) + n + (if m.metadata.Metadata? then |m.metadata.serialized| else 0)
    ensures TotalChars(r.(toolSchemas := r.toolSchemas + [schema])) == TotalChars(r) + |schema|
    ensures TotalChars(r.(observations := r.observations + [observation])) == TotalChars(r) + k
  {
    SumPush(ContentChars, r.messages, m);
    SumPush(MetadataChars, r.messages, m);
    SumPush(Length, r.toolSchemas, schema);
    SumPush(RenderedChars, r.observations, observation);
  }

  /** Rounding goes to the nearest whole number, and from a half to the even one. */
  lemma RoundMeans(x: real)
    ensures var n := RoundHalfEven(x);
            -0.5 <= n as real - x <= 0.5 && (n as real - x == 0.5 || n as real - x == -0.5 ==> n % 2 == 0)
  {
  }

  /** The usage is the used share of the window to four places; without a window there is none. */
  lemma UsageMeans(t: Thresholds, used: int, x: real)
    ensures t.window > 0 && x * t.window as real == used as real ==>
              UsageRatio(t, used) == Some(RoundHalfEven(x * 10000.0) as real / 10000.0)
    ensures t.window <= 0 ==> UsageRatio(t, used) == None
  {
    if t.window > 0 && x * t.window as real == used as real {
      QuotientIs(used as real, t.window as real, x);
      assert UsageRatio(t, used) == Some(Round4(x));
    }
  }

  // ---------------------------------------------------------------- the ladder

  /** The condition that by itself asks for state `p`. */
  predicate Triggers(t: Thresholds, used: int, p: Pressure) {
    var usage := UsageRatio(t, used);
    match p
    case Ok => true
    case EarlyWarning => used >= t.warning || RatioAtLeast(usage, t.earlyWarningRatio)
    case DelegateOrSummarize => RatioAtLeast(usage, t.delegateRatio)
    case CompactRecommended => used >= t.compact || RatioAtLeast(usage, t.compactRatio)
    case Blocking => used >= t.blocking || RatioAtLeast(usage, t.blockingRatio)
  }

  /** The state is the highest one triggered, whatever the order of the thresholds. */
  lemma StateIsHighestTrigger(t: Thresholds, used: int)
    ensures Triggers(t, used, PressureState(t, used))
    ensures forall p :: Triggers(t, used, p) ==> Rank(p) <= Rank(PressureState(t, used))
  {
  }

  lemma RoundMonotone(x: real, y: real)
    requires x <= y
    ensures RoundHalfEven(x) <= RoundHalfEven(y)
  {
  }

  lemma UsageMonotone(t: Thresholds, a: int, b: int)
    requires a <= b && t.window > 0
    ensures UsageRatio(t, a).value <= UsageRatio(t, b).value
  {
    DivideMonotone(a as real, b as real, t.window as real);
    var x, y := a as real / t.window as real, b as real / t.window as real;
    RoundMonotone(x * 10000.0, y * 10000.0);
  }

  lemma StateMonotoneInTokens(t: Thresholds, a: int, b: int)
    requires a <= b
    ensures Rank(PressureState(t, a)) <= Rank(PressureState(t, b))
  {
    StateIsHighestTrigger(t, a);
    StateIsHighestTrigger(t, b);
    if t.window > 0 {
      UsageMonotone(t, a, b);
    }
    assert Triggers(t, b, PressureState(t, a));
  }

  /** `more` holds every message, schema and observation of `less`, in any order and among any others. */
  ghost predicate Extends(less: Request, more: Request) {
    && multiset(less.messages) <= multiset(more.messages)
    && multiset(less.toolSchemas) <= multiset(more.toolSchemas)
    && multiset(less.observations) <= multiset(more.observations)
  }

  /** Adding to a request never lowers its pressure, for any thresholds and any ratio. */
  lemma PressureMonotone(t: Thresholds, less: Request, more: Request)
    requires Extends(less, more)
    ensures UsedTokens(t, less) <= UsedTokens(t, more)
    ensures Rank(State(t, less)) <= Rank(State(t, more))
  {
    SumOfMore(ContentChars, less.messages, more.messages);
    SumOfMore(MetadataChars, less.messages, more.messages);
    SumOfMore(RenderedChars, less.observations, more.observations);
    SumOfMore(Length, less.toolSchemas, more.toolSchemas);
    EstimateMonotone(TotalChars(less), TotalChars(more), t.ratio);
    StateMonotoneInTokens(t, UsedTokens(t, less), UsedTokens(t, more));
  }
}
