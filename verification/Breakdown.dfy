/** The per-category context breakdown and its agreement with the trigger: agent_driver/context/breakdown.py. */
module Breakdown {
  import opened Prelude
  import opened TokenEstimation
  import opened TokenPressure

  datatype Category =
    | SystemPrompt
    | ToolDefinitions
    | ToolResults
    | Scaffolding
    | Conversation
    | MessageMetadata

  /** `len(str(content or ""))`: falsy content counts for nothing here. */
  function MessageChars(m: Message): int {
    match m.content
    case Missing => 0
    case Text(text) => |text|
    case Other(rendered, truthy) => if truthy then |rendered| else 0
  }

  function IsScaffolding(m: Message): bool {
    m.metadata.Metadata? && m.metadata.scaffolding
  }

  function CategoryOf(m: Message): Category {
    if m.role == "system" then SystemPrompt
    else if IsScaffolding(m) then Scaffolding
    else if m.role == "tool" then ToolResults
    else Conversation
  }

  /** What one message adds to category `c`. */
  function Adds(c: Category): Message -> int {
    (m: Message) =>
      (if CategoryOf(m) == c then MessageChars(m) else 0) + (if c == MessageMetadata then MetadataChars(m) else 0)
  }

  /** The characters of category `c` in a request. */
  function CharsOf(c: Category, messages: seq<Message>, tools: seq<string>): int {
    SumOf(Adds(c), messages) + (if c == ToolDefinitions then SumOf(Length, tools) else 0)
  }

  datatype Entry = Entry(chars: int, tokens: int)
  datatype Report = Report(categories: map<Category, Entry>, totalChars: int, totalTokens: int)

  ghost predicate IsComplete<T>(m: map<Category, T>) {
    && SystemPrompt in m && ToolDefinitions in m && ToolResults in m
    && Scaffolding in m && Conversation in m && MessageMetadata in m
  }

  /** After the loop over `messages` each category holds what they add to it. */
  ghost predicate Tallied(chars: map<Category, int>, messages: seq<Message>) {
    IsComplete(chars) && forall c :: c in chars ==> chars[c] == SumOf(Adds(c), messages)
  }

  /** What the loop body does to the counters. */
  function Counted(chars: map<Category, int>, m: Message): (more: map<Category, int>)
    requires IsComplete(chars)
    ensures IsComplete(more)
  {
    var more := chars[CategoryOf(m) := chars[CategoryOf(m)] + MessageChars(m)];
    more[MessageMetadata := more[MessageMetadata] + MetadataChars(m)]
  }

  lemma CountedAt(chars: map<Category, int>, m: Message, c: Category)
    requires IsComplete(chars)
    ensures c in chars && Counted(chars, m)[c] == chars[c] + Adds(c)(m)
  {
  }

  lemma TallyOne(chars: map<Category, int>, messages: seq<Message>, m: Message)
    requires Tallied(chars, messages)
    ensures Tallied(Counted(chars, m), messages + [m])
  {
    var more := Counted(chars, m);
    forall c: Category | c in more ensures more[c] == SumOf(Adds(c), messages + [m]) {
      CountedAt(chars, m, c);
      SumPush(Adds(c), messages, m);
    }
  }

  /** The loop over the messages. */
  method TallyMessages(messages: seq<Message>) returns (chars: map<Category, int>)
    ensures Tallied(chars, messages)
  {
    chars := map[
      SystemPrompt := 0, ToolDefinitions := 0, ToolResults := 0,
      Scaffolding := 0, Conversation := 0, MessageMetadata := 0];
    for i := 0 to |messages|
      invariant Tallied(chars, messages[..i])
    {
      var m := messages[i];
      TallyOne(chars, messages[..i], m);
      assert messages[..i + 1] == messages[..i] + [m];
      chars := chars[CategoryOf(m) := chars[CategoryOf(m)] + MessageChars(m)];
      chars := chars[MessageMetadata := chars[MessageMetadata] + MetadataChars(m)];
    }
    assert messages[..|messages|] == messages;
  }

  /** The loop over the tools. */
  method ToolChars(tools: seq<string>) returns (total: int)
    ensures total == SumOf(Length, tools)
  {
    total := 0;
    for i := 0 to |tools|
      invariant total == SumOf(Length, tools[..i])
    {
      SumExtend(Length, tools, i);
      total := total + |tools[i]|;
    }
    assert tools[..|tools|] == tools;
  }

  method EstimateContextBreakdown(messages: seq<Message>, tools: seq<string>) returns (r: Report)
    ensures IsComplete(r.categories)
    ensures forall c :: c in r.categories ==>
              r.categories[c] == Entry(CharsOf(c, messages, tools), TokensOf(c, messages, tools))
    ensures r.totalChars == CategorySum(messages, tools)
    ensures r.totalTokens == EstimateTokens(r.totalChars, DEFAULT_RATIO)
  {
    var chars := TallyMessages(messages);
    var total := ToolChars(tools);
    chars := chars[ToolDefinitions := chars[ToolDefinitions] + total];
    var totalChars := chars[SystemPrompt] + chars[ToolDefinitions] + chars[ToolResults]
                    + chars[Scaffolding] + chars[Conversation] + chars[MessageMetadata];
    var categories := map c: Category | c in chars :: Entry(chars[c], EstimateTokens(chars[c], DEFAULT_RATIO));
    r := Report(categories, totalChars, EstimateTokens(totalChars, DEFAULT_RATIO));
  }

  /** `sum(chars.values())`. */
  function CategorySum(messages: seq<Message>, tools: seq<string>): int {
    CharsOf(SystemPrompt, messages, tools) + CharsOf(ToolDefinitions, messages, tools)
    + CharsOf(ToolResults, messages, tools) + CharsOf(Scaffolding, messages, tools)
    + CharsOf(Conversation, messages, tools) + CharsOf(MessageMetadata, messages, tools)
  }

  function TokenSum(messages: seq<Message>, tools: seq<string>): int {
    TokensOf(SystemPrompt, messages, tools) + TokensOf(ToolDefinitions, messages, tools)
    + TokensOf(ToolResults, messages, tools) + TokensOf(Scaffolding, messages, tools)
    + TokensOf(Conversation, messages, tools) + TokensOf(MessageMetadata, messages, tools)
  }

  function TokensOf(c: Category, messages: seq<Message>, tools: seq<string>): int {
    EstimateTokens(CharsOf(c, messages, tools), DEFAULT_RATIO)
  }

  // ---------------------------------------------------------------- what each category holds

  /** The characters the breakdown counts of a content: none of a missing or falsy one. */
  ghost predicate Shows(c: Content, n: int) {
    match c
    case Missing => n == 0
    case Text(text) => n == |text|
    case Other(rendered, truthy) => n == if truthy then |rendered| else 0
  }

  /** The category a message's content belongs to: the system role first, then the scaffolding tag, then the tool role. */
  ghost predicate BelongsTo(m: Message, c: Category) {
    var tagged := m.metadata.Metadata? && m.metadata.scaffolding;
    match c
    case SystemPrompt => m.role == "system"
    case Scaffolding => m.role != "system" && tagged
    case ToolResults => m.role == "tool" && !tagged
    case Conversation => m.role != "system" && m.role != "tool" && !tagged
    case _ => false
  }

  /**
    * A further message adds its content to the one category it belongs to and its metadata to the metadata,
    * a further tool adds its text to the tool definitions, and nothing else changes.
    */
  lemma CategoryGrows(c: Category, messages: seq<Message>, tools: seq<string>, m: Message, n: int, tool: string)
    requires Shows(m.content, n)
    ensures CharsOf(c, [], []) == 0
    ensures CharsOf(c, messages + [m], tools) ==
            CharsOf(c, messages, tools) + (if BelongsTo(m, c) then n else 0)
            + (if c == MessageMetadata && m.metadata.Metadata? then |m.metadata.serialized| else 0)
    ensures CharsOf(c, messages, tools + [tool]) ==
            CharsOf(c, messages, tools) + (if c == ToolDefinitions then |tool| else 0)
  {
    MessageAdds(c, m, n);
    SumPush(Adds(c), messages, m);
    SumPush(Length, tools, tool);
  }

  lemma MessageAdds(c: Category, m: Message, n: int)
    requires Shows(m.content, n)
    ensures Adds(c)(m) == (if BelongsTo(m, c) then n else 0)
                        + (if c == MessageMetadata && m.metadata.Metadata? then |m.metadata.serialized| else 0)
  {
  }

  // ---------------------------------------------------------------- partition

  /** The categories partition every character of the request: none lost, none counted twice. */
  lemma {:induction false} CategoriesPartition(messages: seq<Message>, tools: seq<string>)
    ensures CategorySum(messages, tools) ==
            SumOf(MessageChars, messages) + SumOf(MetadataChars, messages) + SumOf(Length, tools)
  {
    if messages != [] {
      CategoriesPartition(messages[..|messages| - 1], tools);
    }
  }

  lemma CharsNonNegative(c: Category, messages: seq<Message>, tools: seq<string>)
    ensures CharsOf(c, messages, tools) >= 0
  {
    SumNonNegative(Adds(c), messages);
    SumNonNegative(Length, tools);
  }

  /** Rounding each category down loses at most four tokens of the total. */
  lemma TokensFallShortByAtMostFour(messages: seq<Message>, tools: seq<string>)
    ensures var total := EstimateTokens(CategorySum(messages, tools), DEFAULT_RATIO);
            TokenSum(messages, tools) <= total <= TokenSum(messages, tools) + 4
  {
    forall c ensures CharsOf(c, messages, tools) >= 0
      ensures TokensOf(c, messages, tools) == CharsOf(c, messages, tools) / 4
    {
      CharsNonNegative(c, messages, tools);
      EstimateDefault(CharsOf(c, messages, tools));
    }
    EstimateDefault(CategorySum(messages, tools));
  }

  // ---------------------------------------------------------------- agreement with the trigger

  /** Content the two estimates size differently: a falsy value that is not a string. */
  predicate SizedDifferently(m: Message) {
    m.content.Other? && !m.content.truthy
  }

  predicate AllSizedAlike(messages: seq<Message>) {
    forall i :: 0 <= i < |messages| ==> !SizedDifferently(messages[i])
  }

  function Excess(m: Message): int {
    ContentChars(m) - MessageChars(m)
  }

  lemma {:induction false} ExcessTotal(messages: seq<Message>)
    ensures SumOf(ContentChars, messages) - SumOf(MessageChars, messages) == SumOf(Excess, messages) >= 0
    ensures SumOf(Excess, messages) == 0 <==> AllSizedAlike(messages)
  {
    if messages != [] {
      var n := |messages| - 1;
      ExcessTotal(messages[..n]);
    }
  }

  /**
    * The breakdown and the trigger see the same characters exactly when no message holds a falsy value
    * that is not a string; otherwise the trigger sees more.
    */
  lemma BreakdownAgreesIff(messages: seq<Message>, tools: seq<string>)
    ensures CategorySum(messages, tools) <= TotalChars(Request(messages, tools, []))
    ensures CategorySum(messages, tools) == TotalChars(Request(messages, tools, [])) <==>
            AllSizedAlike(messages)
  {
    CategoriesPartition(messages, tools);
    ExcessTotal(messages);
  }

  /** The reported total is the number the trigger compares. */
  predicate Agrees(messages: seq<Message>, tools: seq<string>, t: Thresholds) {
    EstimateTokens(CategorySum(messages, tools), DEFAULT_RATIO) == UsedTokens(t, Request(messages, tools, []))
  }

  /** The characters the breakdown shows, and those the trigger sees: more by the excess of falsy content. */
  lemma ShownAndSeen(messages: seq<Message>, tools: seq<string>)
    ensures 0 <= CategorySum(messages, tools) && 0 <= SumOf(Excess, messages)
    ensures TotalChars(Request(messages, tools, [])) == CategorySum(messages, tools) + SumOf(Excess, messages)
  {
    CategoriesPartition(messages, tools);
    ExcessTotal(messages);
    forall c: Category ensures CharsOf(c, messages, tools) >= 0 {
      CharsNonNegative(c, messages, tools);
    }
  }

  /**
    * The trigger divides by the calibrated ratio, the breakdown always by four. Whatever that ratio is,
    * the two agree exactly when the characters the trigger sees lie within the tokens shown.
    */
  lemma TotalEqualsTriggerIff(messages: seq<Message>, tools: seq<string>, t: Thresholds)
    ensures var n, seen := CategorySum(messages, tools) / 4, CategorySum(messages, tools) + SumOf(Excess, messages);
            Agrees(messages, tools, t) <==> if t.ratio > 0.0 then HoldsTokens(seen, n, t.ratio) else seen == 0
  {
    var shown := CategorySum(messages, tools);
    ShownAndSeen(messages, tools);
    EstimatesAgreeIff(shown, shown + SumOf(Excess, messages), t.ratio);
  }

  lemma EstimatesAgreeIff(shown: nat, seen: nat, ratio: real)
    requires shown <= seen
    ensures EstimateTokens(shown, DEFAULT_RATIO) == EstimateTokens(seen, ratio) <==>
            if ratio > 0.0 then HoldsTokens(seen, shown / 4, ratio) else seen == 0
  {
    EstimateDefault(shown);
    if ratio > 0.0 {
      EstimateIs(seen, shown / 4, ratio);
    }
  }

  /**
    * At the default ratio: exactly when the characters only the trigger counts complete no further group
    * of four. String content has none.
    */
  lemma DefaultRatioAgreesIff(messages: seq<Message>, tools: seq<string>, t: Thresholds)
    requires t.ratio == DEFAULT_RATIO
    ensures Agrees(messages, tools, t) <==> CategorySum(messages, tools) % 4 + SumOf(Excess, messages) < 4
    ensures AllSizedAlike(messages) ==> Agrees(messages, tools, t)
  {
    ShownAndSeen(messages, tools);
    ExcessTotal(messages);
    EstimateDefault(CategorySum(messages, tools));
    EstimateDefault(CategorySum(messages, tools) + SumOf(Excess, messages));
  }

  /** One message of `n` characters. */
  function Plain(n: nat): seq<Message> {
    [Message("user", Text(seq(n, _ => 'a')), NoMetadata)]
  }

  lemma PlainSizes(n: nat)
    ensures AllSizedAlike(Plain(n)) && CategorySum(Plain(n), []) == n && SumOf(Excess, Plain(n)) == 0
  {
    var ms := Plain(n);
    CategoriesPartition(ms, []);
    ExcessTotal(ms);
    assert ms[..0] == [];
    assert SumOf(MessageChars, ms) == SumOf(MessageChars, ms[..0]) + n;
    assert SumOf(MetadataChars, ms) == SumOf(MetadataChars, ms[..0]) + 0;
  }

  /** How many plain characters show that a ratio is not four. */
  lemma TellingLength(ratio: real) returns (n: nat)
    requires ratio != DEFAULT_RATIO
    ensures EstimateTokens(n, ratio) != n / 4
  {
    if ratio <= 0.0 {
      n := 1;
    } else if ratio > 4.0 {
      n := 4;
      EstimateIs(4, 0, ratio);
    } else {
      var gap := 4.0 - ratio;
      var k := (ratio / gap).Floor + 1;
      RealQuotient(ratio, gap);
      RealCancel(0.0, ratio / gap, gap);
      RealCancel(ratio / gap, k as real, gap);
      FourGroups(k, ratio);
      n := 4 * k;
      EstimateIs(n, k, ratio);
    }
  }

  lemma FourGroups(k: nat, ratio: real)
    requires k as real * (4.0 - ratio) >= ratio
    ensures (4 * k) as real >= (k + 1) as real * ratio
  {
    var x := k as real;
    assert x * (4.0 - ratio) == 4.0 * x - x * ratio;
    assert (x + 1.0) * ratio == x * ratio + ratio;
  }

  /**
    * The documented promise that the two never disagree holds, even on plain strings only, for no
    * calibrated ratio but the default itself.
    */
  lemma NeverDisagreesIff(t: Thresholds)
    ensures (forall messages: seq<Message>, tools: seq<string> | AllSizedAlike(messages) :: Agrees(messages, tools, t))
       <==> t.ratio == DEFAULT_RATIO
  {
    if t.ratio == DEFAULT_RATIO {
      forall messages: seq<Message>, tools: seq<string> | AllSizedAlike(messages)
        ensures Agrees(messages, tools, t)
      {
        DefaultRatioAgreesIff(messages, tools, t);
      }
    } else {
      var n := TellingLength(t.ratio);
      PlainSizes(n);
      ShownAndSeen(Plain(n), []);
      EstimateDefault(n);
      assert !Agrees(Plain(n), [], t);
    }
  }

  /** Calibrated to two characters per token, a four-character message shows one token and costs two. */
  lemma CalibratedRatioDisagrees(t: Thresholds)
    requires t.ratio == 2.0
    ensures EstimateTokens(CategorySum(Plain(4), []), DEFAULT_RATIO) == 1
    ensures UsedTokens(t, Request(Plain(4), [], [])) == 2
  {
    PlainSizes(4);
    ShownAndSeen(Plain(4), []);
    EstimateDefault(4);
    EstimateIs(4, 2, 2.0);
  }

  /** A message whose content is null: the trigger sees one token where the breakdown shows none. */
  lemma NullContentDisagrees(t: Thresholds)
    requires t.ratio == DEFAULT_RATIO
    ensures var messages := [Message("assistant", Other("None", false), NoMetadata)];
            && EstimateTokens(CategorySum(messages, []), DEFAULT_RATIO) == 0
            && UsedTokens(t, Request(messages, [], [])) == 1
  {
    var messages := [Message("assistant", Other("None", false), NoMetadata)];
    CategoriesPartition(messages, []);
    assert messages[..0] == [];
    assert SumOf(MessageChars, messages) == SumOf(MessageChars, messages[..0]) + 0;
    assert SumOf(ContentChars, messages) == SumOf(ContentChars, messages[..0]) + 4;
    assert SumOf(MetadataChars, messages) == SumOf(MetadataChars, messages[..0]) + 0;
    EstimateDefault(4);
    EstimateDefault(0);
  }
}
