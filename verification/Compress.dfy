/** Compression of recorded trajectories to a token budget: agent_driver/batch/compress.py. */
module Compress {
  import opened Prelude
  import opened Text

  const CHARS_PER_TOKEN: nat := 4
  const CUT: string := " \U{2026}[truncated]\U{2026} "
  const MARKER_OPENING: string := "[... "
  const AFTER_TURNS: string := " turn(s) / ~"
  const AFTER_TOKENS: string := " tokens "
  const MARKER_PHRASE: string := "elided for training budget"
  const MARKER_END: string := " ...]"

  /** One turn; a missing or null `content` is None. */
  datatype Message = Message(role: string, content: Option<string>)

  function TextOf(m: Message): string {
    match m.content
    case None => ""
    case Some(text) => text
  }

  /** ceil(len / 4). */
  function Tokens(text: string): nat {
    (|text| + CHARS_PER_TOKEN - 1) / CHARS_PER_TOKEN
  }

  function MessageTokens(m: Message): int {
    Tokens(TextOf(m))
  }

  function TotalTokens(ms: seq<Message>): nat {
    SumNonNegative(MessageTokens, ms);
    SumOf(MessageTokens, ms)
  }

  /** `_truncate_content`: nothing beyond `maxChars`, head and tail kept where the cut mark fits. */
  function TruncateContent(content: string, maxChars: int): (r: string)
    ensures |r| <= Max(0, maxChars)
    ensures |content| <= maxChars ==> r == content
    ensures 0 <= maxChars < |content| ==> |r| == maxChars
  {
    if maxChars <= 0 || |content| <= maxChars then
      if |content| <= maxChars then content else content[..Max(0, maxChars)]
    else if maxChars <= |CUT| then content[..maxChars]
    else
      var keep := maxChars - |CUT|;
      var head := keep / 2;
      var tail := keep - head;
      content[..head] + CUT + content[|content| - tail..]
  }

  function ElisionMarker(dropped: seq<Message>): Message {
    Message("system", Some(MARKER_OPENING + (Decimal(|dropped|) + AfterTurns(TotalTokens(dropped)))))
  }

  /** What follows the count of turns in a marker. */
  function AfterTurns(tokens: nat): string {
    AFTER_TURNS + (Decimal(tokens) + (AFTER_TOKENS + (MARKER_PHRASE + MARKER_END)))
  }

  predicate LooksLikeMarker(text: string) {
    MARKER_OPENING <= text && Contains(text, MARKER_PHRASE)
  }

  predicate IsElisionMarker(m: Message) {
    LooksLikeMarker(TextOf(m))
  }

  function MarkerTokensOf(m: Message): int {
    if IsElisionMarker(m) then MessageTokens(m) else 0
  }

  function TruncatableOf(m: Message): int {
    if IsElisionMarker(m) then 0 else 1
  }

  /** The tokens of the turns that look like markers. */
  function MarkerTokens(ms: seq<Message>): nat {
    SumNonNegative(MarkerTokensOf, ms);
    SumOf(MarkerTokensOf, ms)
  }

  function TruncatableCount(ms: seq<Message>): nat {
    SumNonNegative(TruncatableOf, ms);
    SumOf(TruncatableOf, ms)
  }

  /** The tokens each truncatable turn may keep. */
  function Share(ms: seq<Message>, maxTokens: int): nat {
    Max(0, maxTokens - MarkerTokens(ms)) / Max(1, TruncatableCount(ms))
  }

  function TruncateTurn(m: Message, share: nat): (r: Message)
    ensures r.role == m.role
  {
    if !IsElisionMarker(m) && Tokens(TextOf(m)) > share
    then m.(content := Some(TruncateContent(TextOf(m), share * CHARS_PER_TOKEN)))
    else m
  }

  function TruncateTurns(ms: seq<Message>, share: nat): (r: seq<Message>)
    ensures |r| == |ms|
    ensures forall i :: 0 <= i < |ms| ==> r[i] == TruncateTurn(ms[i], share)
  {
    seq(|ms|, i requires 0 <= i < |ms| => TruncateTurn(ms[i], share))
  }

  function TruncatedToFit(ms: seq<Message>, maxTokens: int): seq<Message> {
    TruncateTurns(ms, Share(ms, maxTokens))
  }

  // ---------------------------------------------------------------- markers

  /** Every generated marker is recognised as one. */
  lemma GeneratedMarkerRecognised(dropped: seq<Message>)
    ensures IsElisionMarker(ElisionMarker(dropped))
  {
    var turns, tokens := Decimal(|dropped|), Decimal(TotalTokens(dropped));
    ContainsHere(MARKER_PHRASE, MARKER_END);
    ContainsAfter(AFTER_TOKENS, MARKER_PHRASE + MARKER_END, MARKER_PHRASE);
    ContainsAfter(tokens, AFTER_TOKENS + (MARKER_PHRASE + MARKER_END), MARKER_PHRASE);
    ContainsAfter(AFTER_TURNS, tokens + (AFTER_TOKENS + (MARKER_PHRASE + MARKER_END)), MARKER_PHRASE);
    ContainsAfter(turns, AfterTurns(TotalTokens(dropped)), MARKER_PHRASE);
    ContainsAfter(MARKER_OPENING, turns + AfterTurns(TotalTokens(dropped)), MARKER_PHRASE);
  }

  lemma ContainsHere(needle: string, rest: string)
    ensures Contains(needle + rest, needle)
  {
    assert OccursAt(needle + rest, needle, 0);
  }

  lemma ContainsAfter(before: string, text: string, needle: string)
    requires Contains(text, needle)
    ensures Contains(before + text, needle)
  {
    assert (before + text)[|before|..] == text;
    ContainsSuffix(before + text, |before|, needle);
  }

  lemma ContainsPrefix(text: string, prefix: string, needle: string)
    requires prefix <= text && Contains(prefix, needle)
    ensures Contains(text, needle)
  {
    var i :| 0 <= i <= |prefix| && OccursAt(prefix, needle, i);
    assert text[i..i + |needle|] == prefix[i..i + |needle|];
    assert OccursAt(text, needle, i);
  }

  lemma ContainsSuffix(text: string, at: nat, needle: string)
    requires at <= |text| && Contains(text[at..], needle)
    ensures Contains(text, needle)
  {
    var i :| 0 <= i <= |text[at..]| && OccursAt(text[at..], needle, i);
    assert text[at + i..at + i + |needle|] == text[at..][i..i + |needle|];
    assert OccursAt(text, needle, at + i);
  }

  lemma OccursChar(text: string, needle: string, i: nat, p: nat)
    requires OccursAt(text, needle, i) && p < |text|
    ensures i <= p < i + |needle| ==> text[p] == needle[p - i]
  {
    assert i <= p < i + |needle| ==> text[i..i + |needle|][p - i] == text[p];
  }

  /** The phrase cannot straddle the cut mark, whose blanks and ellipses it neither starts nor ends with. */
  lemma PhraseOutsideCut(head: string, tail: string, i: nat)
    requires OccursAt(head + CUT + tail, MARKER_PHRASE, i)
    ensures i + |MARKER_PHRASE| <= |head| || |head| + |CUT| <= i
  {
    var text := head + CUT + tail;
    var h := |head|;
    PhraseChars();
    assert text[h] == CUT[0] && text[h + 1] == CUT[1] && text[h + 13] == CUT[13] && text[h + 14] == CUT[14];
    OccursChar(text, MARKER_PHRASE, i, h);
    OccursChar(text, MARKER_PHRASE, i, h + 1);
    OccursChar(text, MARKER_PHRASE, i, h + 13);
    OccursChar(text, MARKER_PHRASE, i, h + 14);
  }

  lemma PhraseChars()
    ensures |CUT| == 15 && |MARKER_PHRASE| == 26
    ensures CUT[0] == ' ' && CUT[1] == '\U{2026}' && CUT[13] == '\U{2026}' && CUT[14] == ' '
    ensures MARKER_PHRASE[0] == 'e' && MARKER_PHRASE[25] == 't'
    ensures forall k :: 0 <= k < 26 ==> MARKER_PHRASE[k] != '\U{2026}'
  {
  }

  /** Cutting the middle out of a turn never makes it look like a marker. */
  lemma CutTextIsNoMarker(content: string, maxChars: int)
    ensures LooksLikeMarker(TruncateContent(content, maxChars)) ==> LooksLikeMarker(content)
  {
    if maxChars <= |CUT| || |content| <= maxChars {
      PrefixIsNoMarker(content, TruncateContent(content, maxChars));
    } else {
      var keep := maxChars - |CUT|;
      SplitIsNoMarker(content, keep / 2, |content| - (keep - keep / 2));
    }
  }

  lemma PrefixIsNoMarker(content: string, r: string)
    requires r <= content
    ensures LooksLikeMarker(r) ==> LooksLikeMarker(content)
  {
    if LooksLikeMarker(r) {
      ContainsPrefix(content, r, MARKER_PHRASE);
    }
  }

  lemma SplitIsNoMarker(content: string, head: nat, at: nat)
    requires head <= at <= |content| && |content| - at <= head + 1
    ensures LooksLikeMarker(content[..head] + CUT + content[at..]) ==> LooksLikeMarker(content)
  {
    var r := content[..head] + CUT + content[at..];
    if LooksLikeMarker(r) {
      var i :| 0 <= i <= |r| && OccursAt(r, MARKER_PHRASE, i);
      PhraseInPart(content, head, at, i);
      OpeningInHead(content, head, at);
    }
  }

  lemma PhraseInPart(content: string, head: nat, at: nat, i: nat)
    requires head <= at <= |content|
    requires OccursAt(content[..head] + CUT + content[at..], MARKER_PHRASE, i)
    ensures Contains(content, MARKER_PHRASE)
    ensures head >= |MARKER_PHRASE| || |content| - at >= |MARKER_PHRASE|
  {
    var r := content[..head] + CUT + content[at..];
    PhraseOutsideCut(content[..head], content[at..], i);
    var n := |MARKER_PHRASE|;
    if i + n <= head {
      assert r[i..i + n] == content[..head][i..i + n];
      assert OccursAt(content[..head], MARKER_PHRASE, i);
      ContainsPrefix(content, content[..head], MARKER_PHRASE);
    } else {
      var k := i - (head + |CUT|);
      assert r[i..i + n] == content[at..][k..k + n];
      assert OccursAt(content[at..], MARKER_PHRASE, k);
      ContainsSuffix(content, at, MARKER_PHRASE);
    }
  }

  /** With room for the phrase beside the cut, an opening bracket can only come from the original text. */
  lemma OpeningInHead(content: string, head: nat, at: nat)
    requires head <= at <= |content| && |content| - at <= head + 1
    requires head >= |MARKER_PHRASE| || |content| - at >= |MARKER_PHRASE|
    ensures MARKER_OPENING <= content[..head] + CUT + content[at..] ==> MARKER_OPENING <= content
  {
    var r := content[..head] + CUT + content[at..];
    assert head >= 5;
    if MARKER_OPENING <= r {
      assert content[..5] == r[..5];
    }
  }

  // ---------------------------------------------------------------- fitting the budget

  lemma TruncateTurnKeepsKind(m: Message, share: nat)
    ensures IsElisionMarker(TruncateTurn(m, share)) <==> IsElisionMarker(m)
    ensures IsElisionMarker(m) ==> TruncateTurn(m, share) == m
    ensures MarkerTokensOf(TruncateTurn(m, share)) == MarkerTokensOf(m)
    ensures MessageTokens(TruncateTurn(m, share)) <= MarkerTokensOf(m) + share * TruncatableOf(m)
  {
    CutTextIsNoMarker(TextOf(m), share * CHARS_PER_TOKEN);
  }

  lemma TruncateTurnsTotals(ms: seq<Message>, share: nat)
    ensures MarkerTokens(TruncateTurns(ms, share)) == MarkerTokens(ms)
    ensures TotalTokens(TruncateTurns(ms, share)) <= MarkerTokens(ms) + share * TruncatableCount(ms)
    ensures MarkerTokens(ms) <= TotalTokens(ms)
  {
    var r := TruncateTurns(ms, share);
    forall i | 0 <= i < |ms|
      ensures MarkerTokensOf(r[i]) == MarkerTokensOf(ms[i])
      ensures MessageTokens(r[i]) <= MarkerTokensOf(ms[i]) + share * TruncatableOf(ms[i])
    {
      TruncateTurnKeepsKind(ms[i], share);
    }
    SumSame(MarkerTokensOf, ms, r);
    SumShared(MessageTokens, MarkerTokensOf, TruncatableOf, share, ms, r);
    SumAtMost(MarkerTokensOf, MessageTokens, ms);
  }

  lemma ShareFits(budget: nat, count: nat)
    ensures budget / Max(1, count) * count <= budget
  {
    if count > 0 {
      assert budget / count * count + budget % count == budget;
    }
  }

  /** Truncation reaches the budget exactly when the marker-like turns leave room; they are never touched. */
  lemma TruncationBound(ms: seq<Message>, maxTokens: int)
    requires maxTokens > 0
    ensures MarkerTokens(ms) <= TotalTokens(TruncatedToFit(ms, maxTokens)) <= Max(maxTokens, MarkerTokens(ms))
    ensures forall i :: 0 <= i < |ms| && IsElisionMarker(ms[i]) ==> TruncatedToFit(ms, maxTokens)[i] == ms[i]
  {
    var share := Share(ms, maxTokens);
    TruncateTurnsTotals(ms, share);
    TruncateTurnsTotals(TruncateTurns(ms, share), share);
    ShareFits(Max(0, maxTokens - MarkerTokens(ms)), TruncatableCount(ms));
  }

  /** Token counts are quarters of the length, rounded up. */
  lemma TokensRoundUp(text: string)
    ensures 4 * Tokens(text) - 4 < |text| <= 4 * Tokens(text)
  {
  }

  /** The positions of the turns that do not look like markers. */
  ghost function Truncatable(ms: seq<Message>): set<int> {
    set i | 0 <= i < |ms| && !IsElisionMarker(ms[i])
  }

  predicate IsTurn(m: Message) {
    !IsElisionMarker(m)
  }

  lemma TruncatableIsCounted(ms: seq<Message>)
    ensures TruncatableCount(ms) == |Truncatable(ms)|
  {
    CountWhere(TruncatableOf, IsTurn, ms, |ms|);
    assert ms[..|ms|] == ms && Truncatable(ms) == Where(IsTurn, ms, |ms|);
  }

  /**
    * The budget is split evenly and used up. What the marker-like turns leave is divided among the other
    * turns; a turn over its share keeps exactly `k` tokens, and a turn within it is kept whole.
    */
  lemma EvenSplit(ms: seq<Message>, maxTokens: int) returns (k: nat)
    requires Truncatable(ms) != {}
    ensures var room, n := Max(0, maxTokens - MarkerTokens(ms)), |Truncatable(ms)|;
            k * n <= room < (k + 1) * n
    ensures forall i :: i in Truncatable(ms) ==>
              var was, now := ms[i], TruncatedToFit(ms, maxTokens)[i];
              && now.role == was.role
              && (Tokens(TextOf(was)) > k ==> Tokens(TextOf(now)) == k && |TextOf(now)| == 4 * k)
              && (Tokens(TextOf(was)) <= k ==> now == was)
  {
    var room, n := Max(0, maxTokens - MarkerTokens(ms)), |Truncatable(ms)|;
    TruncatableIsCounted(ms);
    k := Share(ms, maxTokens);
    assert room == room / n * n + room % n;
    assert (k + 1) * n == k * n + n;
  }

  /** So when every such turn overflows, less than one token for each of them is left over. */
  lemma TruncationUsesBudget(ms: seq<Message>, maxTokens: int)
    requires Truncatable(ms) != {} && MarkerTokens(ms) <= maxTokens
    requires forall i :: i in Truncatable(ms) ==> Tokens(TextOf(ms[i])) * |Truncatable(ms)| > maxTokens
    ensures maxTokens - |Truncatable(ms)| < TotalTokens(TruncatedToFit(ms, maxTokens)) <= maxTokens
  {
    var k := EvenSplit(ms, maxTokens);
    var r, n := TruncatedToFit(ms, maxTokens), |Truncatable(ms)|;
    TruncatableIsCounted(ms);
    forall i | 0 <= i < |ms|
      ensures MessageTokens(r[i]) == MarkerTokensOf(ms[i]) + k * TruncatableOf(ms[i])
    {
      if i in Truncatable(ms) {
        TimesOver(Tokens(TextOf(ms[i])), k, n);
      }
    }
    SumSharedExactly(MessageTokens, MarkerTokensOf, TruncatableOf, k, ms, r);
  }

  lemma TimesOver(t: nat, k: nat, n: nat)
    requires t * n > k * n
    ensures t > k
  {
    assert t <= k ==> (k - t) * n >= 0;
  }

  /** No truncated turn keeps more than its share, and what it keeps is its own head and tail around the cut mark. */
  lemma TruncatedTurnKeepsEnds(m: Message, share: nat)
    requires !IsElisionMarker(m) && Tokens(TextOf(m)) > share
    ensures var r := TextOf(TruncateTurn(m, share));
            && Tokens(r) == share
            && (share * CHARS_PER_TOKEN <= |CUT| ==> r <= TextOf(m))
            && (share * CHARS_PER_TOKEN > |CUT| ==>
                  exists head: nat, tail: nat :: KeepsEnds(TextOf(m), r, head, tail))
  {
    var text, chars := TextOf(m), share * CHARS_PER_TOKEN;
    var r := TruncateContent(text, chars);
    if chars > |CUT| {
      var head := (chars - |CUT|) / 2;
      var tail := chars - |CUT| - head;
      assert r == text[..head] + CUT + text[|text| - tail..];
      assert r[head..head + |CUT|] == CUT;
      assert r[..head] == text[..head] && r[|r| - tail..] == text[|text| - tail..];
      assert KeepsEnds(text, r, head, tail);
    }
  }

  /** `r` is the first `head` characters of `text`, the cut mark, and the last `tail` characters of `text`. */
  ghost predicate KeepsEnds(text: string, r: string, head: nat, tail: nat) {
    && head + |CUT| + tail == |r| < |text|
    && head <= tail <= head + 1
    && r[..head] == text[..head]
    && r[head..head + |CUT|] == CUT
    && r[|r| - tail..] == text[|text| - tail..]
  }

  // ---------------------------------------------------------------- compress_trajectory

  datatype Compression = Compression(
    originalMessageCount: nat,
    keptMessageCount: nat,
    elidedMessageCount: nat,
    originalTokens: nat,
    finalTokens: nat,
    maxTokens: int,
    contentTruncated: bool)

  /** The part of a trajectory that compression reads and writes. */
  datatype Recording = Recording(messages: seq<Message>, compression: Option<Compression>)

  predicate Elides(ms: seq<Message>, keepFirst: nat, keepLast: nat) {
    keepFirst + keepLast < |ms|
  }

  function Kept(ms: seq<Message>, keepFirst: nat, keepLast: nat): (seq<Message>, seq<Message>, seq<Message>)
    requires Elides(ms, keepFirst, keepLast)
  {
    (ms[..keepFirst], ms[keepFirst..|ms| - keepLast], ms[|ms| - keepLast..])
  }

  /** The turns after elision and before any truncation. */
  function Assemble(ms: seq<Message>, keepFirst: nat, keepLast: nat): seq<Message> {
    if Elides(ms, keepFirst, keepLast) then
      var (head, dropped, tail) := Kept(ms, keepFirst, keepLast);
      head + [ElisionMarker(dropped)] + tail
    else ms
  }

  /** The turns of the compressed trajectory. */
  function CompressedMessages(ms: seq<Message>, maxTokens: int, keepFirst: nat, keepLast: nat): seq<Message> {
    if TotalTokens(ms) <= maxTokens then ms
    else
      var assembled := Assemble(ms, keepFirst, keepLast);
      if TotalTokens(assembled) > maxTokens then TruncatedToFit(assembled, maxTokens) else assembled
  }

  /** The whole result, with the record of what was done. */
  function Compressed(recording: Recording, maxTokens: int, keepFirst: nat, keepLast: nat): Recording {
    var ms := recording.messages;
    if TotalTokens(ms) <= maxTokens then recording
    else
      var r := CompressedMessages(ms, maxTokens, keepFirst, keepLast);
      Recording(r, Some(Compression(
        |ms|, |r|,
        if Elides(ms, keepFirst, keepLast) then |ms| - keepFirst - keepLast else 0,
        TotalTokens(ms), TotalTokens(r), maxTokens,
        r != Assemble(ms, keepFirst, keepLast))))
  }

  predicate Overflows(m: Message, share: nat) {
    !IsElisionMarker(m) && Tokens(TextOf(m)) > share
  }

  lemma OverflowMeansChange(m: Message, share: nat)
    ensures TruncateTurn(m, share) != m <==> Overflows(m, share)
  {
    assert Overflows(m, share) ==> |TextOf(TruncateTurn(m, share))| < |TextOf(m)|;
  }

  /** Some of the first `k` turns overflow their share. */
  predicate SomeOverflow(ms: seq<Message>, k: nat, share: nat)
    requires k <= |ms|
  {
    k > 0 && (SomeOverflow(ms, k - 1, share) || Overflows(ms[k - 1], share))
  }

  lemma {:induction false} SomeOverflowIff(ms: seq<Message>, k: nat, share: nat)
    requires k <= |ms|
    ensures SomeOverflow(ms, k, share) <==> exists i :: 0 <= i < k && Overflows(ms[i], share)
  {
    if k > 0 {
      SomeOverflowIff(ms, k - 1, share);
    }
  }

  lemma ChangedIff(ms: seq<Message>, share: nat)
    ensures SomeOverflow(ms, |ms|, share) <==> TruncateTurns(ms, share) != ms
  {
    var after := TruncateTurns(ms, share);
    SomeOverflowIff(ms, |ms|, share);
    forall i | 0 <= i < |ms| ensures after[i] != ms[i] <==> Overflows(ms[i], share) {
      OverflowMeansChange(ms[i], share);
    }
    if SomeOverflow(ms, |ms|, share) {
      var i :| 0 <= i < |ms| && Overflows(ms[i], share);
      assert after[i] != ms[i];
    } else {
      assert after == ms;
    }
  }

  /** The first `k` turns truncated, the rest as they are. */
  function TruncateFirst(ms: seq<Message>, k: nat, share: nat): (r: seq<Message>)
    requires k <= |ms|
    ensures |r| == |ms|
  {
    seq(|ms|, i requires 0 <= i < |ms| => if i < k then TruncateTurn(ms[i], share) else ms[i])
  }

  /** `_truncate_messages_to_fit`, rewriting the turns in place. */
  method TruncateMessagesToFit(messages: array<Message>, maxTokens: int) returns (changed: bool)
    modifies messages
    ensures messages[..] == TruncatedToFit(old(messages[..]), maxTokens)
    ensures changed <==> messages[..] != old(messages[..])
  {
    var share := Share(messages[..], maxTokens);
    changed := TruncateEach(messages, share);
  }

  /** One turn of the loop. */
  method TruncateAt(messages: array<Message>, i: nat, share: nat) returns (cut: bool)
    requires i < messages.Length
    modifies messages
    ensures messages[..] == old(messages[..])[i := TruncateTurn(old(messages[i]), share)]
    ensures cut == Overflows(old(messages[i]), share)
  {
    var m := messages[i];
    cut := Overflows(m, share);
    if cut {
      messages[i] := TruncateTurn(m, share);
    }
  }

  method TruncateEach(messages: array<Message>, share: nat) returns (changed: bool)
    modifies messages
    ensures messages[..] == TruncateTurns(old(messages[..]), share)
    ensures changed <==> messages[..] != old(messages[..])
  {
    ghost var before := messages[..];
    changed := false;
    for i := 0 to messages.Length
      invariant messages[..] == TruncateFirst(before, i, share)
      invariant changed <==> SomeOverflow(before, i, share)
    {
      var cut := TruncateAt(messages, i, share);
      changed := changed || cut;
    }
    assert TruncateFirst(before, messages.Length, share) == TruncateTurns(before, share);
    ChangedIff(before, share);
  }

  /** The copy of the list that is truncated in place. */
  method TruncateCopy(list: seq<Message>, maxTokens: int) returns (r: seq<Message>, changed: bool)
    ensures r == TruncatedToFit(list, maxTokens)
    ensures changed <==> r != list
  {
    var a := new Message[|list|](i requires 0 <= i < |list| => list[i]);
    assert a[..] == list;
    changed := TruncateMessagesToFit(a, maxTokens);
    r := a[..];
  }

  /** Replaces the middle by one marker turn, when there is a middle. */
  method Elide(ms: seq<Message>, keepFirst: nat, keepLast: nat) returns (result: seq<Message>, elided: nat)
    ensures result == Assemble(ms, keepFirst, keepLast)
    ensures elided == if Elides(ms, keepFirst, keepLast) then |ms| - keepFirst - keepLast else 0
  {
    result, elided := ms, 0;
    if keepFirst + keepLast < |ms| {
      var dropped := ms[keepFirst..|ms| - keepLast];
      elided := |dropped|;
      result := ms[..keepFirst] + [ElisionMarker(dropped)] + ms[|ms| - keepLast..];
    }
  }

  method CompressTrajectory(recording: Recording, maxTokens: int, keepFirst: int, keepLast: int)
    returns (r: Result<Recording>)
    ensures r.Failure? <==> maxTokens <= 0 || keepFirst < 0 || keepLast < 0
    ensures r.Success? ==> r.value == Compressed(recording, maxTokens, keepFirst, keepLast)
  {
    if maxTokens <= 0 {
      return Failure("max_tokens must be > 0");
    }
    if keepFirst < 0 || keepLast < 0 {
      return Failure("keep_first and keep_last must be >= 0");
    }
    var ms := recording.messages;
    var originalTokens := TotalTokens(ms);
    if originalTokens <= maxTokens {
      return Success(recording);
    }
    var result, elided := Elide(ms, keepFirst, keepLast);
    var truncated := false;
    if TotalTokens(result) > maxTokens {
      result, truncated := TruncateCopy(result, maxTokens);
    }
    assert result == CompressedMessages(ms, maxTokens, keepFirst, keepLast);
    var compression := Compression(
      |ms|, |result|, elided, originalTokens, TotalTokens(result), maxTokens, truncated);
    r := Success(Recording(result, Some(compression)));
  }

  /** What the record says: counts and tokens before and after, and whether any text was cut. */
  lemma CompressedRecord(recording: Recording, maxTokens: int, keepFirst: nat, keepLast: nat)
    ensures var ms, r := recording.messages, Compressed(recording, maxTokens, keepFirst, keepLast);
            if TotalTokens(ms) <= maxTokens then r == recording
            else
              && r.messages == CompressedMessages(ms, maxTokens, keepFirst, keepLast)
              && r.compression.Some?
              && var c := r.compression.value;
                 && c.originalMessageCount == |ms| && c.keptMessageCount == |r.messages|
                 && c.elidedMessageCount == Max(0, |ms| - keepFirst - keepLast)
                 && c.originalTokens == TotalTokens(ms) && c.finalTokens == TotalTokens(r.messages)
                 && c.maxTokens == maxTokens
                 && (c.contentTruncated <==> r.messages != Assemble(ms, keepFirst, keepLast))
  {
  }

  /**
    * Nothing is done that need not be: turns that fit stay, turns that fit once the middle is elided are not
    * cut, and only otherwise are those that remain truncated.
    */
  lemma CompressedStages(ms: seq<Message>, maxTokens: int, keepFirst: nat, keepLast: nat)
    ensures var r, assembled := CompressedMessages(ms, maxTokens, keepFirst, keepLast), Assemble(ms, keepFirst, keepLast);
            && (TotalTokens(ms) <= maxTokens ==> r == ms)
            && (TotalTokens(ms) > maxTokens && TotalTokens(assembled) <= maxTokens ==> r == assembled)
            && (TotalTokens(ms) > maxTokens && TotalTokens(assembled) > maxTokens ==>
                 r == TruncatedToFit(assembled, maxTokens) && |r| == |assembled|)
  {
  }

  /** The assembled list turn by turn: the first and last turns as they were, one marker for those between. */
  lemma AssembledTurns(ms: seq<Message>, keepFirst: nat, keepLast: nat, i: nat)
    ensures var r := Assemble(ms, keepFirst, keepLast);
            if keepFirst + keepLast >= |ms| then r == ms
            else
              && |r| == keepFirst + 1 + keepLast
              && (i < keepFirst ==> r[i] == ms[i])
              && (i < keepLast ==> r[keepFirst + 1 + i] == ms[|ms| - keepLast + i])
              && r[keepFirst] == ElisionMarker(ms[keepFirst..|ms| - keepLast])
  {
  }

  /** A marker is a system turn that names how many turns and tokens it stands for. */
  lemma MarkerText(dropped: seq<Message>)
    ensures ElisionMarker(dropped).role == "system"
    ensures TextOf(ElisionMarker(dropped)) ==
            "[... " + (Decimal(|dropped|) + (" turn(s) / ~" + (Decimal(SumOf(MessageTokens, dropped))
            + (" tokens " + ("elided for training budget" + " ...]")))))
  {
  }

  /** What looks like a marker: the opening bracket first and the phrase anywhere. */
  lemma MarkerLooks(m: Message)
    ensures IsElisionMarker(m) <==>
            && "[... " <= TextOf(m)
            && exists before: string, after: string :: TextOf(m) == before + ("elided for training budget" + after)
  {
    var text := TextOf(m);
    if i :| 0 <= i <= |text| && OccursAt(text, MARKER_PHRASE, i) {
      assert text == text[..i] + (MARKER_PHRASE + text[i + |MARKER_PHRASE|..]);
    }
    if before: string, after: string :| text == before + (MARKER_PHRASE + after) {
      ContainsHere(MARKER_PHRASE, after);
      ContainsAfter(before, MARKER_PHRASE + after, MARKER_PHRASE);
    }
  }

  /** Elision loses no turn silently: the kept head, the dropped middle and the kept tail are the original. */
  lemma ElisionPartitions(ms: seq<Message>, keepFirst: nat, keepLast: nat)
    requires Elides(ms, keepFirst, keepLast)
    ensures var (head, dropped, tail) := Kept(ms, keepFirst, keepLast);
            && head + dropped + tail == ms
            && |head| == keepFirst && |tail| == keepLast && |dropped| >= 1
            && TotalTokens(head) + TotalTokens(dropped) + TotalTokens(tail) == TotalTokens(ms)
            && MarkerTokens(Assemble(ms, keepFirst, keepLast)) ==
               MarkerTokens(head) + MessageTokens(ElisionMarker(dropped)) + MarkerTokens(tail)
  {
    var (head, dropped, tail) := Kept(ms, keepFirst, keepLast);
    assert head + dropped + tail == ms;
    SumConcat(MessageTokens, head, dropped);
    SumConcat(MessageTokens, head + dropped, tail);
    var mark := ElisionMarker(dropped);
    GeneratedMarkerRecognised(dropped);
    SumConcat(MarkerTokensOf, head, [mark]);
    SumConcat(MarkerTokensOf, head + [mark], tail);
    assert SumOf(MarkerTokensOf, [mark]) == SumOf(MarkerTokensOf, [mark][..0]) + MarkerTokensOf(mark);
  }

  /** The room condition: the input fits already, or the marker-like turns of the assembled list fit. */
  predicate HasRoom(ms: seq<Message>, maxTokens: int, keepFirst: nat, keepLast: nat) {
    TotalTokens(ms) <= maxTokens || MarkerTokens(Assemble(ms, keepFirst, keepLast)) <= maxTokens
  }

  /**
    * The result fits `max_tokens` exactly when the room condition holds; it never exceeds the larger of
    * the budget and the marker-like turns.
    */
  lemma CompressedFitsIff(ms: seq<Message>, maxTokens: int, keepFirst: nat, keepLast: nat)
    requires maxTokens > 0
    ensures var r := CompressedMessages(ms, maxTokens, keepFirst, keepLast);
            && (TotalTokens(r) <= maxTokens <==> HasRoom(ms, maxTokens, keepFirst, keepLast))
            && TotalTokens(r) <= Max(maxTokens, MarkerTokens(Assemble(ms, keepFirst, keepLast)))
  {
    var assembled := Assemble(ms, keepFirst, keepLast);
    TruncationBound(assembled, maxTokens);
    TruncateTurnsTotals(assembled, 0);
  }

  // ---------------------------------------------------------------- compressing again

  /** A list whose truncatable turns are all empty. */
  ghost predicate Emptied(ms: seq<Message>) {
    forall i :: 0 <= i < |ms| ==> IsElisionMarker(ms[i]) || TextOf(ms[i]) == ""
  }

  lemma NoRoomEmpties(ms: seq<Message>, maxTokens: int)
    requires MarkerTokens(ms) >= maxTokens
    ensures Emptied(TruncatedToFit(ms, maxTokens))
  {
    assert Share(ms, maxTokens) == 0;
    forall i | 0 <= i < |ms| ensures IsElisionMarker(ms[i]) || TextOf(TruncatedToFit(ms, maxTokens)[i]) == "" {
      TruncateTurnKeepsKind(ms[i], 0);
    }
    forall i | 0 <= i < |ms| && IsElisionMarker(ms[i]) ensures IsElisionMarker(TruncatedToFit(ms, maxTokens)[i]) {
      TruncateTurnKeepsKind(ms[i], 0);
    }
  }

  lemma EmptiedIsFixed(ms: seq<Message>, maxTokens: int)
    requires Emptied(ms)
    ensures TruncatedToFit(ms, maxTokens) == ms
  {
  }

  lemma OneTotal(m: Message)
    ensures TotalTokens([m]) == MessageTokens(m)
  {
    SumPush(MessageTokens, [], m);
    assert [] + [m] == [m];
  }

  lemma MarkerLength(dropped: seq<Message>)
    ensures |TextOf(ElisionMarker(dropped))| == 56 + |Decimal(|dropped|)| + |Decimal(TotalTokens(dropped))|
  {
  }

  lemma SameRest(opening: string, x: string, y: string)
    requires opening + x == opening + y
    ensures x == y
  {
    assert (opening + x)[|opening|..] == x && (opening + y)[|opening|..] == y;
  }

  /** A marker tells how many turns and tokens it stands for. */
  lemma MarkerInjective(a: seq<Message>, b: seq<Message>)
    requires ElisionMarker(a) == ElisionMarker(b)
    ensures |a| == |b| && TotalTokens(a) == TotalTokens(b)
  {
    var s, t := TotalTokens(a), TotalTokens(b);
    var rest := AFTER_TOKENS + (MARKER_PHRASE + MARKER_END);
    SameRest(MARKER_OPENING, Decimal(|a|) + AfterTurns(s), Decimal(|b|) + AfterTurns(t));
    DecimalThen(|a|, |b|, AfterTurns(s), AfterTurns(t));
    SameRest(AFTER_TURNS, Decimal(s) + rest, Decimal(t) + rest);
    DecimalThen(s, t, rest, rest);
  }

  /** The marker of a marker is itself exactly when it stands for one turn of fifteen tokens. */
  lemma MarkerOfItselfIff(dropped: seq<Message>)
    ensures var mark := ElisionMarker(dropped);
            ElisionMarker([mark]) == mark <==> |dropped| == 1 && TotalTokens(dropped) == 15
  {
    var mark, t := ElisionMarker(dropped), TotalTokens(dropped);
    OneTotal(mark);
    MarkerLength(dropped);
    assert Decimal(1) == "1" && Decimal(15) == "15";
    if ElisionMarker([mark]) == mark {
      MarkerInjective([mark], dropped);
      DecimalShort(t);
      assert t == (60 + |Decimal(t)|) / 4;
    }
  }

  /**
    * Compressing a compressed trajectory changes no turn exactly when the first result fits, or nothing
    * was elided, or what was elided is one turn of fifteen tokens, as long as its own marker.
    */
  lemma CompressedStableIff(ms: seq<Message>, maxTokens: int, keepFirst: nat, keepLast: nat)
    requires maxTokens > 0
    ensures var r := CompressedMessages(ms, maxTokens, keepFirst, keepLast);
            CompressedMessages(r, maxTokens, keepFirst, keepLast) == r <==>
            || HasRoom(ms, maxTokens, keepFirst, keepLast)
            || !Elides(ms, keepFirst, keepLast)
            || (var dropped := Kept(ms, keepFirst, keepLast).1; |dropped| == 1 && TotalTokens(dropped) == 15)
  {
    CompressedFitsIff(ms, maxTokens, keepFirst, keepLast);
    if !HasRoom(ms, maxTokens, keepFirst, keepLast) {
      var assembled := Assemble(ms, keepFirst, keepLast);
      TruncateTurnsTotals(assembled, 0);
      var r := TruncatedToFit(assembled, maxTokens);
      NoRoomEmpties(assembled, maxTokens);
      if Elides(ms, keepFirst, keepLast) {
        StableWithElision(ms, maxTokens, keepFirst, keepLast, r);
        MarkerOfItselfIff(Kept(ms, keepFirst, keepLast).1);
      } else {
        EmptiedIsFixed(r, maxTokens);
      }
    }
  }

  /** Compressing a list that already has its marker elides the marker again. */
  lemma AssembleAgain(r: seq<Message>, keepFirst: nat, keepLast: nat)
    requires |r| == keepFirst + 1 + keepLast
    ensures Assemble(r, keepFirst, keepLast) == r[keepFirst := ElisionMarker([r[keepFirst]])]
  {
    assert r[keepFirst..|r| - keepLast] == [r[keepFirst]];
  }

  lemma EmptiedUpdate(r: seq<Message>, k: nat, mark: Message)
    requires k < |r| && Emptied(r) && IsElisionMarker(mark)
    ensures Emptied(r[k := mark])
  {
  }

  lemma StableWithElision(ms: seq<Message>, maxTokens: int, keepFirst: nat, keepLast: nat, r: seq<Message>)
    requires Elides(ms, keepFirst, keepLast)
    requires r == TruncatedToFit(Assemble(ms, keepFirst, keepLast), maxTokens)
    requires Emptied(r) && TotalTokens(r) > maxTokens
    ensures var mark := ElisionMarker(Kept(ms, keepFirst, keepLast).1);
            CompressedMessages(r, maxTokens, keepFirst, keepLast) == r <==> ElisionMarker([mark]) == mark
  {
    var assembled := Assemble(ms, keepFirst, keepLast);
    var mark := ElisionMarker(Kept(ms, keepFirst, keepLast).1);
    GeneratedMarkerRecognised(Kept(ms, keepFirst, keepLast).1);
    assert assembled[keepFirst] == mark;
    TruncateTurnKeepsKind(mark, Share(assembled, maxTokens));
    assert r[keepFirst] == mark;
    AssembleAgain(r, keepFirst, keepLast);
    GeneratedMarkerRecognised([mark]);
    EmptiedUpdate(r, keepFirst, ElisionMarker([mark]));
    EmptiedIsFixed(r[keepFirst := ElisionMarker([mark])], maxTokens);
    assert r[keepFirst := ElisionMarker([mark])][keepFirst] == ElisionMarker([mark]);
  }

  /** Three turns of one token each. */
  const SHORT: seq<Message> := [Message("user", Some("a")), Message("assistant", Some("b")), Message("user", Some("c"))]

  lemma ShortMarker()
    ensures Kept(SHORT, 1, 1).1 == [SHORT[1]] && TotalTokens([SHORT[1]]) == 1
    ensures MessageTokens(ElisionMarker([SHORT[1]])) == 15
    ensures Assemble(SHORT, 1, 1) == [SHORT[0], ElisionMarker([SHORT[1]]), SHORT[2]]
  {
    assert SHORT[1..2] == [SHORT[1]];
    OneTotal(SHORT[1]);
    MarkerLength([SHORT[1]]);
    assert Decimal(1) == "1";
  }

  /**
    * The documented promise fails for short trajectories under a tight budget: three turns of one token
    * each become a 15-token marker, above both the budget and the original.
    */
  lemma MarkerCanOverflow()
    ensures TotalTokens(SHORT) == 3 && TotalTokens(CompressedMessages(SHORT, 2, 1, 1)) == 15
    ensures var r := CompressedMessages(SHORT, 2, 1, 1); |r| == 3 && r[1] == ElisionMarker([SHORT[1]])
  {
    TotalsOfThree(SHORT[0], SHORT[1], SHORT[2]);
    ShortMarker();
    var mark, assembled := ElisionMarker([SHORT[1]]), Assemble(SHORT, 1, 1);
    GeneratedMarkerRecognised([SHORT[1]]);
    TotalsOfThree(SHORT[0], mark, SHORT[2]);
    NoRoomEmpties(assembled, 2);
    var r := TruncatedToFit(assembled, 2);
    assert r == [r[0], mark, r[2]];
    assert TextOf(r[0]) == "" && TextOf(r[2]) == "" by {
      assert !IsElisionMarker(SHORT[0]) && !IsElisionMarker(SHORT[2]);
      TruncateTurnKeepsKind(SHORT[0], 0);
      TruncateTurnKeepsKind(SHORT[2], 0);
    }
    TotalsOfThree(r[0], mark, r[2]);
  }

  /** Compressing that trajectory a second time replaces its marker by the marker of the marker. */
  lemma MarkerOverflowIsUnstable()
    ensures var once := CompressedMessages(SHORT, 2, 1, 1);
            var twice := CompressedMessages(once, 2, 1, 1);
            && |once| == 3 && once[1] == ElisionMarker([SHORT[1]])
            && |twice| == 3 && twice[1] == ElisionMarker([once[1]]) && twice[1] != once[1]
  {
    MarkerCanOverflow();
    ShortMarker();
    var once := CompressedMessages(SHORT, 2, 1, 1);
    var mark := once[1];
    AssembleAgain(once, 1, 1);
    var again := Assemble(once, 1, 1);
    assert again[1] == ElisionMarker([mark]);
    GeneratedMarkerRecognised([mark]);
    TruncateTurnKeepsKind(ElisionMarker([mark]), Share(again, 2));
    MarkerOfItselfIff([SHORT[1]]);
  }

  lemma TotalsOfThree(a: Message, b: Message, c: Message)
    ensures TotalTokens([a, b, c]) == MessageTokens(a) + MessageTokens(b) + MessageTokens(c)
    ensures MarkerTokens([a, b, c]) == MarkerTokensOf(a) + MarkerTokensOf(b) + MarkerTokensOf(c)
  {
    var s := [a, b, c];
    assert s[..3] == s;
    for k := 0 to 3
      invariant SumOf(MessageTokens, s[..k]) == (if k > 0 then MessageTokens(a) else 0) +
                  (if k > 1 then MessageTokens(b) else 0) + (if k > 2 then MessageTokens(c) else 0)
      invariant SumOf(MarkerTokensOf, s[..k]) == (if k > 0 then MarkerTokensOf(a) else 0) +
                  (if k > 1 then MarkerTokensOf(b) else 0) + (if k > 2 then MarkerTokensOf(c) else 0)
    {
      SumExtend(MessageTokens, s, k);
      SumExtend(MarkerTokensOf, s, k);
    }
  }
}
