/** Event cursors and SSE frames: agent_driver/adapters/sse.py and contracts/harness_adapter.py. */
module Sse {
  import opened Prelude
  import opened Text

  // ---------------------------------------------------------------- cursors

  /** The stable `run:seq` cursor of an event. */
  function Cursor(runId: string, seqNo: int): string {
    runId + ":" + SignedDecimal(seqNo)
  }

  /** Digits with single underscores between them, as `int()` reads them. */
  function ParseDigits(s: string, digits: DigitTable): Option<nat> {
    if s == "" then None
    else
      var n := |s| - 1;
      if s[n] !in digits then None
      else if n == 0 then Some(digits[s[n]])
      else
        match ParseDigits(if s[n - 1] == '_' then s[..n - 1] else s[..n], digits)
        case None => None
        case Some(high) => Some(10 * high + digits[s[n]])
  }

  function Signed(n: Option<nat>, negative: bool): Option<int> {
    if n.None? then None
    else
      var k: int := n.value;
      Some(if negative then -k else k)
  }

  function HasSign(s: string): bool {
    s != "" && (s[0] == '-' || s[0] == '+')
  }

  /** `int(raw)` of stripped text; None where it raises. */
  function ParseInt(s: string, digits: DigitTable): Option<int> {
    if HasSign(s) then Signed(ParseDigits(s[1..], digits), s[0] == '-') else Signed(ParseDigits(s, digits), false)
  }

  function ParseAfterSeq(lastEventId: Option<string>, runId: string, digits: DigitTable): Option<int> {
    if lastEventId.None? || lastEventId.value == "" then None
    else
      var id := lastEventId.value;
      var prefix := runId + ":";
      if !(prefix <= id) then None
      else
        var raw := Strip(id[|prefix|..]);
        if raw == "" then None else ParseInt(raw, digits)
  }

  /** A numeral: digits, with single underscores only between them. */
  ghost predicate IsNumeral(s: string, digits: DigitTable) {
    s != "" && forall i :: 0 <= i < |s| ==> IsNumeralChar(s, i, digits)
  }

  ghost predicate IsNumeralChar(s: string, i: int, digits: DigitTable)
    requires 0 <= i < |s|
  {
    s[i] in digits || (s[i] == '_' && 0 < i < |s| - 1 && s[i - 1] in digits && s[i + 1] in digits)
  }

  /** Exactly the numerals are read. */
  lemma {:induction false} NumeralsAreRead(s: string, digits: DigitTable)
    ensures ParseDigits(s, digits).Some? <==> IsNumeral(s, digits)
    decreases |s|
  {
    if s != "" {
      var n := |s| - 1;
      assert IsNumeralChar(s, n, digits) <==> s[n] in digits;
      if n > 0 && s[n] in digits {
        NumeralPrefix(s, digits);
        NumeralsAreRead(if s[n - 1] == '_' then s[..n - 1] else s[..n], digits);
      }
    }
  }

  lemma NumeralPrefix(s: string, digits: DigitTable)
    requires |s| > 1 && s[|s| - 1] in digits
    ensures var n := |s| - 1;
            IsNumeral(s, digits) <==> IsNumeral(if s[n - 1] == '_' then s[..n - 1] else s[..n], digits)
  {
    var n := |s| - 1;
    var t := if s[n - 1] == '_' then s[..n - 1] else s[..n];
    if IsNumeral(s, digits) {
      assert IsNumeralChar(s, n - 1, digits);
      forall i | 0 <= i < |t| ensures IsNumeralChar(t, i, digits) {
        assert IsNumeralChar(s, i, digits);
      }
    }
    if IsNumeral(t, digits) {
      assert IsNumeralChar(t, |t| - 1, digits);
      forall i | 0 <= i < |s| ensures IsNumeralChar(s, i, digits) {
        assert i < |t| ==> IsNumeralChar(t, i, digits);
      }
    }
  }

  /** A digit stands for itself; one more digit, after an underscore or not, adds its value to ten times the rest. */
  lemma NumeralValue(s: string, n: nat, c: char, digits: DigitTable)
    requires c in digits
    ensures ParseDigits([c], digits) == Some(digits[c])
    ensures ParseDigits(s, digits) == Some(n) ==> ParseDigits(s + [c], digits) == Some(10 * n + digits[c])
    ensures ParseDigits(s, digits) == Some(n) ==> ParseDigits(s + "_" + [c], digits) == Some(10 * n + digits[c])
  {
    if ParseDigits(s, digits) == Some(n) {
      assert (s + [c])[..|s|] == s;
      assert (s + "_" + [c])[..|s|] == s;
    }
  }

  /** What is read of a last event id: the run's prefix, then a number with an optional sign in white space. */
  ghost predicate IsCursorOf(id: string, runId: string, n: int, digits: DigitTable) {
    exists pad, core, pad' :: IsPaddedCursor(id, runId, pad, core, pad') && IsInteger(core, n, digits)
  }

  ghost predicate IsPaddedCursor(id: string, runId: string, pad: string, core: string, pad': string) {
    id == (runId + ":") + (pad + (core + pad')) && AllSpace(pad) && AllSpace(pad') && core != "" && IsTrimmed(core)
  }

  /** An integer: a numeral, alone or after a sign. */
  ghost predicate IsInteger(core: string, n: int, digits: DigitTable) {
    || (n >= 0 && !("+" <= core) && !("-" <= core) && ParseDigits(core, digits) == Some(n))
    || (n >= 0 && "+" <= core && ParseDigits(core[1..], digits) == Some(n))
    || (n <= 0 && "-" <= core && ParseDigits(core[1..], digits) == Some(-n))
  }

  lemma IntegersAreRead(core: string, n: int, digits: DigitTable)
    ensures ParseInt(core, digits) == Some(n) <==> IsInteger(core, n, digits)
  {
  }

  /** Exactly such ids are accepted, with that number; an absent or empty one never is. */
  lemma CursorAcceptedIff(id: string, runId: string, n: int, digits: DigitTable)
    ensures ParseAfterSeq(Some(id), runId, digits) == Some(n) <==> IsCursorOf(id, runId, n, digits)
    ensures ParseAfterSeq(None, runId, digits) == ParseAfterSeq(Some(""), runId, digits) == None
  {
    var prefix := runId + ":";
    if ParseAfterSeq(Some(id), runId, digits) == Some(n) {
      AcceptedIsCursor(id, runId, n, digits);
    }
    if pad, core, pad' :| IsPaddedCursor(id, runId, pad, core, pad') && IsInteger(core, n, digits) {
      assert id[|prefix|..] == pad + (core + pad');
      StripPadded(pad, core, pad');
      IntegersAreRead(core, n, digits);
    }
  }

  lemma AcceptedIsCursor(id: string, runId: string, n: int, digits: DigitTable)
    requires ParseAfterSeq(Some(id), runId, digits) == Some(n)
    ensures IsCursorOf(id, runId, n, digits)
  {
    var rest := id[|runId + ":"|..];
    var pad, pad' := StripSplits(rest);
    assert id == (runId + ":") + rest;
    IntegersAreRead(Strip(rest), n, digits);
    assert IsPaddedCursor(id, runId, pad, Strip(rest), pad');
  }

  lemma {:induction false} ParsePrinted(n: nat, digits: DigitTable)
    ensures ParseDigits(Decimal(n), digits) == Some(n)
  {
    if n >= 10 {
      ParsePrinted(n / 10, digits);
      var s := Decimal(n);
      assert s == Decimal(n / 10) + [Digit(n % 10)];
      assert s[..|s| - 1] == Decimal(n / 10);
    }
  }

  lemma ParseMinus(text: string, n: int, digits: DigitTable)
    requires n >= 0 && ParseDigits(text, digits) == Some(n)
    ensures ParseInt("-" + text, digits) == Some(-n)
  {
    assert ("-" + text)[1..] == text;
  }

  lemma ParsePlain(text: string, n: nat, digits: DigitTable)
    requires ParseDigits(text, digits) == Some(n) && !HasSign(text)
    ensures ParseInt(text, digits) == Some(n)
  {
  }

  lemma ParseSigned(n: int, digits: DigitTable)
    ensures ParseInt(SignedDecimal(n), digits) == Some(n)
  {
    if n < 0 {
      ParsePrinted(-n, digits);
      ParseMinus(Decimal(-n), -n, digits);
    } else {
      ParsePrinted(n, digits);
      ParsePlain(Decimal(n), n, digits);
    }
  }

  /** The characters of a printed number: neither blanks nor colons. */
  lemma PrintedChars(n: int)
    ensures SignedDecimal(n) != "" && Strip(SignedDecimal(n)) == SignedDecimal(n)
    ensures ':' !in SignedDecimal(n)
  {
    var s := SignedDecimal(n);
    assert forall i :: 0 <= i < |s| ==> s[i] == '-' || '0' <= s[i] <= '9';
  }

  /** Text that reads as digits holds no colon. */
  lemma {:induction false} NumbersHaveNoColon(s: string, digits: DigitTable)
    ensures ParseDigits(s, digits).Some? ==> ':' !in s
  {
    if ParseDigits(s, digits).Some? && |s| > 1 {
      var n := |s| - 1;
      if s[n - 1] == '_' {
        NumbersHaveNoColon(s[..n - 1], digits);
        assert s == s[..n - 1] + ['_', s[n]];
      } else {
        NumbersHaveNoColon(s[..n], digits);
        assert s == s[..n] + [s[n]];
      }
    }
  }

  lemma IntsHaveNoColon(s: string, digits: DigitTable)
    ensures ParseInt(s, digits).Some? ==> ':' !in s
  {
    if s != "" {
      NumbersHaveNoColon(s[1..], digits);
      assert s == [s[0]] + s[1..];
    }
    NumbersHaveNoColon(s, digits);
  }

  lemma {:induction false} LeftStripKeeps(s: string, c: char)
    requires c in s && !IsSpace(c)
    ensures c in LeftStrip(s)
  {
    if IsSpace(s[0]) {
      assert s == [s[0]] + s[1..];
      LeftStripKeeps(s[1..], c);
    }
  }

  lemma {:induction false} RightStripKeeps(s: string, c: char)
    requires c in s && !IsSpace(c)
    ensures c in RightStrip(s)
  {
    var n := |s| - 1;
    if IsSpace(s[n]) {
      assert s == s[..n] + [s[n]];
      RightStripKeeps(s[..n], c);
    }
  }

  /** The run that minted a cursor reads its sequence number back. */
  lemma CursorRoundTrip(runId: string, seqNo: int, digits: DigitTable)
    ensures ParseAfterSeq(Some(Cursor(runId, seqNo)), runId, digits) == Some(seqNo)
  {
    var id := Cursor(runId, seqNo);
    assert id[|runId| + 1..] == SignedDecimal(seqNo);
    PrintedChars(seqNo);
    ParseSigned(seqNo, digits);
  }

  /** After its own separator a cursor holds no further colon. */
  lemma NoColonInNumber(runId: string, seqNo: int)
    ensures var id := Cursor(runId, seqNo); forall k :: |runId| < k < |id| ==> id[k] != ':'
  {
    PrintedChars(seqNo);
    var id, number := Cursor(runId, seqNo), SignedDecimal(seqNo);
    forall k | |runId| < k < |id| ensures id[k] != ':' {
      assert id[k] == number[k - |runId| - 1];
      assert id[k] in number;
    }
  }

  lemma PrefixEndsInColon(other: string, id: string)
    requires other + ":" <= id
    ensures |other| < |id| && id[..|other|] == other && id[|other|] == ':'
  {
  }

  /** Past another run's prefix, a cursor still holds its own separator. */
  lemma ForeignRestHasColon(runId: string, seqNo: int, other: string)
    requires other != runId && other + ":" <= Cursor(runId, seqNo)
    ensures ':' in Cursor(runId, seqNo)[|other| + 1..]
  {
    var id := Cursor(runId, seqNo);
    NoColonInNumber(runId, seqNo);
    PrefixEndsInColon(other, id);
    assert id[..|runId|] == runId && id[|runId|] == ':';
    assert |other| < |runId|;
    assert id[|other| + 1..][|runId| - |other| - 1] == ':';
  }

  lemma ColonBlocks(raw: string, digits: DigitTable)
    requires ':' in raw
    ensures ParseInt(Strip(raw), digits).None?
  {
    LeftStripKeeps(raw, ':');
    RightStripKeeps(LeftStrip(raw), ':');
    IntsHaveNoColon(Strip(raw), digits);
  }

  lemma BlockedByColon(id: string, runId: string, digits: DigitTable)
    requires runId + ":" <= id ==> ':' in id[|runId| + 1..]
    ensures ParseAfterSeq(Some(id), runId, digits) == None
  {
    if runId + ":" <= id {
      ColonBlocks(id[|runId| + 1..], digits);
    }
  }

  /** Any other run rejects it, colons in run ids included. */
  lemma CursorRejectedElsewhere(runId: string, seqNo: int, other: string, digits: DigitTable)
    requires other != runId
    ensures ParseAfterSeq(Some(Cursor(runId, seqNo)), other, digits) == None
  {
    if other + ":" <= Cursor(runId, seqNo) {
      ForeignRestHasColon(runId, seqNo, other);
    }
    BlockedByColon(Cursor(runId, seqNo), other, digits);
  }

  /** So the cursor format is injective. */
  lemma CursorInjective(runA: string, seqA: int, runB: string, seqB: int)
    requires Cursor(runA, seqA) == Cursor(runB, seqB)
    ensures runA == runB && seqA == seqB
  {
    CursorRoundTrip(runA, seqA, ASCII_DIGITS);
    CursorRoundTrip(runB, seqB, ASCII_DIGITS);
    if runA != runB {
      CursorRejectedElsewhere(runA, seqA, runB, ASCII_DIGITS);
    }
  }

  // ---------------------------------------------------------------- frames

  const DATA: string := "data: "

  /** An event as the renderer sees it: `data` is the JSON text of the payload. */
  datatype Event = Event(name: string, streamId: string, data: string, retryMs: Option<int>)

  function RetryLine(e: Event): string {
    if e.retryMs.Some? then "retry: " + SignedDecimal(e.retryMs.value) + "\n" else ""
  }

  function RenderFrame(e: Event): string {
    ("event: " + e.name) + "\n" + (("id: " + e.streamId) + "\n" + (DATA + e.data + "\n" + (RetryLine(e) + "\n")))
  }

  /** The characters `str.splitlines` breaks at. */
  predicate IsBreak(c: char) {
    || '\n' <= c <= '\r' || '\U{1c}' <= c <= '\U{1e}'
    || c == '\U{85}' || c == '\U{2028}' || c == '\U{2029}'
  }

  /** The position of the first line break, or the length. */
  function FirstBreak(s: string): (k: nat)
    ensures k <= |s|
    ensures forall i :: 0 <= i < k ==> !IsBreak(s[i])
    ensures k < |s| ==> IsBreak(s[k])
  {
    BreakFrom(s, 0)
  }

  function BreakFrom(s: string, i: nat): (k: nat)
    requires i <= |s|
    ensures i <= k <= |s|
    ensures forall j :: i <= j < k ==> !IsBreak(s[j])
    ensures k < |s| ==> IsBreak(s[k])
    decreases |s| - i
  {
    if i == |s| || IsBreak(s[i]) then i else BreakFrom(s, i + 1)
  }

  /** Where the line after the first break starts; a carriage return and line feed together are one break. */
  function AfterBreak(s: string): (next: nat)
    requires FirstBreak(s) < |s|
    ensures FirstBreak(s) < next <= |s|
  {
    var k := FirstBreak(s);
    if s[k] == '\r' && k + 1 < |s| && s[k + 1] == '\n' then k + 2 else k + 1
  }

  /** `str.splitlines`. */
  function SplitLines(s: string): seq<string>
    decreases |s|
  {
    if s == "" then []
    else
      var k := FirstBreak(s);
      if k == |s| then [s] else [s[..k]] + SplitLines(s[AfterBreak(s)..])
  }

  predicate IsDataLine(line: string) {
    DATA <= line
  }

  /** The text of the first data line. */
  function FirstData(lines: seq<string>): Option<string> {
    if lines == [] then None
    else if IsDataLine(lines[0]) then Some(lines[0][|DATA|..])
    else FirstData(lines[1..])
  }

  /** What the parser picks from a text. */
  function Selected(text: string): Option<string> {
    FirstData(SplitLines(text))
  }

  /** `parse_sse_data_payload`; `readObject` is None where the text is no JSON or no object. */
  method ParsePayload<T>(frame: string, readObject: string -> Option<T>) returns (r: Option<T>)
    ensures r == match Selected(frame)
                 case None => None
                 case Some(text) => readObject(text)
  {
    var lines := SplitLines(frame);
    for i := 0 to |lines|
      invariant FirstData(lines) == FirstData(lines[i..])
    {
      if IsDataLine(lines[i]) {
        return readObject(lines[i][|DATA|..]);
      }
      assert lines[i..][1..] == lines[i + 1..];
    }
    r := None;
  }

  lemma FirstBreakIs(s: string, k: nat)
    requires k <= |s| && (forall i :: 0 <= i < k ==> !IsBreak(s[i])) && (k < |s| ==> IsBreak(s[k]))
    ensures FirstBreak(s) == k
  {
  }

  /** A line followed by a line feed is split off up to its first break. */
  lemma SplitOff(line: string, rest: string)
    requires FirstBreak(line) == |line|
    ensures SplitLines(line + "\n" + rest) == [line] + SplitLines(rest)
  {
    var s := line + "\n" + rest;
    FirstBreakIs(s, |line|);
    assert s[..|line|] == line && s[|line| + 1..] == rest;
  }

  /** The ten characters a line ends at. */
  lemma BreakCharacters(c: char)
    ensures IsBreak(c) <==> c in {'\n', '\U{b}', '\U{c}', '\r', '\U{1c}', '\U{1d}', '\U{1e}', '\U{85}', '\U{2028}', '\U{2029}'}
  {
  }

  /** Any of them ends a line; a carriage return takes a line feed after it along. */
  lemma SplitAt(line: string, c: char, rest: string)
    requires NoBreak(line) && IsBreak(c)
    ensures !(c == '\r' && "\n" <= rest) ==> SplitLines(line + [c] + rest) == [line] + SplitLines(rest)
    ensures c == '\r' && "\n" <= rest ==> SplitLines(line + [c] + rest) == [line] + SplitLines(rest[1..])
    ensures line != "" ==> SplitLines(line) == [line]
  {
    var s, k := line + [c] + rest, |line|;
    FirstBreakIs(s, k);
    FirstBreakIs(line, k);
    assert s[..k] == line && s[k + 1..] == rest;
    if c == '\r' && "\n" <= rest {
      assert s[k + 2..] == rest[1..];
    }
  }

  /** A frame without breaks inside its parts is its lines: event, id, data, perhaps retry, and an empty one. */
  lemma FrameLines(e: Event)
    requires NoBreak(e.name) && NoBreak(e.streamId) && NoBreak(e.data)
    ensures SplitLines(RenderFrame(e)) ==
            ["event: " + e.name] + (["id: " + e.streamId] + (["data: " + e.data] +
            (if e.retryMs.Some? then ["retry: " + SignedDecimal(e.retryMs.value)] + [""] else [""])))
  {
    UnbrokenLine("event: ", e.name);
    UnbrokenLine("id: ", e.streamId);
    UnbrokenLine(DATA, e.data);
    SplitOff("event: " + e.name, ("id: " + e.streamId) + "\n" + (DATA + e.data + "\n" + (RetryLine(e) + "\n")));
    SplitOff("id: " + e.streamId, DATA + e.data + "\n" + (RetryLine(e) + "\n"));
    SplitOff(DATA + e.data, RetryLine(e) + "\n");
    RetryLines(e);
  }

  lemma UnbrokenLine(title: string, x: string)
    requires NoBreak(title) && NoBreak(x)
    ensures FirstBreak(title + x) == |title + x|
  {
    FirstBreakIs(title + x, |title + x|);
  }

  lemma RetryLines(e: Event)
    ensures SplitLines(RetryLine(e) + "\n") ==
            if e.retryMs.Some? then ["retry: " + SignedDecimal(e.retryMs.value)] + [""] else [""]
  {
    SplitOff("", "");
    assert "" + "\n" + "" == "\n" && [""] + [] == [""];
    if e.retryMs.Some? {
      var number := SignedDecimal(e.retryMs.value);
      assert NoBreak(number);
      UnbrokenLine("retry: ", number);
      SplitOff("retry: " + number, "\n");
    }
  }

  lemma SplitHead(line: string, rest: string)
    ensures SplitLines(line + "\n" + rest) != []
    ensures SplitLines(line + "\n" + rest)[0] == line[..FirstBreak(line)]
  {
    var s := line + "\n" + rest;
    var k := FirstBreak(line);
    FirstBreakIs(s, k);
    assert s[..k] == line[..k];
  }

  predicate NoBreak(s: string) {
    forall i :: 0 <= i < |s| ==> !IsBreak(s[i])
  }

  lemma DataLineHead(data: string)
    ensures var line := DATA + data;
            && line[..FirstBreak(line)] == DATA + data[..FirstBreak(data)]
            && IsDataLine(line[..FirstBreak(line)])
            && line[..FirstBreak(line)][|DATA|..] == data[..FirstBreak(data)]
  {
    FirstBreakIs(DATA + data, |DATA| + FirstBreak(data));
  }

  function OrElse(a: Option<string>, b: Option<string>): Option<string> {
    if a.Some? then a else b
  }

  lemma FirstDataOf(line: string, lines: seq<string>)
    ensures FirstData([line] + lines) == if IsDataLine(line) then Some(line[|DATA|..]) else FirstData(lines)
  {
    assert ([line] + lines)[1..] == lines;
  }

  lemma SplitFirst(s: string)
    requires FirstBreak(s) < |s|
    ensures var line := s[..FirstBreak(s)];
            Selected(s) == if IsDataLine(line) then Some(line[|DATA|..]) else Selected(s[AfterBreak(s)..])
  {
    FirstDataOf(s[..FirstBreak(s)], SplitLines(s[AfterBreak(s)..]));
  }

  /** The first break of a text stays its first when a line feed and more text follow. */
  lemma FirstBreakStays(a: string, b: string)
    requires FirstBreak(a) < |a|
    ensures var s := a + "\n" + b;
            && FirstBreak(s) == FirstBreak(a)
            && AfterBreak(s) == if a[FirstBreak(a)] == '\r' && FirstBreak(a) == |a| - 1 then |a| + 1 else AfterBreak(a)
  {
    var s, k := a + "\n" + b, FirstBreak(a);
    FirstBreakIs(s, k);
    assert k + 1 < |a| ==> s[k + 1] == a[k + 1];
  }

  lemma DropAcross(a: string, b: string, n: nat)
    ensures n <= |a| ==> (a + "\n" + b)[n..] == a[n..] + "\n" + b
    ensures n <= |a| ==> (a + "\n" + b)[..n] == a[..n]
    ensures n == |a| + 1 ==> (a + "\n" + b)[n..] == b
  {
  }

  lemma SelectedUnbroken(a: string, b: string)
    requires FirstBreak(a) == |a|
    ensures Selected(a + "\n" + b) == OrElse(Selected(a), Selected(b))
  {
    SplitOff(a, b);
    FirstDataOf(a, SplitLines(b));
    FirstDataOf(a, []);
    assert a != "" ==> SplitLines(a) == [a] + [];
  }

  /** Whatever breaks two texts hold, a line feed between them keeps their lines apart. */
  lemma {:induction false} SelectedAcross(a: string, b: string)
    ensures Selected(a + "\n" + b) == OrElse(Selected(a), Selected(b))
    decreases |a|
  {
    if FirstBreak(a) == |a| {
      SelectedUnbroken(a, b);
    } else {
      var s := a + "\n" + b;
      FirstBreakStays(a, b);
      SplitFirst(s);
      SplitFirst(a);
      DropAcross(a, b, FirstBreak(a));
      DropAcross(a, b, AfterBreak(s));
      SelectedAcross(a[AfterBreak(a)..], b);
    }
  }

  /** The data line a name or id brings along when it holds a line break, if any. */
  function HeaderData(e: Event): Option<string> {
    OrElse(Selected("event: " + e.name), Selected("id: " + e.streamId))
  }

  lemma UnbrokenHeader(header: string, x: string)
    requires NoBreak(header + x) && header != "" && header[0] != DATA[0]
    ensures Selected(header + x) == None
  {
    var line := header + x;
    BreaksAtEnd(line);
    FirstDataOf(line, []);
    assert SplitLines(line) == [line] + [];
    assert line[0] == header[0];
  }

  /** A name and an id without line breaks bring none. */
  lemma PlainHeaders(e: Event)
    ensures NoBreak(e.name) && NoBreak(e.streamId) ==> HeaderData(e) == None
  {
    if NoBreak(e.name) && NoBreak(e.streamId) {
      UnbrokenHeader("event: ", e.name);
      UnbrokenHeader("id: ", e.streamId);
    }
  }

  lemma DataLineSelected(data: string, rest: string)
    ensures Selected(DATA + data + "\n" + rest) == Some(data[..FirstBreak(data)])
  {
    SplitHead(DATA + data, rest);
    DataLineHead(data);
  }

  /**
    * What the parser picks from any rendered frame: a data line its name or id brings along, else the JSON
    * text up to its first line break.
    */
  lemma FrameSelects(e: Event)
    ensures Selected(RenderFrame(e)) == OrElse(HeaderData(e), Some(e.data[..FirstBreak(e.data)]))
  {
    DataLineSelected(e.data, RetryLine(e) + "\n");
    SelectedAfterTwo("event: " + e.name, "id: " + e.streamId, DATA + e.data + "\n" + (RetryLine(e) + "\n"));
  }

  lemma SelectedAfterTwo(l1: string, l2: string, rest: string)
    ensures Selected(l1 + "\n" + (l2 + "\n" + rest)) == OrElse(OrElse(Selected(l1), Selected(l2)), Selected(rest))
  {
    SelectedAcross(l1, l2 + "\n" + rest);
    SelectedAcross(l2, rest);
  }

  lemma PrefixIsWhole(s: string, k: nat)
    requires k <= |s|
    ensures s[..k] == s <==> k == |s|
  {
    assert s[..|s|] == s;
  }

  lemma BreaksAtEnd(s: string)
    ensures FirstBreak(s) == |s| <==> NoBreak(s)
  {
    if NoBreak(s) {
      FirstBreakIs(s, |s|);
    }
  }

  /**
    * The round trip holds exactly when the JSON text holds no line break, unless the name or the id brings
    * a data line along, which then is the one read. The printer writes U+0085, U+2028 and U+2029 as they
    * are, and the splitter breaks at them.
    */
  lemma FrameRoundTripIff(e: Event)
    ensures Selected(RenderFrame(e)) == Some(e.data) <==>
            if HeaderData(e).Some? then HeaderData(e).value == e.data else NoBreak(e.data)
    ensures NoBreak(e.name) && NoBreak(e.streamId) ==> HeaderData(e) == None
  {
    FrameSelects(e);
    PlainHeaders(e);
    PrefixIsWhole(e.data, FirstBreak(e.data));
    BreaksAtEnd(e.data);
  }

  /** A payload holding U+2028, which the printer leaves raw, comes back cut short before it. */
  lemma LineSeparatorCutsFrame(e: Event, before: string, after: string)
    requires HeaderData(e).None? && NoBreak(before)
    requires e.data == before + "\U{2028}" + after
    ensures Selected(RenderFrame(e)) == Some(before) && before != e.data
  {
    FrameSelects(e);
    FirstBreakIs(e.data, |before|);
    assert e.data[..|before|] == before;
  }

  /** With a reader that inverts the printer, the parser returns the payload that was sent. */
  method RoundTrip<T>(e: Event, payload: T, print_: T -> string, readObject: string -> Option<T>)
    returns (r: Option<T>)
    requires e.data == print_(payload) && readObject(print_(payload)) == Some(payload)
    requires HeaderData(e).None? && NoBreak(e.data)
    ensures r == Some(payload)
  {
    FrameRoundTripIff(e);
    r := ParsePayload(RenderFrame(e), readObject);
  }
}
