/** Structure-preserving shrink of JSON tool results: agent_driver/context/tool_content_shrink.py. */
module ToolContentShrink {
  import opened Prelude
  import opened Text

  datatype Field = Field(key: string, value: Json)

  datatype Json =
    | Null
    | Bool(b: bool)
    | Number(text: string)
    | Str(s: string)
    | List(items: seq<Json>)
    | Object(fields: seq<Field>)

  const OPENING: string := "\U{2026}[+"
  const CLOSING: string := " chars]"

  function LeafMarker(dropped: nat): string {
    OPENING + Decimal(dropped) + CLOSING
  }

  /** The first `n` characters of `t` end in the opening of a marker and at least one digit of any script. */
  predicate EndsInCount(t: string, n: nat, digits: DigitTable)
    requires n <= |t|
  {
    n > |OPENING| && t[n - 1] in digits &&
    (t[n - 1 - |OPENING|..n - 1] == OPENING || EndsInCount(t, n - 1, digits))
  }

  predicate EndsWithMarker(t: string, n: nat, digits: DigitTable)
    requires n <= |t|
  {
    n >= |CLOSING| && t[n - |CLOSING|..n] == CLOSING && EndsInCount(t, n - |CLOSING|, digits)
  }

  /** The marker search; `$` also matches before a final newline. */
  predicate HasLeafMarker(s: string, digits: DigitTable) {
    || EndsWithMarker(s, |s|, digits)
    || (s != "" && s[|s| - 1] == '\n' && EndsWithMarker(s, |s| - 1, digits))
  }

  /** A string leaf over the head budget and not yet marked; a negative budget counts from the end. */
  predicate Oversized(s: string, headChars: int, digits: DigitTable) {
    |s| > headChars && !HasLeafMarker(s, digits)
  }

  function ShrinkText(s: string, headChars: int, digits: DigitTable): string {
    if Oversized(s, headChars, digits) then Head(s, headChars) + LeafMarker(|s| - headChars) else s
  }

  function Shrunk(v: Json, headChars: int, digits: DigitTable): Json {
    match v
    case Str(s) => Str(ShrinkText(s, headChars, digits))
    case List(items) =>
      List(seq(|items|, i requires 0 <= i < |items| => Shrunk(items[i], headChars, digits)))
    case Object(fields) =>
      Object(seq(|fields|, i requires 0 <= i < |fields| => ShrunkField(fields[i], headChars, digits)))
    case _ => v
  }

  function ShrunkField(f: Field, headChars: int, digits: DigitTable): Field {
    Field(f.key, Shrunk(f.value, headChars, digits))
  }

  /** `_shrink_value`: the new value and whether anything changed. */
  method ShrinkValue(v: Json, headChars: int, digits: DigitTable) returns (r: Json, changed: bool)
    ensures r == Shrunk(v, headChars, digits)
    ensures changed <==> r != v
    decreases v, 1
  {
    match v {
      case Str(s) =>
        OversizedMeansChange(s, headChars, digits);
        if Oversized(s, headChars, digits) {
          r, changed := Str(Head(s, headChars) + LeafMarker(|s| - headChars)), true;
        } else {
          r, changed := v, false;
        }
      case Object(fields) =>
        var out;
        out, changed := ShrinkFields(fields, headChars, digits);
        r := Object(out);
      case List(items) =>
        var out;
        out, changed := ShrinkItems(items, headChars, digits);
        r := List(out);
      case _ =>
        r, changed := v, false;
    }
  }

  method ShrinkFields(fields: seq<Field>, headChars: int, digits: DigitTable)
    returns (out: seq<Field>, changed: bool)
    ensures Object(out) == Shrunk(Object(fields), headChars, digits)
    ensures changed <==> out != fields
    decreases fields, 0
  {
    out, changed := [], false;
    for i := 0 to |fields|
      invariant |out| == i && FieldsShrunk(fields, out, headChars, digits)
      invariant changed <==> SomeDiffer(fields, out)
    {
      var field := fields[i];
      assert fields decreases to field;
      var item, itemChanged := ShrinkValue(field.value, headChars, digits);
      NextDiffers(fields, out, Field(field.key, item));
      out := out + [Field(field.key, item)];
      changed := changed || itemChanged;
    }
    AllFieldsShrunk(fields, out, headChars, digits);
  }

  ghost predicate FieldsShrunk(fields: seq<Field>, out: seq<Field>, headChars: int, digits: DigitTable) {
    |out| <= |fields| && forall k :: 0 <= k < |out| ==> out[k] == ShrunkField(fields[k], headChars, digits)
  }

  lemma AllFieldsShrunk(fields: seq<Field>, out: seq<Field>, headChars: int, digits: DigitTable)
    requires FieldsShrunk(fields, out, headChars, digits) && |out| == |fields|
    ensures Object(out) == Shrunk(Object(fields), headChars, digits)
    ensures SomeDiffer(fields, out) <==> out != fields
  {
  }

  method ShrinkItems(items: seq<Json>, headChars: int, digits: DigitTable)
    returns (out: seq<Json>, changed: bool)
    ensures List(out) == Shrunk(List(items), headChars, digits)
    ensures changed <==> out != items
    decreases items, 0
  {
    out, changed := [], false;
    for i := 0 to |items|
      invariant |out| == i && ItemsShrunk(items, out, headChars, digits)
      invariant changed <==> SomeDiffer(items, out)
    {
      var item, itemChanged := ShrinkValue(items[i], headChars, digits);
      NextDiffers(items, out, item);
      out := out + [item];
      changed := changed || itemChanged;
    }
    AllItemsShrunk(items, out, headChars, digits);
  }

  /** The items done so far, each shrunk. */
  ghost predicate ItemsShrunk(items: seq<Json>, out: seq<Json>, headChars: int, digits: DigitTable) {
    |out| <= |items| && forall k :: 0 <= k < |out| ==> out[k] == Shrunk(items[k], headChars, digits)
  }

  ghost predicate SomeDiffer<T>(s: seq<T>, out: seq<T>)
    requires |out| <= |s|
  {
    exists k :: 0 <= k < |out| && out[k] != s[k]
  }

  lemma NextDiffers<T>(s: seq<T>, out: seq<T>, x: T)
    requires |out| < |s|
    ensures SomeDiffer(s, out + [x]) <==> SomeDiffer(s, out) || x != s[|out|]
  {
    var more := out + [x];
    assert forall k :: 0 <= k < |out| ==> more[k] == out[k];
    assert more[|out|] == x;
  }

  lemma AllItemsShrunk(items: seq<Json>, out: seq<Json>, headChars: int, digits: DigitTable)
    requires ItemsShrunk(items, out, headChars, digits) && |out| == |items|
    ensures List(out) == Shrunk(List(items), headChars, digits)
    ensures SomeDiffer(items, out) <==> out != items
  {
  }

  // ---------------------------------------------------------------- what a shrink keeps

  lemma {:induction false} CountIsRecognised(t: string, p: nat, n: nat, digits: DigitTable)
    requires p + |OPENING| < n <= |t| && t[p..p + |OPENING|] == OPENING
    requires forall j :: p + |OPENING| <= j < n ==> t[j] in digits
    ensures EndsInCount(t, n, digits)
  {
    if n - 1 > p + |OPENING| {
      CountIsRecognised(t, p, n - 1, digits);
    }
  }

  lemma {:induction false} RecognisedCount(t: string, n: nat, digits: DigitTable) returns (p: nat)
    requires n <= |t| && EndsInCount(t, n, digits)
    ensures p + |OPENING| < n && t[p..p + |OPENING|] == OPENING
    ensures forall j :: p + |OPENING| <= j < n ==> t[j] in digits
  {
    if t[n - 1 - |OPENING|..n - 1] == OPENING {
      p := n - 1 - |OPENING|;
    } else {
      p := RecognisedCount(t, n - 1, digits);
    }
  }

  /** The text is a head, the opening of a marker, a count in digits of any script, its closing, and perhaps a line feed. */
  ghost predicate IsMarked(s: string, head: string, count: string, end: string, digits: DigitTable) {
    && s == head + ("\U{2026}[+" + count + " chars]") + end
    && count != "" && (forall j :: 0 <= j < |count| ==> count[j] in digits)
    && (end == "" || end == "\n")
  }

  /** The marker search finds exactly the marked texts. */
  lemma MarkerRecognisedIff(s: string, digits: DigitTable)
    ensures HasLeafMarker(s, digits) <==> exists head, count, end :: IsMarked(s, head, count, end, digits)
  {
    if HasLeafMarker(s, digits) {
      FoundIsMarked(s, if EndsWithMarker(s, |s|, digits) then |s| else |s| - 1, digits);
    }
    if head, count, end :| IsMarked(s, head, count, end, digits) {
      MarkedIsFound(s, head, count, end, digits);
    }
  }

  lemma FoundIsMarked(s: string, n: nat, digits: DigitTable)
    requires n <= |s| && EndsWithMarker(s, n, digits) && (s[n..] == "" || s[n..] == "\n")
    ensures exists head, count, end :: IsMarked(s, head, count, end, digits)
  {
    var head, count := MarkedParts(s, n, digits);
    assert s == s[..n] + s[n..];
    assert IsMarked(s, head, count, s[n..], digits);
  }

  lemma MarkedIsFound(s: string, head: string, count: string, end: string, digits: DigitTable)
    requires IsMarked(s, head, count, end, digits)
    ensures HasLeafMarker(s, digits)
  {
    var p := |head|;
    var m := p + |OPENING| + |count|;
    FiveParts(head, OPENING, count, CLOSING, end);
    MarkerIsRecognised(s, p, m, m + |CLOSING|, digits);
    FoundBefore(s, m + |CLOSING|, digits);
  }

  lemma FoundBefore(s: string, n: nat, digits: DigitTable)
    requires n <= |s| && EndsWithMarker(s, n, digits) && (n == |s| || (n == |s| - 1 && s[n] == '\n'))
    ensures HasLeafMarker(s, digits)
  {
  }

  lemma FiveParts(a: string, b: string, c: string, d: string, e: string)
    ensures var s := a + (b + c + d) + e;
            var p := |a|;
            var m := p + |b| + |c|;
            && |s| == m + |d| + |e|
            && s[p..p + |b|] == b && s[m..m + |d|] == d
            && (forall j :: p + |b| <= j < m ==> s[j] == c[j - p - |b|])
            && (forall j :: m + |d| <= j < |s| ==> s[j] == e[j - m - |d|])
  {
  }

  lemma MarkedParts(s: string, n: nat, digits: DigitTable) returns (head: string, count: string)
    requires n <= |s| && EndsWithMarker(s, n, digits)
    ensures s[..n] == head + (OPENING + count + CLOSING)
    ensures count != "" && forall j :: 0 <= j < |count| ==> count[j] in digits
  {
    var m := n - |CLOSING|;
    var p := RecognisedCount(s, m, digits);
    head, count := s[..p], s[p + |OPENING|..m];
    ThreeSlices(s, p, p + |OPENING|, m, n);
  }

  lemma ThreeSlices(s: string, a: nat, b: nat, c: nat, d: nat)
    requires a <= b <= c <= d <= |s|
    ensures s[..d] == s[..a] + (s[a..b] + s[b..c] + s[c..d])
  {
  }

  /** Text ending in a generated marker is recognised as marked. */
  lemma MarkedIsRecognised(head: string, dropped: nat, digits: DigitTable)
    ensures HasLeafMarker(head + LeafMarker(dropped), digits)
  {
    var t := head + LeafMarker(dropped);
    FourParts(head, OPENING, Decimal(dropped), CLOSING);
    MarkerIsRecognised(t, |head|, |t| - |CLOSING|, |t|, digits);
  }

  lemma MarkerIsRecognised(t: string, p: nat, m: nat, n: nat, digits: DigitTable)
    requires p + |OPENING| < m <= n <= |t| && t[p..p + |OPENING|] == OPENING && t[m..n] == CLOSING
    requires forall j :: p + |OPENING| <= j < m ==> t[j] in digits
    ensures EndsWithMarker(t, n, digits)
  {
    CountIsRecognised(t, p, m, digits);
  }

  lemma FourParts(a: string, b: string, c: string, d: string)
    ensures var t := a + (b + c + d);
            && t[|a|..|a| + |b|] == b && t[|t| - |d|..|t|] == d
            && forall j :: |a| + |b| <= j < |t| - |d| ==> t[j] == c[j - |a| - |b|]
  {
  }

  lemma OversizedMeansChange(s: string, headChars: int, digits: DigitTable)
    ensures ShrinkText(s, headChars, digits) != s <==> Oversized(s, headChars, digits)
  {
    if Oversized(s, headChars, digits) {
      MarkedIsRecognised(Head(s, headChars), |s| - headChars, digits);
      MarkedDiffers(s, Head(s, headChars) + LeafMarker(|s| - headChars), digits);
    }
  }

  lemma MarkedDiffers(s: string, t: string, digits: DigitTable)
    requires HasLeafMarker(t, digits) && !HasLeafMarker(s, digits)
    ensures s != t
  {
  }

  /** A leaf after the shrink: itself when short or marked before, else its own head and the count dropped. */
  ghost predicate LeafKept(s: string, t: string, headChars: int, digits: DigitTable) {
    || (t == s && (|s| <= headChars || HasLeafMarker(s, digits)))
    || (exists head :: IsClipped(s, t, head, headChars) && !HasLeafMarker(s, digits))
  }

  ghost predicate IsClipped(s: string, t: string, head: string, headChars: int) {
    && head <= s
    && |s| > headChars
    && |head| == (if headChars >= 0 then headChars else Max(0, |s| + headChars))
    && t == head + ("\U{2026}[+" + Decimal(|s| - headChars) + " chars]")
  }

  /** Same kind at every node, same list lengths, same keys in the same order, same scalars. */
  ghost predicate SameShape(v: Json, w: Json, headChars: int, digits: DigitTable) {
    match v
    case Str(s) => w.Str? && LeafKept(s, w.s, headChars, digits)
    case List(items) =>
      w.List? && |w.items| == |items| &&
      forall i :: 0 <= i < |items| ==> SameShape(items[i], w.items[i], headChars, digits)
    case Object(fields) =>
      w.Object? && |w.fields| == |fields| &&
      forall i :: 0 <= i < |fields| ==>
        w.fields[i].key == fields[i].key && SameShape(fields[i].value, w.fields[i].value, headChars, digits)
    case _ => w == v
  }

  lemma {:induction false} ShrinkKeepsShape(v: Json, headChars: int, digits: DigitTable)
    ensures SameShape(v, Shrunk(v, headChars, digits), headChars, digits)
  {
    match v {
      case Str(s) =>
        if Oversized(s, headChars, digits) {
          assert IsClipped(s, ShrinkText(s, headChars, digits), Head(s, headChars), headChars);
        }
      case List(items) =>
        forall i | 0 <= i < |items|
          ensures SameShape(items[i], Shrunk(items[i], headChars, digits), headChars, digits)
        {
          ShrinkKeepsShape(items[i], headChars, digits);
        }
      case Object(fields) =>
        forall i | 0 <= i < |fields|
          ensures SameShape(fields[i].value, Shrunk(fields[i].value, headChars, digits), headChars, digits)
        {
          ShrinkKeepsShape(fields[i].value, headChars, digits);
        }
      case _ =>
    }
  }

  lemma {:induction false} ShrinkIdempotent(v: Json, headChars: int, digits: DigitTable)
    ensures Shrunk(Shrunk(v, headChars, digits), headChars, digits) == Shrunk(v, headChars, digits)
  {
    match v {
      case Str(s) =>
        if Oversized(s, headChars, digits) {
          MarkedIsRecognised(Head(s, headChars), |s| - headChars, digits);
        }
      case List(items) =>
        var out := Shrunk(v, headChars, digits).items;
        forall i | 0 <= i < |out| ensures out[i] == Shrunk(out[i], headChars, digits) {
          ShrinkIdempotent(items[i], headChars, digits);
          assert out[i] == Shrunk(items[i], headChars, digits);
        }
        AllItemsShrunk(out, out, headChars, digits);
      case Object(fields) =>
        var out := Shrunk(v, headChars, digits).fields;
        forall i | 0 <= i < |out| ensures out[i] == ShrunkField(out[i], headChars, digits) {
          ShrinkIdempotent(fields[i].value, headChars, digits);
          assert out[i] == ShrunkField(fields[i], headChars, digits);
        }
        AllFieldsShrunk(out, out, headChars, digits);
      case _ =>
    }
  }

  /**
    * A shrunk leaf is longer than the original exactly when at most eleven characters were dropped. Under
    * a negative budget, which cuts from the end and counts past it, exactly when fewer characters were
    * removed than the marker has.
    */
  lemma ShrinkCanLengthen(s: string, headChars: int, digits: DigitTable)
    requires Oversized(s, headChars, digits)
    ensures headChars >= 0 ==>
      && (|ShrinkText(s, headChars, digits)| > |s| <==> |s| - headChars <= 11)
      && (|ShrinkText(s, headChars, digits)| < |s| <==> |s| - headChars >= 13)
    ensures headChars < 0 ==>
      (|ShrinkText(s, headChars, digits)| > |s| <==> Min(|s|, -headChars) < 10 + |Decimal(|s| - headChars)|)
  {
    var d: nat := |s| - headChars;
    assert |LeafMarker(d)| == 10 + |Decimal(d)|;
    if d < 13 {
      DecimalLengthBelow(d, if d < 10 then 0 else 1);
      DecimalLength(d, if d < 10 then 1 else 2);
    } else {
      DecimalShort(d);
    }
  }

  // ---------------------------------------------------------------- serialized content

  /**
    * Reading and printing JSON; `loads` gives None where the decoder raises, and `isNumber` tells the
    * number texts the printer writes.
    */
  datatype Codec = Codec(loads: string -> Option<Json>, dumps: Json -> string, isNumber: string -> bool)

  predicate IsContainer(v: Json) {
    v.List? || v.Object?
  }

  predicate OpensContainer(content: string) {
    var text := LeftStrip(content);
    text != "" && (text[0] == '{' || text[0] == '[')
  }

  ghost predicate DistinctKeys(fields: seq<Field>) {
    forall i, j :: 0 <= i < j < |fields| ==> fields[i].key != fields[j].key
  }

  /** A value the reader can give: distinct keys in every object and numbers as the printer writes them. */
  ghost predicate WellFormed(v: Json, isNumber: string -> bool) {
    match v
    case Number(text) => isNumber(text)
    case List(items) => forall i :: 0 <= i < |items| ==> WellFormed(items[i], isNumber)
    case Object(fields) =>
      DistinctKeys(fields) && forall i :: 0 <= i < |fields| ==> WellFormed(fields[i].value, isNumber)
    case _ => true
  }

  /** The reader gives well-formed values; those that are containers print with their bracket first and read back. */
  ghost predicate Faithful(codec: Codec) {
    && (forall text :: codec.loads(text).Some? ==> WellFormed(codec.loads(text).value, codec.isNumber))
    && (forall v :: IsContainer(v) && WellFormed(v, codec.isNumber) ==>
         codec.loads(codec.dumps(v)) == Some(v) && OpensContainer(codec.dumps(v)))
  }

  /** Shrinking keeps a value well formed. */
  lemma {:induction false} ShrinkKeepsWellFormed(v: Json, headChars: int, digits: DigitTable, isNumber: string -> bool)
    requires WellFormed(v, isNumber)
    ensures WellFormed(Shrunk(v, headChars, digits), isNumber)
  {
    match v {
      case List(items) =>
        forall i | 0 <= i < |items| ensures WellFormed(Shrunk(items[i], headChars, digits), isNumber) {
          ShrinkKeepsWellFormed(items[i], headChars, digits, isNumber);
        }
      case Object(fields) =>
        forall i | 0 <= i < |fields| ensures WellFormed(Shrunk(fields[i].value, headChars, digits), isNumber) {
          ShrinkKeepsWellFormed(fields[i].value, headChars, digits, isNumber);
        }
      case _ =>
    }
  }

  method ShrinkJsonToolContent(content: string, headChars: int, digits: DigitTable, codec: Codec)
    returns (r: Option<string>)
    ensures r == ShrunkContent(content, headChars, digits, codec)
  {
    if content == "" || !OpensContainer(content) {
      return None;
    }
    var parsed := codec.loads(content);
    if parsed.None? || !IsContainer(parsed.value) {
      return None;
    }
    var shrunk, changed := ShrinkValue(parsed.value, headChars, digits);
    if !changed {
      return Some(content);
    }
    r := Some(codec.dumps(shrunk));
  }

  function ShrunkContent(content: string, headChars: int, digits: DigitTable, codec: Codec): Option<string> {
    if !OpensContainer(content) then None
    else
      match codec.loads(content)
      case None => None
      case Some(v) =>
        if !IsContainer(v) then None
        else if Shrunk(v, headChars, digits) == v then Some(content)
        else Some(codec.dumps(Shrunk(v, headChars, digits)))
  }

  /** The content is JSON the pass takes on: a bracket first after white space, and readable as a list or an object. */
  ghost predicate IsShrinkable(content: string, codec: Codec) {
    && (exists pad, rest :: AllSpace(pad) && (content == pad + ("{" + rest) || content == pad + ("[" + rest)))
    && codec.loads(content).Some? && (codec.loads(content).value.List? || codec.loads(content).value.Object?)
  }

  lemma OpensMeans(content: string)
    ensures OpensContainer(content) <==>
            exists pad, rest :: AllSpace(pad) && (content == pad + ("{" + rest) || content == pad + ("[" + rest))
  {
    if OpensContainer(content) {
      var pad := LeftStripSplits(content);
      var text := LeftStrip(content);
      assert text == [text[0]] + text[1..];
      assert AllSpace(pad) && (content == pad + ("{" + text[1..]) || content == pad + ("[" + text[1..]));
    }
    if pad: string, rest: string :| AllSpace(pad) && (content == pad + ("{" + rest) || content == pad + ("[" + rest)) {
      LeftStripPadded(pad, if content == pad + ("{" + rest) then "{" + rest else "[" + rest);
    }
  }

  /**
    * What comes back: nothing unless the content is such JSON; the content itself when no leaf is over the
    * budget; else the shrunk value printed.
    */
  lemma ContentMeans(content: string, headChars: int, digits: DigitTable, codec: Codec)
    ensures ShrunkContent(content, headChars, digits, codec).Some? <==> IsShrinkable(content, codec)
    ensures IsShrinkable(content, codec) ==>
      var v := codec.loads(content).value;
      var w := Shrunk(v, headChars, digits);
      ShrunkContent(content, headChars, digits, codec) == Some(if w == v then content else codec.dumps(w))
  {
    OpensMeans(content);
  }

  /**
    * Whatever comes back is still JSON, reads as the shrunk value, and is returned as it is by a second
    * pass.
    */
  lemma ContentShrinkIdempotent(content: string, headChars: int, digits: DigitTable, codec: Codec)
    requires Faithful(codec)
    requires ShrunkContent(content, headChars, digits, codec).Some?
    ensures var once := ShrunkContent(content, headChars, digits, codec).value;
            && codec.loads(content).Some?
            && codec.loads(once) == Some(Shrunk(codec.loads(content).value, headChars, digits))
            && ShrunkContent(once, headChars, digits, codec) == Some(once)
  {
    var v := codec.loads(content).value;
    ShrinkIdempotent(v, headChars, digits);
    ShrinkKeepsWellFormed(v, headChars, digits, codec.isNumber);
    assert IsContainer(Shrunk(v, headChars, digits));
  }
}
