/** Decimal printing and the substring tests the text passes rely on. */
module Text {
  import opened Prelude

  function Digit(d: nat): (c: char)
    requires d < 10
    ensures '0' <= c <= '9'
  {
    ('0' as int + d) as char
  }

  /** `str(n)` for a non-negative integer. */
  function Decimal(n: nat): (s: string)
    ensures s != ""
    ensures forall i :: 0 <= i < |s| ==> '0' <= s[i] <= '9'
  {
    if n < 10 then [Digit(n)] else Decimal(n / 10) + [Digit(n % 10)]
  }

  /** `str(n)` for any integer. */
  function SignedDecimal(n: int): string {
    if n < 0 then "-" + Decimal(-n) else Decimal(n)
  }

  function Pow10(k: nat): (p: nat)
    ensures p >= 1
  {
    if k == 0 then 1 else 10 * Pow10(k - 1)
  }

  /** A number below 10^k prints in at most k digits. */
  lemma {:induction false} DecimalLength(n: nat, k: nat)
    requires 1 <= k && n < Pow10(k)
    ensures |Decimal(n)| <= k
  {
    if n >= 10 {
      assert k > 1;
      DecimalLength(n / 10, k - 1);
    }
  }

  /** A number of at least 10^k prints in more than k digits. */
  lemma {:induction false} DecimalLengthBelow(n: nat, k: nat)
    requires n >= Pow10(k)
    ensures |Decimal(n)| > k
  {
    if k > 0 {
      DecimalLengthBelow(n / 10, k - 1);
    }
  }

  /** A number is printed far shorter than it is large. */
  lemma {:induction false} DecimalShort(n: nat)
    ensures |Decimal(n)| <= n / 10 + 1
  {
    if n >= 10 {
      DecimalShort(n / 10);
    }
  }

  /** Different numbers print differently. */
  lemma {:induction false} DecimalInjective(a: nat, b: nat)
    requires Decimal(a) == Decimal(b)
    ensures a == b
  {
    var s, n := Decimal(a), |Decimal(a)| - 1;
    assert s[n] == Digit(a % 10) == Digit(b % 10);
    if a >= 10 && b >= 10 {
      assert s[..n] == Decimal(a / 10) == Decimal(b / 10);
      DecimalInjective(a / 10, b / 10);
    }
  }

  /** Two printed numbers followed by the same text, which does not go on with a digit, are the same number. */
  lemma DecimalThen(a: nat, b: nat, rest: string, rest': string)
    requires Decimal(a) + rest == Decimal(b) + rest'
    requires rest != "" && rest' != "" && !('0' <= rest[0] <= '9') && !('0' <= rest'[0] <= '9')
    ensures a == b && rest == rest'
  {
    var s, x, y := Decimal(a) + rest, Decimal(a), Decimal(b);
    DigitsStop(x, y, rest, rest');
    DigitsStop(y, x, rest', rest);
    assert s[..|x|] == x && s[..|y|] == y && s[|x|..] == rest && s[|y|..] == rest';
    DecimalInjective(a, b);
  }

  lemma DigitsStop(x: string, y: string, rest: string, rest': string)
    requires forall i :: 0 <= i < |x| ==> '0' <= x[i] <= '9'
    requires x + rest == y + rest' && rest' != "" && !('0' <= rest'[0] <= '9')
    ensures |x| <= |y|
  {
    var s := x + rest;
    assert s[|y|] == rest'[0];
    assert forall i :: 0 <= i < |x| ==> s[i] == x[i];
  }

  /** `needle in text` for strings. */
  predicate Contains(text: string, needle: string) {
    exists i :: 0 <= i <= |text| && OccursAt(text, needle, i)
  }

  predicate OccursAt(text: string, needle: string, i: nat) {
    i + |needle| <= |text| && text[i..i + |needle|] == needle
  }

  /** `s[:h]` with Python's reading of a negative bound. */
  function Head(s: string, h: int): (r: string)
    ensures r <= s
    ensures 0 <= h <= |s| ==> |r| == h
  {
    if h >= 0 then s[..Min(h, |s|)] else s[..Max(0, |s| + h)]
  }

  /**
    * The decimal digits of the character set with their values. Python reads the digits of every
    * script, so all results hold for any table that agrees with ASCII and leaves out the characters
    * that separate numbers.
    */
  type DigitTable = m: map<char, nat> | IsDigitTable(m) witness ASCII_DIGITS

  const ASCII_DIGITS: map<char, nat> := map c: char | '0' <= c <= '9' :: c as int - '0' as int

  predicate IsDigitTable(m: map<char, nat>) {
    && (forall c :: '0' <= c <= '9' ==> c in m && m[c] == c as int - '0' as int)
    && ':' !in m && '_' !in m && '-' !in m && '+' !in m
  }

  /** The characters `str.strip` removes. */
  predicate IsSpace(c: char) {
    || '\t' <= c <= '\r' || '\U{1c}' <= c <= ' ' || c == '\U{85}' || c == '\U{a0}' || c == '\U{1680}'
    || '\U{2000}' <= c <= '\U{200a}' || c == '\U{2028}' || c == '\U{2029}' || c == '\U{202f}'
    || c == '\U{205f}' || c == '\U{3000}'
  }

  function LeftStrip(s: string): (r: string)
    ensures r != "" ==> !IsSpace(r[0])
    ensures s != "" && !IsSpace(s[0]) ==> r == s
  {
    if s != "" && IsSpace(s[0]) then LeftStrip(s[1..]) else s
  }

  function RightStrip(s: string): (r: string)
    ensures r <= s
    ensures r != "" ==> !IsSpace(r[|r| - 1])
    ensures s != "" && !IsSpace(s[|s| - 1]) ==> r == s
  {
    if s != "" && IsSpace(s[|s| - 1]) then RightStrip(s[..|s| - 1]) else s
  }

  function Strip(s: string): string {
    RightStrip(LeftStrip(s))
  }

  ghost predicate AllSpace(s: string) {
    forall i :: 0 <= i < |s| ==> IsSpace(s[i])
  }

  /** The text neither starts nor ends with a space. */
  ghost predicate IsTrimmed(s: string) {
    s != "" ==> !IsSpace(s[0]) && !IsSpace(s[|s| - 1])
  }

  lemma {:induction false} LeftStripPadded(pad: string, s: string)
    requires AllSpace(pad) && (s != "" ==> !IsSpace(s[0]))
    ensures LeftStrip(pad + s) == s
  {
    if pad == "" {
      assert pad + s == s;
    } else {
      assert (pad + s)[1..] == pad[1..] + s;
      LeftStripPadded(pad[1..], s);
    }
  }

  lemma {:induction false} RightStripPadded(s: string, pad: string)
    requires AllSpace(pad) && (s != "" ==> !IsSpace(s[|s| - 1]))
    ensures RightStrip(s + pad) == s
  {
    if pad == "" {
      assert s + pad == s;
    } else {
      var n := |pad| - 1;
      assert (s + pad)[..|s + pad| - 1] == s + pad[..n];
      RightStripPadded(s, pad[..n]);
    }
  }

  /** Stripping takes the white space off both ends and nothing else. */
  lemma StripPadded(pad: string, s: string, pad': string)
    requires AllSpace(pad) && AllSpace(pad') && IsTrimmed(s)
    ensures Strip(pad + (s + pad')) == s
  {
    if s == "" {
      assert pad + (s + pad') == (pad + pad') + "";
      LeftStripPadded(pad + pad', "");
    } else {
      LeftStripPadded(pad, s + pad');
      RightStripPadded(s, pad');
    }
  }

  lemma Prepend(c: char, a: string, b: string)
    ensures [c] + (a + b) == ([c] + a) + b
  {
  }

  lemma Append(a: string, b: string, c: char)
    ensures (a + b) + [c] == a + (b + [c])
  {
  }

  lemma {:induction false} LeftStripSplits(s: string) returns (pad: string)
    ensures AllSpace(pad) && s == pad + LeftStrip(s)
  {
    if s != "" && IsSpace(s[0]) {
      var first, tail := s[0], s[1..];
      var rest := LeftStripSplits(tail);
      pad := [first] + rest;
      Prepend(first, rest, LeftStrip(tail));
      assert s == [first] + tail;
    } else {
      pad := "";
    }
  }

  lemma {:induction false} RightStripSplits(s: string) returns (pad: string)
    ensures AllSpace(pad) && s == RightStrip(s) + pad
  {
    if s != "" && IsSpace(s[|s| - 1]) {
      var last, front := s[|s| - 1], s[..|s| - 1];
      var rest := RightStripSplits(front);
      pad := rest + [last];
      Append(RightStrip(front), rest, last);
      assert s == front + [last];
    } else {
      pad := "";
    }
  }

  /** Every text is its stripped core with white space around. */
  lemma StripSplits(s: string) returns (pad: string, pad': string)
    ensures AllSpace(pad) && AllSpace(pad') && IsTrimmed(Strip(s)) && s == pad + (Strip(s) + pad')
  {
    pad := LeftStripSplits(s);
    pad' := RightStripSplits(LeftStrip(s));
    assert Strip(s) <= LeftStrip(s);
  }
}
