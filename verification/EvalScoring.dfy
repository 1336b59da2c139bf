/** The tool-order check of the evals: `_is_subsequence` in agent_driver/cli/eval_scoring.py. */
module EvalScoring {

  /** Strictly increasing positions at which `actual` holds the elements of `expected` in order. */
  ghost predicate Embeds(positions: seq<nat>, expected: seq<string>, actual: seq<string>) {
    && |positions| == |expected|
    && (forall i :: 0 <= i < |positions| ==> positions[i] < |actual| && actual[positions[i]] == expected[i])
    && (forall i, j :: 0 <= i < j < |positions| ==> positions[i] < positions[j])
  }

  ghost predicate IsEmbedded(expected: seq<string>, actual: seq<string>) {
    exists positions :: Embeds(positions, expected, actual)
  }

  /** How much of `expected` the greedy scan matches in `actual`. */
  ghost function Matched(expected: seq<string>, actual: seq<string>): (k: nat)
    ensures k <= |expected|
  {
    if actual == [] then 0
    else
      var k := Matched(expected, actual[..|actual| - 1]);
      if k < |expected| && actual[|actual| - 1] == expected[k] then k + 1 else k
  }

  /** What the scan has matched is embedded. */
  lemma {:induction false} MatchedIsEmbedded(expected: seq<string>, actual: seq<string>) returns (positions: seq<nat>)
    ensures Embeds(positions, expected[..Matched(expected, actual)], actual)
  {
    if actual == [] {
      positions := [];
    } else {
      var n := |actual| - 1;
      positions := MatchedIsEmbedded(expected, actual[..n]);
      var k := Matched(expected, actual[..n]);
      if k < |expected| && actual[n] == expected[k] {
        positions := positions + [n];
      }
    }
  }

  /** Nothing longer than what the scan has matched is embedded. */
  lemma {:induction false} EmbeddedIsMatched(positions: seq<nat>, expected: seq<string>, k: nat, actual: seq<string>)
    requires k <= |expected| && Embeds(positions, expected[..k], actual)
    ensures k <= Matched(expected, actual)
    decreases |actual|
  {
    if k > 0 {
      assert positions[k - 1] < |actual|;
      var n := |actual| - 1;
      if positions[k - 1] == n {
        assert actual[n] == expected[..k][k - 1];
        assert expected[..k][..k - 1] == expected[..k - 1];
        EmbeddedIsMatched(positions[..k - 1], expected, k - 1, actual[..n]);
      } else {
        EmbeddedIsMatched(positions, expected, k, actual[..n]);
      }
    }
  }

  lemma AllMatchedIff(expected: seq<string>, actual: seq<string>)
    ensures Matched(expected, actual) == |expected| <==> IsEmbedded(expected, actual)
  {
    assert expected[..|expected|] == expected;
    var positions := MatchedIsEmbedded(expected, actual);
    if IsEmbedded(expected, actual) {
      var witness_ :| Embeds(witness_, expected, actual);
      EmbeddedIsMatched(witness_, expected, |expected|, actual);
    }
  }

  lemma {:induction false} MatchedGrows(expected: seq<string>, actual: seq<string>, i: nat)
    requires i <= |actual|
    ensures Matched(expected, actual[..i]) <= Matched(expected, actual)
    decreases |actual| - i
  {
    if i == |actual| {
      assert actual[..i] == actual;
    } else {
      MatchedGrows(expected, actual, i + 1);
      assert actual[..i + 1][..i] == actual[..i];
    }
  }

  /** True exactly when `expected` is embedded in `actual`. */
  method IsSubsequence(expected: seq<string>, actual: seq<string>) returns (r: bool)
    ensures r <==> IsEmbedded(expected, actual)
  {
    AllMatchedIff(expected, actual);
    if expected == [] {
      assert Matched(expected, actual) == 0;
      return true;
    }
    var index := 0;
    for i := 0 to |actual|
      invariant index == Matched(expected, actual[..i]) < |expected|
    {
      assert actual[..i + 1][..i] == actual[..i];
      if actual[i] == expected[index] {
        index := index + 1;
        if index >= |expected| {
          MatchedGrows(expected, actual, i + 1);
          return true;
        }
      }
    }
    assert actual[..|actual|] == actual;
    return false;
  }
}
