/** The retry loop around one query: `BatchRunner._run_item` in agent_driver/batch/runner.py. */
module BatchRetry {
  import opened Prelude
  import opened Text
  import opened BatchContracts

  /** What one `agent.query` does: return, or raise an error the classifier calls transient or not. */
  datatype Outcome = Returned(output: RunOutput) | Raised(error: string, transient: bool)

  function RunId(item: BatchItem, runIndex: nat): string {
    if runIndex == 0 then "batch_" + item.itemId
    else "batch_" + item.itemId + "_" + Decimal(runIndex)
  }

  function Pow2(k: nat): nat {
    if k == 0 then 1 else 2 * Pow2(k - 1)
  }

  /** The pause before retrying after the failure of attempt `k`, before jitter. */
  function Pause(backoff: real, k: nat): real {
    backoff * Pow2(k) as real
  }

  ghost predicate RaisedTransiently(o: Outcome) {
    o.Raised? && o.transient
  }

  /** Attempt `k` is reached within the allowance, every earlier one having failed transiently. */
  ghost predicate Reached(outcomes: nat -> Outcome, retries: nat, k: nat) {
    k <= retries && forall j: nat :: j < k ==> RaisedTransiently(outcomes(j))
  }

  /** Some reachable attempt returns. */
  ghost predicate Succeeds(outcomes: nat -> Outcome, retries: nat) {
    exists k: nat :: Reached(outcomes, retries, k) && outcomes(k).Returned?
  }

  /** The trajectory one attempt leaves behind when the loop stops at it. */
  function ResultOf(item: BatchItem, runIndex: nat, o: Outcome): Trajectory {
    match o
    case Returned(output) => FromOutput(item, runIndex, output)
    case Raised(error, _) => FromError(item, runIndex, RunId(item, runIndex), error)
  }

  /** The record `t` of one run tells the outcome `o` that ended it, field by field. */
  ghost predicate Tells(t: Trajectory, item: BatchItem, runIndex: nat, o: Outcome) {
    && t.itemId == item.itemId && t.runIndex == runIndex && t.metadata == item.metadata
    && match o
       case Returned(output) =>
         && t.runId == output.runId && t.status == output.status && t.answer == output.answer
         && t.toolNames == output.toolNames && t.totalTokens == output.totalTokens
         && t.costUsd == output.cost && t.error == None
       case Raised(error, _) =>
         && t.status == "error" && t.error == Some(error)
         && t.answer == None && t.toolNames == [] && t.totalTokens == 0 && t.costUsd == None
         && (runIndex == 0 ==> t.runId == "batch_" + item.itemId)
         && (runIndex > 0 ==> t.runId == "batch_" + item.itemId + "_" + Decimal(runIndex))
  }

  lemma ResultTells(item: BatchItem, runIndex: nat, o: Outcome)
    ensures Tells(ResultOf(item, runIndex, o), item, runIndex, o)
  {
  }

  /** Run ids tell the repeats of one item apart. */
  lemma RunIdsOfItemDiffer(item: BatchItem, i: nat, j: nat)
    requires i != j
    ensures RunId(item, i) != RunId(item, j)
  {
    var base := "batch_" + item.itemId;
    if i > 0 && j > 0 && RunId(item, i) == RunId(item, j) {
      assert (base + "_" + Decimal(i))[|base| + 1..] == Decimal(i);
      assert (base + "_" + Decimal(j))[|base| + 1..] == Decimal(j);
      DecimalInjective(i, j);
    }
  }

  /** The pauses start at the backoff and double. */
  lemma PauseDoubles(backoff: real, k: nat)
    ensures Pause(backoff, 0) == backoff
    ensures Pause(backoff, k + 1) == 2.0 * Pause(backoff, k)
  {
    assert Pow2(0) as real == 1.0 && Pow2(k + 1) as real == 2.0 * Pow2(k) as real;
  }

  method RunItem(item: BatchItem, runIndex: nat, retries: nat, backoff: real,
                 outcomes: nat -> Outcome, jitter: real -> real)
    returns (t: Trajectory, queries: nat, sleeps: seq<real>)
    // The last query is the first one that ends the loop, and it alone decides the trajectory.
    ensures 1 <= queries <= retries + 1
    ensures Reached(outcomes, retries, queries - 1)
    ensures RaisedTransiently(outcomes(queries - 1)) ==> queries == retries + 1
    ensures Tells(t, item, runIndex, outcomes(queries - 1))
    ensures t == ResultOf(item, runIndex, outcomes(queries - 1))
    // One sleep per retried failure, doubling each time.
    ensures |sleeps| == queries - 1
    ensures forall k :: 0 <= k < |sleeps| ==> sleeps[k] == jitter(Pause(backoff, k))
    ensures t.error == None <==> Succeeds(outcomes, retries)
  {
    var lastError: Option<string> := None;
    var output: Option<RunOutput> := None;
    queries, sleeps := 0, [];
    var attempt := 0;
    while attempt < retries + 1
      invariant attempt == queries == |sleeps| <= retries
      invariant forall j: nat :: j < attempt ==> RaisedTransiently(outcomes(j))
      invariant forall k :: 0 <= k < |sleeps| ==> sleeps[k] == jitter(Pause(backoff, k))
    {
      queries := queries + 1;
      match outcomes(attempt) {
        case Returned(o) =>
          output, lastError := Some(o), None;
          break;
        case Raised(error, transient) =>
          lastError := Some(error);
          if attempt >= retries || !transient {
            break;
          }
          sleeps := sleeps + [jitter(Pause(backoff, attempt))];
      }
      attempt := attempt + 1;
    }
    DecidingAttempt(outcomes, retries, queries - 1);
    ResultTells(item, runIndex, outcomes(queries - 1));
    if lastError.Some? {
      t := FromError(item, runIndex, RunId(item, runIndex), lastError.value);
    } else {
      assert output != None;
      t := FromOutput(item, runIndex, output.value);
    }
  }

  /** Success is settled at the attempt where the loop stops. */
  lemma DecidingAttempt(outcomes: nat -> Outcome, retries: nat, k: nat)
    requires Reached(outcomes, retries, k)
    requires RaisedTransiently(outcomes(k)) ==> k == retries
    ensures Succeeds(outcomes, retries) <==> outcomes(k).Returned?
  {
    if Succeeds(outcomes, retries) {
      var m: nat :| Reached(outcomes, retries, m) && outcomes(m).Returned?;
      assert m < k ==> RaisedTransiently(outcomes(m));
    }
  }

  /** The attempt at which the loop stops, looking from attempt `k` on. */
  ghost function StopFrom(outcomes: nat -> Outcome, retries: nat, k: nat): nat
    decreases retries - k
  {
    if k < retries && RaisedTransiently(outcomes(k)) then StopFrom(outcomes, retries, k + 1) else k
  }

  /** The outcome that decides the run. */
  ghost function LastOutcome(outcomes: nat -> Outcome, retries: nat): Outcome {
    outcomes(StopFrom(outcomes, retries, 0))
  }

  lemma {:induction false} StopIs(outcomes: nat -> Outcome, retries: nat, j: nat, k: nat)
    requires j <= k && Reached(outcomes, retries, k)
    requires RaisedTransiently(outcomes(k)) ==> k == retries
    ensures StopFrom(outcomes, retries, j) == k
    decreases k - j
  {
    if j < k {
      StopIs(outcomes, retries, j + 1, k);
    }
  }

  /** A larger allowance never loses a success, and never changes the result of one. */
  lemma MoreRetriesKeepSuccess(outcomes: nat -> Outcome, retries: nat, more: nat)
    requires retries <= more
    ensures Succeeds(outcomes, retries) ==> Succeeds(outcomes, more)
    ensures forall k: nat, m: nat | Reached(outcomes, retries, k) && Reached(outcomes, more, m) ::
              outcomes(k).Returned? && outcomes(m).Returned? ==> k == m
  {
    forall k: nat, m: nat | Reached(outcomes, retries, k) && Reached(outcomes, more, m)
      ensures outcomes(k).Returned? && outcomes(m).Returned? ==> k == m
    {
      assert k < m ==> RaisedTransiently(outcomes(k));
      assert m < k ==> RaisedTransiently(outcomes(m));
    }
    if Succeeds(outcomes, retries) {
      var k: nat :| Reached(outcomes, retries, k) && outcomes(k).Returned?;
      assert Reached(outcomes, more, k);
    }
  }
}
