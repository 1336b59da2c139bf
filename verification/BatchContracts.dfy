/** Batch records: agent_driver/batch/contracts.py and the in-memory store of agent_driver/batch/store.py. */
module BatchContracts {
  import opened Prelude
  import opened Text

  /**
    * The host's JSON map, which the runner only copies; `decisions` and `violations` are the ids the report
    * picks out of it.
    */
  datatype Metadata = Metadata(raw: string, decisions: seq<string>, violations: seq<string>)

  datatype BatchItem = BatchItem(itemId: string, input: string, metadata: Metadata)

  /** One recorded run. */
  datatype Trajectory = Trajectory(
    itemId: string,
    runId: string,
    status: string,
    answer: Option<string>,
    toolNames: seq<string>,
    totalTokens: nat,
    error: Option<string>,
    runIndex: nat,
    costUsd: Option<real>,
    metadata: Metadata)

  /** What a query that returns gives back; `cost` is None when the output carries no usage. */
  datatype RunOutput = RunOutput(
    runId: string,
    status: string,
    answer: Option<string>,
    toolNames: seq<string>,
    totalTokens: nat,
    cost: Option<real>)

  function FromOutput(item: BatchItem, runIndex: nat, output: RunOutput): Trajectory {
    Trajectory(item.itemId, output.runId, output.status, output.answer, output.toolNames,
               output.totalTokens, None, runIndex, output.cost, item.metadata)
  }

  function FromError(item: BatchItem, runIndex: nat, runId: string, error: string): Trajectory {
    Trajectory(item.itemId, runId, "error", None, [], 0, Some(error), runIndex, None, item.metadata)
  }

  function SkippedBudget(item: BatchItem, runIndex: nat): Trajectory {
    Trajectory(item.itemId, "batch_" + item.itemId + "_" + Decimal(runIndex), "skipped_budget",
               None, [], 0, None, runIndex, None, item.metadata)
  }

  /** The record of a run the cap turned away: its ids and that status, and nothing else. */
  lemma SkipTells(item: BatchItem, runIndex: nat)
    ensures var t := SkippedBudget(item, runIndex);
            && t.itemId == item.itemId && t.runIndex == runIndex && t.metadata == item.metadata
            && t.status == "skipped_budget" && t.error == None && t.costUsd == None
            && t.answer == None && t.toolNames == [] && t.totalTokens == 0
            && t.runId == "batch_" + item.itemId + "_" + Decimal(runIndex)
  {
  }

  /** `trajectory.cost_usd or 0.0`. */
  function Charge(t: Trajectory): real {
    match t.costUsd
    case None => 0.0
    case Some(c) => c
  }

  // ---------------------------------------------------------------- report

  datatype BatchReport = BatchReport(
    total: nat,
    completed: nat,
    failed: nat,
    skippedResumed: nat,
    counts: Counts)

  /** The counters the report fills in one pass over the trajectories. */
  datatype Counts = Counts(
    byStatus: map<string, nat>,
    toolUsage: map<string, nat>,
    policyDecisions: map<string, nat>,
    traceViolations: map<string, nat>,
    totalTokens: nat)

  /** How many of the first `k` trajectories carry a status of `statuses`. */
  function StatusCount(ts: seq<Trajectory>, k: nat, statuses: set<string>): nat
    requires k <= |ts|
  {
    if k == 0 then 0
    else StatusCount(ts, k - 1, statuses) + (if ts[k - 1].status in statuses then 1 else 0)
  }

  function TokenSum(ts: seq<Trajectory>, k: nat): nat
    requires k <= |ts|
  {
    if k == 0 then 0 else TokenSum(ts, k - 1) + ts[k - 1].totalTokens
  }

  /** How often `name` occurs among the first `k` names. */
  function Occurrences(names: seq<string>, k: nat, name: string): nat
    requires k <= |names|
  {
    if k == 0 then 0 else Occurrences(names, k - 1, name) + (if names[k - 1] == name then 1 else 0)
  }

  /** How often `name` occurs in what `f` gives for the first `k` trajectories. */
  function OccurrencesIn(f: Trajectory -> seq<string>, ts: seq<Trajectory>, k: nat, name: string): nat
    requires k <= |ts|
  {
    if k == 0 then 0
    else OccurrencesIn(f, ts, k - 1, name) + Occurrences(f(ts[k - 1]), |f(ts[k - 1])|, name)
  }

  function ToolsOf(t: Trajectory): seq<string> {
    t.toolNames
  }

  function DecisionsOf(t: Trajectory): seq<string> {
    t.metadata.decisions
  }

  function ViolationsOf(t: Trajectory): seq<string> {
    t.metadata.violations
  }

  /** `counter.get(key, 0)`. */
  function Tally(counter: map<string, nat>, key: string): nat {
    if key in counter then counter[key] else 0
  }

  lemma {:induction false} StatusCountSplit(ts: seq<Trajectory>, k: nat, a: set<string>, b: set<string>)
    requires k <= |ts| && a !! b
    ensures StatusCount(ts, k, a + b) == StatusCount(ts, k, a) + StatusCount(ts, k, b)
  {
    if k > 0 {
      StatusCountSplit(ts, k - 1, a, b);
    }
  }

  lemma {:induction false} StatusCountAll(ts: seq<Trajectory>, k: nat, statuses: set<string>)
    requires k <= |ts| && forall i :: 0 <= i < k ==> ts[i].status in statuses
    ensures StatusCount(ts, k, statuses) == k
  {
    if k > 0 {
      StatusCountAll(ts, k - 1, statuses);
    }
  }

  lemma {:induction false} StatusCountNone(ts: seq<Trajectory>, k: nat, statuses: set<string>)
    requires k <= |ts| && forall i :: 0 <= i < k ==> ts[i].status !in statuses
    ensures StatusCount(ts, k, statuses) == 0
  {
    if k > 0 {
      StatusCountNone(ts, k - 1, statuses);
    }
  }

  /** The Counter invariant: exactly the statuses seen, each with its number of trajectories. */
  ghost predicate IsHistogram(ts: seq<Trajectory>, k: nat, byStatus: map<string, nat>)
    requires k <= |ts|
  {
    && (forall i :: 0 <= i < k ==> ts[i].status in byStatus)
    && (forall s :: s in byStatus ==> byStatus[s] == StatusCount(ts, k, {s}) && byStatus[s] > 0)
  }

  /** `counter` holds how often each name occurs in what `f` gives for the first `k` trajectories. */
  ghost predicate IsCounter(f: Trajectory -> seq<string>, ts: seq<Trajectory>, k: nat, counter: map<string, nat>)
    requires k <= |ts|
  {
    forall name :: Tally(counter, name) == OccurrencesIn(f, ts, k, name)
  }

  /** The counters count exactly what the first `k` trajectories hold. */
  ghost predicate CountsAll(ts: seq<Trajectory>, k: nat, c: Counts)
    requires k <= |ts|
  {
    && IsHistogram(ts, k, c.byStatus)
    && IsCounter(ToolsOf, ts, k, c.toolUsage)
    && IsCounter(DecisionsOf, ts, k, c.policyDecisions)
    && IsCounter(ViolationsOf, ts, k, c.traceViolations)
    && c.totalTokens == TokenSum(ts, k)
  }

  method FromTrajectories(ts: seq<Trajectory>, skippedResumed: nat) returns (r: BatchReport)
    ensures r.total == |ts| && r.skippedResumed == skippedResumed
    ensures r.completed == StatusCount(ts, |ts|, {"completed"})
    ensures r.completed + r.failed == r.total
    ensures CountsAll(ts, |ts|, r.counts)
  {
    var counts := Counts(map[], map[], map[], map[], 0);
    for i := 0 to |ts|
      invariant CountsAll(ts, i, counts)
    {
      counts := CountOne(ts, i, counts);
    }
    TallyOfStatus(ts, |ts|, counts.byStatus, "completed");
    var failed := FailedOf(ts, counts.byStatus);
    r := BatchReport(|ts|, Tally(counts.byStatus, "completed"), failed, skippedResumed, counts);
  }

  /** One turn of the loop. */
  method CountOne(ts: seq<Trajectory>, i: nat, c: Counts) returns (r: Counts)
    requires i < |ts| && CountsAll(ts, i, c)
    ensures CountsAll(ts, i + 1, r)
  {
    var t := ts[i];
    HistogramStep(ts, i, c.byStatus);
    var byStatus := c.byStatus[t.status := Tally(c.byStatus, t.status) + 1];
    var toolUsage := AddAll(ToolsOf, ts, i, c.toolUsage);
    var decisions := AddAll(DecisionsOf, ts, i, c.policyDecisions);
    var violations := AddAll(ViolationsOf, ts, i, c.traceViolations);
    r := Counts(byStatus, toolUsage, decisions, violations, c.totalTokens + t.totalTokens);
  }

  lemma HistogramStep(ts: seq<Trajectory>, i: nat, byStatus: map<string, nat>)
    requires i < |ts| && IsHistogram(ts, i, byStatus)
    ensures IsHistogram(ts, i + 1, byStatus[ts[i].status := Tally(byStatus, ts[i].status) + 1])
  {
    TallyOfStatus(ts, i, byStatus, ts[i].status);
  }

  lemma TallyOfStatus(ts: seq<Trajectory>, k: nat, byStatus: map<string, nat>, s: string)
    requires k <= |ts| && IsHistogram(ts, k, byStatus)
    ensures Tally(byStatus, s) == StatusCount(ts, k, {s})
  {
    if s !in byStatus {
      StatusCountNone(ts, k, {s});
    }
  }

  /** `counter[name] += 1` for every name of trajectory `i`. */
  method AddAll(f: Trajectory -> seq<string>, ts: seq<Trajectory>, i: nat, counter: map<string, nat>)
    returns (r: map<string, nat>)
    requires i < |ts| && IsCounter(f, ts, i, counter)
    ensures IsCounter(f, ts, i + 1, r)
  {
    var names := f(ts[i]);
    r := counter;
    for j := 0 to |names|
      invariant forall name :: Tally(r, name) == Tally(counter, name) + Occurrences(names, j, name)
    {
      r := r[names[j] := Tally(r, names[j]) + 1];
    }
  }

  /** The sum of the histogram over every status but "completed", in any iteration order. */
  method FailedOf(ts: seq<Trajectory>, byStatus: map<string, nat>) returns (failed: nat)
    requires IsHistogram(ts, |ts|, byStatus)
    ensures failed + StatusCount(ts, |ts|, {"completed"}) == |ts|
  {
    failed := 0;
    var left := byStatus.Keys - {"completed"};
    ghost var done := {};
    StatusCountNone(ts, |ts|, done);
    while left != {}
      invariant done !! left && done + left == byStatus.Keys - {"completed"}
      invariant failed == StatusCount(ts, |ts|, done)
      decreases left
    {
      var s :| s in left;
      StatusCountSplit(ts, |ts|, done, {s});
      failed := failed + byStatus[s];
      left, done := left - {s}, done + {s};
    }
    StatusCountSplit(ts, |ts|, done, {"completed"});
    StatusCountAll(ts, |ts|, done + {"completed"});
  }

  // ---------------------------------------------------------------- store

  /** The ids of the items already recorded. */
  function ItemIds(ts: seq<Trajectory>): set<string> {
    set i | 0 <= i < |ts| :: ts[i].itemId
  }

  class InMemoryTrajectoryStore {
    var items: seq<Trajectory>

    constructor ()
      ensures items == []
    {
      items := [];
    }

    method Append(t: Trajectory)
      modifies this
      ensures items == old(items) + [t]
      ensures ItemIds(items) == old(ItemIds(items)) + {t.itemId}
    {
      items := items + [t];
      ItemIdsAppend(old(items), t);
    }
  }

  lemma ItemIdsAppend(ts: seq<Trajectory>, t: Trajectory)
    ensures ItemIds(ts + [t]) == ItemIds(ts) + {t.itemId}
  {
    assert (ts + [t])[|ts|] == t;
    forall id | id in ItemIds(ts) ensures id in ItemIds(ts + [t]) {
      var i :| 0 <= i < |ts| && ts[i].itemId == id;
      assert (ts + [t])[i].itemId == id;
    }
  }
}
