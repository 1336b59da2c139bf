/**
  * The concurrent core of `BatchRunner.run` (agent_driver/batch/runner.py) as a step system.
  *
  * Each task moves Waiting -> Granted -> InFlight -> Done -> Recorded, or Granted -> Done when the
  * cap turns it away. A step is a stretch of code between two awaits, or less: taking the semaphore
  * slot, checking the cap, charging the cost and appending to the store are steps of their own, so
  * every interleaving of the source is a run here.
  */
module BatchScheduler {
  import opened Prelude
  import opened BatchContracts

  datatype Task = Task(item: BatchItem, runIndex: nat)

  datatype Phase =
    | Waiting                                       // queued on the semaphore
    | Granted                                       // holds a slot, cap not checked yet
    | InFlight                                      // holds a slot, awaiting the agent
    | Done(result: Trajectory, queried: bool)       // slot released, not in the store yet
    | Recorded(result: Trajectory, queried: bool)   // appended to the store

  datatype Config = Config(concurrency: nat, cap: Option<real>, tasks: seq<Task>)

  /** `log` is what this batch has appended to the store, in order. */
  datatype State = State(phases: seq<Phase>, spent: real, log: seq<Trajectory>)

  datatype Step =
    | Grant(i: nat)
    | Start(i: nat)
    | Skip(i: nat)
    | Finish(i: nat, outcome: Trajectory)
    | Record(i: nat)

  function HoldsSlot(p: Phase): int {
    if p.Granted? || p.InFlight? then 1 else 0
  }

  function IsInFlight(p: Phase): int {
    if p.InFlight? then 1 else 0
  }

  predicate HasResult(p: Phase) {
    p.Done? || p.Recorded?
  }

  /** The agent was asked on behalf of this task. */
  predicate Queried(p: Phase) {
    p.InFlight? || (HasResult(p) && p.queried)
  }

  function ChargeOf(p: Phase): real {
    if HasResult(p) then Charge(p.result) else 0.0
  }

  function SlotsInUse(s: State): int {
    SumOf(HoldsSlot, s.phases)
  }

  function RunsInFlight(s: State): int {
    SumOf(IsInFlight, s.phases)
  }

  predicate CapReached(c: Config, s: State) {
    c.cap.Some? && s.spent >= c.cap.value
  }

  predicate IsFor(t: Trajectory, task: Task) {
    t.itemId == task.item.itemId && t.runIndex == task.runIndex
  }

  function Init(c: Config): State {
    State(seq(|c.tasks|, _ => Waiting), 0.0, [])
  }

  predicate Enabled(c: Config, s: State, step: Step) {
    && |s.phases| == |c.tasks|
    && step.i < |s.phases|
    && match step
       case Grant(i) => s.phases[i].Waiting? && SlotsInUse(s) < c.concurrency
       case Start(i) => s.phases[i].Granted? && !CapReached(c, s)
       case Skip(i) => s.phases[i].Granted? && CapReached(c, s)
       case Finish(i, outcome) => s.phases[i].InFlight? && IsFor(outcome, c.tasks[i])
       case Record(i) => s.phases[i].Done?
  }

  function Apply(c: Config, s: State, step: Step): State
    requires Enabled(c, s, step)
  {
    var i := step.i;
    match step
    case Grant(_) => s.(phases := s.phases[i := Granted])
    case Start(_) => s.(phases := s.phases[i := InFlight])
    case Skip(_) =>
      s.(phases := s.phases[i := Done(SkippedBudget(c.tasks[i].item, c.tasks[i].runIndex), false)])
    case Finish(_, outcome) =>
      s.(phases := s.phases[i := Done(outcome, true)], spent := s.spent + Charge(outcome))
    case Record(_) =>
      s.(phases := s.phases[i := Recorded(s.phases[i].result, s.phases[i].queried)],
         log := s.log + [s.phases[i].result])
  }

  /** A run: any sequence of enabled steps from the initial state. */
  ghost predicate IsRun(c: Config, states: seq<State>, steps: seq<Step>) {
    && |states| == |steps| + 1
    && states[0] == Init(c)
    && forall k :: 0 <= k < |steps| ==> IsTransition(c, states[k], steps[k], states[k + 1])
  }

  ghost predicate IsTransition(c: Config, s: State, step: Step, s': State) {
    Enabled(c, s, step) && s' == Apply(c, s, step)
  }

  predicate Complete(s: State) {
    forall i :: 0 <= i < |s.phases| ==> s.phases[i].Recorded?
  }

  // ---------------------------------------------------------------- bookkeeping invariant

  /** The results of the recorded tasks, with multiplicity. */
  ghost function RecordedResults(ps: seq<Phase>): multiset<Trajectory> {
    if ps == [] then multiset{}
    else
      var p := ps[|ps| - 1];
      RecordedResults(ps[..|ps| - 1]) + (if p.Recorded? then multiset{p.result} else multiset{})
  }

  ghost predicate ResultsMatch(c: Config, s: State) {
    && |s.phases| == |c.tasks|
    && forall i :: 0 <= i < |s.phases| && HasResult(s.phases[i]) ==>
         && IsFor(s.phases[i].result, c.tasks[i])
         && (!s.phases[i].queried ==>
              s.phases[i].result == SkippedBudget(c.tasks[i].item, c.tasks[i].runIndex))
  }

  ghost predicate Consistent(c: Config, s: State) {
    && ResultsMatch(c, s)
    && SlotsInUse(s) <= c.concurrency
    && s.spent == RealSumOf(ChargeOf, s.phases)
    && multiset(s.log) == RecordedResults(s.phases)
  }

  lemma {:induction false} RecordedUpdate(ps: seq<Phase>, i: nat, p: Phase)
    requires i < |ps| && !ps[i].Recorded?
    ensures RecordedResults(ps[i := p]) ==
            RecordedResults(ps) + (if p.Recorded? then multiset{p.result} else multiset{})
  {
    var n := |ps| - 1;
    if i == n {
      assert ps[i := p][..n] == ps[..n];
    } else {
      RecordedUpdate(ps[..n], i, p);
      assert ps[i := p][..n] == ps[..n][i := p];
    }
  }

  lemma {:induction false} InitIsConsistent(c: Config)
    ensures Consistent(c, Init(c))
    ensures RunsInFlight(Init(c)) == 0
  {
    AllWaiting(Init(c).phases);
  }

  lemma {:induction false} AllWaiting(ps: seq<Phase>)
    requires forall i :: 0 <= i < |ps| ==> ps[i] == Waiting
    ensures SumOf(HoldsSlot, ps) == 0 && SumOf(IsInFlight, ps) == 0
    ensures RealSumOf(ChargeOf, ps) == 0.0 && RecordedResults(ps) == multiset{}
  {
    if ps != [] {
      AllWaiting(ps[..|ps| - 1]);
    }
  }

  lemma StepKeepsResults(c: Config, s: State, step: Step)
    requires ResultsMatch(c, s) && Enabled(c, s, step)
    ensures ResultsMatch(c, Apply(c, s, step))
  {
  }

  lemma StepKeepsSlots(c: Config, s: State, step: Step)
    requires SlotsInUse(s) <= c.concurrency && Enabled(c, s, step)
    ensures SlotsInUse(Apply(c, s, step)) <= c.concurrency
  {
    SumUpdate(HoldsSlot, s.phases, step.i, Apply(c, s, step).phases[step.i]);
  }

  lemma StepKeepsSpend(c: Config, s: State, step: Step)
    requires s.spent == RealSumOf(ChargeOf, s.phases) && Enabled(c, s, step)
    ensures Apply(c, s, step).spent == RealSumOf(ChargeOf, Apply(c, s, step).phases)
  {
    RealSumUpdate(ChargeOf, s.phases, step.i, Apply(c, s, step).phases[step.i]);
  }

  lemma StepKeepsLog(c: Config, s: State, step: Step)
    requires multiset(s.log) == RecordedResults(s.phases) && Enabled(c, s, step)
    ensures multiset(Apply(c, s, step).log) == RecordedResults(Apply(c, s, step).phases)
  {
    RecordedUpdate(s.phases, step.i, Apply(c, s, step).phases[step.i]);
  }

  lemma StepKeepsConsistent(c: Config, s: State, step: Step)
    requires Consistent(c, s) && Enabled(c, s, step)
    ensures Consistent(c, Apply(c, s, step))
  {
    StepKeepsResults(c, s, step);
    StepKeepsSlots(c, s, step);
    StepKeepsSpend(c, s, step);
    StepKeepsLog(c, s, step);
  }

  lemma {:induction false} RunIsConsistent(c: Config, states: seq<State>, steps: seq<Step>, k: nat)
    requires IsRun(c, states, steps) && k < |states|
    ensures Consistent(c, states[k])
  {
    if k == 0 {
      InitIsConsistent(c);
    } else {
      RunIsConsistent(c, states, steps, k - 1);
      assert IsTransition(c, states[k - 1], steps[k - 1], states[k]);
      StepKeepsConsistent(c, states[k - 1], steps[k - 1]);
    }
  }

  // ---------------------------------------------------------------- spend bound

  /** Every query of the run costs at least nothing and at most `m`. */
  ghost predicate Priced(steps: seq<Step>, m: real) {
    forall k :: 0 <= k < |steps| && steps[k].Finish? ==> 0.0 <= Charge(steps[k].outcome) <= m
  }

  /** Either nothing was ever started, or spend plus the worst the runs in flight can add is below the bound. */
  ghost predicate Budgeted(c: Config, s: State, m: real) {
    c.cap.Some? ==>
      || (RunsInFlight(s) == 0 && s.spent == 0.0)
      || s.spent + RunsInFlight(s) as real * m < c.cap.value + c.concurrency as real * m
  }

  lemma {:induction false} InFlightHoldsSlot(ps: seq<Phase>)
    ensures 0 <= SumOf(IsInFlight, ps) <= SumOf(HoldsSlot, ps)
  {
    if ps != [] {
      InFlightHoldsSlot(ps[..|ps| - 1]);
    }
  }

  /** Admitting a run under the cap keeps the bound: at most `slots` runs are then in flight. */
  lemma StartFits(spent: real, cap: real, inFlight: real, slots: real, m: real)
    requires spent < cap && inFlight <= slots && 0.0 <= m
    ensures spent + inFlight * m < cap + slots * m
  {
    Scale(inFlight, slots, m);
  }

  /** A finishing run turns at most `m` of exposure into spend. */
  lemma FinishFits(spent: real, cost: real, before: real, after: real, m: real)
    requires cost <= m && after == before - 1.0
    ensures spent + cost + after * m <= spent + before * m
  {
    Difference(1.0, before, m);
  }

  lemma InFlightStep(c: Config, s: State, step: Step)
    requires Consistent(c, s) && Enabled(c, s, step)
    ensures RunsInFlight(Apply(c, s, step)) ==
            RunsInFlight(s) + (if step.Start? then 1 else if step.Finish? then -1 else 0)
    ensures 0 <= RunsInFlight(s) && 0 <= RunsInFlight(Apply(c, s, step)) <= c.concurrency
  {
    var s' := Apply(c, s, step);
    SumUpdate(IsInFlight, s.phases, step.i, s'.phases[step.i]);
    StepKeepsConsistent(c, s, step);
    InFlightHoldsSlot(s.phases);
    InFlightHoldsSlot(s'.phases);
  }

  lemma StepKeepsBudget(c: Config, s: State, step: Step, m: real)
    requires Consistent(c, s) && Enabled(c, s, step) && 0.0 <= m
    requires step.Finish? ==> 0.0 <= Charge(step.outcome) <= m
    requires Budgeted(c, s, m)
    ensures Budgeted(c, Apply(c, s, step), m)
  {
    InFlightStep(c, s, step);
    if step.Start? && c.cap.Some? {
      StartFits(s.spent, c.cap.value, (RunsInFlight(s) + 1) as real, c.concurrency as real, m);
    } else if step.Finish? {
      FinishFits(s.spent, Charge(step.outcome), RunsInFlight(s) as real, (RunsInFlight(s) - 1) as real, m);
    }
  }

  lemma {:induction false} RunIsBudgeted(c: Config, states: seq<State>, steps: seq<Step>, m: real, k: nat)
    requires IsRun(c, states, steps) && Priced(steps, m) && 0.0 <= m && k < |states|
    ensures Budgeted(c, states[k], m)
  {
    if k == 0 {
      InitIsConsistent(c);
    } else {
      RunIsBudgeted(c, states, steps, m, k - 1);
      RunIsConsistent(c, states, steps, k - 1);
      assert IsTransition(c, states[k - 1], steps[k - 1], states[k]);
      StepKeepsBudget(c, states[k - 1], steps[k - 1], m);
    }
  }

  /**
    * Over every interleaving the spend stays below the cap plus one wave of runs, and is exactly the
    * sum of the finished runs' costs.
    */
  lemma SpendBound(c: Config, states: seq<State>, steps: seq<Step>, m: real, k: nat)
    requires IsRun(c, states, steps) && Priced(steps, m) && 0.0 <= m && k < |states|
    ensures states[k].spent == RealSumOf(ChargeOf, states[k].phases)
    ensures c.cap.Some? && c.cap.value > 0.0 ==>
              states[k].spent < c.cap.value + c.concurrency as real * m
    ensures c.cap.Some? && c.cap.value <= 0.0 ==> states[k].spent == 0.0
  {
    RunIsConsistent(c, states, steps, k);
    RunIsBudgeted(c, states, steps, m, k);
    InFlightHoldsSlot(states[k].phases);
    Scale(0.0, RunsInFlight(states[k]) as real, m);
    Scale(0.0, c.concurrency as real, m);
    if c.cap.Some? && c.cap.value <= 0.0 {
      ClosedCapStartsNothing(c, states, steps, k);
    }
  }

  /** A cap of zero or less lets no run start. */
  lemma {:induction false} ClosedCapStartsNothing(c: Config, states: seq<State>, steps: seq<Step>, k: nat)
    requires IsRun(c, states, steps) && k < |states|
    requires c.cap.Some? && c.cap.value <= 0.0
    ensures states[k].spent == 0.0
    ensures forall i :: 0 <= i < |states[k].phases| ==> !Queried(states[k].phases[i])
  {
    if k > 0 {
      ClosedCapStartsNothing(c, states, steps, k - 1);
      assert IsTransition(c, states[k - 1], steps[k - 1], states[k]);
    }
  }

  lemma RunExtends(c: Config, states: seq<State>, steps: seq<Step>, step: Step, s': State)
    requires IsRun(c, states, steps) && IsTransition(c, states[|steps|], step, s')
    ensures IsRun(c, states + [s'], steps + [step])
  {
  }

  /** A trajectory of task `t` costing `m`. */
  function PricedResult(t: Task, m: real): Trajectory {
    FromError(t.item, t.runIndex, "", "").(costUsd := Some(m))
  }

  /** `n` equal tasks. */
  function EqualTasks(slots: nat, cap: real, n: nat): Config {
    Config(slots, Some(cap), seq(n, i => Task(BatchItem("", "", Metadata("", [], [])), 0)))
  }

  ghost predicate AllFrom(s: State, from: nat, p: Phase) {
    forall k :: from <= k < |s.phases| ==> s.phases[k] == p
  }

  ghost predicate AllBetween(s: State, from: nat, until: nat, p: Phase) {
    until <= |s.phases| && forall k :: from <= k < until ==> s.phases[k] == p
  }

  ghost predicate RecordedBefore(s: State, until: nat) {
    until <= |s.phases| && forall k :: 0 <= k < until ==> s.phases[k].Recorded?
  }

  lemma Extend(c: Config, states: seq<State>, steps: seq<Step>, step: Step)
    returns (states': seq<State>, steps': seq<Step>)
    requires IsRun(c, states, steps) && Enabled(c, states[|steps|], step)
    ensures steps' == steps + [step] && states' == states + [Apply(c, states[|steps|], step)]
    ensures IsRun(c, states', steps')
  {
    var s' := Apply(c, states[|steps|], step);
    RunExtends(c, states, steps, step, s');
    states', steps' := states + [s'], steps + [step];
  }

  /** Task `i` takes a free slot and passes the cap check. */
  lemma Admit(c: Config, states: seq<State>, steps: seq<Step>, i: nat)
    returns (states': seq<State>, steps': seq<Step>)
    requires IsRun(c, states, steps) && Enabled(c, states[|steps|], Grant(i)) && !CapReached(c, states[|steps|])
    ensures IsRun(c, states', steps') && steps' == steps + [Grant(i), Start(i)]
    ensures var s, s' := states[|steps|], states'[|steps'|];
            s' == s.(phases := s.phases[i := InFlight]) && SlotsInUse(s') == SlotsInUse(s) + 1
  {
    var s := states[|steps|];
    SumUpdate(HoldsSlot, s.phases, i, InFlight);
    states', steps' := Extend(c, states, steps, Grant(i));
    states', steps' := Extend(c, states', steps', Start(i));
    assert s.phases[i := Granted][i := InFlight] == s.phases[i := InFlight];
  }

  /** Task `i` returns at a cost of `q`, gives its slot back and is recorded, as the event loop does in one go. */
  lemma Settle(c: Config, states: seq<State>, steps: seq<Step>, i: nat, q: real)
    returns (states': seq<State>, steps': seq<Step>)
    requires IsRun(c, states, steps) && i < |c.tasks| == |states[|steps|].phases|
    requires states[|steps|].phases[i].InFlight? && 0.0 <= q && Priced(steps, q)
    ensures IsRun(c, states', steps') && Priced(steps', q)
    ensures var s, s', t := states[|steps|], states'[|steps'|], PricedResult(c.tasks[i], q);
            && s' == State(s.phases[i := Recorded(t, true)], s.spent + q, s.log + [t])
            && SlotsInUse(s') == SlotsInUse(s) - 1
  {
    var s, t := states[|steps|], PricedResult(c.tasks[i], q);
    SumUpdate(HoldsSlot, s.phases, i, Recorded(t, true));
    states', steps' := Extend(c, states, steps, Finish(i, t));
    assert Priced(steps', q);
    states', steps' := Extend(c, states', steps', Record(i));
    assert s.phases[i := Done(t, true)][i := Recorded(t, true)] == s.phases[i := Recorded(t, true)];
  }

  /** The first wave: every slot is taken before any run is charged. */
  lemma WaveStarts(c: Config) returns (states: seq<State>, steps: seq<Step>)
    requires c.concurrency <= |c.tasks| && c.cap.Some? && 0.0 < c.cap.value
    ensures IsRun(c, states, steps) && Priced(steps, 0.0)
    ensures var s := states[|steps|]; |s.phases| == |c.tasks| && s.spent == 0.0 && SlotsInUse(s) == c.concurrency
    ensures AllBetween(states[|steps|], 0, c.concurrency, InFlight) && AllFrom(states[|steps|], c.concurrency, Waiting)
  {
    states, steps := [Init(c)], [];
    AllWaiting(Init(c).phases);
    for i := 0 to c.concurrency
      invariant IsRun(c, states, steps) && Priced(steps, 0.0)
      invariant var s := states[|steps|]; |s.phases| == |c.tasks| && s.spent == 0.0 && SlotsInUse(s) == i
      invariant AllBetween(states[|steps|], 0, i, InFlight) && AllFrom(states[|steps|], i, Waiting)
    {
      states, steps := Admit(c, states, steps, i);
    }
  }

  lemma PricedBelow(steps: seq<Step>, q: real, m: real)
    requires Priced(steps, q) && q <= m
    ensures Priced(steps, m)
  {
  }

  /** After the first wave `n` runs return at a cost of `q`, each making room for the next task in line. */
  lemma {:induction false} WaveMovesOn(c: Config, n: nat, q: real) returns (states: seq<State>, steps: seq<Step>)
    requires |c.tasks| >= n + c.concurrency && c.concurrency >= 1 && 0.0 <= q
    requires c.cap.Some? && n as real * q < c.cap.value
    ensures IsRun(c, states, steps) && Priced(steps, q)
    ensures var s := states[|steps|];
            |s.phases| == |c.tasks| && s.spent == n as real * q && SlotsInUse(s) == c.concurrency
    ensures RecordedBefore(states[|steps|], n) && AllBetween(states[|steps|], n, n + c.concurrency, InFlight)
    ensures AllFrom(states[|steps|], n + c.concurrency, Waiting)
  {
    if n == 0 {
      states, steps := WaveStarts(c);
      PricedBelow(steps, 0.0, q);
    } else {
      Difference((n - 1) as real, n as real, q);
      states, steps := WaveMovesOn(c, n - 1, q);
      states, steps := Settle(c, states, steps, n - 1, q);
      states, steps := AdmitNext(c, states, steps, n - 1 + c.concurrency, q);
    }
  }

  /** The next task in line takes the slot just given back. */
  lemma AdmitNext(c: Config, states: seq<State>, steps: seq<Step>, i: nat, q: real)
    returns (states': seq<State>, steps': seq<Step>)
    requires IsRun(c, states, steps) && Priced(steps, q)
    requires Enabled(c, states[|steps|], Grant(i)) && !CapReached(c, states[|steps|])
    ensures IsRun(c, states', steps') && Priced(steps', q)
    ensures var s, s' := states[|steps|], states'[|steps'|];
            s' == s.(phases := s.phases[i := InFlight]) && SlotsInUse(s') == SlotsInUse(s) + 1
  {
    states', steps' := Admit(c, states, steps, i);
  }

  /** Then the first `i` runs of the wave in flight return at a cost of `m`. */
  lemma {:induction false} WaveReturns(c: Config, n: nat, q: real, m: real, i: nat)
    returns (states: seq<State>, steps: seq<Step>)
    requires i <= c.concurrency && |c.tasks| == n + c.concurrency && c.concurrency >= 1 && 0.0 <= q <= m
    requires c.cap.Some? && n as real * q < c.cap.value
    ensures IsRun(c, states, steps) && Priced(steps, m)
    ensures var s := states[|steps|]; |s.phases| == |c.tasks| && s.spent == n as real * q + i as real * m
    ensures RecordedBefore(states[|steps|], n + i) && AllFrom(states[|steps|], n + i, InFlight)
  {
    if i == 0 {
      states, steps := WaveMovesOn(c, n, q);
      PricedBelow(steps, q, m);
    } else {
      Difference((i - 1) as real, i as real, m);
      states, steps := WaveReturns(c, n, q, m, i - 1);
      states, steps := Settle(c, states, steps, n + i - 1, m);
    }
  }

  /** After `n` runs of cost `q` that leave the cap open, the wave then in flight can still cost `m` each. */
  lemma WaveOvershoots(slots: nat, cap: real, m: real, n: nat, q: real)
    returns (states: seq<State>, steps: seq<Step>)
    requires slots >= 1 && 0.0 <= q <= m && n as real * q < cap
    ensures IsRun(EqualTasks(slots, cap, n + slots), states, steps) && Priced(steps, m)
    ensures Complete(states[|steps|]) && states[|steps|].spent == n as real * q + slots as real * m
  {
    states, steps := WaveReturns(EqualTasks(slots, cap, n + slots), n, q, m, slots);
  }

  /** Splits an amount into equal payments of at most `m`. */
  lemma Payments(amount: real, m: real) returns (n: nat, q: real)
    requires amount > 0.0 && m > 0.0
    ensures 0.0 <= q <= m && n as real * q == amount
  {
    RealQuotient(amount, m);
    RealCancel(0.0, amount / m, m);
    n := (amount / m).Floor + 1;
    RealCancel(amount / m, n as real, m);
    q := EqualShare(amount, n as real, m);
  }

  lemma EqualShare(amount: real, k: real, m: real) returns (q: real)
    requires 0.0 < amount < k * m && 0.0 < k
    ensures 0.0 <= q <= m && k * q == amount
  {
    q := amount / k;
    RealQuotient(amount, k);
    RealCancel(q, m, k);
    RealCancel(0.0, q, k);
  }

  /** The spend bound is tight even for finished batches: nothing below the cap plus one wave bounds the spend of every run. */
  lemma SpendBoundIsTight(slots: nat, cap: real, m: real, below: real)
    returns (c: Config, states: seq<State>, steps: seq<Step>)
    requires slots >= 1 && cap > 0.0 && m > 0.0
    requires below < cap + slots as real * m
    ensures c.concurrency == slots && c.cap == Some(cap)
    ensures IsRun(c, states, steps) && Priced(steps, m)
    ensures Complete(states[|steps|]) && states[|steps|].spent > below
  {
    var wave := slots as real * m;
    var least := if below > wave then below - wave else 0.0;
    var amount := (least + cap) / 2.0;
    var n, q := Payments(amount, m);
    c := EqualTasks(slots, cap, n + slots);
    states, steps := WaveOvershoots(slots, cap, m, n, q);
  }

  // ---------------------------------------------------------------- no query after a skip

  ghost predicate SomeSkipped(s: State) {
    exists i :: 0 <= i < |s.phases| && HasResult(s.phases[i]) && !s.phases[i].queried
  }

  lemma {:induction false} SpendOnlyGrows(c: Config, states: seq<State>, steps: seq<Step>, m: real, j: nat, k: nat)
    requires IsRun(c, states, steps) && Priced(steps, m) && j <= k < |states|
    ensures states[j].spent <= states[k].spent
  {
    if j < k {
      SpendOnlyGrows(c, states, steps, m, j, k - 1);
      assert IsTransition(c, states[k - 1], steps[k - 1], states[k]);
    }
  }

  lemma {:induction false} SkipMeansCapReached(c: Config, states: seq<State>, steps: seq<Step>, m: real, k: nat)
    requires IsRun(c, states, steps) && Priced(steps, m) && k < |states|
    ensures SomeSkipped(states[k]) ==> CapReached(c, states[k])
  {
    if k > 0 && SomeSkipped(states[k]) {
      SkipMeansCapReached(c, states, steps, m, k - 1);
      SpendOnlyGrows(c, states, steps, m, k - 1, k);
      assert IsTransition(c, states[k - 1], steps[k - 1], states[k]);
      var i :| 0 <= i < |states[k].phases| && HasResult(states[k].phases[i]) && !states[k].phases[i].queried;
      if !steps[k - 1].Skip? {
        assert HasResult(states[k - 1].phases[i]) && !states[k - 1].phases[i].queried;
      }
    }
  }

  /** Once one run was skipped for budget, no further task ever queries the agent. */
  lemma {:induction false} NoQueryAfterSkip(
    c: Config, states: seq<State>, steps: seq<Step>, m: real, j: nat, k: nat, i: nat)
    requires IsRun(c, states, steps) && Priced(steps, m) && j <= k < |states|
    requires SomeSkipped(states[j])
    requires i < |c.tasks|
    ensures |states[j].phases| == |states[k].phases| == |c.tasks|
    ensures Queried(states[k].phases[i]) <==> Queried(states[j].phases[i])
  {
    RunIsConsistent(c, states, steps, j);
    if j < k {
      NoQueryAfterSkip(c, states, steps, m, j, k - 1, i);
      SkipMeansCapReached(c, states, steps, m, j);
      SpendOnlyGrows(c, states, steps, m, j, k - 1);
      assert IsTransition(c, states[k - 1], steps[k - 1], states[k]);
      NothingStarts(c, states[k - 1], steps[k - 1], i);
    }
  }

  lemma NothingStarts(c: Config, s: State, step: Step, i: nat)
    requires Enabled(c, s, step) && CapReached(c, s) && i < |c.tasks|
    ensures |Apply(c, s, step).phases| == |c.tasks|
    ensures Queried(Apply(c, s, step).phases[i]) <==> Queried(s.phases[i])
  {
  }

  // ---------------------------------------------------------------- progress

  function StepsLeft(p: Phase): int {
    match p
    case Waiting => 4
    case Granted => 3
    case InFlight => 2
    case Done(_, _) => 1
    case Recorded(_, _) => 0
  }

  /** Every run is finite: at most four steps per task. */
  lemma {:induction false} RunLength(c: Config, states: seq<State>, steps: seq<Step>, k: nat)
    requires IsRun(c, states, steps) && k < |states|
    ensures k + SumOf(StepsLeft, states[k].phases) <= 4 * |c.tasks|
    ensures k <= 4 * |c.tasks|
  {
    SumNonNegative(StepsLeft, states[k].phases);
    if k == 0 {
      FourEach(states[0].phases);
    } else {
      RunLength(c, states, steps, k - 1);
      assert IsTransition(c, states[k - 1], steps[k - 1], states[k]);
      var i := steps[k - 1].i;
      SumUpdate(StepsLeft, states[k - 1].phases, i, states[k].phases[i]);
    }
  }

  lemma {:induction false} FourEach(ps: seq<Phase>)
    requires forall i :: 0 <= i < |ps| ==> ps[i] == Waiting
    ensures SumOf(StepsLeft, ps) == 4 * |ps|
  {
    if ps != [] {
      FourEach(ps[..|ps| - 1]);
    }
  }

  lemma {:induction false} NoHolders(ps: seq<Phase>)
    requires forall i :: 0 <= i < |ps| ==> HoldsSlot(ps[i]) == 0
    ensures SumOf(HoldsSlot, ps) == 0
  {
    if ps != [] {
      NoHolders(ps[..|ps| - 1]);
    }
  }

  /** No schedule deadlocks: the batch can move exactly when some task is not recorded. */
  lemma Progress(c: Config, s: State)
    requires Consistent(c, s) && c.concurrency >= 1
    ensures (exists step :: Enabled(c, s, step)) <==> !Complete(s)
  {
    if !Complete(s) {
      var step := NextStep(c, s);
    }
  }

  lemma NextStep(c: Config, s: State) returns (step: Step)
    requires Consistent(c, s) && c.concurrency >= 1 && !Complete(s)
    ensures Enabled(c, s, step)
  {
    if i :| 0 <= i < |s.phases| && s.phases[i].Granted? {
      step := if CapReached(c, s) then Skip(i) else Start(i);
    } else if i :| 0 <= i < |s.phases| && s.phases[i].InFlight? {
      step := Finish(i, FromError(c.tasks[i].item, c.tasks[i].runIndex, "", ""));
    } else if i :| 0 <= i < |s.phases| && s.phases[i].Done? {
      step := Record(i);
    } else {
      var i :| 0 <= i < |s.phases| && !s.phases[i].Recorded?;
      NoHolders(s.phases);
      step := Grant(i);
    }
  }

  // ---------------------------------------------------------------- exactly once

  /** The trajectories `asyncio.gather` returns, in task order. */
  function Results(s: State): (rs: seq<Trajectory>)
    requires Complete(s)
    ensures |rs| == |s.phases|
  {
    seq(|s.phases|, i requires 0 <= i < |s.phases| => s.phases[i].result)
  }

  lemma {:induction false} AllRecorded(s: State)
    requires Complete(s)
    ensures RecordedResults(s.phases) == multiset(Results(s))
    decreases |s.phases|
  {
    if s.phases == [] {
      assert Results(s) == [];
    } else {
      var n := |s.phases| - 1;
      var shorter := s.(phases := s.phases[..n]);
      AllRecorded(shorter);
      assert Results(s) == Results(shorter) + [s.phases[n].result];
    }
  }

  /**
    * A completed batch has appended one trajectory per task and nothing else, whatever the schedule:
    * the log is a permutation of the gathered results, and each result is its own task's.
    */
  lemma ExactlyOnce(c: Config, states: seq<State>, steps: seq<Step>)
    requires IsRun(c, states, steps)
    requires Complete(states[|steps|])
    ensures multiset(states[|steps|].log) == multiset(Results(states[|steps|]))
    ensures |states[|steps|].log| == |Results(states[|steps|])| == |c.tasks|
    ensures forall i :: 0 <= i < |c.tasks| ==> IsFor(Results(states[|steps|])[i], c.tasks[i])
  {
    var s := states[|steps|];
    RunIsConsistent(c, states, steps, |steps|);
    AllRecorded(s);
    assert |multiset(s.log)| == |multiset(Results(s))|;
  }
}
