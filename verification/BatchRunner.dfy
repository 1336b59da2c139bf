/**
  * `BatchRunner.run` (agent_driver/batch/runner.py): the shared state of one batch, the steps that
  * update it, the whole call under any schedule, and what resuming does.
  */
module BatchRunner {
  import opened Prelude
  import opened BatchContracts
  import opened BatchRetry
  import opened BatchScheduler

  datatype Runner = Runner(concurrency: int, retries: int, backoff: real, jitter: real -> real)

  /** The checks of the constructor. */
  predicate ValidRunner(r: Runner) {
    r.concurrency >= 1 && r.retries >= 0
  }

  /** The constructor: a bound that cannot work is refused. */
  function NewRunner(concurrency: int, retries: int, backoff: real, jitter: real -> real): (r: Result<Runner>)
    ensures r.Success? <==> concurrency >= 1 && retries >= 0
    ensures r.Success? ==> ValidRunner(r.value) && r.value.concurrency == concurrency && r.value.retries == retries
  {
    if concurrency < 1 then Failure("concurrency must be >= 1")
    else if retries < 0 then Failure("retries must be >= 0")
    else Success(Runner(concurrency, retries, backoff, jitter))
  }

  /** One task per item and repeat, items outermost. */
  function TasksOf(items: seq<BatchItem>, repeats: nat): (ts: seq<Task>)
    ensures |ts| == |items| * repeats
  {
    if items == [] then []
    else
      var n := |items| - 1;
      TasksOf(items[..n], repeats) + RepeatsOf(items[n], repeats)
  }

  /** The resume filter. */
  function PendingOf(items: seq<BatchItem>, done: set<string>): (pending: seq<BatchItem>)
    ensures |pending| <= |items|
    ensures forall x :: x in pending <==> x in items && x.itemId !in done
  {
    if items == [] then []
    else
      var n := |items| - 1;
      var pending := PendingOf(items[..n], done);
      if items[n].itemId in done then pending else pending + [items[n]]
  }

  /** The query outcomes of task `i`, by attempt. */
  function Attempts(agent: (nat, nat) -> Outcome, i: nat): nat -> Outcome {
    (k: nat) => agent(i, k)
  }

  /** What `_run_item` may leave for a task whose attempts behave like `outcomes`. */
  ghost predicate Produced(retries: nat, outcomes: nat -> Outcome, task: Task, t: Trajectory) {
    exists k: nat ::
      && Reached(outcomes, retries, k)
      && (RaisedTransiently(outcomes(k)) ==> k == retries)
      && t == ResultOf(task.item, task.runIndex, outcomes(k))
  }

  /** The variables the concurrent `_run_one` coroutines share. */
  class BatchSession {
    const config: Config
    const store: InMemoryTrajectoryStore?
    var phases: seq<Phase>
    var spent: real
    ghost var log: seq<Trajectory>

    ghost function Now(): State
      reads this
    {
      State(phases, spent, log)
    }

    constructor (config: Config, store: InMemoryTrajectoryStore?)
      ensures this.config == config && this.store == store
      ensures Now() == Init(config)
    {
      this.config, this.store := config, store;
      phases, spent, log := seq(|config.tasks|, _ => Waiting), 0.0, [];
    }

    method Acquire(i: nat)
      requires Enabled(config, Now(), Grant(i))
      modifies this
      ensures Now() == Apply(config, old(Now()), Grant(i))
    {
      phases := phases[i := Granted];
    }

    /** The cap check made with the slot in hand. */
    method CheckCap(i: nat) returns (skipped: bool)
      requires |phases| == |config.tasks| && i < |phases| && phases[i].Granted?
      modifies this
      ensures skipped == old(CapReached(config, Now()))
      ensures Now() == Apply(config, old(Now()), if skipped then Skip(i) else Start(i))
    {
      skipped := config.cap.Some? && spent >= config.cap.value;
      if skipped {
        var task := config.tasks[i];
        phases := phases[i := Done(SkippedBudget(task.item, task.runIndex), false)];
      } else {
        phases := phases[i := InFlight];
      }
    }

    method Charged(i: nat, outcome: Trajectory)
      requires Enabled(config, Now(), Finish(i, outcome))
      modifies this
      ensures Now() == Apply(config, old(Now()), Finish(i, outcome))
    {
      phases := phases[i := Done(outcome, true)];
      spent := spent + Charge(outcome);
    }

    method Persist(i: nat)
      requires Enabled(config, Now(), Record(i))
      modifies this, store
      ensures Now() == Apply(config, old(Now()), Record(i))
      ensures store != null ==> store.items == old(store.items) + [old(phases[i].result)]
    {
      var t := phases[i].result;
      phases := phases[i := Recorded(t, phases[i].queried)];
      log := log + [t];
      if store != null {
        store.Append(t);
      }
    }
  }

  /** The results of the tasks that asked the agent are what their attempts produce. */
  ghost predicate AllProduced(retries: nat, agent: (nat, nat) -> Outcome, c: Config, s: State) {
    |s.phases| == |c.tasks| &&
    forall i :: 0 <= i < |c.tasks| && HasResult(s.phases[i]) && s.phases[i].queried ==>
      Produced(retries, Attempts(agent, i), c.tasks[i], s.phases[i].result)
  }

  /** 1 for a task whose queries are over, else 0. */
  function AskedOf(p: Phase): int {
    if HasResult(p) && p.queried then 1 else 0
  }

  /** How many tasks have asked the agent and are done asking. */
  function TasksAsked(phases: seq<Phase>): nat {
    SumNonNegative(AskedOf, phases);
    SumOf(AskedOf, phases)
  }

  /** Each task that asked the agent made between one query and one more than its retries; no other task made any. */
  ghost predicate QueriesAccounted(retries: nat, phases: seq<Phase>, queries: nat) {
    Accounted(retries, TasksAsked(phases), queries)
  }

  ghost predicate Accounted(retries: nat, tasks: nat, queries: nat) {
    tasks <= queries <= (retries + 1) * tasks
  }

  lemma OneTaskMore(retries: nat, tasks: nat, queries: nat, asked: nat)
    requires Accounted(retries, tasks, queries) && 1 <= asked <= retries + 1
    ensures Accounted(retries, tasks + 1, queries + asked)
  {
    Distribute(retries + 1, tasks, 1);
  }

  /** One move of task `i`, whichever it is at; `asked` counts the queries it made. */
  method Move(session: BatchSession, runner: Runner, agent: (nat, nat) -> Outcome, i: nat,
              ghost base: seq<Trajectory>)
    returns (asked: nat, ghost step: Step)
    requires ValidRunner(runner) && Consistent(session.config, session.Now())
    requires i < |session.phases| && Ready(session.config, session.phases, i)
    requires session.store != null ==> session.store.items == base + session.log
    modifies session, session.store
    ensures IsTransition(session.config, old(session.Now()), step, session.Now())
    ensures session.store != null ==> session.store.items == base + session.log
    ensures if step.Finish? then 1 <= asked <= runner.retries + 1 else asked == 0
    ensures step.Finish? ==> Produced(runner.retries, Attempts(agent, i), session.config.tasks[i], step.outcome)
    ensures step.i == i
  {
    asked := 0;
    var task := session.config.tasks[i];
    match session.phases[i] {
      case Waiting =>
        step := Grant(i);
        session.Acquire(i);
      case Granted =>
        var over := session.CheckCap(i);
        step := if over then Skip(i) else Start(i);
      case InFlight =>
        var outcome, sleeps;
        outcome, asked, sleeps := RunItem(task.item, task.runIndex, runner.retries, runner.backoff,
                                     Attempts(agent, i), runner.jitter);
        assert Produced(runner.retries, Attempts(agent, i), task, outcome);
        step := Finish(i, outcome);
        session.Charged(i, outcome);
      case Done(_, _) =>
        step := Record(i);
        session.Persist(i);
    }
  }

  /** Runs the session to its end: each round picks any task that can move. */
  method Drive(session: BatchSession, runner: Runner, agent: (nat, nat) -> Outcome)
    returns (queries: nat, ghost states: seq<State>, ghost steps: seq<Step>)
    requires ValidRunner(runner) && session.config.concurrency == runner.concurrency
    requires session.Now() == Init(session.config)
    modifies session, session.store
    ensures IsRun(session.config, states, steps) && states[|steps|] == session.Now()
    ensures Complete(session.Now())
    ensures session.store != null ==> session.store.items == old(session.store.items) + session.log
    ensures AllProduced(runner.retries, agent, session.config, session.Now())
    ensures QueriesAccounted(runner.retries, session.phases, queries)
  {
    var c := session.config;
    ghost var base := if session.store != null then session.store.items else [];
    queries, states, steps := 0, [session.Now()], [];
    InitIsConsistent(c);
    NoneAsked(session.phases);
    while exists i :: 0 <= i < |session.phases| && !session.phases[i].Recorded?
      invariant session.store != null ==> session.store.items == base + session.log
      invariant Driven(runner.retries, agent, c, states, steps, queries) && states[|steps|] == session.Now()
      decreases SumOf(StepsLeft, session.phases)
    {
      queries, states, steps := Advance(session, runner, agent, queries, base, states, steps);
    }
  }

  /** One round: some task that can move does. */
  method Advance(session: BatchSession, runner: Runner, agent: (nat, nat) -> Outcome, queries: nat,
                 ghost base: seq<Trajectory>, ghost states: seq<State>, ghost steps: seq<Step>)
    returns (queries': nat, ghost states': seq<State>, ghost steps': seq<Step>)
    requires ValidRunner(runner) && session.config.concurrency == runner.concurrency
    requires Driven(runner.retries, agent, session.config, states, steps, queries)
    requires states[|steps|] == session.Now() && !Complete(session.Now())
    requires session.store != null ==> session.store.items == base + session.log
    modifies session, session.store
    ensures Driven(runner.retries, agent, session.config, states', steps', queries')
    ensures states'[|steps'|] == session.Now()
    ensures session.store != null ==> session.store.items == base + session.log
    ensures 0 <= SumOf(StepsLeft, session.phases) < old(SumOf(StepsLeft, session.phases))
  {
    var c := session.config;
    ghost var _ := SomeReady(c, session.Now());
    var i :| 0 <= i < |session.phases| && Ready(c, session.phases, i);
    var asked;
    ghost var step;
    asked, step := Move(session, runner, agent, i, base);
    DrivenFurther(runner.retries, agent, c, states, steps, queries, step, session.Now(), asked);
    queries', states', steps' := queries + asked, states + [session.Now()], steps + [step];
  }

  /** A run so far: its last state is consistent, its results are the agent's, its queries are accounted for. */
  ghost predicate Driven(retries: nat, agent: (nat, nat) -> Outcome, c: Config,
                         states: seq<State>, steps: seq<Step>, queries: nat) {
    && IsRun(c, states, steps)
    && Consistent(c, states[|steps|])
    && AllProduced(retries, agent, c, states[|steps|])
    && QueriesAccounted(retries, states[|steps|].phases, queries)
  }

  lemma DrivenFurther(retries: nat, agent: (nat, nat) -> Outcome, c: Config, states: seq<State>, steps: seq<Step>,
                      queries: nat, step: Step, s': State, asked: nat)
    requires Driven(retries, agent, c, states, steps, queries)
    requires IsTransition(c, states[|steps|], step, s')
    requires step.Finish? ==> Produced(retries, Attempts(agent, step.i), c.tasks[step.i], step.outcome)
    requires if step.Finish? then 1 <= asked <= retries + 1 else asked == 0
    ensures Driven(retries, agent, c, states + [s'], steps + [step], queries + asked)
    ensures 0 <= SumOf(StepsLeft, s'.phases) < SumOf(StepsLeft, states[|steps|].phases)
  {
    var s := states[|steps|];
    RunExtends(c, states, steps, step, s');
    StepKeepsConsistent(c, s, step);
    StepDecreases(c, s, step);
    StepAccounts(retries, agent, c, s, step);
    if step.Finish? {
      OneTaskMore(retries, TasksAsked(s.phases), queries, asked);
    }
  }

  /**
    * The whole call. The ghost results show that what happened, whatever the scheduler chose, is a
    * complete run of the step system over the pending items.
    */
  method Run(runner: Runner, agent: (nat, nat) -> Outcome, items: seq<BatchItem>,
             store: InMemoryTrajectoryStore?, resume: bool, repeats: int, cap: Option<real>)
    returns (r: Result<BatchReport>, queries: nat, ghost states: seq<State>, ghost steps: seq<Step>)
    requires ValidRunner(runner)
    modifies store
    ensures repeats < 1 ==> r.Failure? && queries == 0 && (store != null ==> store.items == old(store.items))
    ensures repeats >= 1 ==>
      var done := if store != null && resume then old(ItemIds(store.items)) else {};
      var pending := PendingOf(items, done);
      var c := Config(runner.concurrency, cap, TasksOf(pending, repeats));
      && IsRun(c, states, steps)
      && Complete(states[|steps|])
      && (store != null ==> store.items == old(store.items) + states[|steps|].log)
      && AllProduced(runner.retries, agent, c, states[|steps|])
      && r.Success?
      && r.value.total == |pending| * repeats
      && r.value.completed == StatusCount(Results(states[|steps|]), r.value.total, {"completed"})
      && r.value.completed + r.value.failed == r.value.total
      && r.value.skippedResumed + |pending| == |items|
      && CountsAll(Results(states[|steps|]), r.value.total, r.value.counts)
      && ReportTells(runner.retries, agent, c.tasks, states[|steps|].phases, r.value)
      && states[|steps|].spent == CostOfOutcomes(runner.retries, agent, states[|steps|].phases, |c.tasks|)
      && QueriesAccounted(runner.retries, states[|steps|].phases, queries)
  {
    if repeats < 1 {
      return Failure("repeats must be >= 1"), 0, [], [];
    }
    var pending := items;
    if store != null && resume {
      pending := PendingOf(items, ItemIds(store.items));
    } else {
      PendingOfNone(items);
    }
    var c := Config(runner.concurrency, cap, TasksOf(pending, repeats));
    var session := new BatchSession(c, store);
    queries, states, steps := Drive(session, runner, agent);
    var report := FromTrajectories(Gathered(session.phases), |items| - |pending|);
    r := Success(report);
    OutcomesAreReported(runner.retries, agent, c, states, steps, report);
  }

  // ---------------------------------------------------------------- what the report says of the agent

  /** Task `i` ends with that status: turned away, raised, or as the output that decided it says. */
  ghost predicate EndsWith(retries: nat, agent: (nat, nat) -> Outcome, p: Phase, i: nat, status: string) {
    if !Queried(p) then status == "skipped_budget"
    else
      match LastOutcome(Attempts(agent, i), retries)
      case Returned(output) => output.status == status
      case Raised(_, _) => status == "error"
  }

  /** How many of the first `n` tasks end with that status. */
  ghost function TasksEnding(retries: nat, agent: (nat, nat) -> Outcome, phases: seq<Phase>, n: nat, status: string): nat
    requires n <= |phases|
  {
    if n == 0 then 0
    else TasksEnding(retries, agent, phases, n - 1, status) +
         (if EndsWith(retries, agent, phases[n - 1], n - 1, status) then 1 else 0)
  }

  /** The output that decided task `i`, if it asked the agent and got one. */
  ghost function OutputOf(retries: nat, agent: (nat, nat) -> Outcome, p: Phase, i: nat): Option<RunOutput> {
    if !Queried(p) then None
    else
      match LastOutcome(Attempts(agent, i), retries)
      case Returned(output) => Some(output)
      case Raised(_, _) => None
  }

  ghost function TokensOfOutcomes(retries: nat, agent: (nat, nat) -> Outcome, phases: seq<Phase>, n: nat): nat
    requires n <= |phases|
  {
    if n == 0 then 0
    else
      TokensOfOutcomes(retries, agent, phases, n - 1) +
      match OutputOf(retries, agent, phases[n - 1], n - 1)
      case None => 0
      case Some(output) => output.totalTokens
  }

  ghost function CostOfOutcomes(retries: nat, agent: (nat, nat) -> Outcome, phases: seq<Phase>, n: nat): real
    requires n <= |phases|
  {
    if n == 0 then 0.0
    else
      CostOfOutcomes(retries, agent, phases, n - 1) +
      match OutputOf(retries, agent, phases[n - 1], n - 1)
      case None => 0.0
      case Some(output) => if output.cost.Some? then output.cost.value else 0.0
  }

  /** How often the outputs used the tool `name`. */
  ghost function UsesInOutcomes(
    retries: nat, agent: (nat, nat) -> Outcome, phases: seq<Phase>, n: nat, name: string): nat
    requires n <= |phases|
  {
    if n == 0 then 0
    else
      UsesInOutcomes(retries, agent, phases, n - 1, name) +
      match OutputOf(retries, agent, phases[n - 1], n - 1)
      case None => 0
      case Some(output) => Occurrences(output.toolNames, |output.toolNames|, name)
  }

  /** The counters in terms of what the agent did and of the items alone. */
  ghost predicate CountersSay(
    retries: nat, agent: (nat, nat) -> Outcome, tasks: seq<Task>, phases: seq<Phase>, c: Counts)
  {
    && (forall status :: Tally(c.byStatus, status) == TasksEnding(retries, agent, phases, |phases|, status))
    && c.totalTokens == TokensOfOutcomes(retries, agent, phases, |phases|)
    && (forall name :: Tally(c.toolUsage, name) == UsesInOutcomes(retries, agent, phases, |phases|, name))
    && (forall name :: Tally(c.policyDecisions, name) == DecisionsAbout(tasks, |tasks|, name))
    && (forall name :: Tally(c.traceViolations, name) == ViolationsAbout(tasks, |tasks|, name))
  }

  /** Likewise the whole report. */
  ghost predicate ReportTells(
    retries: nat, agent: (nat, nat) -> Outcome, tasks: seq<Task>, phases: seq<Phase>, r: BatchReport)
  {
    && r.completed == TasksEnding(retries, agent, phases, |phases|, "completed")
    && r.completed + r.failed == r.total == |phases| == |tasks|
    && CountersSay(retries, agent, tasks, phases, r.counts)
  }

  ghost function DecisionsAbout(tasks: seq<Task>, n: nat, name: string): nat
    requires n <= |tasks|
  {
    if n == 0 then 0
    else
      var ids := tasks[n - 1].item.metadata.decisions;
      DecisionsAbout(tasks, n - 1, name) + Occurrences(ids, |ids|, name)
  }

  ghost function ViolationsAbout(tasks: seq<Task>, n: nat, name: string): nat
    requires n <= |tasks|
  {
    if n == 0 then 0
    else
      var ids := tasks[n - 1].item.metadata.violations;
      ViolationsAbout(tasks, n - 1, name) + Occurrences(ids, |ids|, name)
  }

  /** Record `t` of task `i` says what decided the task, or that the cap turned it away. */
  ghost predicate Told(retries: nat, agent: (nat, nat) -> Outcome, task: Task, p: Phase, t: Trajectory, i: nat) {
    var output := OutputOf(retries, agent, p, i);
    && EndsWith(retries, agent, p, i, t.status)
    && t.totalTokens == (if output.Some? then output.value.totalTokens else 0)
    && t.toolNames == (if output.Some? then output.value.toolNames else [])
    && t.costUsd == (if output.Some? then output.value.cost else None)
    && t.metadata == task.item.metadata
  }

  ghost predicate AllTold(
    retries: nat, agent: (nat, nat) -> Outcome, tasks: seq<Task>, phases: seq<Phase>, ts: seq<Trajectory>)
  {
    && |phases| == |tasks| == |ts|
    && forall i :: 0 <= i < |tasks| ==> Told(retries, agent, tasks[i], phases[i], ts[i], i)
  }

  /** At the end of a complete batch every record does. */
  lemma TasksAreTold(retries: nat, agent: (nat, nat) -> Outcome, c: Config, s: State)
    requires Complete(s) && ResultsMatch(c, s) && AllProduced(retries, agent, c, s)
    ensures AllTold(retries, agent, c.tasks, s.phases, Results(s))
  {
    forall i | 0 <= i < |c.tasks| ensures Told(retries, agent, c.tasks[i], s.phases[i], Results(s)[i], i) {
      var task, outcomes := c.tasks[i], Attempts(agent, i);
      if s.phases[i].queried {
        var k: nat :| && Reached(outcomes, retries, k) && (RaisedTransiently(outcomes(k)) ==> k == retries)
                      && Results(s)[i] == ResultOf(task.item, task.runIndex, outcomes(k));
        StopIs(outcomes, retries, 0, k);
        ResultTells(task.item, task.runIndex, outcomes(k));
      } else {
        SkipTells(task.item, task.runIndex);
      }
    }
  }

  lemma {:induction false} StatusesTold(retries: nat, agent: (nat, nat) -> Outcome, tasks: seq<Task>,
                                        phases: seq<Phase>, ts: seq<Trajectory>, n: nat, key: string)
    requires AllTold(retries, agent, tasks, phases, ts) && n <= |ts|
    ensures StatusCount(ts, n, {key}) == TasksEnding(retries, agent, phases, n, key)
    ensures TokenSum(ts, n) == TokensOfOutcomes(retries, agent, phases, n)
  {
    if n > 0 {
      StatusesTold(retries, agent, tasks, phases, ts, n - 1, key);
      assert Told(retries, agent, tasks[n - 1], phases[n - 1], ts[n - 1], n - 1);
    }
  }

  lemma {:induction false} NamesTold(retries: nat, agent: (nat, nat) -> Outcome, tasks: seq<Task>,
                                     phases: seq<Phase>, ts: seq<Trajectory>, n: nat, key: string)
    requires AllTold(retries, agent, tasks, phases, ts) && n <= |ts|
    ensures OccurrencesIn(ToolsOf, ts, n, key) == UsesInOutcomes(retries, agent, phases, n, key)
    ensures OccurrencesIn(DecisionsOf, ts, n, key) == DecisionsAbout(tasks, n, key)
    ensures OccurrencesIn(ViolationsOf, ts, n, key) == ViolationsAbout(tasks, n, key)
  {
    if n > 0 {
      NamesTold(retries, agent, tasks, phases, ts, n - 1, key);
      assert Told(retries, agent, tasks[n - 1], phases[n - 1], ts[n - 1], n - 1);
    }
  }

  lemma {:induction false} CostsTold(retries: nat, agent: (nat, nat) -> Outcome, tasks: seq<Task>,
                                     phases: seq<Phase>, ts: seq<Trajectory>, n: nat)
    requires AllTold(retries, agent, tasks, phases, ts) && n <= |ts|
    ensures RealSumOf(Charge, ts[..n]) == CostOfOutcomes(retries, agent, phases, n)
  {
    if n > 0 {
      CostsTold(retries, agent, tasks, phases, ts, n - 1);
      assert Told(retries, agent, tasks[n - 1], phases[n - 1], ts[n - 1], n - 1);
      assert ts[..n][..n - 1] == ts[..n - 1];
    }
  }

  lemma CountersTell(retries: nat, agent: (nat, nat) -> Outcome, tasks: seq<Task>,
                     phases: seq<Phase>, ts: seq<Trajectory>, c: Counts)
    requires AllTold(retries, agent, tasks, phases, ts) && CountsAll(ts, |ts|, c)
    ensures CountersSay(retries, agent, tasks, phases, c)
  {
    forall key
      ensures Tally(c.byStatus, key) == TasksEnding(retries, agent, phases, |ts|, key)
      ensures c.totalTokens == TokensOfOutcomes(retries, agent, phases, |ts|)
      ensures Tally(c.toolUsage, key) == UsesInOutcomes(retries, agent, phases, |ts|, key)
      ensures Tally(c.policyDecisions, key) == DecisionsAbout(tasks, |ts|, key)
      ensures Tally(c.traceViolations, key) == ViolationsAbout(tasks, |ts|, key)
    {
      StatusesTold(retries, agent, tasks, phases, ts, |ts|, key);
      NamesTold(retries, agent, tasks, phases, ts, |ts|, key);
      TallyOfStatus(ts, |ts|, c.byStatus, key);
    }
    assert Tally(c.byStatus, "") == TasksEnding(retries, agent, phases, |ts|, "");
  }

  /** A report that counts the gathered records says what the agent did, and the spend is what its outputs cost. */
  lemma OutcomesAreReported(retries: nat, agent: (nat, nat) -> Outcome, c: Config,
                            states: seq<State>, steps: seq<Step>, r: BatchReport)
    requires IsRun(c, states, steps) && Complete(states[|steps|])
    requires AllProduced(retries, agent, c, states[|steps|])
    requires var rs := Results(states[|steps|]);
             && r.total == |rs| && r.completed + r.failed == r.total
             && r.completed == StatusCount(rs, |rs|, {"completed"}) && CountsAll(rs, |rs|, r.counts)
    ensures ReportTells(retries, agent, c.tasks, states[|steps|].phases, r)
    ensures states[|steps|].spent == CostOfOutcomes(retries, agent, states[|steps|].phases, |c.tasks|)
  {
    var s := states[|steps|];
    var rs := Results(s);
    RunIsConsistent(c, states, steps, |steps|);
    TasksAreTold(retries, agent, c, s);
    CountersTell(retries, agent, c.tasks, s.phases, rs, r.counts);
    StatusesTold(retries, agent, c.tasks, s.phases, rs, |rs|, "completed");
    CostsTold(retries, agent, c.tasks, s.phases, rs, |rs|);
    ChargesOfResults(s);
    assert rs[..|rs|] == rs;
  }

  lemma StepAccounts(retries: nat, agent: (nat, nat) -> Outcome, c: Config, s: State, step: Step)
    requires Enabled(c, s, step) && AllProduced(retries, agent, c, s)
    requires step.Finish? ==> Produced(retries, Attempts(agent, step.i), c.tasks[step.i], step.outcome)
    ensures AllProduced(retries, agent, c, Apply(c, s, step))
    ensures SumOf(AskedOf, Apply(c, s, step).phases) ==
            SumOf(AskedOf, s.phases) + (if step.Finish? then 1 else 0)
  {
    SumUpdate(AskedOf, s.phases, step.i, Apply(c, s, step).phases[step.i]);
  }

  lemma {:induction false} NoneAsked(ps: seq<Phase>)
    requires forall i :: 0 <= i < |ps| ==> ps[i] == Waiting
    ensures SumOf(AskedOf, ps) == 0
  {
    if ps != [] {
      NoneAsked(ps[..|ps| - 1]);
    }
  }

  /** What `asyncio.gather` returns. */
  function Gathered(phases: seq<Phase>): seq<Trajectory>
    requires forall i :: 0 <= i < |phases| ==> phases[i].Recorded?
  {
    Results(State(phases, 0.0, []))
  }

  lemma StepDecreases(c: Config, s: State, step: Step)
    requires Enabled(c, s, step)
    ensures 0 <= SumOf(StepsLeft, Apply(c, s, step).phases) < SumOf(StepsLeft, s.phases)
  {
    SumUpdate(StepsLeft, s.phases, step.i, Apply(c, s, step).phases[step.i]);
    SumNonNegative(StepsLeft, Apply(c, s, step).phases);
  }

  /** Task `i` can take its next step. */
  predicate Ready(c: Config, phases: seq<Phase>, i: nat)
    requires i < |phases|
  {
    match phases[i]
    case Waiting => SumOf(HoldsSlot, phases) < c.concurrency
    case Recorded(_, _) => false
    case _ => true
  }

  lemma SomeReady(c: Config, s: State) returns (i: nat)
    requires Consistent(c, s) && c.concurrency >= 1 && !Complete(s)
    ensures i < |s.phases| && Ready(c, s.phases, i)
  {
    var step := NextStep(c, s);
    i := step.i;
  }

  lemma {:induction false} PendingOfNone(items: seq<BatchItem>)
    ensures PendingOf(items, {}) == items
  {
    if items != [] {
      var n := |items| - 1;
      PendingOfNone(items[..n]);
      assert items == items[..n] + [items[n]];
    }
  }

  // ---------------------------------------------------------------- spend of a whole batch

  /** Every output the agent returns costs between nothing and `m`. */
  ghost predicate CostsWithin(agent: (nat, nat) -> Outcome, m: real) {
    && 0.0 <= m
    && forall i: nat, k: nat :: agent(i, k).Returned? && agent(i, k).output.cost.Some? ==>
         0.0 <= agent(i, k).output.cost.value <= m
  }

  /** A result, once there, stays. */
  lemma {:induction false} ResultStays(c: Config, states: seq<State>, steps: seq<Step>, j: nat, k: nat, i: nat)
    requires IsRun(c, states, steps) && j <= k < |states|
    requires i < |states[j].phases| && HasResult(states[j].phases[i])
    ensures i < |states[k].phases| && HasResult(states[k].phases[i])
    ensures states[k].phases[i].result == states[j].phases[i].result
    ensures states[k].phases[i].queried == states[j].phases[i].queried
  {
    if j < k {
      ResultStays(c, states, steps, j, k - 1, i);
      assert IsTransition(c, states[k - 1], steps[k - 1], states[k]);
    }
  }

  /** What the agent charges bounds what every finishing step adds. */
  lemma RunIsPriced(retries: nat, agent: (nat, nat) -> Outcome, c: Config,
                    states: seq<State>, steps: seq<Step>, m: real)
    requires IsRun(c, states, steps) && AllProduced(retries, agent, c, states[|steps|])
    requires CostsWithin(agent, m)
    ensures Priced(steps, m)
  {
    forall k | 0 <= k < |steps| && steps[k].Finish? ensures 0.0 <= Charge(steps[k].outcome) <= m {
      var i := steps[k].i;
      assert IsTransition(c, states[k], steps[k], states[k + 1]);
      ResultStays(c, states, steps, k + 1, |steps|, i);
      assert Produced(retries, Attempts(agent, i), c.tasks[i], steps[k].outcome);
    }
  }

  lemma {:induction false} ChargesOfResults(s: State)
    requires Complete(s)
    ensures RealSumOf(ChargeOf, s.phases) == RealSumOf(Charge, Results(s))
    decreases |s.phases|
  {
    if s.phases != [] {
      var n := |s.phases| - 1;
      var shorter := s.(phases := s.phases[..n]);
      ChargesOfResults(shorter);
      assert Results(s)[..n] == Results(shorter);
    }
  }

  /**
    * End to end: whatever the schedule, the trajectories of one call cost together less than the cap
    * plus one wave of the dearest runs, and nothing at all under a cap that is not positive.
    */
  lemma BatchSpendBound(retries: nat, agent: (nat, nat) -> Outcome, c: Config,
                        states: seq<State>, steps: seq<Step>, m: real)
    requires IsRun(c, states, steps) && Complete(states[|steps|])
    requires AllProduced(retries, agent, c, states[|steps|])
    requires CostsWithin(agent, m) && c.cap.Some?
    ensures var cost := RealSumOf(Charge, Results(states[|steps|]));
            && (c.cap.value > 0.0 ==> 0.0 <= cost < c.cap.value + c.concurrency as real * m)
            && (c.cap.value <= 0.0 ==> cost == 0.0)
  {
    RunIsPriced(retries, agent, c, states, steps, m);
    ChargesOfResults(states[|steps|]);
    SpendBound(c, states, steps, m, |steps|);
    SpendOnlyGrows(c, states, steps, m, 0, |steps|);
  }

  // ---------------------------------------------------------------- resume

  lemma {:induction false} TaskOfEachItem(items: seq<BatchItem>, repeats: nat, x: BatchItem)
    returns (i: nat)
    requires x in items && repeats >= 1
    ensures i < |TasksOf(items, repeats)| && TasksOf(items, repeats)[i] == Task(x, 0)
  {
    var n := |items| - 1;
    if items[n] == x {
      i := |TasksOf(items[..n], repeats)|;
    } else {
      i := TaskOfEachItem(items[..n], repeats, x);
    }
  }

  /** After a completed batch every pending item's id is in the log. */
  lemma CompletedBatchLogsEveryItem(
    c: Config, pending: seq<BatchItem>, repeats: nat, states: seq<State>, steps: seq<Step>)
    requires repeats >= 1 && c.tasks == TasksOf(pending, repeats)
    requires IsRun(c, states, steps) && Complete(states[|steps|])
    ensures forall x :: x in pending ==> x.itemId in ItemIds(states[|steps|].log)
  {
    var s := states[|steps|];
    ExactlyOnce(c, states, steps);
    forall x | x in pending ensures x.itemId in ItemIds(s.log) {
      var i := TaskOfEachItem(pending, repeats, x);
      assert Results(s)[i] in multiset(Results(s));
      assert Results(s)[i] in multiset(s.log);
      var j :| 0 <= j < |s.log| && s.log[j] == Results(s)[i];
    }
  }

  lemma ItemIdsConcat(a: seq<Trajectory>, b: seq<Trajectory>)
    ensures ItemIds(a + b) == ItemIds(a) + ItemIds(b)
  {
    forall id | id in ItemIds(a) + ItemIds(b) ensures id in ItemIds(a + b) {
      if id in ItemIds(a) {
        var i :| 0 <= i < |a| && a[i].itemId == id;
        assert (a + b)[i] == a[i];
      } else {
        var i :| 0 <= i < |b| && b[i].itemId == id;
        assert (a + b)[|a| + i] == b[i];
      }
    }
  }

  lemma {:induction false} NothingPending(items: seq<BatchItem>, done: set<string>)
    requires forall x :: x in items ==> x.itemId in done
    ensures PendingOf(items, done) == []
  {
    if items != [] {
      NothingPending(items[..|items| - 1], done);
    }
  }

  /**
    * Running a batch to the end and running it again with resume: the second run asks the agent
    * nothing, records nothing and reports every item as skipped, for any schedule of either run.
    */
  method RunThenResume(runner: Runner, agent: (nat, nat) -> Outcome, items: seq<BatchItem>,
                       store: InMemoryTrajectoryStore, resume: bool, repeats: nat, cap: Option<real>,
                       laterAgent: (nat, nat) -> Outcome, laterRepeats: nat, laterCap: Option<real>)
    returns (first: Result<BatchReport>, second: Result<BatchReport>, queries: nat)
    requires ValidRunner(runner) && repeats >= 1 && laterRepeats >= 1
    modifies store
    ensures queries == 0
    ensures first.Success? && second.Success?
    ensures second.value.total == 0 && second.value.skippedResumed == |items|
    ensures |store.items| == |old(store.items)| + first.value.total
  {
    ghost var states, steps;
    var asked;
    ghost var done := if resume then ItemIds(store.items) else {};
    ghost var earlier := store.items;
    first, asked, states, steps := Run(runner, agent, items, store, resume, repeats, cap);
    ghost var pending := PendingOf(items, done);
    ghost var c := Config(runner.concurrency, cap, TasksOf(pending, repeats));
    CompletedBatchLogsEveryItem(c, pending, repeats, states, steps);
    ExactlyOnce(c, states, steps);
    ItemIdsConcat(earlier, states[|steps|].log);
    assert forall x :: x in items ==> x in pending || x.itemId in done;
    NothingPending(items, ItemIds(store.items));
    second, queries, states, steps := Run(runner, laterAgent, items, store, true, laterRepeats, laterCap);
    ghost var nothing := Config(runner.concurrency, laterCap, TasksOf([], laterRepeats));
    ExactlyOnce(nothing, states, steps);
    assert states[|steps|].phases == [];
  }

  /** 1 for a trajectory of item `id`, else 0. */
  function ForItem(id: string): Trajectory -> int {
    (t: Trajectory) => if t.itemId == id then 1 else 0
  }

  function TaskForItem(id: string): Task -> int {
    (t: Task) => if t.item.itemId == id then 1 else 0
  }

  /** 1 for a trajectory of repeat `r` of item `id`, else 0. */
  function ForRun(id: string, r: nat): Trajectory -> int {
    (t: Trajectory) => if t.itemId == id && t.runIndex == r then 1 else 0
  }

  function TaskForRun(id: string, r: nat): Task -> int {
    (t: Task) => if t.item.itemId == id && t.runIndex == r then 1 else 0
  }

  function HasId(id: string): BatchItem -> int {
    (x: BatchItem) => if x.itemId == id then 1 else 0
  }

  /** How many trajectories of item `id` are in `log`. */
  function RunsOf(log: seq<Trajectory>, id: string): int {
    SumOf(ForItem(id), log)
  }

  /** How many trajectories of repeat `r` of item `id` are in `log`. */
  function RunsAt(log: seq<Trajectory>, id: string, r: nat): int {
    SumOf(ForRun(id, r), log)
  }

  /** How many of the items carry the id; callers may repeat one. */
  function Copies(items: seq<BatchItem>, id: string): nat {
    SumNonNegative(HasId(id), items);
    SumOf(HasId(id), items)
  }

  /** The tasks of one item. */
  function RepeatsOf(x: BatchItem, repeats: nat): seq<Task> {
    seq(repeats, r requires r >= 0 => Task(x, r))
  }

  lemma {:induction false} RepeatsPerId(x: BatchItem, repeats: nat, id: string)
    ensures SumOf(TaskForItem(id), RepeatsOf(x, repeats)) == if x.itemId == id then repeats else 0
  {
    if repeats > 0 {
      RepeatsPerId(x, repeats - 1, id);
      assert RepeatsOf(x, repeats)[..repeats - 1] == RepeatsOf(x, repeats - 1);
    }
  }

  lemma {:induction false} RepeatsPerRun(x: BatchItem, repeats: nat, id: string, r: nat)
    ensures SumOf(TaskForRun(id, r), RepeatsOf(x, repeats)) == if x.itemId == id && r < repeats then 1 else 0
  {
    if repeats > 0 {
      RepeatsPerRun(x, repeats - 1, id, r);
      assert RepeatsOf(x, repeats)[..repeats - 1] == RepeatsOf(x, repeats - 1);
    }
  }

  lemma {:induction false} TasksPerId(items: seq<BatchItem>, repeats: nat, id: string)
    ensures SumOf(TaskForItem(id), TasksOf(items, repeats)) == repeats * Copies(items, id)
  {
    if items != [] {
      var n := |items| - 1;
      TasksPerId(items[..n], repeats, id);
      RepeatsPerId(items[n], repeats, id);
      SumConcat(TaskForItem(id), TasksOf(items[..n], repeats), RepeatsOf(items[n], repeats));
      Distribute(repeats, Copies(items[..n], id), HasId(id)(items[n]));
    }
  }

  lemma {:induction false} TasksPerRun(items: seq<BatchItem>, repeats: nat, id: string, r: nat)
    ensures SumOf(TaskForRun(id, r), TasksOf(items, repeats)) == if r < repeats then Copies(items, id) else 0
  {
    if items != [] {
      var n := |items| - 1;
      TasksPerRun(items[..n], repeats, id, r);
      RepeatsPerRun(items[n], repeats, id, r);
      SumConcat(TaskForRun(id, r), TasksOf(items[..n], repeats), RepeatsOf(items[n], repeats));
    }
  }

  lemma {:induction false} ResultsPerTask(tasks: seq<Task>, rs: seq<Trajectory>, id: string, r: nat)
    requires |rs| == |tasks| && forall i :: 0 <= i < |rs| ==> IsFor(rs[i], tasks[i])
    ensures SumOf(ForItem(id), rs) == SumOf(TaskForItem(id), tasks)
    ensures SumOf(ForRun(id, r), rs) == SumOf(TaskForRun(id, r), tasks)
  {
    if rs != [] {
      ResultsPerTask(tasks[..|tasks| - 1], rs[..|rs| - 1], id, r);
    }
  }

  /**
    * A completed batch logs, for every id and every repeat, exactly one run per pending item with that id,
    * so `repeats` runs of each item, and nothing else.
    */
  lemma CompletedBatchRunsPerItem(
    c: Config, pending: seq<BatchItem>, repeats: nat, states: seq<State>, steps: seq<Step>, id: string, r: nat)
    requires c.tasks == TasksOf(pending, repeats)
    requires IsRun(c, states, steps) && Complete(states[|steps|])
    ensures RunsAt(states[|steps|].log, id, r) == if r < repeats then Copies(pending, id) else 0
    ensures RunsOf(states[|steps|].log, id) == repeats * Copies(pending, id)
  {
    var s := states[|steps|];
    ExactlyOnce(c, states, steps);
    SumPermutation(ForItem(id), s.log, Results(s));
    SumPermutation(ForRun(id, r), s.log, Results(s));
    ResultsPerTask(c.tasks, Results(s), id, r);
    TasksPerId(pending, repeats, id);
    TasksPerRun(pending, repeats, id, r);
  }

  ghost predicate DistinctIds(items: seq<BatchItem>) {
    forall i, j :: 0 <= i < j < |items| ==> items[i].itemId != items[j].itemId
  }

  /** Items with distinct ids are one copy each. */
  lemma {:induction false} DistinctMeansOneCopy(items: seq<BatchItem>, id: string)
    requires DistinctIds(items)
    ensures Copies(items, id) == if exists x :: x in items && x.itemId == id then 1 else 0
  {
    if items != [] {
      var n := |items| - 1;
      DistinctMeansOneCopy(items[..n], id);
      assert items == items[..n] + [items[n]];
    }
  }

  /** The resume filter keeps all the items of an id or none. */
  lemma {:induction false} PendingCopies(items: seq<BatchItem>, done: set<string>, id: string)
    ensures Copies(PendingOf(items, done), id) == if id in done then 0 else Copies(items, id)
  {
    if items != [] {
      var n := |items| - 1;
      PendingCopies(items[..n], done, id);
      if items[n].itemId !in done {
        SumPush(HasId(id), PendingOf(items[..n], done), items[n]);
      }
    }
  }

  lemma {:induction false} NoRunsOfUnrecorded(log: seq<Trajectory>, id: string)
    ensures RunsOf(log, id) >= 0
    ensures RunsOf(log, id) == 0 <==> id !in ItemIds(log)
  {
    if log != [] {
      var n := |log| - 1;
      NoRunsOfUnrecorded(log[..n], id);
      ItemIdsAppend(log[..n], log[n]);
      assert log == log[..n] + [log[n]];
    }
  }

  /** A batch over `items`, and the batch that resumes it from its state number `k`. */
  ghost predicate Resumes(
    c1: Config, states1: seq<State>, steps1: seq<Step>, k: nat, c2: Config, states2: seq<State>, steps2: seq<Step>,
    items: seq<BatchItem>, repeats: nat)
  {
    && c1.tasks == TasksOf(items, repeats) && IsRun(c1, states1, steps1) && k < |states1|
    && c2.tasks == TasksOf(PendingOf(items, ItemIds(states1[k].log)), repeats)
    && IsRun(c2, states2, steps2) && Complete(states2[|steps2|])
  }

  /**
    * Interrupt a batch at any point, then resume it to the end over the same store. Each id ends with
    * `repeats` runs per item that carries it when none of its runs had been recorded, and otherwise with
    * the runs it had: resume keys on the id, so a partly recorded item is never topped up.
    */
  lemma ResumeAfterInterrupt(
    c1: Config, states1: seq<State>, steps1: seq<Step>, k: nat, c2: Config, states2: seq<State>, steps2: seq<Step>,
    items: seq<BatchItem>, repeats: nat, id: string)
    requires Resumes(c1, states1, steps1, k, c2, states2, steps2, items, repeats)
    ensures var had := RunsOf(states1[k].log, id);
            RunsOf(states1[k].log + states2[|steps2|].log, id) == if had == 0 then repeats * Copies(items, id) else had
  {
    var log1, log2 := states1[k].log, states2[|steps2|].log;
    var pending := PendingOf(items, ItemIds(log1));
    SumConcat(ForItem(id), log1, log2);
    PendingCopies(items, ItemIds(log1), id);
    CompletedBatchRunsPerItem(c2, pending, repeats, states2, steps2, id, 0);
    NoRunsOfUnrecorded(log1, id);
  }

  /** Resume completes the batch exactly when the interruption left no id partly recorded. */
  lemma ResumeCompletesIff(
    c1: Config, states1: seq<State>, steps1: seq<Step>, k: nat, c2: Config, states2: seq<State>, steps2: seq<Step>,
    items: seq<BatchItem>, repeats: nat)
    requires Resumes(c1, states1, steps1, k, c2, states2, steps2, items, repeats)
    ensures (forall id :: RunsOf(states1[k].log + states2[|steps2|].log, id) == repeats * Copies(items, id))
       <==> (forall id :: RunsOf(states1[k].log, id) in {0, repeats * Copies(items, id)})
  {
    var log1, log2 := states1[k].log, states2[|steps2|].log;
    forall id
      ensures RunsOf(log1 + log2, id) == repeats * Copies(items, id) <==>
              RunsOf(log1, id) in {0, repeats * Copies(items, id)}
    {
      ResumeAfterInterrupt(c1, states1, steps1, k, c2, states2, steps2, items, repeats, id);
    }
  }

  lemma TwoTasks(x: BatchItem)
    ensures TasksOf([x], 2) == [Task(x, 0), Task(x, 1)]
  {
    assert TasksOf([x], 2) == TasksOf([x][..0], 2) + RepeatsOf(x, 2);
  }

  /** One item with two repeats, interrupted after the first was recorded: resuming leaves it at one run. */
  lemma PartlyRecordedStaysShort(x: BatchItem)
    returns (c1: Config, states1: seq<State>, steps1: seq<Step>, c2: Config, states2: seq<State>)
    ensures c1.tasks == TasksOf([x], 2) && IsRun(c1, states1, steps1)
    ensures c2.tasks == TasksOf(PendingOf([x], ItemIds(states1[|steps1|].log)), 2)
    ensures IsRun(c2, states2, []) && Complete(states2[0])
    ensures RunsOf(states1[|steps1|].log + states2[0].log, x.itemId) == 1
  {
    c1 := Config(1, None, TasksOf([x], 2));
    TwoTasks(x);
    states1, steps1 := [Init(c1)], [];
    AllWaiting(Init(c1).phases);
    states1, steps1 := Admit(c1, states1, steps1, 0);
    states1, steps1 := Settle(c1, states1, steps1, 0, 0.0);
    var t := PricedResult(c1.tasks[0], 0.0);
    var log := states1[|steps1|].log;
    assert log == [t];
    ItemIdsAppend([], t);
    NothingPending([x], ItemIds(log));
    c2 := Config(1, None, TasksOf([], 2));
    states2 := [Init(c2)];
    assert log + states2[0].log == [t];
    OneRun(t);
  }

  lemma OneRun(t: Trajectory)
    ensures RunsOf([t], t.itemId) == 1
  {
    SumExtend(ForItem(t.itemId), [t], 0);
    assert [t][..1] == [t];
  }
}
