/** Running one event through the enabled stages, with retries and exponential backoff. */
module Pipeline {
  import opened Wrappers
  import opened StageOrder

  datatype ProcessingResult = CONTINUE | DROP | RETRY | STOP | ERROR

  datatype Outcome = Returned(result: ProcessingResult) | Raised

  /** What one call of a stage's `process` comes to, and whether it cancels the event. */
  datatype Reply = Reply(outcome: Outcome, cancels: bool)

  /** The replies to all `process` calls made for one event, in call order. */
  type Replies = nat -> Reply

  /** `retryCount` is filled in only for calls that return. */
  datatype StageTiming = StageTiming(stageName: string, retryCount: nat, outcome: Outcome)

  datatype Context = Context(cancelled: bool, timings: seq<StageTiming>, retries: map<string, nat>)

  datatype End = Completed | Cancelled | Dropped | Stopped | Failed

  predicate Settled(o: Outcome) { o.Returned? && o.result != RETRY }

  function Budget(maxRetries: int): nat { if maxRetries < 0 then 0 else maxRetries + 1 }

  /** The reply to the call that comes t calls after the k-th. */
  function Answer(replies: Replies, k: nat, t: nat): Reply { replies(k + t) }

  ghost predicate NoneSettled(replies: Replies, k: nat, n: nat) {
    forall t: nat | t < n :: !Settled(Answer(replies, k, t).outcome)
  }

  /** The calls made by one stage execution whose first call is the k-th of the event. */
  function Attempts(replies: Replies, k: nat, budget: nat): (n: nat)
    ensures n <= budget && (budget > 0 ==> n > 0)
    decreases budget
  {
    if budget == 0 then 0
    else if Settled(replies(k).outcome) then 1
    else 1 + Attempts(replies, k + 1, budget - 1)
  }

  function StageResult(replies: Replies, k: nat, budget: nat): ProcessingResult {
    var n := Attempts(replies, k, budget);
    if n > 0 && Settled(Answer(replies, k, n - 1).outcome) then Answer(replies, k, n - 1).outcome.result else ERROR
  }

  lemma {:induction false} AttemptsEndAtFirstSettled(replies: Replies, k: nat, budget: nat, n: nat)
    requires n <= budget && NoneSettled(replies, k, n)
    requires n < budget ==> Settled(Answer(replies, k, n).outcome)
    ensures Attempts(replies, k, budget) == if n < budget then n + 1 else budget
    decreases budget
  {
    if n > 0 {
      assert !Settled(Answer(replies, k, 0).outcome);
      var next := k + 1;
      forall t: nat | t < n - 1 ensures !Settled(Answer(replies, next, t).outcome) {
        assert Answer(replies, next, t) == Answer(replies, k, t + 1);
      }
      assert n < budget ==> Answer(replies, k + 1, n - 1) == Answer(replies, k, n);
      AttemptsEndAtFirstSettled(replies, k + 1, budget - 1, n - 1);
    } else if budget > 0 {
      assert Answer(replies, k, 0) == replies(k);
    }
  }

  /** The result is the first reply within the budget that is neither RETRY nor an exception, and
      ERROR when there is none. */
  lemma ResultIsFirstSettled(replies: Replies, k: nat, budget: nat, n: nat)
    requires n <= budget && NoneSettled(replies, k, n)
    ensures n < budget && Settled(Answer(replies, k, n).outcome) ==>
            && Attempts(replies, k, budget) == n + 1
            && StageResult(replies, k, budget) == Answer(replies, k, n).outcome.result
    ensures n == budget ==> Attempts(replies, k, budget) == budget && StageResult(replies, k, budget) == ERROR
  {
    if n == budget || Settled(Answer(replies, k, n).outcome) {
      AttemptsEndAtFirstSettled(replies, k, budget, n);
    }
  }

  /** Any number of retries: the first reply that settles a stage within one call more than them decides. A
      stage without such a reply, and any stage when the number is negative, comes to ERROR. */
  lemma FirstDecisionCounts(replies: Replies, k: nat, maxRetries: int, n: nat, result: ProcessingResult)
    requires forall t: nat | t < n :: Answer(replies, k, t).outcome in {Raised, Returned(RETRY)}
    ensures n <= maxRetries && result != RETRY && Answer(replies, k, n).outcome == Returned(result) ==>
              && Attempts(replies, k, Budget(maxRetries)) == n + 1
              && StageResult(replies, k, Budget(maxRetries)) == result
    ensures n == (if maxRetries < 0 then 0 else maxRetries + 1) ==>
              && Attempts(replies, k, Budget(maxRetries)) == n
              && StageResult(replies, k, Budget(maxRetries)) == ERROR
  {
    forall t: nat | t < n ensures !Settled(Answer(replies, k, t).outcome) {}
    if n <= Budget(maxRetries) {
      ResultIsFirstSettled(replies, k, Budget(maxRetries), n);
    }
    hide Attempts, StageResult;
  }

  function Pow2(n: nat): nat { if n == 0 then 1 else 2 * Pow2(n - 1) }

  /** The delays before n retries, each twice the one before. */
  function Backoff(delay: real, n: nat): real {
    if n == 0 then 0.0 else Backoff(delay, n - 1) + delay * Pow2(n - 1) as real
  }

  lemma {:induction false} BackoffInClosedForm(delay: real, n: nat)
    ensures Backoff(delay, n) == delay * (Pow2(n) - 1) as real
  {
    if n > 0 {
      BackoffInClosedForm(delay, n - 1);
      var p := Pow2(n - 1) as real;
      assert (Pow2(n) - 1) as real == (p - 1.0) + p;
    }
  }

  predicate Cancels(replies: Replies, k: nat, n: nat) {
    exists t: nat | t < n :: Answer(replies, k, t).cancels
  }

  function TimingOf(name: string, attempt: nat, outcome: Outcome): StageTiming {
    StageTiming(name, if outcome.Returned? then attempt else 0, outcome)
  }

  function Timings(name: string, replies: Replies, k: nat, n: nat): seq<StageTiming> {
    seq(n, t requires 0 <= t < n => TimingOf(name, t, Answer(replies, k, t).outcome))
  }

  function RetryCount(retries: map<string, nat>, name: string): nat {
    if name in retries then retries[name] else 0
  }

  function AddRetries(retries: map<string, nat>, name: string, n: nat): map<string, nat> {
    if n == 0 then retries else retries[name := RetryCount(retries, name) + n]
  }

  /** The context after the first n calls of one stage, all but `settled` of them retried. */
  function After(ctx: Context, name: string, replies: Replies, n: nat, retried: nat): Context {
    var k := |ctx.timings|;
    Context(ctx.cancelled || Cancels(replies, k, n), ctx.timings + Timings(name, replies, k, n),
            AddRetries(ctx.retries, name, retried))
  }

  lemma AfterOneMoreCall(ctx: Context, name: string, replies: Replies, n: nat, retried: nat)
    ensures var reply := Answer(replies, |ctx.timings|, n);
            var was := After(ctx, name, replies, n, retried);
      && |was.timings| == |ctx.timings| + n
      && After(ctx, name, replies, n + 1, retried) ==
         Context(was.cancelled || reply.cancels, was.timings + [TimingOf(name, n, reply.outcome)], was.retries)
  {}

  lemma AfterNoCalls(ctx: Context, name: string, replies: Replies)
    ensures After(ctx, name, replies, 0, 0) == ctx
  {}

  lemma AfterRetry(ctx: Context, name: string, replies: Replies, n: nat, retried: nat)
    ensures var was := After(ctx, name, replies, n, retried);
            After(ctx, name, replies, n, retried + 1) == was.(retries := AddRetries(was.retries, name, 1))
  {}

  function Retries(n: nat): nat { if n == 0 then 0 else n - 1 }

  function ExecuteOn(ctx: Context, name: string, replies: Replies, budget: nat): (next: Context)
    ensures |next.timings| == |ctx.timings| + Attempts(replies, |ctx.timings|, budget)
  {
    var n := Attempts(replies, |ctx.timings|, budget);
    After(ctx, name, replies, n, Retries(n))
  }

  function EndOf(result: ProcessingResult): End {
    match result
    case DROP => Dropped
    case STOP => Stopped
    case _ => Failed
  }

  /** The context after a run, the number of stages executed, and how the run ended. */
  function RunOn(ctx: Context, stages: seq<Stage>, replies: Replies, budget: nat): (r: (Context, nat, End))
    ensures r.1 <= |stages|
    decreases |stages|
  {
    if stages == [] then (ctx, 0, Completed)
    else if ctx.cancelled then (ctx, 0, Cancelled)
    else
      var next := ExecuteOn(ctx, stages[0].name, replies, budget);
      var result := StageResult(replies, |ctx.timings|, budget);
      if result == CONTINUE then
        var (last, executed, end) := RunOn(next, stages[1..], replies, budget);
        (last, executed + 1, end)
      else (next, 1, EndOf(result))
  }

  /** What the last executed stage of a run came to. */
  function LastResult(ctx: Context, stages: seq<Stage>, executed: nat, replies: Replies, budget: nat): ProcessingResult
    requires 0 < executed <= |stages|
  {
    StageResult(replies, |Before(ctx, stages, executed - 1, replies, budget).timings|, budget)
  }

  /** How a run ends: dropped, stopped or failed by the stage that said so, cancelled before the next stage,
      or completed when all stages continued. */
  lemma {:induction false} EndsByLastStage(ctx: Context, stages: seq<Stage>, replies: Replies, budget: nat)
    ensures var (last, executed, end) := RunOn(ctx, stages, replies, budget);
      && (end == Completed ==> executed == |stages| && (executed > 0 ==> LastResult(ctx, stages, executed, replies, budget) == CONTINUE))
      && (end == Cancelled ==> executed < |stages| && last.cancelled && (executed > 0 ==> LastResult(ctx, stages, executed, replies, budget) == CONTINUE))
      && (end == Dropped <==> executed > 0 && LastResult(ctx, stages, executed, replies, budget) == DROP)
      && (end == Stopped <==> executed > 0 && LastResult(ctx, stages, executed, replies, budget) == STOP)
      && (end == Failed <==> executed > 0 && LastResult(ctx, stages, executed, replies, budget) == ERROR)
    decreases |stages|
  {
    if stages != [] && !ctx.cancelled {
      var next, rest := ExecuteOn(ctx, stages[0].name, replies, budget), stages[1..];
      assert Before(ctx, stages, 0, replies, budget) == ctx;
      NeverRetry(replies, |ctx.timings|, budget);
      EndsByLastStage(next, rest, replies, budget);
      var (_, later, _) := RunOn(next, rest, replies, budget);
      if later > 0 {
        LastResultOfRest(ctx, stages, later, replies, budget);
      }
      hide StageResult, ExecuteOn, Before;
    }
  }

  lemma LastResultOfRest(ctx: Context, stages: seq<Stage>, later: nat, replies: Replies, budget: nat)
    requires 0 < later < |stages|
    ensures LastResult(ctx, stages, later + 1, replies, budget) ==
            LastResult(ExecuteOn(ctx, stages[0].name, replies, budget), stages[1..], later, replies, budget)
  {
    hide ExecuteOn, StageResult;
  }

  lemma NeverRetry(replies: Replies, k: nat, budget: nat)
    ensures StageResult(replies, k, budget) != RETRY
  {}

  /** What a stage execution writes down: one timing for each call, with the number of retries before it if it
      returned, and that number for the stage as a whole. */
  lemma TimingsRecordCalls(ctx: Context, name: string, replies: Replies, budget: nat, t: nat)
    requires t < Attempts(replies, |ctx.timings|, budget)
    ensures var next, k := ExecuteOn(ctx, name, replies, budget), |ctx.timings|;
      && next.timings[..k] == ctx.timings
      && next.timings[k + t].stageName == name
      && next.timings[k + t].outcome == replies(k + t).outcome
      && next.timings[k + t].retryCount == (if replies(k + t).outcome == Raised then 0 else t)
  {}

  /** One stage of a run, and the end of the run if this is where it ends. */
  function StepOn(ctx: Context, stage: Stage, replies: Replies, budget: nat): (Context, Option<End>) {
    if ctx.cancelled then (ctx, Some(Cancelled))
    else
      var result := StageResult(replies, |ctx.timings|, budget);
      (ExecuteOn(ctx, stage.name, replies, budget), if result == CONTINUE then None else Some(EndOf(result)))
  }

  /** A run that has executed the first i stages and now is at this context. */
  ghost predicate OnCourse(run: (Context, nat, End), ctx: Context, stages: seq<Stage>, i: nat, replies: Replies, budget: nat)
    requires i <= |stages|
  {
    var rest := RunOn(ctx, stages[i..], replies, budget);
    run == (rest.0, rest.1 + i, rest.2)
  }

  lemma StepStaysOnCourse(run: (Context, nat, End), ctx: Context, stages: seq<Stage>, i: nat, replies: Replies, budget: nat)
    requires i < |stages| && OnCourse(run, ctx, stages, i, replies, budget)
    ensures var (next, end) := StepOn(ctx, stages[i], replies, budget);
      if end.None? then OnCourse(run, next, stages, i + 1, replies, budget)
      else run == (next, if end.value == Cancelled then i else i + 1, end.value)
  {}

  /** The context before the i-th stage, when the run gets that far. */
  function Before(ctx: Context, stages: seq<Stage>, i: nat, replies: Replies, budget: nat): Context
    requires i <= |stages|
    decreases |stages|
  {
    if i == 0 then ctx
    else Before(ExecuteOn(ctx, stages[0].name, replies, budget), stages[1..], i - 1, replies, budget)
  }

  predicate Continues(ctx: Context, replies: Replies, budget: nat) {
    !ctx.cancelled && StageResult(replies, |ctx.timings|, budget) == CONTINUE
  }

  /** A stage is executed exactly when every stage before it continued and nothing cancelled the event. */
  lemma {:induction false} ReachedIffAllContinued(ctx: Context, stages: seq<Stage>, i: nat, replies: Replies, budget: nat)
    requires i < |stages|
    ensures i < RunOn(ctx, stages, replies, budget).1 <==>
            AllContinue(ctx, stages, i, replies, budget) && !Before(ctx, stages, i, replies, budget).cancelled
    decreases |stages|
  {
    if i > 0 {
      var next, rest := ExecuteOn(ctx, stages[0].name, replies, budget), stages[1..];
      ReachedIffAllContinued(next, rest, i - 1, replies, budget);
      AllContinueFromSecond(ctx, stages, i, replies, budget);
      if ctx.cancelled {
        CancelledStays(ctx, stages, i, replies, budget);
      }
    }
  }

  ghost predicate AllContinue(ctx: Context, stages: seq<Stage>, i: nat, replies: Replies, budget: nat)
    requires i <= |stages|
  {
    forall j: nat | j < i :: Continues(Before(ctx, stages, j, replies, budget), replies, budget)
  }

  lemma AllContinueFromSecond(ctx: Context, stages: seq<Stage>, i: nat, replies: Replies, budget: nat)
    requires 0 < i <= |stages|
    ensures AllContinue(ctx, stages, i, replies, budget) <==>
            && Continues(ctx, replies, budget)
            && AllContinue(ExecuteOn(ctx, stages[0].name, replies, budget), stages[1..], i - 1, replies, budget)
  {
    var next, rest := ExecuteOn(ctx, stages[0].name, replies, budget), stages[1..];
    assert Before(ctx, stages, 0, replies, budget) == ctx;
    forall j: nat | 0 < j < i
      ensures Before(ctx, stages, j, replies, budget) == Before(next, rest, j - 1, replies, budget)
    {}
    if AllContinue(ctx, stages, i, replies, budget) {
      forall j: nat | j < i - 1 ensures Continues(Before(next, rest, j, replies, budget), replies, budget) {
        assert Continues(Before(ctx, stages, j + 1, replies, budget), replies, budget);
      }
    }
  }

  lemma {:induction false} CancelledStays(ctx: Context, stages: seq<Stage>, i: nat, replies: Replies, budget: nat)
    requires i <= |stages| && ctx.cancelled
    ensures Before(ctx, stages, i, replies, budget).cancelled
    decreases |stages|
  {
    if i > 0 {
      CancelledStays(ExecuteOn(ctx, stages[0].name, replies, budget), stages[1..], i - 1, replies, budget);
    }
  }

  /** The names in a list of timings, each run of one name taken once. */
  function Called(timings: seq<StageTiming>): seq<string> {
    if timings == [] then []
    else
      var earlier, name := timings[..|timings| - 1], timings[|timings| - 1].stageName;
      if earlier != [] && earlier[|earlier| - 1].stageName == name then Called(earlier)
      else Called(earlier) + [name]
  }

  function Names(stages: seq<Stage>): seq<string> {
    if stages == [] then [] else [stages[0].name] + Names(stages[1..])
  }

  lemma {:induction false} CalledAfterStage(timings: seq<StageTiming>, name: string, replies: Replies, k: nat, n: nat)
    requires n > 0 && (timings == [] || timings[|timings| - 1].stageName != name)
    ensures Called(timings + Timings(name, replies, k, n)) == Called(timings) + [name]
  {
    var more := Timings(name, replies, k, n);
    var all := timings + more;
    assert all[|all| - 1].stageName == name;
    assert all[..|all| - 1] == timings + Timings(name, replies, k, n - 1);
    if n == 1 {
      assert all[..|all| - 1] == timings;
    } else {
      CalledAfterStage(timings, name, replies, k, n - 1);
      assert all[|all| - 2] == more[n - 2];
    }
  }

  ghost predicate DistinctStages(stages: seq<Stage>) {
    forall i, j | 0 <= i < j < |stages| :: stages[i].name != stages[j].name
  }

  /** A run calls exactly a prefix of the enabled stages, in order, each one without interruption. */
  lemma {:induction false} CallsArePrefix(ctx: Context, stages: seq<Stage>, replies: Replies, budget: nat)
    requires budget > 0 && DistinctStages(stages)
    requires forall i | 0 <= i < |stages| && ctx.timings != [] :: stages[i].name != ctx.timings[|ctx.timings| - 1].stageName
    ensures var (last, executed, _) := RunOn(ctx, stages, replies, budget);
            Called(last.timings) == Called(ctx.timings) + Names(stages[..executed])
    decreases |stages|
  {
    var (last, executed, _) := RunOn(ctx, stages, replies, budget);
    if stages == [] || ctx.cancelled {
      assert stages[..0] == [];
    } else {
      var k := |ctx.timings|;
      var next := ExecuteOn(ctx, stages[0].name, replies, budget);
      StageIsCalled(ctx, stages[0].name, replies, budget);
      hide ExecuteOn, StageResult, Called;
      if StageResult(replies, k, budget) == CONTINUE {
        CallsArePrefix(next, stages[1..], replies, budget);
        assert stages[..executed][1..] == stages[1..][..executed - 1];
      } else {
        assert stages[..1][1..] == [];
      }
    }
  }

  lemma StageIsCalled(ctx: Context, name: string, replies: Replies, budget: nat)
    requires budget > 0 && (ctx.timings == [] || ctx.timings[|ctx.timings| - 1].stageName != name)
    ensures var timings := ExecuteOn(ctx, name, replies, budget).timings;
      && timings != [] && timings[|timings| - 1].stageName == name
      && Called(timings) == Called(ctx.timings) + [name]
  {
    CalledAfterStage(ctx.timings, name, replies, |ctx.timings|, Attempts(replies, |ctx.timings|, budget));
  }

  function TotalRetries(retries: map<string, nat>, stages: seq<Stage>): nat {
    if stages == [] then 0 else RetryCount(retries, stages[0].name) + TotalRetries(retries, stages[1..])
  }

  /** Every call is either the first call of an executed stage or one counted as a retry. */
  lemma {:induction false} CallsAreStagesPlusRetries(ctx: Context, stages: seq<Stage>, replies: Replies, budget: nat)
    requires budget > 0 && DistinctStages(stages)
    ensures var (last, executed, _) := RunOn(ctx, stages, replies, budget);
      && |last.timings| - |ctx.timings| == executed + TotalRetries(last.retries, stages) - TotalRetries(ctx.retries, stages)
      && (forall name | forall i | 0 <= i < |stages| :: stages[i].name != name ::
            RetryCount(last.retries, name) == RetryCount(ctx.retries, name))
    decreases |stages|
  {
    if stages != [] && !ctx.cancelled {
      var next := ExecuteOn(ctx, stages[0].name, replies, budget);
      var rest := stages[1..];
      forall i | 0 <= i < |rest| ensures rest[i].name != stages[0].name {
        assert rest[i] == stages[i + 1];
      }
      RetriesElsewhere(ctx.retries, next.retries, rest);
      if StageResult(replies, |ctx.timings|, budget) == CONTINUE {
        CallsAreStagesPlusRetries(next, rest, replies, budget);
      }
    }
  }

  lemma {:induction false} RetriesElsewhere(m: map<string, nat>, m': map<string, nat>, stages: seq<Stage>)
    requires forall i | 0 <= i < |stages| :: RetryCount(m, stages[i].name) == RetryCount(m', stages[i].name)
    ensures TotalRetries(m, stages) == TotalRetries(m', stages)
    decreases |stages|
  {
    if stages != [] {
      RetriesElsewhere(m, m', stages[1..]);
    }
  }

  /** For a new event, the calls are those of a prefix of the registry's enabled stages, in run order. */
  lemma RunFollowsRegistry(r: Registry, replies: Replies, maxRetries: nat)
    requires Sound(r)
    ensures var stages := EnabledStages(r, r.order);
            var run := RunOn(Context(false, [], map[]), stages, replies, Budget(maxRetries));
      && Called(run.0.timings) == Names(stages[..run.1])
      && |run.0.timings| == run.1 + TotalRetries(run.0.retries, stages)
  {
    var ctx, stages := Context(false, [], map[]), EnabledStages(r, r.order);
    EnabledStagesAreDistinct(r, r.order);
    CallsArePrefix(ctx, stages, replies, Budget(maxRetries));
    CallsAreStagesPlusRetries(ctx, stages, replies, Budget(maxRetries));
    NoRetriesYet(stages);
  }

  lemma {:induction false} NoRetriesYet(stages: seq<Stage>)
    ensures TotalRetries(map[], stages) == 0
  {
    if stages != [] {
      NoRetriesYet(stages[1..]);
    }
  }

  lemma {:induction false} LargerBudgetKeepsSettled(replies: Replies, k: nat, budget: nat, more: nat)
    requires budget <= more && StageResult(replies, k, budget) != ERROR
    ensures Attempts(replies, k, more) == Attempts(replies, k, budget)
    ensures StageResult(replies, k, more) == StageResult(replies, k, budget)
    decreases budget
  {
    if budget > 1 && !Settled(replies(k).outcome) {
      var rest := Attempts(replies, k + 1, budget - 1);
      assert Answer(replies, k, rest) == Answer(replies, k + 1, rest - 1);
      LargerBudgetKeepsSettled(replies, k + 1, budget - 1, more - 1);
    }
  }

  /** A larger number of retries never changes a run that did not fail. */
  lemma {:induction false} LargerBudgetKeepsRun(ctx: Context, stages: seq<Stage>, replies: Replies, budget: nat, more: nat)
    requires budget <= more && RunOn(ctx, stages, replies, budget).2 != Failed
    ensures RunOn(ctx, stages, replies, more) == RunOn(ctx, stages, replies, budget)
    decreases |stages|
  {
    if stages != [] && !ctx.cancelled {
      LargerBudgetKeepsSettled(replies, |ctx.timings|, budget, more);
      if StageResult(replies, |ctx.timings|, budget) == CONTINUE {
        LargerBudgetKeepsRun(ExecuteOn(ctx, stages[0].name, replies, budget), stages[1..], replies, budget, more);
      }
    }
  }

  class PipelineContext {
    var cancelled: bool
    var stageTimings: seq<StageTiming>
    var retryState: map<string, nat>

    ghost function View(): Context
      reads this
    {
      Context(cancelled, stageTimings, retryState)
    }

    constructor ()
      ensures View() == Context(false, [], map[])
    {
      cancelled, stageTimings, retryState := false, [], map[];
    }

    method Cancel()
      modifies this
      ensures View() == old(View()).(cancelled := true)
    {
      cancelled := true;
    }

    method IncrementRetry(stageName: string) returns (current: nat)
      modifies this
      ensures View() == old(View()).(retries := AddRetries(old(retryState), stageName, 1))
      ensures current == RetryCount(retryState, stageName)
    {
      current := RetryCount(retryState, stageName) + 1;
      retryState := retryState[stageName := current];
    }

    method RecordTiming(timing: StageTiming)
      modifies this
      ensures View() == old(View()).(timings := old(stageTimings) + [timing])
    {
      stageTimings := stageTimings + [timing];
    }
  }

  /** The counters of the pipeline metrics. */
  class PipelineMetrics {
    var processed: nat
    var dropped: nat
    var cancelled: nat
    var failed: nat
    var retries: nat

    constructor ()
      ensures processed == dropped == cancelled == failed == retries == 0
    {
      processed, dropped, cancelled, failed, retries := 0, 0, 0, 0, 0;
    }
  }

  class PipelineEngine {
    const maxRetries: int
    const retryDelay: real
    const registry: StageRegistry
    const metrics: PipelineMetrics

    constructor (registry: StageRegistry, metrics: PipelineMetrics, maxRetries: int, retryDelay: real)
      ensures this.registry == registry && this.metrics == metrics
      ensures this.maxRetries == maxRetries && this.retryDelay == retryDelay
    {
      this.registry, this.metrics := registry, metrics;
      this.maxRetries, this.retryDelay := maxRetries, retryDelay;
    }

    /** One call of the stage and the timing recorded for it. */
    method Call(stage: Stage, attempt: nat, reply: Reply, context: PipelineContext)
      modifies context
      ensures context.View() == Context(old(context.cancelled) || reply.cancels,
                                        old(context.stageTimings) + [TimingOf(stage.name, attempt, reply.outcome)],
                                        old(context.retryState))
    {
      if reply.cancels {
        context.Cancel();
      }
      context.RecordTiming(TimingOf(stage.name, attempt, reply.outcome));
    }

    /** Counts a retry and gives the delay before it. */
    method Retry(stage: Stage, attempt: nat, context: PipelineContext) returns (delay: real)
      modifies context, metrics`retries
      ensures context.View() == old(context.View()).(retries := AddRetries(old(context.retryState), stage.name, 1))
      ensures metrics.retries == old(metrics.retries) + 1
      ensures delay == Backoff(retryDelay, attempt + 1) - Backoff(retryDelay, attempt)
    {
      var _ := context.IncrementRetry(stage.name);
      metrics.retries := metrics.retries + 1;
      delay := retryDelay * Pow2(attempt) as real;
    }

    /** Calls the stage until a reply settles or the retries are used up; `waited` is the total of the
        delays slept between the calls. */
    method ExecuteStage(stage: Stage, replies: Replies, context: PipelineContext)
      returns (result: ProcessingResult, waited: real)
      modifies context, metrics`retries
      ensures context.View() == ExecuteOn(old(context.View()), stage.name, replies, Budget(maxRetries))
      ensures result == StageResult(replies, old(|context.stageTimings|), Budget(maxRetries))
      ensures var n := Attempts(replies, old(|context.stageTimings|), Budget(maxRetries));
        && metrics.retries == old(metrics.retries) + Retries(n)
        && waited == Backoff(retryDelay, Retries(n))
    {
      ghost var ctx, k, budget := context.View(), |context.stageTimings|, Budget(maxRetries);
      AfterNoCalls(ctx, stage.name, replies);
      hide After, Timings, Cancels, Attempts, StageResult, Backoff, Pow2, AddRetries, TimingOf;
      waited := 0.0;
      result := ERROR;
      for attempt := 0 to Budget(maxRetries)
        invariant context.View() == After(ctx, stage.name, replies, attempt, attempt)
        invariant NoneSettled(replies, k, attempt)
        invariant attempt < budget || attempt == 0
        invariant metrics.retries == old(metrics.retries) + attempt
        invariant waited == Backoff(retryDelay, attempt)
      {
        AfterOneMoreCall(ctx, stage.name, replies, attempt, attempt);
        var reply := replies(|context.stageTimings|);
        assert reply == Answer(replies, k, attempt);
        Call(stage, attempt, reply, context);
        assert context.View() == After(ctx, stage.name, replies, attempt + 1, attempt);
        if !Settled(reply.outcome) && attempt < maxRetries {
          AfterRetry(ctx, stage.name, replies, attempt + 1, attempt);
          var delay := Retry(stage, attempt, context);
          waited := waited + delay;
          continue;
        }
        ResultIsFirstSettled(replies, k, budget, if Settled(reply.outcome) then attempt else attempt + 1);
        if reply.outcome == Returned(RETRY) || reply.outcome == Raised {
          return ERROR, waited;
        }
        return reply.outcome.result, waited;
      }
      ResultIsFirstSettled(replies, k, budget, 0);
    }

    /** The body of the loop over the stages: counts what the stage comes to. */
    method RunStage(stage: Stage, replies: Replies, context: PipelineContext) returns (end: Option<End>)
      modifies context, metrics
      ensures (context.View(), end) == StepOn(old(context.View()), stage, replies, Budget(maxRetries))
      ensures end != Some(Completed)
      ensures metrics.processed == old(metrics.processed) + (if end == None then 1 else 0)
      ensures metrics.dropped == old(metrics.dropped) + (if end == Some(Dropped) then 1 else 0)
      ensures metrics.cancelled == old(metrics.cancelled) + (if end == Some(Cancelled) then 1 else 0)
      ensures metrics.failed == old(metrics.failed) + (if end == Some(Failed) then 1 else 0)
      ensures metrics.retries + (if end == Some(Cancelled) || Budget(maxRetries) == 0 then 0 else 1)
              == old(metrics.retries) + |context.stageTimings| - old(|context.stageTimings|)
      ensures |context.stageTimings| >= old(|context.stageTimings|)
    {
      if context.cancelled {
        metrics.cancelled := metrics.cancelled + 1;
        return Some(Cancelled);
      }
      var result, _ := ExecuteStage(stage, replies, context);
      if result == DROP {
        metrics.dropped := metrics.dropped + 1;
        return Some(Dropped);
      }
      if result == STOP {
        return Some(Stopped);
      }
      if result == ERROR {
        metrics.failed := metrics.failed + 1;
        return Some(Failed);
      }
      metrics.processed := metrics.processed + 1;
      return None;
    }

    /** Runs an event through the stages that the registry has enabled, until one of them ends the run. */
    method RunPipeline(replies: Replies, context: PipelineContext) returns (end: End)
      requires Sound(registry.View())
      modifies context, metrics
      ensures var run := RunOn(old(context.View()), registry.GetEnabledStages(), replies, Budget(maxRetries));
        && context.View() == run.0 && end == run.2
        && metrics.processed == old(metrics.processed) + run.1 - (if end in {Dropped, Stopped, Failed} then 1 else 0)
        && (Budget(maxRetries) > 0 ==>
              metrics.retries + run.1 == old(metrics.retries) + |run.0.timings| - old(|context.stageTimings|))
      ensures metrics.dropped == old(metrics.dropped) + (if end == Dropped then 1 else 0)
      ensures metrics.cancelled == old(metrics.cancelled) + (if end == Cancelled then 1 else 0)
      ensures metrics.failed == old(metrics.failed) + (if end == Failed then 1 else 0)
      ensures Budget(maxRetries) == 0 ==> metrics.retries == old(metrics.retries) && context.View() == old(context.View())
    {
      var stages := registry.GetEnabledStages();
      ghost var run := RunOn(context.View(), stages, replies, Budget(maxRetries));
      assert stages[0..] == stages;
      for i := 0 to |stages|
        invariant metrics.processed == old(metrics.processed) + i
        invariant metrics.dropped == old(metrics.dropped) && metrics.cancelled == old(metrics.cancelled)
        invariant metrics.failed == old(metrics.failed)
        invariant Budget(maxRetries) > 0 ==>
            metrics.retries + i == old(metrics.retries) + |context.stageTimings| - old(|context.stageTimings|)
        invariant Budget(maxRetries) == 0 ==> i == 0 && metrics.retries == old(metrics.retries)
        invariant i == 0 ==> context.View() == old(context.View())
        invariant OnCourse(run, context.View(), stages, i, replies, Budget(maxRetries))
      {
        StepStaysOnCourse(run, context.View(), stages, i, replies, Budget(maxRetries));
        NoBudgetNoCalls(context.View(), stages[i], replies);
        hide OnCourse, RunOn, StepOn, Sound, EnabledStages, Budget;
        var ended := RunStage(stages[i], replies, context);
        if ended.Some? {
          return ended.value;
        }
      }
      return Completed;
    }
  }

  lemma NoBudgetNoCalls(ctx: Context, stage: Stage, replies: Replies)
    ensures StepOn(ctx, stage, replies, 0).0 == ctx && StepOn(ctx, stage, replies, 0).1.Some?
  {}
}
