/** The ReAct loop with its permission boundary (`crates/core/src/planner.rs`), and the default validator
    (`validator.rs`). */
module Planning {
  import opened Text
  import opened Permissions
  import opened Principals
  import opened Runtime
  import opened Executors
  import Context

  datatype Step = Step(thought: string, action: string, observation: string)

  datatype RunTrace = RunTrace(steps: seq<Step>, finalAnswer: string)

  /** `run` shows the LLM the rolling window; `run_with_context` trims the chunks and shows both. */
  datatype Mode = Rolling | Seeded

  /** A planner as configured. */
  datatype Agent = Agent(principal: Principal, executor: Executor, maxSteps: nat, mode: Mode)

  /** What one completed step of the loop yields. */
  datatype Progress = Progress(ctx: Context.State, step: Step, obs: Observation)

  const BUDGET_EXHAUSTED: string := "budget exhausted"

  function DeniedObservation(tool: string): Observation {
    Observation(tool, "[denied] action `" + tool + "` not permitted", false)
  }

  function BasicValidate(maxSteps: nat, obs: Observation, step: nat): Verdict {
    if obs.terminal then Done else if step >= maxSteps then BudgetExhausted else Continue
  }

  // ---------------------------------------------------------------- the loop as a function of the world

  function PromptContext(mode: Mode, ctx: Context.State): Context.State {
    if mode == Rolling then ctx else ctx.Trimmed()
  }

  function Prompt(mode: Mode, ctx: Context.State): string {
    if mode == Rolling then ctx.Snapshot() else ctx.BuildPrompt()
  }

  /** Check the right, then run the tool or answer with the denial. */
  function Act(env: Env, agent: Agent, w: World, plan: ActionPlan): (World, bool, Result<Observation>) {
    var (w1, granted) := Authorize(env, agent.principal, w, plan.tool);
    if granted then
      var w2 := Dispatch(w1, plan.tool, plan.argument);
      var (w3, reply) := RunTool(env, agent.executor, w2, plan.tool, plan.argument);
      (w3, true, reply)
    else (w1, false, Ok(DeniedObservation(plan.tool)))
  }

  /** The edit of an authorized `modify`; the host's answer is ignored. */
  function ApplyResult(w: World, granted: bool, tool: string, output: string): World {
    if granted && tool == "modify" then Edit(w, output) else w
  }

  function RunStep(env: Env, agent: Agent, ctx: Context.State, w: World): (World, Result<Progress>) {
    var shown := PromptContext(agent.mode, ctx);
    var (w1, thought) := Think(env, w, Planning, Prompt(agent.mode, shown));
    if thought.Err? then (w1, Err(thought.error))
    else
      var (w2, plan) := PlanAction(env, w1, thought.value);
      if plan.Err? then (w2, Err(plan.error))
      else
        var (w3, granted, reply) := Act(env, agent, w2, plan.value);
        if reply.Err? then (w3, Err(reply.error))
        else
          var obs := reply.value;
          (ApplyResult(w3, granted, plan.value.tool, obs.output),
           Ok(Progress(shown.Push(obs.output), Step(thought.value, plan.value.tool, obs.output), obs)))
  }

  function RunSteps(env: Env, agent: Agent, step: nat, ctx: Context.State, trace: RunTrace, w: World)
    : (World, Result<RunTrace>)
    decreases agent.maxSteps - step
  {
    if step >= agent.maxSteps then (w, Ok(trace))
    else
      var (w1, progress) := RunStep(env, agent, ctx, w);
      if progress.Err? then (w1, Err(progress.error))
      else
        var longer := trace.(steps := trace.steps + [progress.value.step]);
        match env.validate(w1.log, progress.value.obs, step + 1)
        case Continue => RunSteps(env, agent, step + 1, progress.value.ctx, longer, w1)
        case Done => (w1, Ok(longer.(finalAnswer := progress.value.obs.output)))
        case BudgetExhausted => (w1, Ok(longer.(finalAnswer := BUDGET_EXHAUSTED)))
  }

  const EMPTY_TRACE: RunTrace := RunTrace([], "")

  /** `Planner::run`. */
  function RunPlanner(env: Env, agent: Agent, goal: string, w: World): (World, Result<RunTrace>) {
    RunSteps(env, agent, 0, Context.Fresh(16, 4096).Push("goal: " + goal), EMPTY_TRACE, w)
  }

  /** `Planner::run_with_context`. */
  function RunSeeded(env: Env, agent: Agent, goal: string, sources: seq<Context.Chunk>, w: World)
    : (World, Result<RunTrace>) {
    var ctx := Context.Fresh(agent.maxSteps, 4096).(chunks := sources);
    RunSteps(env, agent, 0, ctx.Push("goal: " + goal), EMPTY_TRACE, w)
  }

  // ---------------------------------------------------------------- safety, conservation, work bound

  /** What a stretch of the loop amounts to: it is accounted for, its calls to the base executor stay within
      `limit`, and `steps` steps were completed. A step is one metered thought and either one dispatch or one
      denial; a stretch cut short by an error may have had one more thought and at most one more dispatch. */
  ghost predicate Progressed(principal: Principal, gateClosed: bool, limit: int, steps: int, complete: bool, w: World,
                             w': World) {
    var m := Effect(New(w, w')).metrics;
    && Accounted(principal, gateClosed, w, w')
    && Calls(New(w, w')) <= limit
    && m.denials <= m.auditEvents
    && if complete then m.llmCalls == steps && m.toolCalls + m.denials == steps
       else m.llmCalls == steps + 1 && steps <= m.toolCalls + m.denials <= steps + 1
  }

  lemma ProgressedThen(principal: Principal, gateClosed: bool, m: int, n: int, i: int, j: int, complete: bool, a: World,
                       b: World, c: World)
    requires Progressed(principal, gateClosed, m, i, true, a, b)
    requires Progressed(principal, gateClosed, n, j, complete, b, c)
    ensures Progressed(principal, gateClosed, m + n, i + j, complete, a, c)
  {
    hide Accounted, Effect, Calls, New;
    Chain(principal, gateClosed, a, b, c);
  }

  lemma ActAccounted(env: Env, agent: Agent, w: World, plan: ActionPlan)
    ensures var (w', granted, reply) := Act(env, agent, w, plan);
            && Accounted(agent.principal, GateClosed(agent.executor), w, w')
            && Calls(New(w, w')) <= Fanout(agent.executor)
            && (granted <==> MayUse(agent.principal, plan.tool))
            && var m := Effect(New(w, w')).metrics;
               m.llmCalls == 0 && m.toolCalls + m.denials == 1 && m.denials <= m.auditEvents <= 1
  {
    hide MayUse, Risky, Accounted, Effect, Calls, New, Dispatch, Authorize, RunTool, GateClosed, Fanout,
      ActionPermission, CalledOnly, HeldOnly;
    var p, gate := agent.principal, GateClosed(agent.executor);
    var (w1, granted) := Authorize(env, p, w, plan.tool);
    AuthorizeAccounted(env, p, gate, w, plan.tool);
    if granted {
      var w2 := Dispatch(w1, plan.tool, plan.argument);
      DispatchAccounted(p, gate, w1, plan.tool, plan.argument);
      Chain(p, gate, w, w1, w2);
      var w3 := RunTool(env, agent.executor, w2, plan.tool, plan.argument).0;
      RunToolAccounted(env, p, agent.executor, w2, plan.tool, plan.argument);
      Chain(p, gate, w, w2, w3);
    }
  }

  lemma ModifyAllowed(principal: Principal, tool: string)
    ensures tool == "modify" ==> (MayUse(principal, tool) <==> principal.perms.Has(Modify))
  {
    FinishIsFree();
  }

  lemma StepProgressed(env: Env, agent: Agent, ctx: Context.State, w: World)
    ensures var (w', progress) := RunStep(env, agent, ctx, w);
            Progressed(agent.principal, GateClosed(agent.executor), Fanout(agent.executor),
                       if progress.Ok? then 1 else 0, progress.Ok?, w, w')
  {
    hide MayUse, Accounted, Effect, Calls, New, Think, PlanAction, Act, Edit, GateClosed, Fanout, Prompt,
      PromptContext, Context.State.Push;
    var p, gate := agent.principal, GateClosed(agent.executor);
    var shown := PromptContext(agent.mode, ctx);
    var prompt := Prompt(agent.mode, shown);
    var (w1, thought) := Think(env, w, Planning, prompt);
    ThinkAccounted(env, p, gate, w, Planning, prompt);
    if thought.Ok? {
      var (w2, plan) := PlanAction(env, w1, thought.value);
      PlanAccounted(env, p, gate, w1, thought.value);
      Chain(p, gate, w, w1, w2);
      if plan.Ok? {
        var (w3, granted, reply) := Act(env, agent, w2, plan.value);
        ActAccounted(env, agent, w2, plan.value);
        Chain(p, gate, w, w2, w3);
        if reply.Ok? {
          var w4 := ApplyResult(w3, granted, plan.value.tool, reply.value.output);
          ModifyAllowed(p, plan.value.tool);
          if granted && plan.value.tool == "modify" {
            EditAccounted(p, gate, w3, reply.value.output);
          } else {
            Still(p, gate, w3);
          }
          Chain(p, gate, w, w3, w4);
        }
      }
    }
  }

  lemma {:induction false} StepsProgressed(env: Env, agent: Agent, step: nat, ctx: Context.State, trace: RunTrace,
                                           w: World)
    returns (completed: nat)
    requires step <= agent.maxSteps
    ensures var (w', result) := RunSteps(env, agent, step, ctx, trace, w);
            && Progressed(agent.principal, GateClosed(agent.executor), (agent.maxSteps - step) * Fanout(agent.executor),
                          completed, result.Ok?, w, w')
            && completed <= agent.maxSteps - step
            && (result.Ok? ==> |result.value.steps| == |trace.steps| + completed)
            && (result.Err? ==> completed < agent.maxSteps - step)
    decreases agent.maxSteps - step
  {
    hide Progressed, RunStep, GateClosed, Fanout;
    var p, gate, f := agent.principal, GateClosed(agent.executor), Fanout(agent.executor);
    if step >= agent.maxSteps {
      NoProgress(p, gate, w);
      completed := 0;
    } else {
      var (w1, progress) := RunStep(env, agent, ctx, w);
      StepProgressed(env, agent, ctx, w);
      var left := (agent.maxSteps - step - 1) * f;
      OneMore(agent.maxSteps - step - 1, f);
      if progress.Err? {
        completed := 0;
        MoreRoom(p, gate, f, left + f, 0, false, w, w1);
      } else {
        var longer := trace.(steps := trace.steps + [progress.value.step]);
        if env.validate(w1.log, progress.value.obs, step + 1) == Continue {
          completed := StepsProgressed(env, agent, step + 1, progress.value.ctx, longer, w1);
          var (w2, result) := RunSteps(env, agent, step + 1, progress.value.ctx, longer, w1);
          ProgressedThen(p, gate, f, left, 1, completed, result.Ok?, w, w1, w2);
          completed := completed + 1;
        } else {
          completed := 1;
          MoreRoom(p, gate, f, left + f, 1, true, w, w1);
        }
      }
    }
  }

  lemma NoProgress(principal: Principal, gateClosed: bool, w: World)
    ensures Progressed(principal, gateClosed, 0, 0, true, w, w)
  {
    Still(principal, gateClosed, w);
  }

  lemma MoreRoom(principal: Principal, gateClosed: bool, m: int, n: int, steps: int, complete: bool, w: World,
                 w': World)
    requires Progressed(principal, gateClosed, m, steps, complete, w, w') && m <= n
    ensures Progressed(principal, gateClosed, n, steps, complete, w, w')
  {
  }

  /** Whole runs of the planner, for any LLM, tool, validator and audit sink and on every exit path: only
      permitted events happen, counters and audit rows are exactly what the events say, the base executor is
      called at most `maxSteps` times the executor's fan-out, and on success the trace has one step for each
      dispatch or denial and for each metered thought. */
  lemma PlannerRunAccounted(env: Env, agent: Agent, goal: string, w: World)
    ensures var (w', result) := RunPlanner(env, agent, goal, w);
            var m := Effect(New(w, w')).metrics;
            && Accounted(agent.principal, GateClosed(agent.executor), w, w')
            && Calls(New(w, w')) <= agent.maxSteps * Fanout(agent.executor)
            && m.llmCalls <= agent.maxSteps
            && (result.Ok? ==> |result.value.steps| == m.toolCalls + m.denials == m.llmCalls)
            && (result.Err? ==> m.llmCalls - 1 <= m.toolCalls + m.denials <= m.llmCalls)
  {
    hide Accounted, Calls, Effect, New, GateClosed, Fanout, RunSteps, Context.State.Push, Context.Fresh;
    var ctx := Context.Fresh(16, 4096).Push("goal: " + goal);
    var completed := StepsProgressed(env, agent, 0, ctx, EMPTY_TRACE, w);
    var (w', result) := RunSteps(env, agent, 0, ctx, EMPTY_TRACE, w);
    assert RunPlanner(env, agent, goal, w) == (w', result);
    assert result.Ok? || result.Err?;
  }

  /** The same for runs seeded with context chunks. */
  lemma SeededRunAccounted(env: Env, agent: Agent, goal: string, sources: seq<Context.Chunk>, w: World)
    ensures var (w', result) := RunSeeded(env, agent, goal, sources, w);
            var m := Effect(New(w, w')).metrics;
            && Accounted(agent.principal, GateClosed(agent.executor), w, w')
            && Calls(New(w, w')) <= agent.maxSteps * Fanout(agent.executor)
            && m.llmCalls <= agent.maxSteps
            && (result.Ok? ==> |result.value.steps| == m.toolCalls + m.denials == m.llmCalls)
            && (result.Err? ==> m.llmCalls - 1 <= m.toolCalls + m.denials <= m.llmCalls)
  {
    hide Accounted, Calls, Effect, New, GateClosed, Fanout, RunSteps, Context.State.Push, Context.Fresh;
    var ctx := Context.Fresh(agent.maxSteps, 4096).(chunks := sources);
    var start := ctx.Push("goal: " + goal);
    var completed := StepsProgressed(env, agent, 0, start, EMPTY_TRACE, w);
    var (w', result) := RunSteps(env, agent, 0, start, EMPTY_TRACE, w);
    assert RunSeeded(env, agent, goal, sources, w) == (w', result);
    assert result.Ok? || result.Err?;
  }

  // ---------------------------------------------------------------- the planner as it runs

  class Planner {
    const shared: Shared
    const principal: Principal
    const executor: Executor
    const maxSteps: nat

    constructor (shared: Shared, principal: Principal, executor: Executor, maxSteps: nat)
      ensures this.shared == shared && this.principal == principal
      ensures this.executor == executor && this.maxSteps == maxSteps
    {
      this.shared, this.principal, this.executor, this.maxSteps := shared, principal, executor, maxSteps;
    }

    function Configured(mode: Mode): Agent {
      Agent(principal, executor, maxSteps, mode)
    }

    /** One turn: think, plan, check the right, act, remember. */
    method Turn(mode: Mode, ctx: Context.ContextManager) returns (progress: Result<(Step, Observation)>)
      modifies shared, ctx
      ensures var (w, spec) := RunStep(shared.env, Configured(mode), old(ctx.Value()), old(shared.Now()));
              && shared.Now() == w
              && (progress.Ok? <==> spec.Ok?)
              && (progress.Ok? ==> progress.value == (spec.value.step, spec.value.obs) && ctx.Value() == spec.value.ctx)
              && (progress.Err? ==> progress.error == spec.error)
    {
      hide Think, PlanAction, Authorize, Dispatch, RunTool, Context.State.Push, Context.State.Trimmed,
        Context.State.Snapshot, Context.State.BuildPrompt;
      if mode == Seeded {
        var _ := ctx.BudgetTrim();
      }
      var shown := ctx.Value();
      var thought := shared.AskLlm(Planning, if mode == Rolling then shown.Snapshot() else shown.BuildPrompt());
      if thought.Err? {
        return Err(thought.error);
      }
      var plan := shared.AskPlan(thought.value);
      if plan.Err? {
        return Err(plan.error);
      }
      var tool, argument := plan.value.tool, plan.value.argument;
      var granted := shared.AuthorizeAndRecord(principal, tool);
      var obs := DeniedObservation(tool);
      if granted {
        shared.NoteDispatch(tool, argument);
        var reply := Executors.Run(shared, executor, tool, argument);
        if reply.Err? {
          return Err(reply.error);
        }
        obs := reply.value;
      }
      ctx.Push(obs.output);
      if granted && tool == "modify" {
        shared.ApplyEdit(obs.output);
      }
      progress := Ok((Step(thought.value, tool, obs.output), obs));
    }

    /** The loop shared by both entry points. */
    method Loop(mode: Mode, ctx: Context.ContextManager) returns (result: Result<RunTrace>)
      modifies shared, ctx
      ensures (shared.Now(), result) ==
              RunSteps(shared.env, Configured(mode), 0, old(ctx.Value()), EMPTY_TRACE, old(shared.Now()))
    {
      hide RunStep;
      ghost var goal := RunSteps(shared.env, Configured(mode), 0, ctx.Value(), EMPTY_TRACE, shared.Now());
      var trace := EMPTY_TRACE;
      for step := 0 to maxSteps
        invariant RunSteps(shared.env, Configured(mode), step, ctx.Value(), trace, shared.Now()) == goal
      {
        ghost var spec := RunStep(shared.env, Configured(mode), ctx.Value(), shared.Now());
        var progress := Turn(mode, ctx);
        assert spec.1.Ok? || spec.1.Err?;
        if progress.Err? {
          return Err(progress.error);
        }
        var (done, obs) := progress.value;
        trace := trace.(steps := trace.steps + [done]);
        match shared.env.validate(shared.log, obs, step + 1) {
          case Continue =>
          case Done =>
            return Ok(trace.(finalAnswer := obs.output));
          case BudgetExhausted =>
            return Ok(trace.(finalAnswer := BUDGET_EXHAUSTED));
        }
      }
      result := Ok(trace);
    }

    method Run(goal: string) returns (result: Result<RunTrace>)
      modifies shared
      ensures (shared.Now(), result) == RunPlanner(shared.env, Configured(Rolling), goal, old(shared.Now()))
    {
      var ctx := new Context.ContextManager(16, 4096);
      ctx.Push("goal: " + goal);
      result := Loop(Rolling, ctx);
    }

    method RunWithContext(goal: string, sources: seq<Context.Chunk>) returns (result: Result<RunTrace>)
      modifies shared
      ensures (shared.Now(), result) == RunSeeded(shared.env, Configured(Seeded), goal, sources, old(shared.Now()))
    {
      var ctx := new Context.ContextManager(maxSteps, 4096);
      for i := 0 to |sources|
        invariant fresh(ctx) && shared.Now() == old(shared.Now())
        invariant ctx.Value() == Context.Fresh(maxSteps, 4096).(chunks := sources[..i])
      {
        ctx.AddChunk(sources[i]);
      }
      assert sources[..|sources|] == sources;
      ctx.Push("goal: " + goal);
      result := Loop(Seeded, ctx);
    }
  }
}
