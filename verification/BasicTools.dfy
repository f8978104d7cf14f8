/** The built-in tools (`crates/core/src/tool_executor.rs`) under the default validator, and what "finished"
    means for a planner run over them. */
module BasicTools {
  import opened Text
  import opened Permissions
  import opened Principals
  import opened Runtime
  import opened Executors
  import opened Planning
  import Context

  const TASK_FINISHED: string := "task finished"

  function BasicTool(tool: string, argument: string): Observation {
    if tool == "inspect" then Observation(tool, "inspected " + argument, false)
    else if tool == "finish" then Observation(tool, TASK_FINISHED, true)
    else Observation(tool, "no-op tool: " + tool, false)
  }

  /** The base executor is the built-in one and the validator is the default one, with any step limit. */
  ghost predicate BasicStack(env: Env, limit: nat) {
    && (forall h, tool, argument :: env.exec(h, tool, argument) == Ok(BasicTool(tool, argument)))
    && (forall h, obs, step :: env.validate(h, obs, step) == BasicValidate(limit, obs, step))
  }

  /** The last event is a call of `finish` on the base executor. */
  predicate EndsInFinish(events: seq<Event>) {
    events != [] && var last := events[|events| - 1]; last.Called? && last.tool == "finish"
  }

  /** Only `finish` produces the final answer, and only `finish` is terminal. */
  lemma OnlyFinishFinishes(tool: string, argument: string)
    ensures BasicTool(tool, argument).output == TASK_FINISHED <==> tool == "finish"
    ensures BasicTool(tool, argument).terminal <==> tool == "finish"
    ensures !DeniedObservation(tool).terminal
    ensures DeniedObservation(tool).output != TASK_FINISHED && PendingOutput(tool, argument) != TASK_FINISHED
    ensures BUDGET_EXHAUSTED != TASK_FINISHED && "" != TASK_FINISHED
  {
    assert TASK_FINISHED[0] == 't';
    assert BasicTool(tool, argument).output[0]
        == if tool == "inspect" then 'i' else if tool == "finish" then 't' else 'n';
    assert DeniedObservation(tool).output[0] == '[' && PendingOutput(tool, argument)[0] == '[';
    assert BUDGET_EXHAUSTED[0] == 'b';
  }

  /** Over the built-in tools no executor stack ever fails: it answers as the built-in tool would, after exactly
      one call, or holds a risky tool back. */
  lemma {:induction false} BasicReply(env: Env, limit: nat, ex: Executor, w: World, tool: string, argument: string)
    requires BasicStack(env, limit)
    ensures var (w', reply) := RunTool(env, ex, w, tool, argument);
            && w.log <= w'.log
            && (|| (New(w, w') == [Called(tool, argument, reply)] && reply == Ok(BasicTool(tool, argument)))
                || (Risky(tool) && |New(w, w')| == 1 && New(w, w')[0].Held?
                    && reply == Ok(Observation(tool, PendingOutput(tool, argument), false))))
    decreases ex
  {
    hide Risky, BasicTool, PendingOutput, RepairLoop;
    match ex
    case Base =>
    case Healing(inner, maxRepairs) => BasicReply(env, limit, inner, w, tool, argument);
    case Gated(inner, autoCommit, subtaskId) =>
      GateHolds(env, inner, autoCommit, subtaskId, w, tool, argument);
      if !(Risky(tool) && !autoCommit) {
        BasicReply(env, limit, inner, w, tool, argument);
      }
  }

  /** Behind any stack of executors `inspect` reports its argument, `finish` that the task is finished. */
  lemma BuiltInReplies(env: Env, limit: nat, ex: Executor, w: World, argument: string)
    requires BasicStack(env, limit)
    ensures RunTool(env, ex, w, "inspect", argument).1 == Ok(Observation("inspect", "inspected " + argument, false))
    ensures RunTool(env, ex, w, "finish", argument).1 == Ok(Observation("finish", "task finished", true))
  {
    hide RunTool, ActionPermission, BasicStack;
    FinishIsFree();
    BasicReply(env, limit, ex, w, "inspect", argument);
    BasicReply(env, limit, ex, w, "finish", argument);
  }

  /** A step is terminal, and its output the final answer, exactly when it ended in a call of `finish`; a step
      cut short never does. */
  lemma StepFinish(env: Env, limit: nat, agent: Agent, ctx: Context.State, w: World)
    requires BasicStack(env, limit)
    ensures var (w', progress) := RunStep(env, agent, ctx, w);
            && w.log <= w'.log && New(w, w') != []
            && (EndsInFinish(New(w, w')) <==> progress.Ok? && progress.value.obs.terminal)
            && (progress.Ok? ==> (progress.value.obs.terminal <==> progress.value.obs.output == TASK_FINISHED))
            && (progress.Ok? ==> (progress.value.step.action == "finish" <==> EndsInFinish(New(w, w'))))
  {
    hide Accounted, Authorize, Dispatch, RunTool, Prompt, PromptContext, Context.State.Push, ActionPermission, Effect,
      Calls, BasicTool, Risky, PendingOutput, DeniedObservation, BasicStack, PermissionSet.Has;
    var shown := PromptContext(agent.mode, ctx);
    var prompt := Prompt(agent.mode, shown);
    var (w1, thought) := Think(env, w, Planning, prompt);
    assert New(w, w1) == [Thought(Planning, prompt, thought)];
    if thought.Ok? {
      var (w2, plan) := PlanAction(env, w1, thought.value);
      assert New(w, w2) == New(w, w1) + [Planned(thought.value, plan)];
      if plan.Ok? {
        ActFinish(env, limit, agent, w2, plan.value);
        var (w3, granted, reply) := Act(env, agent, w2, plan.value);
        NewChain(w, w2, w3);
        OnlyFinishFinishes(plan.value.tool, plan.value.argument);
        assert w.log <= w3.log;
      }
    }
  }

  lemma ActFinish(env: Env, limit: nat, agent: Agent, w: World, plan: ActionPlan)
    requires BasicStack(env, limit)
    ensures var (w', granted, reply) := Act(env, agent, w, plan);
            && w.log <= w'.log && New(w, w') != [] && reply.Ok?
            && (EndsInFinish(New(w, w')) <==> plan.tool == "finish")
            && (reply.value.terminal <==> plan.tool == "finish")
            && (reply.value.output == TASK_FINISHED <==> plan.tool == "finish")
  {
    hide Accounted, Authorize, RunTool, ActionPermission, Effect, Calls, BasicTool, Risky, PendingOutput,
      DeniedObservation, BasicStack, PermissionSet.Has, MayUse;
    var (w1, granted) := Authorize(env, agent.principal, w, plan.tool);
    AuthorizeAccounted(env, agent.principal, false, w, plan.tool);
    OnlyFinishFinishes(plan.tool, plan.argument);
    FinishIsAllowed(agent.principal);
    assert w.log <= w1.log by {
      AccountedGrows(agent.principal, false, w, w1);
    }
    if granted {
      var w2 := Dispatch(w1, plan.tool, plan.argument);
      assert New(w1, w2) == [Dispatched(plan.tool, plan.argument)];
      NewChain(w, w1, w2);
      var (w3, reply) := RunTool(env, agent.executor, w2, plan.tool, plan.argument);
      BasicReply(env, limit, agent.executor, w2, plan.tool, plan.argument);
      NewChain(w, w2, w3);
    }
  }

  lemma AccountedGrows(principal: Principal, gateClosed: bool, w: World, w': World)
    requires Accounted(principal, gateClosed, w, w')
    ensures w.log <= w'.log
  {
  }

  lemma FinishIsAllowed(principal: Principal)
    ensures MayUse(principal, "finish") && !Risky("finish")
  {
    FinishIsFree();
  }

  lemma Validates(env: Env, limit: nat, h: seq<Event>, obs: Observation, step: nat)
    requires BasicStack(env, limit)
    ensures env.validate(h, obs, step) == BasicValidate(limit, obs, step)
  {
  }

  lemma {:induction false} StepsFinish(env: Env, limit: nat, agent: Agent, step: nat, ctx: Context.State,
                                       trace: RunTrace, w: World)
    requires BasicStack(env, limit) && trace.finalAnswer != TASK_FINISHED
    ensures var (w', result) := RunSteps(env, agent, step, ctx, trace, w);
            && w.log <= w'.log
            && (EndsInFinish(New(w, w')) <==> result.Ok? && result.value.finalAnswer == TASK_FINISHED)
            && (EndsInFinish(New(w, w')) ==> New(w, w') != [])
            && (result.Ok? && result.value.finalAnswer == TASK_FINISHED
                ==> result.value.steps != [] && result.value.steps[|result.value.steps| - 1].action == "finish")
    decreases agent.maxSteps - step
  {
    hide RunStep, BasicStack, EndsInFinish, New;
    NothingNew(w);
    if step < agent.maxSteps {
      var (w1, progress) := RunStep(env, agent, ctx, w);
      StepFinish(env, limit, agent, ctx, w);
      OnlyFinishFinishes("", "");
      if progress.Ok? {
        var longer := trace.(steps := trace.steps + [progress.value.step]);
        Validates(env, limit, w1.log, progress.value.obs, step + 1);
        if env.validate(w1.log, progress.value.obs, step + 1) == Continue {
          var w2 := RunSteps(env, agent, step + 1, progress.value.ctx, longer, w1).0;
          StepsFinish(env, limit, agent, step + 1, progress.value.ctx, longer, w1);
          NewChain(w, w1, w2);
          EndsConcat(New(w, w1), New(w1, w2));
        }
      }
    }
  }

  lemma NothingNew(w: World)
    ensures New(w, w) == [] && !EndsInFinish([])
  {
  }

  lemma EndsConcat(a: seq<Event>, b: seq<Event>)
    ensures EndsInFinish(a + b) <==> EndsInFinish(if b == [] then a else b)
  {
    if b == [] { assert a + b == a; }
  }

  /** Over the built-in tools and the default validator, a planner run answers "task finished" exactly when the
      last thing that happened is a call of `finish`. */
  lemma FinishedIffFinishCalled(env: Env, limit: nat, agent: Agent, goal: string, w: World)
    requires BasicStack(env, limit)
    ensures var (w', result) := RunPlanner(env, agent, goal, w);
            && w.log <= w'.log
            && (result.Ok? && result.value.finalAnswer == TASK_FINISHED <==> EndsInFinish(New(w, w')))
  {
    hide RunSteps;
    OnlyFinishFinishes("", "");
    StepsFinish(env, limit, agent, 0, Context.Fresh(16, 4096).Push("goal: " + goal), EMPTY_TRACE, w);
  }
}
