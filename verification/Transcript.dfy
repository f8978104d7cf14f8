/** The story of a planner run, told from its events alone: what the LLM was shown, what was done about its answer, what
    came back, and how the run ended (`crates/core/src/planner.rs`). */
module Transcript {
  import opened Text
  import opened Permissions
  import opened Principals
  import opened Runtime
  import opened Executors
  import opened Planning
  import Context

  /** One completed turn. `ran` is what happened between the dispatch and the answer to it. */
  datatype Turn = Turn(
    prompt: string, thought: string, plan: ActionPlan, stored: bool, ran: seq<Event>, obs: Observation)

  // ---------------------------------------------------------------- the events of a turn

  /** A privileged action leaves one audit row, granted exactly when the right is held; any other leaves none. */
  function AuditRow(principal: Principal, tool: string, stored: bool): seq<Event> {
    match ActionPermission(tool)
    case None => []
    case Some(right) =>
      [Audited(AuditEntry(principal.tenantId, principal.userId, AuditAction(right), principal.perms.Has(right), tool),
          stored)]
  }

  /** What a turn leaves in the log: thought, plan, audit row; and, when the action is allowed, its dispatch, what
      came of it, and the edit of a `modify`. */
  function EventsOf(principal: Principal, t: Turn): seq<Event> {
    [Thought(Planning, t.prompt, Ok(t.thought)), Planned(t.thought, Ok(t.plan))]
    + AuditRow(principal, t.plan.tool, t.stored)
    + if MayUse(principal, t.plan.tool) then
        [Dispatched(t.plan.tool, t.plan.argument)] + t.ran
        + if t.plan.tool == "modify" then [Edited(t.obs.output)] else []
      else []
  }

  function EventsOfAll(principal: Principal, turns: seq<Turn>): seq<Event> {
    var n := |turns|;
    if n == 0 then [] else EventsOfAll(principal, turns[..n - 1]) + EventsOf(principal, turns[n - 1])
  }

  /** Between dispatch and answer there are calls, approvals held back and thoughts about repairs, nothing else. */
  predicate Inner(events: seq<Event>) {
    forall i :: 0 <= i < |events| ==>
      events[i].Called? || events[i].Held? || (events[i].Thought? && events[i].purpose == Repair)
  }

  /** The answer is the reply of the last call, or says which action is held back for approval. */
  ghost predicate Yields(tool: string, ran: seq<Event>, obs: Observation) {
    ran != [] &&
    var last := ran[|ran| - 1];
    match last
    case Called(name, _, reply) => name == tool && reply == Ok(obs)
    case Held(approval) =>
      approval.tool == tool
      && obs == Observation(tool, "[pending approval] " + tool + " " + approval.argument, false)
    case _ => false
  }

  ghost predicate WellRun(principal: Principal, t: Turn) {
    var tool := t.plan.tool;
    if MayUse(principal, tool) then Inner(t.ran) && Yields(tool, t.ran, t.obs)
    else t.obs == Observation(tool, "[denied] action `" + tool + "` not permitted", false)
  }

  // ---------------------------------------------------------------- what the LLM is shown

  function Outputs(turns: seq<Turn>): (r: seq<string>)
    ensures |r| == |turns|
  {
    seq(|turns|, i requires 0 <= i < |turns| => turns[i].obs.output)
  }

  /** The goal and the outputs of the turns so far, as far as the window reaches back. */
  function Window(bound: nat, goal: string, turns: seq<Turn>): seq<string> {
    LastOf(["goal: " + goal] + Outputs(turns), if bound == 0 then 1 else bound)
  }

  /** The chunks shown after these turns: trimmed before every prompt, and what was dropped stays dropped. */
  function ChunksShown(bound: nat, goal: string, sources: seq<Context.Chunk>, turns: seq<Turn>): seq<Context.Chunk> {
    var n := |turns|;
    var before := if n == 0 then sources else ChunksShown(bound, goal, sources, turns[..n - 1]);
    Context.TrimToBudget(before, Context.WindowTokens(Window(bound, goal, turns)), 4096)
  }

  /** The prompt after these turns. */
  function PromptAfter(mode: Mode, bound: nat, goal: string, sources: seq<Context.Chunk>, turns: seq<Turn>): string {
    var memory := Context.SnapshotFrom(Window(bound, goal, turns), 0);
    if mode == Rolling then memory
    else
      "=== Context ===\n" + Context.RenderChunks(ChunksShown(bound, goal, sources, turns))
      + "=== Working memory ===\n" + memory
  }

  // ---------------------------------------------------------------- a whole run

  function StepsOf(turns: seq<Turn>): seq<Step> {
    seq(|turns|, i requires 0 <= i < |turns| => Step(turns[i].thought, turns[i].plan.tool, turns[i].obs.output))
  }

  /** What the validator says after turn `k`. */
  function VerdictAfter(env: Env, agent: Agent, w: World, turns: seq<Turn>, k: nat): Verdict
    requires k < |turns|
  {
    env.validate(w.log + EventsOfAll(agent.principal, turns[..k + 1]), turns[k].obs, k + 1)
  }

  /** Every turn was run and was asked with the prompt due after the ones before it. */
  ghost predicate Proper(agent: Agent, bound: nat, goal: string, sources: seq<Context.Chunk>, turns: seq<Turn>) {
    forall k :: 0 <= k < |turns| ==>
      && WellRun(agent.principal, turns[k])
      && turns[k].prompt == PromptAfter(agent.mode, bound, goal, sources, turns[..k])
  }

  /** The validator let the run go on after each of the first `n` turns. */
  ghost predicate WentOn(env: Env, agent: Agent, w: World, turns: seq<Turn>, n: nat)
    requires n <= |turns|
  {
    forall k :: 0 <= k < n ==> VerdictAfter(env, agent, w, turns, k) == Continue
  }

  /** How a run that returns a trace ends: after its last turn the validator is done and the last output is the answer,
      or the budget is exhausted; or every step was used. */
  ghost predicate EndsWith(env: Env, agent: Agent, w: World, turns: seq<Turn>, finalAnswer: string) {
    var n := |turns|;
    if n == 0 then agent.maxSteps == 0 && finalAnswer == ""
    else
      && WentOn(env, agent, w, turns, n - 1)
      && match VerdictAfter(env, agent, w, turns, n - 1)
         case Done => finalAnswer == turns[n - 1].obs.output
         case BudgetExhausted => finalAnswer == "budget exhausted"
         case Continue => n == agent.maxSteps && finalAnswer == ""
  }

  /** A turn cut short by an error: the LLM failed, or its answer was no plan, or the tool failed for good. */
  ghost predicate CutShort(principal: Principal, prompt: string, cut: seq<Event>, error: string) {
    && cut != [] && cut[0].Thought? && cut[0].purpose == Planning && cut[0].prompt == prompt
    && match cut[0].answer
       case Err(e) => |cut| == 1 && e == error
       case Ok(thought) =>
         && |cut| > 1 && cut[1].Planned? && cut[1].thought == thought
         && match cut[1].plan
            case Err(e) => |cut| == 2 && e == error
            case Ok(plan) =>
              && MayUse(principal, plan.tool)
              && exists stored, ran ::
                   && Inner(ran)
                   && cut == [cut[0], cut[1]] + AuditRow(principal, plan.tool, stored)
                             + [Dispatched(plan.tool, plan.argument)] + ran
  }

  /** The run from `w` to `w'` consisted of these turns and, when it failed, of one more that was cut short. */
  ghost predicate Told(env: Env, agent: Agent, bound: nat, goal: string, sources: seq<Context.Chunk>, w: World,
                       w': World, result: Result<RunTrace>, turns: seq<Turn>, cut: seq<Event>) {
    && w'.log == w.log + EventsOfAll(agent.principal, turns) + cut
    && |turns| <= agent.maxSteps && Proper(agent, bound, goal, sources, turns)
    && match result
       case Ok(trace) =>
         cut == [] && trace.steps == StepsOf(turns) && EndsWith(env, agent, w, turns, trace.finalAnswer)
       case Err(e) =>
         && |turns| < agent.maxSteps && WentOn(env, agent, w, turns, |turns|)
         && CutShort(agent.principal, PromptAfter(agent.mode, bound, goal, sources, turns), cut, e)
  }

  // ---------------------------------------------------------------- what executors add

  /** Only inner events were added. */
  ghost predicate Added(w: World, w': World) {
    w.log <= w'.log && Inner(New(w, w'))
  }

  lemma AddedThen(a: World, b: World, c: World)
    requires Added(a, b) && Added(b, c)
    ensures Added(a, c) && New(a, c) == New(a, b) + New(b, c)
  {
    hide Calls, Effect;
    NewChain(a, b, c);
  }

  lemma AddedOne(w: World, w': World, e: Event)
    requires w'.log == w.log + [e] && (e.Called? || e.Held? || (e.Thought? && e.purpose == Repair))
    ensures Added(w, w') && New(w, w') == [e]
  {
    assert New(w, w') == [e];
  }

  /** Whatever the reply, only inner events; and a good reply is what they yield. */
  ghost predicate Replies(tool: string, w: World, w': World, reply: Result<Observation>) {
    Added(w, w') && (reply.Ok? ==> Yields(tool, New(w, w'), reply.value))
  }

  lemma RepliesLater(tool: string, a: World, b: World, c: World, reply: Result<Observation>)
    requires Added(a, b) && Replies(tool, b, c, reply)
    ensures Replies(tool, a, c, reply)
  {
    hide Inner;
    AddedThen(a, b, c);
    if reply.Ok? {
      assert New(a, c)[|New(a, c)| - 1] == New(b, c)[|New(b, c)| - 1];
    }
  }

  /** Any stack of executors answers with the reply of its last call or with the approval it holds. */
  lemma {:induction false} RunToolReplies(env: Env, ex: Executor, w: World, tool: string, argument: string)
    ensures var (w', reply) := RunTool(env, ex, w, tool, argument);
            Replies(tool, w, w', reply)
    decreases ex, 0, 0
  {
    hide Added, Heal, Risky, Decimal;
    match ex
    case Base =>
      var (w', reply) := CallBase(env, w, tool, argument);
      AddedOne(w, w', Called(tool, argument, reply));
    case Healing(inner, maxRepairs) => HealReplies(env, inner, maxRepairs, w, tool, argument);
    case Gated(inner, autoCommit, subtaskId) =>
      if Risky(tool) && !autoCommit {
        AddedOne(w, Hold(w, tool, argument, subtaskId),
            Held(PendingApproval(Decimal(w.nextId), tool, argument, subtaskId)));
      } else {
        RunToolReplies(env, inner, w, tool, argument);
      }
  }

  function Observed(outcome: Result<RepairOutcome>): Result<Observation> {
    match outcome case Ok(o) => Ok(o.observation) case Err(e) => Err(e)
  }

  lemma HealReplies(env: Env, inner: Executor, maxRepairs: nat, w: World, tool: string, input: string)
    ensures var (w', outcome) := Heal(env, inner, maxRepairs, w, tool, input);
            Replies(tool, w, w', Observed(outcome))
    decreases inner, 2, 0
  {
    hide Added, Yields, RunTool, RepairLoop;
    var (w1, first) := RunTool(env, inner, w, tool, input);
    RunToolReplies(env, inner, w, tool, input);
    if first.Err? {
      var (w2, outcome) := RepairLoop(env, inner, maxRepairs, 0, w1, tool, input, first.error);
      RepairsReply(env, inner, maxRepairs, 0, w1, tool, input, first.error);
      RepliesLater(tool, w, w1, w2, Observed(outcome));
    }
  }

  lemma {:induction false} RepairsReply(env: Env, inner: Executor, maxRepairs: nat, attempts: nat, w: World,
                                        tool: string, current: string, lastError: string)
    ensures var (w', outcome) := RepairLoop(env, inner, maxRepairs, attempts, w, tool, current, lastError);
            Replies(tool, w, w', Observed(outcome))
    decreases inner, 1, maxRepairs - attempts
  {
    hide Yields, Inner, RunTool, RepairPrompt, ParsePatch, ExhaustedError;
    if attempts >= maxRepairs {
      NothingAdded(w);
    } else {
      var prompt := RepairPrompt(tool, current, lastError);
      var (w1, answer) := Think(env, w, Repair, prompt);
      AddedOne(w, w1, Thought(Repair, prompt, answer));
      if answer.Ok? {
        var patch := ParsePatch(answer.value);
        var (w2, reply) := RunTool(env, inner, w1, tool, patch);
        RunToolReplies(env, inner, w1, tool, patch);
        RepliesLater(tool, w, w1, w2, reply);
        if reply.Err? {
          var (w3, outcome) := RepairLoop(env, inner, maxRepairs, attempts + 1, w2, tool, patch, reply.error);
          RepairsReply(env, inner, maxRepairs, attempts + 1, w2, tool, patch, reply.error);
          RepliesLater(tool, w, w2, w3, Observed(outcome));
        }
      }
    }
  }

  lemma NothingAdded(w: World)
    ensures Added(w, w)
  {
    assert New(w, w) == [];
  }

  // ---------------------------------------------------------------- one turn

  lemma AuthorizeTold(env: Env, principal: Principal, w: World, tool: string) returns (stored: bool)
    ensures var (w', granted) := Authorize(env, principal, w, tool);
            && w'.log == w.log + AuditRow(principal, tool, stored) && (granted <==> MayUse(principal, tool))
  {
    hide ActionPermission, PermissionSet.Has;
    var (w', granted) := Authorize(env, principal, w, tool);
    stored := false;
    match ActionPermission(tool)
    case None => assert w.log + [] == w.log;
    case Some(required) => stored := env.stores(w.log, EntryFor(principal, required, granted, tool));
  }

  /** The plan was checked and, when allowed, dispatched and run. */
  lemma ActTold(env: Env, agent: Agent, w: World, plan: ActionPlan) returns (stored: bool, ran: seq<Event>)
    ensures var (w', granted, reply) := Act(env, agent, w, plan);
            && (granted <==> MayUse(agent.principal, plan.tool))
            && w'.log == w.log + AuditRow(agent.principal, plan.tool, stored)
                         + (if granted then [Dispatched(plan.tool, plan.argument)] + ran else [])
            && (granted ==> Inner(ran) && (reply.Ok? ==> Yields(plan.tool, ran, reply.value)))
            && (!granted ==> reply == Ok(DeniedObservation(plan.tool)))
  {
    hide Authorize, RunTool, MayUse, AuditRow, Yields, Inner;
    var (w1, granted) := Authorize(env, agent.principal, w, plan.tool);
    stored := AuthorizeTold(env, agent.principal, w, plan.tool);
    ran := [];
    if granted {
      var w2 := Dispatch(w1, plan.tool, plan.argument);
      var (w3, reply) := RunTool(env, agent.executor, w2, plan.tool, plan.argument);
      RunToolReplies(env, agent.executor, w2, plan.tool, plan.argument);
      ran := New(w2, w3);
      assert w3.log == w2.log + ran == w1.log + [Dispatched(plan.tool, plan.argument)] + ran;
    }
  }

  lemma StepTold(env: Env, agent: Agent, ctx: Context.State, w: World) returns (t: Turn, cut: seq<Event>)
    ensures var (w', progress) := RunStep(env, agent, ctx, w);
            var shown := PromptContext(agent.mode, ctx);
            var prompt := Prompt(agent.mode, shown);
            match progress
            case Ok(p) =>
              && w'.log == w.log + EventsOf(agent.principal, t) && t.prompt == prompt && WellRun(agent.principal, t)
              && p.ctx == shown.Push(t.obs.output) && p.obs == t.obs
              && p.step == Step(t.thought, t.plan.tool, t.obs.output)
            case Err(e) => w'.log == w.log + cut && CutShort(agent.principal, prompt, cut, e)
  {
    hide Act, MayUse, AuditRow, Yields, Inner, Prompt, PromptContext, Context.State.Push;
    var shown := PromptContext(agent.mode, ctx);
    var prompt := Prompt(agent.mode, shown);
    var (w1, thought) := Think(env, w, Planning, prompt);
    var asked := Thought(Planning, prompt, thought);
    t := Turn(prompt, "", ActionPlan("", ""), false, [], Observation("", "", false));
    cut := [asked];
    if thought.Ok? {
      var (w2, plan) := PlanAction(env, w1, thought.value);
      var planned := Planned(thought.value, plan);
      cut := [asked, planned];
      assert w2.log == w.log + cut;
      if plan.Ok? {
        var (w3, granted, reply) := Act(env, agent, w2, plan.value);
        var stored, ran := ActTold(env, agent, w2, plan.value);
        var tool, row := plan.value.tool, AuditRow(agent.principal, plan.value.tool, stored);
        var sent := if granted then [Dispatched(tool, plan.value.argument)] + ran else [];
        if reply.Err? {
          cut := [asked, planned] + row + [Dispatched(tool, plan.value.argument)] + ran;
          assert w3.log == w.log + cut;
        } else {
          t := Turn(prompt, thought.value, plan.value, stored, ran, reply.value);
          TurnLogged(env, agent.principal, t, w, w3, granted, [asked, planned] + row + sent);
        }
      }
    }
  }

  lemma TurnLogged(env: Env, principal: Principal, t: Turn, w: World, w3: World, granted: bool, events: seq<Event>)
    requires granted <==> MayUse(principal, t.plan.tool)
    requires events == [Thought(Planning, t.prompt, Ok(t.thought)), Planned(t.thought, Ok(t.plan))]
                       + AuditRow(principal, t.plan.tool, t.stored)
                       + (if granted then [Dispatched(t.plan.tool, t.plan.argument)] + t.ran else [])
    requires w3.log == w.log + events
    ensures ApplyResult(w3, granted, t.plan.tool, t.obs.output).log == w.log + EventsOf(principal, t)
  {
    hide MayUse, AuditRow;
  }

  // ---------------------------------------------------------------- all turns

  /** The context holds what the turns so far left in it. */
  ghost predicate Remembers(agent: Agent, bound: nat, goal: string, sources: seq<Context.Chunk>, turns: seq<Turn>,
                            ctx: Context.State) {
    var n := |turns|;
    && ctx.maxItems == (if bound == 0 then 1 else bound) && ctx.budget == 4096
    && ctx.window == Window(bound, goal, turns)
    && ctx.chunks == if agent.mode == Rolling || n == 0 then sources
                     else ChunksShown(bound, goal, sources, turns[..n - 1])
  }

  lemma PromptDue(agent: Agent, bound: nat, goal: string, sources: seq<Context.Chunk>, turns: seq<Turn>,
                  ctx: Context.State)
    requires Remembers(agent, bound, goal, sources, turns, ctx)
    ensures Prompt(agent.mode, PromptContext(agent.mode, ctx))
         == PromptAfter(agent.mode, bound, goal, sources, turns)
  {
    hide Window, Context.SnapshotFrom, Context.RenderChunks, Context.TrimToBudget, Context.WindowTokens;
  }

  lemma RemembersMore(agent: Agent, bound: nat, goal: string, sources: seq<Context.Chunk>, turns: seq<Turn>, t: Turn,
                      ctx: Context.State)
    requires Remembers(agent, bound, goal, sources, turns, ctx)
    ensures Remembers(agent, bound, goal, sources, turns + [t], PromptContext(agent.mode, ctx).Push(t.obs.output))
  {
    hide Context.TrimToBudget, Context.WindowTokens, LastOf;
    var all, n := ["goal: " + goal] + Outputs(turns), if bound == 0 then 1 else bound;
    assert (turns + [t])[..|turns|] == turns;
    assert ["goal: " + goal] + Outputs(turns + [t]) == all + [t.obs.output];
    LastOfSnoc(all, t.obs.output, n);
    Context.LastOfBound(all, n);
    Context.PushSlides(PromptContext(agent.mode, ctx), t.obs.output);
  }

  lemma ProperMore(agent: Agent, bound: nat, goal: string, sources: seq<Context.Chunk>, turns: seq<Turn>, t: Turn)
    requires Proper(agent, bound, goal, sources, turns) && WellRun(agent.principal, t)
    requires t.prompt == PromptAfter(agent.mode, bound, goal, sources, turns)
    ensures Proper(agent, bound, goal, sources, turns + [t])
  {
    hide WellRun, PromptAfter;
    var more := turns + [t];
    forall k | 0 <= k < |more|
      ensures WellRun(agent.principal, more[k])
      ensures more[k].prompt == PromptAfter(agent.mode, bound, goal, sources, more[..k])
    {
      assert more[..k] == if k < |turns| then turns[..k] else turns;
      if k < |turns| { assert more[k] == turns[k]; }
    }
  }

  lemma EventsOfMore(principal: Principal, turns: seq<Turn>, t: Turn)
    ensures EventsOfAll(principal, turns + [t]) == EventsOfAll(principal, turns) + EventsOf(principal, t)
  {
    hide EventsOf;
    assert (turns + [t])[..|turns|] == turns;
  }

  lemma WentOnMore(env: Env, agent: Agent, w: World, turns: seq<Turn>, t: Turn)
    requires WentOn(env, agent, w, turns, |turns|)
    ensures WentOn(env, agent, w, turns + [t], |turns|)
  {
    hide EventsOfAll;
    var more := turns + [t];
    forall k | 0 <= k < |turns| ensures VerdictAfter(env, agent, w, more, k) == Continue {
      assert more[..k + 1] == turns[..k + 1] && more[k] == turns[k];
      assert VerdictAfter(env, agent, w, turns, k) == Continue;
    }
  }

  lemma StepsOfMore(turns: seq<Turn>, t: Turn)
    ensures StepsOf(turns + [t]) == StepsOf(turns) + [Step(t.thought, t.plan.tool, t.obs.output)]
  {
  }

  lemma {:induction false} StepsTold(env: Env, agent: Agent, bound: nat, goal: string, sources: seq<Context.Chunk>,
                                     w0: World, step: nat, ctx: Context.State, trace: RunTrace, w: World,
                                     before: seq<Turn>)
    returns (turns: seq<Turn>, cut: seq<Event>)
    requires step == |before| <= agent.maxSteps && trace == RunTrace(StepsOf(before), "")
    requires w.log == w0.log + EventsOfAll(agent.principal, before)
    requires Proper(agent, bound, goal, sources, before) && WentOn(env, agent, w0, before, step)
    requires Remembers(agent, bound, goal, sources, before, ctx)
    ensures var (w', result) := RunSteps(env, agent, step, ctx, trace, w);
            Told(env, agent, bound, goal, sources, w0, w', result, turns, cut)
    decreases agent.maxSteps - step
  {
    hide RunStep, EventsOf, EventsOfAll, Proper, WellRun, Remembers, PromptAfter, CutShort, StepsOf, Prompt,
      PromptContext, Context.State.Push;
    turns, cut := before, [];
    if step >= agent.maxSteps {
      assert w.log + [] == w.log;
    } else {
      var (w1, progress) := RunStep(env, agent, ctx, w);
      var t, last := StepTold(env, agent, ctx, w);
      PromptDue(agent, bound, goal, sources, before, ctx);
      if progress.Err? {
        cut := last;
      } else {
        turns := before + [t];
        var longer := trace.(steps := trace.steps + [progress.value.step]);
        EventsOfMore(agent.principal, before, t);
        StepsOfMore(before, t);
        ProperMore(agent, bound, goal, sources, before, t);
        WentOnMore(env, agent, w0, before, t);
        RemembersMore(agent, bound, goal, sources, before, t, ctx);
        assert turns[..step + 1] == turns;
        assert w1.log == w0.log + EventsOfAll(agent.principal, turns);
        assert w1.log + [] == w1.log;
        if env.validate(w1.log, progress.value.obs, step + 1) == Continue {
          turns, cut :=
            StepsTold(env, agent, bound, goal, sources, w0, step + 1, progress.value.ctx, longer, w1, turns);
        }
      }
    }
  }

  lemma StartTold(env: Env, agent: Agent, bound: nat, goal: string, sources: seq<Context.Chunk>, w: World)
    returns (turns: seq<Turn>, cut: seq<Event>)
    ensures var ctx := Context.Fresh(bound, 4096).(chunks := sources).Push("goal: " + goal);
            var (w', result) := RunSteps(env, agent, 0, ctx, EMPTY_TRACE, w);
            Told(env, agent, bound, goal, sources, w, w', result, turns, cut)
  {
    hide RunSteps, Told;
    var ctx := Context.Fresh(bound, 4096).(chunks := sources).Push("goal: " + goal);
    assert w.log + [] == w.log && StepsOf([]) == [] && EventsOfAll(agent.principal, []) == [];
    assert ["goal: " + goal] + Outputs([]) == ["goal: " + goal] == [] + ["goal: " + goal];
    turns, cut := StepsTold(env, agent, bound, goal, sources, w, 0, ctx, EMPTY_TRACE, w, []);
  }

  /** A planner run, whatever LLM, tools, validator and executors, is the story told here: every prompt is the window
      over the goal and the outputs that came back (and, in a seeded run, the chunks that still fit), every answer is
      planned, checked, dispatched and remembered, the trace has thought, action and output of every turn, and the
      final answer is what the validator made of the last one. */
  lemma TraceIsTranscript(env: Env, agent: Agent, goal: string, sources: seq<Context.Chunk>, w: World)
    returns (turns: seq<Turn>, cut: seq<Event>, seededTurns: seq<Turn>, seededCut: seq<Event>)
    ensures var (w', result) := RunPlanner(env, agent, goal, w);
            Told(env, agent, 16, goal, [], w, w', result, turns, cut)
    ensures var (w', result) := RunSeeded(env, agent, goal, sources, w);
            Told(env, agent, agent.maxSteps, goal, sources, w, w', result, seededTurns, seededCut)
  {
    hide Told, RunSteps, Context.State.Push;
    turns, cut := StartTold(env, agent, 16, goal, [], w);
    seededTurns, seededCut := StartTold(env, agent, agent.maxSteps, goal, sources, w);
    assert Context.Fresh(16, 4096).(chunks := []) == Context.Fresh(16, 4096);
  }

  // ---------------------------------------------------------------- prompts in full

  /** The snapshot of a window is one numbered line for each item. */
  lemma {:induction false} SnapshotGrows(window: seq<string>, item: string, i: nat)
    requires i <= |window|
    ensures Context.SnapshotFrom(window + [item], i)
         == Context.SnapshotFrom(window, i) + "[" + Decimal(|window|) + "] " + item + "\n"
    decreases |window| - i
  {
    hide Decimal;
    var longer := window + [item];
    var line := "[" + Decimal(|window|) + "] " + item + "\n";
    if i == |window| {
      assert Context.SnapshotFrom(longer, i + 1) == "" && line + "" == line;
      assert Context.SnapshotFrom(window, i) == "";
    } else {
      SnapshotGrows(window, item, i + 1);
      assert longer[i] == window[i];
    }
  }

  /** The rendered chunks are one line for each chunk. */
  lemma {:induction false} RenderGrows(chunks: seq<Context.Chunk>, c: Context.Chunk)
    ensures Context.RenderChunks(chunks + [c]) == Context.RenderChunks(chunks) + Context.RenderChunks([c])
    ensures Context.RenderChunks([c]) == "[" + c.source.Name() + "] " + c.uri + ": " + c.content + "\n"
  {
    hide Context.Source.Name;
    assert [c][1..] == [] && Context.RenderChunks([]) == "";
    if chunks == [] {
      assert [] + [c] == [c];
    } else {
      assert (chunks + [c])[1..] == chunks[1..] + [c];
      RenderGrows(chunks[1..], c);
      Rejoin(Context.RenderChunks([chunks[0]]), Context.RenderChunks(chunks[1..]), Context.RenderChunks([c]));
    }
  }

  lemma Rejoin(a: string, b: string, c: string)
    ensures a + (b + c) == a + b + c
  {
  }

  lemma FirstLine(goal: string)
    ensures Context.SnapshotFrom(["goal: " + goal], 0) == "[0] goal: " + goal + "\n"
  {
    assert Context.SnapshotFrom(["goal: " + goal], 1) == "";
    assert Decimal(0) == "0";
    var item := "goal: " + goal;
    assert "[" + "0" + "] " == "[0] ";
    assert "[0] " + "goal: " == "[0] goal: ";
    assert "[" + Decimal(0) + "] " + item + "\n" == "[0] " + ("goal: " + goal) + "\n";
  }

  /** A run with a step to use begins by asking the LLM about the goal, and nothing else is in that prompt. */
  lemma FirstPrompt(env: Env, agent: Agent, goal: string, w: World)
    requires agent.mode == Rolling && agent.maxSteps > 0
    ensures var log := RunPlanner(env, agent, goal, w).0.log;
            && |log| > |w.log| && w.log <= log && log[|w.log|].Thought? && log[|w.log|].purpose == Planning
            && log[|w.log|].prompt == "[0] goal: " + goal + "\n"
  {
    hide RunPlanner, WellRun;
    var turns, cut, _, _ := TraceIsTranscript(env, agent, goal, [], w);
    var (w', result) := RunPlanner(env, agent, goal, w);
    ToldFirst(env, agent, 16, goal, w, w', result, turns, cut);
  }

  lemma ToldFirst(env: Env, agent: Agent, bound: nat, goal: string, w: World, w': World, result: Result<RunTrace>,
                  turns: seq<Turn>, cut: seq<Event>)
    requires Told(env, agent, bound, goal, [], w, w', result, turns, cut)
    requires agent.mode == Rolling && agent.maxSteps > 0
    ensures |w'.log| > |w.log| && w.log <= w'.log
    ensures var first := w'.log[|w.log|];
            first.Thought? && first.purpose == Planning && first.prompt == "[0] goal: " + goal + "\n"
  {
    hide WentOn, WellRun, AuditRow, MayUse, Context.SnapshotFrom;
    FirstLine(goal);
    assert ["goal: " + goal] + Outputs([]) == ["goal: " + goal];
    if turns == [] {
      assert w'.log == w.log + cut;
    } else {
      assert turns[..0] == [];
      FirstOfAll(agent.principal, turns);
      var events := EventsOfAll(agent.principal, turns);
      assert w'.log[|w.log|] == events[0];
    }
  }

  lemma {:induction false} FirstOfAll(principal: Principal, turns: seq<Turn>)
    requires turns != []
    ensures EventsOfAll(principal, turns) != []
    ensures EventsOfAll(principal, turns)[0] == Thought(Planning, turns[0].prompt, Ok(turns[0].thought))
  {
    hide AuditRow, MayUse;
    if |turns| > 1 {
      FirstOfAll(principal, turns[..|turns| - 1]);
    } else {
      assert EventsOfAll(principal, turns[..0]) == [];
    }
  }

  // ---------------------------------------------------------------- under the default validator

  /** With the default validator no turn but the last is terminal or reaches the limit; a terminal one gives the answer,
      otherwise the limit says that the budget is exhausted, and a run that used up its steps has no answer. */
  lemma DefaultValidatorEnds(env: Env, limit: nat, agent: Agent, w: World, turns: seq<Turn>, finalAnswer: string)
    requires forall h, obs, step :: env.validate(h, obs, step) == BasicValidate(limit, obs, step)
    requires EndsWith(env, agent, w, turns, finalAnswer) && turns != []
    ensures var n, last := |turns|, turns[|turns| - 1].obs;
            && (forall k :: 0 <= k < n - 1 ==> !turns[k].obs.terminal && k + 1 < limit)
            && finalAnswer == (if last.terminal then last.output else if n >= limit then "budget exhausted" else "")
            && (!last.terminal && n < limit ==> n == agent.maxSteps)
  {
    hide EventsOfAll;
    forall k | 0 <= k < |turns| - 1 ensures !turns[k].obs.terminal && k + 1 < limit {
      assert VerdictAfter(env, agent, w, turns, k) == Continue;
    }
  }
}
