/** What causes what in a Quest run: every boundary event is the consequence of the events right before it. */
module Protocol {
  import opened Text
  import opened Permissions
  import opened Principals
  import opened Runtime
  import opened Executors
  import opened Planning
  import opened Quests
  import Context

  /** Only a planning or a decomposition thought may come out of nothing. */
  predicate Begins(e: Event) { e.Thought? && e.purpose != Repair }

  /** `e` follows from the last events of `history`: a plan answers the thought, the audit row is for the planned tool,
      the planned action is dispatched directly or right after its granted row, the dispatched action is called or
      held, a repair thought quotes the failed call, a repaired call runs the patch under the same name, and an edit
      carries the output of the `modify` just run. */
  ghost predicate Caused(history: seq<Event>, e: Event) {
    var n := |history|;
    n > 0 && var last := history[n - 1];
    match e
    case Thought(purpose, prompt, _) =>
      purpose == Repair && last.Called? && last.reply.Err?
          && prompt == RepairPrompt(last.tool, last.argument, last.reply.error)
    case Planned(thought, _) => last.Thought? && last.purpose == Planning && last.answer == Ok(thought)
    case Audited(entry, _) => last.Planned? && last.plan.Ok? && last.plan.value.tool == entry.tool
    case Dispatched(tool, argument) =>
      || (ActionPermission(tool).None? && last.Planned? && last.plan == Ok(ActionPlan(tool, argument)))
      || (last.Audited? && last.entry.granted && last.entry.tool == tool
          && n > 1 && history[n - 2].Planned? && history[n - 2].plan == Ok(ActionPlan(tool, argument)))
    case Held(approval) => last == Dispatched(approval.tool, approval.argument)
    case Called(tool, argument, _) =>
      || last == Dispatched(tool, argument)
      || (last.Thought? && last.purpose == Repair && last.answer.Ok? && Proposes(last.answer.value, argument)
          && n > 1 && history[n - 2].Called? && history[n - 2].tool == tool)
    case Edited(text) => last.Called? && last.tool == "modify" && last.reply.Ok? && last.reply.value.output == text
  }

  ghost predicate CausedAt(events: seq<Event>, i: nat)
    requires i < |events|
  {
    Begins(events[i]) || Caused(events[..i], events[i])
  }

  ghost predicate InOrder(events: seq<Event>) {
    forall i: nat :: i < |events| ==> CausedAt(events, i)
  }

  lemma CausedLater(before: seq<Event>, history: seq<Event>, e: Event)
    requires Caused(history, e)
    ensures Caused(before + history, e)
  {
    hide RepairPrompt, Proposes, ActionPermission;
  }

  lemma InOrderConcat(a: seq<Event>, b: seq<Event>)
    requires InOrder(a) && InOrder(b)
    ensures InOrder(a + b)
  {
    hide Caused;
    forall i: nat | i < |a + b| ensures CausedAt(a + b, i) {
      if i < |a| {
        assert CausedAt(a, i) && (a + b)[..i] == a[..i];
      } else {
        assert CausedAt(b, i - |a|) && (a + b)[..i] == a + b[..i - |a|];
        if !Begins(b[i - |a|]) { CausedLater(a, b[..i - |a|], b[i - |a|]); }
      }
    }
  }

  lemma InOrderExtend(events: seq<Event>, e: Event)
    requires InOrder(events) && (Begins(e) || Caused(events, e))
    ensures InOrder(events + [e])
  {
    hide Caused, Begins;
    var longer := events + [e];
    forall i: nat | i < |longer| ensures CausedAt(longer, i) {
      if i < |events| {
        assert CausedAt(events, i) && longer[..i] == events[..i];
      } else {
        assert longer[..i] == events;
      }
    }
  }

  /** `e` is the call or the held approval the dispatch asked for. */
  predicate Answers(sent: Event, e: Event) {
    sent.Dispatched?
    && ((e.Called? && e.tool == sent.tool && e.argument == sent.argument)
        || (e.Held? && e.approval.tool == sent.tool && e.approval.argument == sent.argument))
  }

  /** Every dispatch is answered by the event right after it. */
  ghost predicate Answered(events: seq<Event>) {
    forall i :: 0 <= i < |events| && events[i].Dispatched? ==> i + 1 < |events| && Answers(events[i], events[i + 1])
  }

  lemma AnsweredConcat(a: seq<Event>, b: seq<Event>)
    requires Answered(a) && Answered(b)
    ensures Answered(a + b)
  {
    hide Answers;
    var all := a + b;
    forall i | 0 <= i < |all| && all[i].Dispatched? ensures i + 1 < |all| && Answers(all[i], all[i + 1]) {
      if i < |a| {
        assert all[i] == a[i] && i + 1 < |a| && all[i + 1] == a[i + 1];
      } else {
        assert all[i] == b[i - |a|] && all[i + 1] == b[i - |a| + 1];
      }
    }
  }

  lemma NothingSent(events: seq<Event>)
    requires forall i :: 0 <= i < |events| ==> !events[i].Dispatched?
    ensures Answered(events)
  {
  }

  lemma SentThenAnswered(sent: Event, events: seq<Event>)
    requires events != [] && Answers(sent, events[0]) && forall i :: 0 <= i < |events| ==> !events[i].Dispatched?
    ensures Answered([sent] + events)
  {
    var all := [sent] + events;
    assert forall i :: 0 < i < |all| ==> all[i] == events[i - 1];
  }

  /** Number of dispatches that were answered. */
  function CountAnswered(events: seq<Event>): nat {
    if |events| < 2 then 0 else (if Answers(events[0], events[1]) then 1 else 0) + CountAnswered(events[1..])
  }

  /** The tool calls metered are the calls and holds that answer a dispatch. */
  lemma {:induction false} ToolCallsAreAnswered(events: seq<Event>)
    requires Answered(events)
    ensures Effect(events).metrics.toolCalls == CountAnswered(events)
  {
    hide Answers;
    if events != [] {
      forall i | 0 <= i < |events[1..]| && events[1..][i].Dispatched?
        ensures i + 1 < |events[1..]| && Answers(events[1..][i], events[1..][i + 1])
      {
        assert events[i + 1].Dispatched?;
      }
      ToolCallsAreAnswered(events[1..]);
      OnlyDispatchesMeter(events[0]);
      if |events| > 1 { OnlyDispatchesAnswered(events[0], events[1]); }
    }
  }

  lemma OnlyDispatchesMeter(e: Event)
    ensures EffectOf(e).metrics.toolCalls == if e.Dispatched? then 1 else 0
  {
  }

  lemma OnlyDispatchesAnswered(e: Event, f: Event)
    ensures Answers(e, f) ==> e.Dispatched?
  {
  }

  // ---------------------------------------------------------------- one step

  /** A self-healing run that starts right after its dispatch. */
  lemma HealInOrder(events: seq<Event>, tool: string, argument: string, healing: seq<Event>, k: nat)
    requires InOrder(events) && events != [] && events[|events| - 1] == Dispatched(tool, argument)
    requires Alternates(tool, argument, healing) && k <= |healing|
    ensures InOrder(events + healing[..k])
    decreases k
  {
    hide RepairPrompt, Proposes, ActionPermission, CausedAt;
    if k == 0 {
      assert events + healing[..0] == events;
    } else {
      HealInOrder(events, tool, argument, healing, k - 1);
      var history := events + healing[..k - 1];
      HealCaused(events, tool, argument, healing, k - 1);
      InOrderExtend(history, healing[k - 1]);
      assert history + [healing[k - 1]] == events + healing[..k];
    }
  }

  lemma HealCaused(events: seq<Event>, tool: string, argument: string, healing: seq<Event>, i: nat)
    requires events != [] && events[|events| - 1] == Dispatched(tool, argument)
    requires Alternates(tool, argument, healing) && i < |healing|
    ensures Caused(events + healing[..i], healing[i])
  {
    hide RepairPrompt, Proposes, ActionPermission;
    var history := events + healing[..i];
    if i == 0 {
      assert history == events;
    } else {
      assert history[|history| - 1] == healing[i - 1];
      assert FollowsOn(tool, healing[i - 1], healing[i]);
      if i > 1 {
        assert history[|history| - 2] == healing[i - 2];
        assert FollowsOn(tool, healing[i - 2], healing[i - 1]);
      }
      if i > 2 {
        assert FollowsOn(tool, healing[i - 3], healing[i - 2]);
      }
    }
  }

  /** What the Quest's executor adds after a dispatch. */
  lemma RunInOrder(env: Env, cfg: QuestConfig, id: string, w: World, tool: string, argument: string, events: seq<Event>)
    requires InOrder(events) && events != [] && events[|events| - 1] == Dispatched(tool, argument)
    ensures var (w', reply) := RunTool(env, QuestExecutor(cfg, id), w, tool, argument);
            && w.log <= w'.log && InOrder(events + New(w, w'))
            && (reply.Ok? && tool == "modify" ==> Caused(events + New(w, w'), Edited(reply.value.output)))
            && Answered([Dispatched(tool, argument)] + New(w, w'))
  {
    hide InOrder, CausedAt, ActionPermission, Heal, Alternates, RepairPrompt, Proposes, Answered;
    var inner := Healing(Base, cfg.maxRepairAttempts);
    var (w', reply) := RunTool(env, QuestExecutor(cfg, id), w, tool, argument);
    GateHolds(env, inner, cfg.autoCommit, id, w, tool, argument);
    if Risky(tool) && !cfg.autoCommit {
      var approval := PendingApproval(Decimal(w.nextId), tool, argument, id);
      assert New(w, w') == [Held(approval)];
      InOrderExtend(events, Held(approval));
      ModifyIsNotRisky();
      SentThenAnswered(Dispatched(tool, argument), [Held(approval)]);
    } else {
      HealProtocol(env, cfg.maxRepairAttempts, w, tool, argument);
      var healing := New(w, w');
      HealInOrder(events, tool, argument, healing, |healing|);
      assert healing[..|healing|] == healing;
      HealEnds(tool, argument, healing);
      SentThenAnswered(Dispatched(tool, argument), healing);
      assert (events + healing)[|events + healing| - 1] == healing[|healing| - 1];
    }
  }

  lemma ModifyIsNotRisky()
    ensures !Risky("modify")
  {
    FinishIsFree();
  }

  /** A self-healing run begins with the call asked for, dispatches nothing, and calls under the one name. */
  lemma HealEnds(tool: string, argument: string, healing: seq<Event>)
    requires Alternates(tool, argument, healing)
    ensures healing != [] && (healing[|healing| - 1].Called? ==> healing[|healing| - 1].tool == tool)
    ensures Answers(Dispatched(tool, argument), healing[0])
    ensures forall i :: 0 <= i < |healing| ==> !healing[i].Dispatched?
  {
    hide RepairPrompt, Proposes;
    var n := |healing|;
    forall i | 0 <= i < n ensures !healing[i].Dispatched? {
      if i > 0 { assert FollowsOn(tool, healing[i - 1], healing[i]); }
    }
    if n > 1 { assert FollowsOn(tool, healing[n - 2], healing[n - 1]); }
  }

  /** From `w` to `w'` everything had its cause. */
  ghost predicate Orderly(w: World, w': World) {
    w.log <= w'.log && InOrder(New(w, w')) && Answered(New(w, w'))
  }

  lemma OrderlyThen(a: World, b: World, c: World)
    requires Orderly(a, b) && Orderly(b, c)
    ensures Orderly(a, c)
  {
    hide InOrder, Answered, Calls, Effect;
    NewChain(a, b, c);
    InOrderConcat(New(a, b), New(b, c));
    AnsweredConcat(New(a, b), New(b, c));
  }

  lemma Idle(w: World)
    ensures Orderly(w, w)
  {
  }

  /** What authorization adds after a plan. */
  lemma AuthorizeInOrder(env: Env, principal: Principal, w: World, thought: string, plan: ActionPlan,
                         events: seq<Event>)
    requires InOrder(events) && events != [] && events[|events| - 1] == Planned(thought, Ok(plan))
    ensures var (w', granted) := Authorize(env, principal, w, plan.tool);
            && w.log <= w'.log && InOrder(events + New(w, w'))
            && (granted ==> Caused(events + New(w, w'), Dispatched(plan.tool, plan.argument)))
            && Answered(New(w, w'))
  {
    hide InOrder, CausedAt, ActionPermission;
    var (w', granted) := Authorize(env, principal, w, plan.tool);
    match ActionPermission(plan.tool)
    case None =>
      assert New(w, w') == [] && events + [] == events;
    case Some(required) =>
      var entry := EntryFor(principal, required, granted, plan.tool);
      var e := Audited(entry, env.stores(w.log, entry));
      assert w'.log == w.log + [e] && New(w, w') == [e];
      InOrderExtend(events, e);
      assert (events + [e])[|events| - 1] == events[|events| - 1];
  }

  lemma ActInOrder(env: Env, cfg: QuestConfig, principal: Principal, id: string, w: World, thought: string,
                   plan: ActionPlan, events: seq<Event>)
    requires InOrder(events) && events != [] && events[|events| - 1] == Planned(thought, Ok(plan))
    ensures var (w', granted, reply) := Act(env, QuestAgent(cfg, principal, id), w, plan);
            && w.log <= w'.log && InOrder(events + New(w, w'))
            && (granted && reply.Ok? && plan.tool == "modify" ==>
                  Caused(events + New(w, w'), Edited(reply.value.output)))
            && Answered(New(w, w'))
  {
    hide InOrder, Answered, Caused, Authorize, RunTool, Effect, Calls, QuestExecutor;
    var (w1, granted) := Authorize(env, principal, w, plan.tool);
    AuthorizeInOrder(env, principal, w, thought, plan, events);
    if granted {
      var sent := Dispatched(plan.tool, plan.argument);
      var w2 := Dispatch(w1, plan.tool, plan.argument);
      var upTo := events + New(w, w1) + [sent];
      InOrderExtend(events + New(w, w1), sent);
      RunInOrder(env, cfg, id, w2, plan.tool, plan.argument, upTo);
      var w3 := RunTool(env, QuestExecutor(cfg, id), w2, plan.tool, plan.argument).0;
      assert New(w1, w2) == [sent];
      NewChain(w, w1, w2);
      NewChain(w, w2, w3);
      assert upTo + New(w2, w3) == events + New(w, w3);
      AnsweredConcat(New(w, w1), [sent] + New(w2, w3));
      assert New(w, w3) == New(w, w1) + ([sent] + New(w2, w3));
    }
  }

  lemma StepInOrder(env: Env, cfg: QuestConfig, principal: Principal, id: string, ctx: Context.State, w: World)
    ensures Orderly(w, RunStep(env, QuestAgent(cfg, principal, id), ctx, w).0)
  {
    hide InOrder, Answered, Caused, Act, Context.State.Push, Context.State.Snapshot, QuestExecutor, Effect, Calls;
    var agent := QuestAgent(cfg, principal, id);
    var prompt := ctx.Snapshot();
    var (w1, thought) := Think(env, w, Planning, prompt);
    var e := Thought(Planning, prompt, thought);
    assert New(w, w1) == [e] && [] + [e] == [e];
    NothingInOrder();
    InOrderExtend([], e);
    NothingSent([e]);
    if thought.Ok? {
      var (w2, plan) := PlanAction(env, w1, thought.value);
      var p := Planned(thought.value, plan);
      assert New(w, w2) == [e] + [p];
      PlanCaused([e], thought.value, plan, prompt);
      InOrderExtend([e], p);
      NothingSent([e] + [p]);
      if plan.Ok? {
        var (w3, granted, reply) := Act(env, agent, w2, plan.value);
        ActInOrder(env, cfg, principal, id, w2, thought.value, plan.value, [e] + [p]);
        NewChain(w, w2, w3);
        AnsweredConcat(New(w, w2), New(w2, w3));
        if reply.Ok? && granted && plan.value.tool == "modify" {
          var w4 := Edit(w3, reply.value.output);
          InOrderExtend(New(w, w3), Edited(reply.value.output));
          assert New(w, w4) == New(w, w3) + [Edited(reply.value.output)];
          NothingSent([Edited(reply.value.output)]);
          AnsweredConcat(New(w, w3), [Edited(reply.value.output)]);
        }
      }
    }
  }

  lemma NothingInOrder()
    ensures InOrder([])
  {
  }

  lemma PlanCaused(history: seq<Event>, thought: string, plan: Result<ActionPlan>, prompt: string)
    requires history == [Thought(Planning, prompt, Ok(thought))]
    ensures Caused(history, Planned(thought, plan))
  {
  }

  // ---------------------------------------------------------------- whole runs

  lemma {:induction false} StepsInOrder(env: Env, cfg: QuestConfig, principal: Principal, id: string, step: nat,
                                        ctx: Context.State, trace: RunTrace, w: World)
    ensures Orderly(w, RunSteps(env, QuestAgent(cfg, principal, id), step, ctx, trace, w).0)
    decreases cfg.maxSteps - step
  {
    hide Orderly, RunStep, QuestExecutor;
    var agent := QuestAgent(cfg, principal, id);
    if step >= cfg.maxSteps {
      Idle(w);
    } else {
      var (w1, progress) := RunStep(env, agent, ctx, w);
      StepInOrder(env, cfg, principal, id, ctx, w);
      if progress.Ok? && env.validate(w1.log, progress.value.obs, step + 1) == Continue {
        var longer := trace.(steps := trace.steps + [progress.value.step]);
        StepsInOrder(env, cfg, principal, id, step + 1, progress.value.ctx, longer, w1);
        OrderlyThen(w, w1, RunSteps(env, agent, step + 1, progress.value.ctx, longer, w1).0);
      }
    }
  }

  lemma ExecuteInOrder(env: Env, cfg: QuestConfig, principal: Principal, st: SubTask, w: World)
    ensures Orderly(w, ExecuteSubtask(env, cfg, principal, st, w).0)
  {
    hide Orderly, RunSteps, Context.Fresh, Context.State.Push, QuestAgent;
    StepsInOrder(env, cfg, principal, st.id, 0, Context.Fresh(16, 4096).Push("goal: " + st.description), EMPTY_TRACE,
        w);
  }

  lemma {:induction false} AttemptsInOrder(env: Env, cfg: QuestConfig, principal: Principal, st: SubTask, attempt: nat,
                                           w: World)
    ensures Orderly(w, Attempts(env, cfg, principal, st, attempt, w).0)
    decreases cfg.subtaskMaxRetries + 1 - attempt
  {
    hide Orderly, ExecuteSubtask;
    if attempt > cfg.subtaskMaxRetries {
      Idle(w);
    } else {
      var (w1, result) := ExecuteSubtask(env, cfg, principal, st, w);
      ExecuteInOrder(env, cfg, principal, st, w);
      if result != Ok(true) {
        AttemptsInOrder(env, cfg, principal, st, attempt + 1, w1);
        OrderlyThen(w, w1, Attempts(env, cfg, principal, st, attempt + 1, w1).0);
      }
    }
  }

  lemma {:induction false} SubtasksInOrder(env: Env, cfg: QuestConfig, principal: Principal, i: nat, p: Progressing,
                                           w: World)
    ensures Orderly(w, RunSubtasks(env, cfg, principal, i, p, w).0)
    decreases |p.subtasks| - i
  {
    hide Orderly, Attempts;
    if i >= |p.subtasks| {
      Idle(w);
    } else if p.subtasks[i].status == Skipped {
      SubtasksInOrder(env, cfg, principal, i + 1, p, w);
    } else {
      var (w1, ok) := Attempts(env, cfg, principal, p.subtasks[i], 0, w);
      AttemptsInOrder(env, cfg, principal, p.subtasks[i], 0, w);
      var next := Settle(p, i, ok);
      SubtasksInOrder(env, cfg, principal, i + 1, next, w1);
      OrderlyThen(w, w1, RunSubtasks(env, cfg, principal, i + 1, next, w1).0);
    }
  }

  lemma DecomposeInOrder(env: Env, decomposer: Decomposer, goal: string, w: World)
    ensures Orderly(w, Decompose(env, decomposer, goal, w).0)
  {
    hide DecompositionPrompt, ParseSubtasks, Caused;
    Idle(w);
    if decomposer.FromLlm? {
      var prompt := DecompositionPrompt(goal);
      var (w1, answer) := Think(env, w, Decomposition, prompt);
      assert New(w, w1) == [Thought(Decomposition, prompt, answer)];
    }
  }

  /** For any decomposer, LLM, tool, validator and sink, and on every exit path, everything that happens in a run of a
      Quest has its cause right before it. In particular every privileged action comes directly after its granted
      audit row, under the tool and argument that were planned, and is followed by its call or its held approval. */
  lemma QuestRunInOrder(env: Env, decomposer: Decomposer, cfg: QuestConfig, principal: Principal, goal: string,
                        w: World)
    ensures Orderly(w, RunQuest(env, decomposer, cfg, principal, goal, w).0)
  {
    hide Orderly, Decompose, RunSubtasks;
    var (w1, decomposed) := Decompose(env, decomposer, goal, w);
    DecomposeInOrder(env, decomposer, goal, w);
    var start := Progressing(MarkOverflow(decomposed, cfg.maxSubtasks), 0, 0);
    SubtasksInOrder(env, cfg, principal, 0, start, w1);
    OrderlyThen(w, w1, RunSubtasks(env, cfg, principal, 0, start, w1).0);
  }

  /** Over a whole run the tool-call counter grows by the calls and held approvals that answer a dispatch. */
  lemma QuestToolCallsAnswered(env: Env, decomposer: Decomposer, cfg: QuestConfig, principal: Principal, goal: string,
                               w: World)
    ensures var w' := RunQuest(env, decomposer, cfg, principal, goal, w).0;
            w'.ledger.metrics.toolCalls == w.ledger.metrics.toolCalls + CountAnswered(New(w, w'))
  {
    hide RunQuest, InOrder, AllPermitted, Calls, Effect, CountAnswered;
    QuestRunSpent(env, decomposer, cfg, principal, goal, w);
    QuestRunInOrder(env, decomposer, cfg, principal, goal, w);
    ToolCallsAreAnswered(New(w, RunQuest(env, decomposer, cfg, principal, goal, w).0));
  }

  // ---------------------------------------------------------------- how often a subtask is tried

  /** The attempts at a subtask one after another: all but the last fail, the last succeeds exactly when the subtask
      does, and a subtask that fails has used every retry. */
  lemma {:induction false} FailedMeansEveryRetry(env: Env, cfg: QuestConfig, principal: Principal, st: SubTask,
                                                 attempt: nat, w: World)
    returns (marks: seq<World>)
    requires attempt <= cfg.subtaskMaxRetries
    ensures var (w', ok) := Attempts(env, cfg, principal, st, attempt, w);
            && 2 <= |marks| <= cfg.subtaskMaxRetries - attempt + 2 && marks[0] == w && marks[|marks| - 1] == w'
            && (!ok ==> |marks| == cfg.subtaskMaxRetries - attempt + 2)
            && forall j :: 0 <= j < |marks| - 1 ==>
                 && marks[j + 1] == ExecuteSubtask(env, cfg, principal, st, marks[j]).0
                 && (ExecuteSubtask(env, cfg, principal, st, marks[j]).1 == Ok(true) <==> ok && j == |marks| - 2)
    decreases cfg.subtaskMaxRetries - attempt
  {
    hide ExecuteSubtask;
    var (w1, result) := ExecuteSubtask(env, cfg, principal, st, w);
    if result == Ok(true) || attempt == cfg.subtaskMaxRetries {
      marks := [w, w1];
      assert result != Ok(true) ==> Attempts(env, cfg, principal, st, attempt + 1, w1) == (w1, false);
    } else {
      var rest := FailedMeansEveryRetry(env, cfg, principal, st, attempt + 1, w1);
      marks := [w] + rest;
    }
  }
}
