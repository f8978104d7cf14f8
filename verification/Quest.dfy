/** The autonomous Quest agent (`crates/core/src/quest.rs`). */
module Quests {
  import opened Text
  import opened Permissions
  import opened Principals
  import opened Runtime
  import opened Executors
  import opened Planning
  import opened BasicTools
  import Context

  datatype Status = Pending | Running | Success | Failed | Skipped

  datatype SubTask = SubTask(id: string, description: string, status: Status)

  datatype QuestConfig = QuestConfig(
    maxSteps: nat,
    maxSubtasks: nat,
    autoCommit: bool,
    maxRepairAttempts: nat,
    subtaskMaxRetries: nat)

  datatype QuestReport = QuestReport(
    goal: string,
    subtasks: seq<SubTask>,
    successes: nat,
    failures: nat,
    pendingApprovals: seq<PendingApproval>)

  /** A decomposer may return any list at all; the default one asks the LLM. */
  datatype Decomposer = Custom(decompose: (seq<Event>, string) -> seq<SubTask>) | FromLlm

  // ---------------------------------------------------------------- goal decomposition

  const DECOMPOSITION_LEAD: string :=
    "Decompose the following high-level goal into an ordered list of small, independently-executable subtasks.\nGoal: "

  const DECOMPOSITION_REQUEST: string :=
    "\nReply with one subtask per line, prefixed with its index, e.g.\n1. first step\n2. second step\n3. third step"

  function DecompositionPrompt(goal: string): string {
    DECOMPOSITION_LEAD + goal + DECOMPOSITION_REQUEST
  }

  function NewSubTask(number: nat, description: string): SubTask {
    SubTask("st-" + Decimal(number), description, Pending)
  }

  /** Position of the first separator, or the length of the line. */
  function Separator(line: string): (i: nat)
    ensures i <= |line|
  {
    if line == "" || line[0] == '.' || line[0] == ')' || line[0] == '-' then 0 else 1 + Separator(line[1..])
  }

  /** The description on a numbered line. */
  function NumberedLine(raw: string): Option<string> {
    var line := Trim(raw);
    var cut := Separator(line);
    if cut == |line| then None
    else
      var head, description := Trim(line[..cut]), Trim(line[cut + 1..]);
      if head != "" && (forall c <- head :: IsDigit(c)) && description != "" then Some(description) else None
  }

  function NumberedLines(lines: seq<string>, found: nat): seq<SubTask> {
    if lines == [] then []
    else
      match NumberedLine(lines[0])
      case None => NumberedLines(lines[1..], found)
      case Some(description) => [NewSubTask(found + 1, description)] + NumberedLines(lines[1..], found + 1)
  }

  /** Never empty: without numbered lines the goal itself is the one subtask. */
  function ParseSubtasks(text: string, goal: string): seq<SubTask> {
    var numbered := NumberedLines(Lines(text), 0);
    if numbered == [] then [NewSubTask(1, goal)] else numbered
  }

  function Decompose(env: Env, decomposer: Decomposer, goal: string, w: World): (World, seq<SubTask>) {
    match decomposer
    case Custom(decompose) => (w, decompose(w.log, goal))
    case FromLlm =>
      hide DecompositionPrompt, ParseSubtasks;
      var (w1, answer) := Think(env, w, Decomposition, DecompositionPrompt(goal));
      (w1, if answer.Ok? then ParseSubtasks(answer.value, goal) else [NewSubTask(1, goal)])
  }

  // ---------------------------------------------------------------- execution

  /** The approval gate around the self-healing executor around the base executor. */
  function QuestExecutor(cfg: QuestConfig, subtaskId: string): Executor {
    Gated(Healing(Base, cfg.maxRepairAttempts), cfg.autoCommit, subtaskId)
  }

  function QuestAgent(cfg: QuestConfig, principal: Principal, subtaskId: string): Agent {
    Agent(principal, QuestExecutor(cfg, subtaskId), cfg.maxSteps, Rolling)
  }

  /** Whether the planner finished the subtask; an error is a fatal execution error. */
  function ExecuteSubtask(env: Env, cfg: QuestConfig, principal: Principal, st: SubTask, w: World)
    : (World, Result<bool>) {
    var (w1, result) := RunPlanner(env, QuestAgent(cfg, principal, st.id), st.description, w);
    (w1, match result case Ok(trace) => Ok(trace.finalAnswer == TASK_FINISHED) case Err(e) => Err(e))
  }

  function Attempts(env: Env, cfg: QuestConfig, principal: Principal, st: SubTask, attempt: nat, w: World)
    : (World, bool)
    decreases cfg.subtaskMaxRetries + 1 - attempt
  {
    if attempt > cfg.subtaskMaxRetries then (w, false)
    else
      var (w1, result) := ExecuteSubtask(env, cfg, principal, st, w);
      if result == Ok(true) then (w1, true) else Attempts(env, cfg, principal, st, attempt + 1, w1)
  }

  /** Subtasks over the budget are marked and kept in the report. */
  function MarkOverflow(subtasks: seq<SubTask>, maxSubtasks: nat): seq<SubTask> {
    seq(|subtasks|, i requires 0 <= i < |subtasks| =>
      if i >= maxSubtasks then subtasks[i].(status := Skipped) else subtasks[i])
  }

  datatype Progressing = Progressing(subtasks: seq<SubTask>, successes: nat, failures: nat)

  function Settle(p: Progressing, i: nat, ok: bool): Progressing
    requires i < |p.subtasks|
  {
    var st := p.subtasks[i];
    if ok then Progressing(p.subtasks[i := st.(status := Success)], p.successes + 1, p.failures)
    else Progressing(p.subtasks[i := st.(status := Failed)], p.successes, p.failures + 1)
  }

  function RunSubtasks(env: Env, cfg: QuestConfig, principal: Principal, i: nat, p: Progressing, w: World)
    : (World, Progressing)
    decreases |p.subtasks| - i
  {
    if i >= |p.subtasks| then (w, p)
    else if p.subtasks[i].status == Skipped then RunSubtasks(env, cfg, principal, i + 1, p, w)
    else
      var (w1, ok) := Attempts(env, cfg, principal, p.subtasks[i], 0, w);
      RunSubtasks(env, cfg, principal, i + 1, Settle(p, i, ok), w1)
  }

  function RunQuest(env: Env, decomposer: Decomposer, cfg: QuestConfig, principal: Principal, goal: string, w: World)
    : (World, QuestReport)
  {
    var (w1, decomposed) := Decompose(env, decomposer, goal, w);
    var (w2, p) := RunSubtasks(env, cfg, principal, 0, Progressing(MarkOverflow(decomposed, cfg.maxSubtasks), 0, 0),
        w1);
    (w2, QuestReport(goal, p.subtasks, p.successes, p.failures, w2.ledger.pending))
  }

  // ---------------------------------------------------------------- permission safety, conservation, work bound

  /** Accounted for, with at most `limit` calls to the base executor. */
  ghost predicate Spent(principal: Principal, gateClosed: bool, limit: int, w: World, w': World) {
    Accounted(principal, gateClosed, w, w') && Calls(New(w, w')) <= limit
  }

  lemma SpentThen(principal: Principal, gateClosed: bool, m: int, n: int, a: World, b: World, c: World)
    requires Spent(principal, gateClosed, m, a, b) && Spent(principal, gateClosed, n, b, c)
    ensures Spent(principal, gateClosed, m + n, a, c)
  {
    hide Accounted, Calls, New;
    Chain(principal, gateClosed, a, b, c);
  }

  lemma SpentLess(principal: Principal, gateClosed: bool, m: int, n: int, w: World, w': World)
    requires Spent(principal, gateClosed, m, w, w') && m <= n
    ensures Spent(principal, gateClosed, n, w, w')
  {
  }

  lemma SpentNothing(principal: Principal, gateClosed: bool, w: World)
    ensures Spent(principal, gateClosed, 0, w, w)
  {
    Still(principal, gateClosed, w);
  }

  /** Base-executor calls one attempt at a subtask may make. */
  function AttemptCost(cfg: QuestConfig): nat { cfg.maxSteps * (cfg.maxRepairAttempts + 1) }

  /** Base-executor calls one subtask may make. */
  function SubtaskCost(cfg: QuestConfig): nat { (cfg.subtaskMaxRetries + 1) * AttemptCost(cfg) }

  lemma ExecuteSpent(env: Env, cfg: QuestConfig, principal: Principal, st: SubTask, w: World)
    ensures Spent(principal, !cfg.autoCommit, AttemptCost(cfg), w, ExecuteSubtask(env, cfg, principal, st, w).0)
  {
    hide Accounted, Calls, New, RunPlanner, Effect;
    var agent := QuestAgent(cfg, principal, st.id);
    PlannerRunAccounted(env, agent, st.description, w);
    assert Fanout(agent.executor) == Fanout(Healing(Base, cfg.maxRepairAttempts)) == cfg.maxRepairAttempts + 1;
    assert GateClosed(agent.executor) == !cfg.autoCommit;
  }

  lemma {:induction false} AttemptsSpent(env: Env, cfg: QuestConfig, principal: Principal, st: SubTask, attempt: nat,
                                         w: World)
    requires attempt <= cfg.subtaskMaxRetries + 1
    ensures Spent(principal, !cfg.autoCommit, (cfg.subtaskMaxRetries + 1 - attempt) * AttemptCost(cfg), w,
                  Attempts(env, cfg, principal, st, attempt, w).0)
    decreases cfg.subtaskMaxRetries + 1 - attempt
  {
    hide Spent, ExecuteSubtask, AttemptCost;
    var gate, cost := !cfg.autoCommit, AttemptCost(cfg);
    if attempt > cfg.subtaskMaxRetries {
      SpentNothing(principal, gate, w);
    } else {
      var (w1, result) := ExecuteSubtask(env, cfg, principal, st, w);
      ExecuteSpent(env, cfg, principal, st, w);
      OneMore(cfg.subtaskMaxRetries - attempt, cost);
      var left := (cfg.subtaskMaxRetries - attempt) * cost;
      if result == Ok(true) {
        SpentLess(principal, gate, cost, cost + left, w, w1);
      } else {
        AttemptsSpent(env, cfg, principal, st, attempt + 1, w1);
        SpentThen(principal, gate, cost, left, w, w1, Attempts(env, cfg, principal, st, attempt + 1, w1).0);
      }
    }
  }

  /** Number of subtasks from `i` on that are not skipped. */
  function Runnable(subtasks: seq<SubTask>, i: nat): nat
    decreases |subtasks| - i
  {
    if i >= |subtasks| then 0 else (if subtasks[i].status == Skipped then 0 else 1) + Runnable(subtasks, i + 1)
  }

  lemma {:induction false} RunnableFrom(a: seq<SubTask>, b: seq<SubTask>, i: nat)
    requires |a| == |b| && forall k :: i <= k < |a| ==> a[k] == b[k]
    ensures Runnable(a, i) == Runnable(b, i)
    decreases |a| - i
  {
    if i < |a| { RunnableFrom(a, b, i + 1); }
  }

  lemma {:induction false} RunSubtasksSpent(env: Env, cfg: QuestConfig, principal: Principal, i: nat, p: Progressing,
                                            w: World)
    ensures Spent(principal, !cfg.autoCommit, Runnable(p.subtasks, i) * SubtaskCost(cfg), w,
                  RunSubtasks(env, cfg, principal, i, p, w).0)
    decreases |p.subtasks| - i
  {
    hide Spent, Attempts, SubtaskCost;
    var gate, cost := !cfg.autoCommit, SubtaskCost(cfg);
    if i >= |p.subtasks| {
      SpentNothing(principal, gate, w);
    } else if p.subtasks[i].status == Skipped {
      RunSubtasksSpent(env, cfg, principal, i + 1, p, w);
    } else {
      var (w1, ok) := Attempts(env, cfg, principal, p.subtasks[i], 0, w);
      SubtaskSpent(env, cfg, principal, p.subtasks[i], w);
      var next := Settle(p, i, ok);
      RunSubtasksSpent(env, cfg, principal, i + 1, next, w1);
      RunnableFrom(p.subtasks, next.subtasks, i + 1);
      OneMore(Runnable(p.subtasks, i + 1), cost);
      SpentThen(principal, gate, cost, Runnable(p.subtasks, i + 1) * cost, w, w1,
                RunSubtasks(env, cfg, principal, i + 1, next, w1).0);
    }
  }

  lemma SubtaskSpent(env: Env, cfg: QuestConfig, principal: Principal, st: SubTask, w: World)
    ensures Spent(principal, !cfg.autoCommit, SubtaskCost(cfg), w, Attempts(env, cfg, principal, st, 0, w).0)
  {
    hide Spent, Attempts, AttemptCost;
    AttemptsSpent(env, cfg, principal, st, 0, w);
  }

  lemma {:induction false} OverflowRunnable(subtasks: seq<SubTask>, maxSubtasks: nat, i: nat)
    requires i <= |subtasks|
    ensures Runnable(MarkOverflow(subtasks, maxSubtasks), i)
         <= if i <= maxSubtasks then Min(|subtasks|, maxSubtasks) - Min(i, maxSubtasks) else 0
    decreases |subtasks| - i
  {
    if i < |subtasks| { OverflowRunnable(subtasks, maxSubtasks, i + 1); }
  }

  lemma DecomposeSpent(env: Env, decomposer: Decomposer, principal: Principal, gateClosed: bool, goal: string, w: World)
    ensures Spent(principal, gateClosed, 0, w, Decompose(env, decomposer, goal, w).0)
  {
    hide Accounted, Calls, Effect, DecompositionPrompt, ParseSubtasks;
    match decomposer
    case Custom(_) => SpentNothing(principal, gateClosed, w);
    case FromLlm => ThinkAccounted(env, principal, gateClosed, w, Decomposition, DecompositionPrompt(goal));
  }

  lemma Monotone(a: nat, b: nat, cost: nat)
    requires a <= b
    ensures a * cost <= b * cost
  {
  }

  /** Whole Quest runs, for any decomposer, LLM, tool, validator and audit sink: every event is permitted, the
      ledger grows by exactly what the events say, and the base executor is called at most
      min(n, max_subtasks) * (subtask_max_retries + 1) * max_steps * (max_repair_attempts + 1) times. */
  lemma QuestRunSpent(env: Env, decomposer: Decomposer, cfg: QuestConfig, principal: Principal, goal: string, w: World)
    ensures var (w', report) := RunQuest(env, decomposer, cfg, principal, goal, w);
            && Accounted(principal, !cfg.autoCommit, w, w')
            && Calls(New(w, w')) <=
               Min(|report.subtasks|, cfg.maxSubtasks) *
               ((cfg.subtaskMaxRetries + 1) * (cfg.maxSteps * (cfg.maxRepairAttempts + 1)))
  {
    hide Accounted, Calls, New, Decompose, RunSubtasks, Min, Runnable, MarkOverflow;
    var gate, cost := !cfg.autoCommit, SubtaskCost(cfg);
    var (w1, decomposed) := Decompose(env, decomposer, goal, w);
    DecomposeSpent(env, decomposer, principal, gate, goal, w);
    var start := Progressing(MarkOverflow(decomposed, cfg.maxSubtasks), 0, 0);
    var (w2, p) := RunSubtasks(env, cfg, principal, 0, start, w1);
    RunSubtasksSpent(env, cfg, principal, 0, start, w1);
    OverflowCount(decomposed, cfg.maxSubtasks);
    RunSubtasksReports(env, cfg, principal, 0, start, w1);
    Monotone(Runnable(start.subtasks, 0), Min(|decomposed|, cfg.maxSubtasks), cost);
    SpentThen(principal, gate, 0, Runnable(start.subtasks, 0) * cost, w, w1, w2);
  }

  /** A whole run adds to the audit sink as many rows as audit events were counted exactly when the sink took every row,
      and then as many refused ones as denials. */
  lemma QuestRowsMatchCounters(env: Env, decomposer: Decomposer, cfg: QuestConfig, principal: Principal, goal: string,
                               w: World)
    ensures var w' := RunQuest(env, decomposer, cfg, principal, goal, w).0;
            && w.ledger.audit <= w'.ledger.audit
            && var rows := w'.ledger.audit[|w.ledger.audit|..];
               var all := AllStored(New(w, w'));
               && (|rows| == w'.ledger.metrics.auditEvents - w.ledger.metrics.auditEvents <==> all)
               && (all ==> Refused(rows) == w'.ledger.metrics.denials - w.ledger.metrics.denials)
  {
    hide Accounted, RunQuest, AllStored, New;
    QuestRunSpent(env, decomposer, cfg, principal, goal, w);
    RowsMatchCounters(principal, !cfg.autoCommit, w, RunQuest(env, decomposer, cfg, principal, goal, w).0);
  }

  lemma OverflowCount(subtasks: seq<SubTask>, maxSubtasks: nat)
    ensures |MarkOverflow(subtasks, maxSubtasks)| == |subtasks|
    ensures Runnable(MarkOverflow(subtasks, maxSubtasks), 0) <= Min(|subtasks|, maxSubtasks)
  {
    OverflowRunnable(subtasks, maxSubtasks, 0);
  }

  /** Autonomy does not bypass the mask: in any run of a Quest the base executor sees a tool only if the
      principal holds the right it is classified under, and the host is edited only if Modify is held. */
  lemma QuestPermissionSafety(env: Env, decomposer: Decomposer, cfg: QuestConfig, principal: Principal, goal: string,
                              w: World, e: Event)
    requires e in New(w, RunQuest(env, decomposer, cfg, principal, goal, w).0)
    ensures e.Called? ==> MayUse(principal, e.tool)
    ensures e.Edited? ==> principal.perms.Has(Modify)
    ensures e.Called? && !cfg.autoCommit ==> !Risky(e.tool)
  {
    hide RunQuest, MayUse, Risky, Calls, Effect, PermissionSet.Has;
    QuestRunSpent(env, decomposer, cfg, principal, goal, w);
    var w' := RunQuest(env, decomposer, cfg, principal, goal, w).0;
    var i :| 0 <= i < |New(w, w')| && New(w, w')[i] == e;
    assert Permitted(principal, !cfg.autoCommit, New(w, w')[i]);
  }

  // ---------------------------------------------------------------- the report

  function CountStatus(subtasks: seq<SubTask>, status: Status): nat {
    if subtasks == [] then 0 else (if subtasks[0].status == status then 1 else 0) + CountStatus(subtasks[1..], status)
  }

  lemma {:induction false} CountUpdate(subtasks: seq<SubTask>, i: nat, st: SubTask, status: Status)
    requires i < |subtasks|
    ensures CountStatus(subtasks[i := st], status) ==
            CountStatus(subtasks, status) - (if subtasks[i].status == status then 1 else 0)
                + (if st.status == status then 1 else 0)
  {
    if i == 0 {
      assert subtasks[i := st][1..] == subtasks[1..];
    } else {
      assert subtasks[i := st][1..] == subtasks[1..][i - 1 := st];
      CountUpdate(subtasks[1..], i - 1, st, status);
    }
  }

  /** The final list keeps every id and description; from `i` on what was skipped stays skipped and everything
      else succeeds or fails. */
  ghost predicate Settled(before: seq<SubTask>, after: seq<SubTask>, i: nat) {
    && |after| == |before|
    && (forall k :: 0 <= k < |before| ==> after[k].id == before[k].id && after[k].description == before[k].description)
    && (forall k :: 0 <= k < i && k < |before| ==> after[k] == before[k])
    && (forall k :: i <= k < |before| ==>
          if before[k].status == Skipped then after[k].status == Skipped
          else after[k].status == Success || after[k].status == Failed)
  }

  lemma {:induction false} RunSubtasksReports(env: Env, cfg: QuestConfig, principal: Principal, i: nat, p: Progressing,
                                              w: World)
    ensures Settled(p.subtasks, RunSubtasks(env, cfg, principal, i, p, w).1.subtasks, i)
    decreases |p.subtasks| - i
  {
    hide Settled, Attempts;
    if i < |p.subtasks| {
      if p.subtasks[i].status == Skipped {
        RunSubtasksReports(env, cfg, principal, i + 1, p, w);
        SettledSkip(p.subtasks, RunSubtasks(env, cfg, principal, i + 1, p, w).1.subtasks, i);
      } else {
        var (w1, ok) := Attempts(env, cfg, principal, p.subtasks[i], 0, w);
        RunSubtasksReports(env, cfg, principal, i + 1, Settle(p, i, ok), w1);
        SettledOne(p, i, ok, RunSubtasks(env, cfg, principal, i + 1, Settle(p, i, ok), w1).1.subtasks);
      }
    } else {
      SettledAll(p.subtasks, i);
    }
  }

  lemma SettledAll(subtasks: seq<SubTask>, i: nat)
    requires i >= |subtasks|
    ensures Settled(subtasks, subtasks, i)
  {
  }

  lemma SettledSkip(before: seq<SubTask>, after: seq<SubTask>, i: nat)
    requires i < |before| && before[i].status == Skipped && Settled(before, after, i + 1)
    ensures Settled(before, after, i)
  {
    assert after[i] == before[i];
  }

  lemma SettledOne(p: Progressing, i: nat, ok: bool, after: seq<SubTask>)
    requires i < |p.subtasks| && p.subtasks[i].status != Skipped && Settled(Settle(p, i, ok).subtasks, after, i + 1)
    ensures Settled(p.subtasks, after, i)
  {
    assert after[i] == Settle(p, i, ok).subtasks[i];
  }

  lemma {:induction false} RunSubtasksCounts(env: Env, cfg: QuestConfig, principal: Principal, i: nat, p: Progressing,
                                             w: World)
    requires forall k :: i <= k < |p.subtasks| ==> p.subtasks[k].status == Pending || p.subtasks[k].status == Skipped
    ensures var q := RunSubtasks(env, cfg, principal, i, p, w).1;
            && q.successes - p.successes == CountStatus(q.subtasks, Success) - CountStatus(p.subtasks, Success)
            && q.failures - p.failures == CountStatus(q.subtasks, Failed) - CountStatus(p.subtasks, Failed)
    decreases |p.subtasks| - i
  {
    if i < |p.subtasks| {
      if p.subtasks[i].status == Skipped {
        RunSubtasksCounts(env, cfg, principal, i + 1, p, w);
      } else {
        hide Attempts, CountStatus;
        var (w1, ok) := Attempts(env, cfg, principal, p.subtasks[i], 0, w);
        var next := Settle(p, i, ok);
        CountUpdate(p.subtasks, i, next.subtasks[i], Success);
        CountUpdate(p.subtasks, i, next.subtasks[i], Failed);
        RunSubtasksCounts(env, cfg, principal, i + 1, next, w1);
      }
    }
  }

  ghost predicate AllPending(subtasks: seq<SubTask>) {
    forall k :: 0 <= k < |subtasks| ==> subtasks[k].status == Pending
  }

  /** The report lists the same subtasks, skips exactly those from `maxSubtasks` on, settles all others as Success or
      Failed, and its two counters are the status counts. */
  ghost predicate AccountsFor(report: QuestReport, decomposed: seq<SubTask>, maxSubtasks: nat) {
    && |report.subtasks| == |decomposed|
    && (forall k :: 0 <= k < |decomposed| ==>
          && report.subtasks[k].id == decomposed[k].id
          && report.subtasks[k].description == decomposed[k].description
          && (report.subtasks[k].status == Skipped <==> k >= maxSubtasks)
          && report.subtasks[k].status in {Success, Failed, Skipped})
    && report.successes == CountStatus(report.subtasks, Success)
    && report.failures == CountStatus(report.subtasks, Failed)
  }

  /** Every report accounts for an all-Pending decomposition. */
  lemma QuestReportAccounting(env: Env, decomposer: Decomposer, cfg: QuestConfig, principal: Principal, goal: string,
                              w: World)
    ensures var decomposed := Decompose(env, decomposer, goal, w).1;
            AllPending(decomposed)
            ==> AccountsFor(RunQuest(env, decomposer, cfg, principal, goal, w).1, decomposed, cfg.maxSubtasks)
  {
    hide Decompose, RunSubtasks, CountStatus, Settled, AccountsFor;
    var (w1, decomposed) := Decompose(env, decomposer, goal, w);
    if AllPending(decomposed) {
      var start := Progressing(MarkOverflow(decomposed, cfg.maxSubtasks), 0, 0);
      var p := RunSubtasks(env, cfg, principal, 0, start, w1).1;
      RunSubtasksReports(env, cfg, principal, 0, start, w1);
      RunSubtasksCounts(env, cfg, principal, 0, start, w1);
      NoneSettled(start.subtasks);
      SettledAccounts(decomposed, cfg.maxSubtasks, RunQuest(env, decomposer, cfg, principal, goal, w).1);
    }
  }

  lemma SettledAccounts(decomposed: seq<SubTask>, maxSubtasks: nat, report: QuestReport)
    requires AllPending(decomposed) && Settled(MarkOverflow(decomposed, maxSubtasks), report.subtasks, 0)
    requires report.successes == CountStatus(report.subtasks, Success)
        && report.failures == CountStatus(report.subtasks, Failed)
    ensures AccountsFor(report, decomposed, maxSubtasks)
  {
    hide CountStatus;
  }

  lemma {:induction false} NoneSettled(subtasks: seq<SubTask>)
    requires forall k :: 0 <= k < |subtasks| ==> subtasks[k].status == Pending || subtasks[k].status == Skipped
    ensures CountStatus(subtasks, Success) == 0 && CountStatus(subtasks, Failed) == 0
  {
    if subtasks != [] { NoneSettled(subtasks[1..]); }
  }

  /** The default decomposer meets the hypothesis above and never returns an empty list. */
  lemma LlmDecompositionIsPending(env: Env, goal: string, w: World)
    ensures var decomposed := Decompose(env, FromLlm, goal, w).1;
            AllPending(decomposed) && decomposed != [] &&
            forall k :: 0 <= k < |decomposed| ==> decomposed[k].id == "st-" + Decimal(k + 1)
  {
    hide Decimal, DecompositionPrompt, Lines;
    var (w1, answer) := Think(env, w, Decomposition, DecompositionPrompt(goal));
    if answer.Ok? {
      NumberedLinesPending(Lines(answer.value), 0);
    }
  }

  lemma {:induction false} NumberedLinesPending(lines: seq<string>, found: nat)
    ensures var out := NumberedLines(lines, found);
            AllPending(out) && forall k :: 0 <= k < |out| ==> out[k].id == "st-" + Decimal(found + k + 1)
  {
    hide NumberedLine, Decimal;
    if lines != [] {
      NumberedLinesPending(lines[1..], found);
      NumberedLinesPending(lines[1..], found + 1);
    }
  }

  // ---------------------------------------------------------------- the approval gate over whole runs

  /** The tool and argument of each approval. */
  function Asked(approvals: seq<PendingApproval>): seq<(string, string)> {
    seq(|approvals|, i requires 0 <= i < |approvals| => (approvals[i].tool, approvals[i].argument))
  }

  /** The authorized attempts at risky tools, in order. */
  function RiskyDispatched(events: seq<Event>): seq<(string, string)> {
    if events == [] then []
    else
      var e := events[0];
      (if e.Dispatched? && Risky(e.tool) then [(e.tool, e.argument)] else []) + RiskyDispatched(events[1..])
  }

  /** With the gate open nothing is held; with the gate closed every authorized attempt at a risky tool leaves
      exactly one approval, in order, for one of the given subtasks. */
  ghost predicate GateExact(autoCommit: bool, ids: set<string>, events: seq<Event>) {
    var held := Effect(events).pending;
    && Asked(held) == (if autoCommit then [] else RiskyDispatched(events))
    && forall k :: 0 <= k < |held| ==> held[k].subtaskId in ids
  }

  lemma {:induction false} RiskyConcat(a: seq<Event>, b: seq<Event>)
    ensures RiskyDispatched(a + b) == RiskyDispatched(a) + RiskyDispatched(b)
  {
    hide Risky;
    if a == [] {
      assert a + b == b;
    } else {
      assert (a + b)[1..] == a[1..] + b;
      RiskyConcat(a[1..], b);
    }
  }

  lemma GateConcat(autoCommit: bool, ids: set<string>, a: seq<Event>, b: seq<Event>)
    requires GateExact(autoCommit, ids, a) && GateExact(autoCommit, ids, b)
    ensures GateExact(autoCommit, ids, a + b)
  {
    hide Effect, RiskyDispatched;
    EffectConcat(a, b);
    RiskyConcat(a, b);
    var p, q := Effect(a).pending, Effect(b).pending;
    assert Effect(a + b).pending == p + q;
    assert Asked(p + q) == Asked(p) + Asked(q);
  }

  /** Neither an authorized attempt nor a held approval. */
  predicate Quiet(events: seq<Event>) {
    forall i :: 0 <= i < |events| ==> !events[i].Dispatched? && !events[i].Held?
  }

  lemma {:induction false} QuietIsExact(autoCommit: bool, ids: set<string>, events: seq<Event>)
    requires Quiet(events)
    ensures GateExact(autoCommit, ids, events)
    ensures Effect(events).pending == [] && RiskyDispatched(events) == []
  {
    hide Risky;
    if events != [] {
      QuietIsExact(autoCommit, ids, events[1..]);
      assert EffectOf(events[0]).pending == [];
    }
  }

  lemma HealingIsQuiet(env: Env, maxRepairs: nat, w: World, tool: string, argument: string)
    ensures var w' := RunTool(env, Healing(Base, maxRepairs), w, tool, argument).0;
            w.log <= w'.log && Quiet(New(w, w'))
  {
    hide RepairPrompt, Proposes, Heal;
    HealProtocol(env, maxRepairs, w, tool, argument);
    var w' := Heal(env, Base, maxRepairs, w, tool, argument).0;
    var events := New(w, w');
    forall i | 0 <= i < |events| ensures !events[i].Dispatched? && !events[i].Held? {
      if i > 0 { assert FollowsOn(tool, events[i - 1], events[i]); }
    }
  }

  /** One authorized dispatch through the Quest's executor. */
  lemma DispatchedGate(env: Env, cfg: QuestConfig, id: string, w: World, tool: string, argument: string)
    ensures var w' := RunTool(env, QuestExecutor(cfg, id), Dispatch(w, tool, argument), tool, argument).0;
            w.log <= w'.log && GateExact(cfg.autoCommit, {id}, New(w, w'))
  {
    hide Risky, Heal, Effect, RiskyDispatched;
    var inner := Healing(Base, cfg.maxRepairAttempts);
    var w1 := Dispatch(w, tool, argument);
    var w2 := RunTool(env, QuestExecutor(cfg, id), w1, tool, argument).0;
    var sent := [Dispatched(tool, argument)];
    assert New(w, w1) == sent;
    SentEffect(tool, argument);
    GateHolds(env, inner, cfg.autoCommit, id, w1, tool, argument);
    if Risky(tool) && !cfg.autoCommit {
      var approval := PendingApproval(Decimal(w1.nextId), tool, argument, id);
      HeldEffect(approval);
      assert New(w1, w2) == [Held(approval)];
      NewChain(w, w1, w2);
      RiskyConcat(sent, [Held(approval)]);
    } else {
      HealingIsQuiet(env, cfg.maxRepairAttempts, w1, tool, argument);
      QuietIsExact(cfg.autoCommit, {id}, New(w1, w2));
      NewChain(w, w1, w2);
      RiskyConcat(sent, New(w1, w2));
    }
  }

  lemma SentEffect(tool: string, argument: string)
    ensures Effect([Dispatched(tool, argument)]).pending == []
    ensures RiskyDispatched([Dispatched(tool, argument)]) == if Risky(tool) then [(tool, argument)] else []
  {
    hide Risky, Effect;
    var e := Dispatched(tool, argument);
    EffectOfOne(e, [e]);
    assert [e][1..] == [] && RiskyDispatched([]) == [];
  }

  lemma HeldEffect(approval: PendingApproval)
    ensures Effect([Held(approval)]).pending == [approval]
    ensures RiskyDispatched([Held(approval)]) == []
  {
    hide Risky, Effect;
    var e := Held(approval);
    EffectOfOne(e, [e]);
    assert [e][1..] == [] && RiskyDispatched([]) == [];
  }

  /** The gate was exact from `w` to `w'`. */
  ghost predicate Gatekept(autoCommit: bool, ids: set<string>, w: World, w': World) {
    w.log <= w'.log && GateExact(autoCommit, ids, New(w, w'))
  }

  lemma GatekeptThen(autoCommit: bool, ids: set<string>, a: World, b: World, c: World)
    requires Gatekept(autoCommit, ids, a, b) && Gatekept(autoCommit, ids, b, c)
    ensures Gatekept(autoCommit, ids, a, c)
  {
    hide GateExact;
    NewChain(a, b, c);
    GateConcat(autoCommit, ids, New(a, b), New(b, c));
  }

  lemma GatekeptQuiet(autoCommit: bool, ids: set<string>, w: World, w': World)
    requires w.log <= w'.log && Quiet(New(w, w'))
    ensures Gatekept(autoCommit, ids, w, w')
  {
    QuietIsExact(autoCommit, ids, New(w, w'));
  }

  lemma ActGatekept(env: Env, cfg: QuestConfig, principal: Principal, id: string, w: World, plan: ActionPlan)
    ensures Gatekept(cfg.autoCommit, {id}, w, Act(env, QuestAgent(cfg, principal, id), w, plan).0)
  {
    hide GateExact, Authorize, Dispatch, RunTool, Accounted, ActionPermission, MayUse, Effect, Calls;
    var (w1, granted) := Authorize(env, principal, w, plan.tool);
    AuthorizeAccounted(env, principal, false, w, plan.tool);
    AccountedGrows(principal, false, w, w1);
    GatekeptQuiet(cfg.autoCommit, {id}, w, w1);
    if granted {
      var w2 := Dispatch(w1, plan.tool, plan.argument);
      var w3 := RunTool(env, QuestExecutor(cfg, id), w2, plan.tool, plan.argument).0;
      DispatchedGate(env, cfg, id, w1, plan.tool, plan.argument);
      GatekeptThen(cfg.autoCommit, {id}, w, w1, w3);
    }
  }

  lemma StepGatekept(env: Env, cfg: QuestConfig, principal: Principal, id: string, ctx: Context.State, w: World)
    ensures Gatekept(cfg.autoCommit, {id}, w, RunStep(env, QuestAgent(cfg, principal, id), ctx, w).0)
  {
    hide Gatekept, Act, Context.State.Push, Context.State.Snapshot, Effect, QuestExecutor;
    var agent, auto := QuestAgent(cfg, principal, id), cfg.autoCommit;
    var prompt := ctx.Snapshot();
    var (w1, thought) := Think(env, w, Planning, prompt);
    assert New(w, w1) == [Thought(Planning, prompt, thought)];
    GatekeptQuiet(auto, {id}, w, w1);
    if thought.Ok? {
      var (w2, plan) := PlanAction(env, w1, thought.value);
      assert New(w1, w2) == [Planned(thought.value, plan)];
      GatekeptQuiet(auto, {id}, w1, w2);
      GatekeptThen(auto, {id}, w, w1, w2);
      if plan.Ok? {
        var (w3, granted, reply) := Act(env, agent, w2, plan.value);
        ActGatekept(env, cfg, principal, id, w2, plan.value);
        GatekeptThen(auto, {id}, w, w2, w3);
        if reply.Ok? {
          var w4 := ApplyResult(w3, granted, plan.value.tool, reply.value.output);
          GatekeptQuiet(auto, {id}, w3, w4);
          GatekeptThen(auto, {id}, w, w3, w4);
        }
      }
    }
  }

  lemma {:induction false} StepsGatekept(env: Env, cfg: QuestConfig, principal: Principal, id: string, step: nat,
                                         ctx: Context.State, trace: RunTrace, w: World)
    ensures Gatekept(cfg.autoCommit, {id}, w, RunSteps(env, QuestAgent(cfg, principal, id), step, ctx, trace, w).0)
    decreases cfg.maxSteps - step
  {
    hide Gatekept, RunStep, QuestExecutor;
    var agent := QuestAgent(cfg, principal, id);
    if step >= cfg.maxSteps {
      StillGatekept(cfg.autoCommit, {id}, w);
    } else {
      var (w1, progress) := RunStep(env, agent, ctx, w);
      StepGatekept(env, cfg, principal, id, ctx, w);
      if progress.Ok? {
        var longer := trace.(steps := trace.steps + [progress.value.step]);
        if env.validate(w1.log, progress.value.obs, step + 1) == Continue {
          StepsGatekept(env, cfg, principal, id, step + 1, progress.value.ctx, longer, w1);
          GatekeptThen(cfg.autoCommit, {id}, w, w1, RunSteps(env, agent, step + 1, progress.value.ctx, longer, w1).0);
        }
      }
    }
  }

  lemma StillGatekept(autoCommit: bool, ids: set<string>, w: World)
    ensures Gatekept(autoCommit, ids, w, w)
  {
    GatekeptQuiet(autoCommit, ids, w, w);
  }

  lemma {:induction false} AttemptsGatekept(env: Env, cfg: QuestConfig, principal: Principal, st: SubTask, attempt: nat,
                                            w: World)
    ensures Gatekept(cfg.autoCommit, {st.id}, w, Attempts(env, cfg, principal, st, attempt, w).0)
    decreases cfg.subtaskMaxRetries + 1 - attempt
  {
    hide Gatekept, RunPlanner;
    if attempt > cfg.subtaskMaxRetries {
      StillGatekept(cfg.autoCommit, {st.id}, w);
    } else {
      var (w1, result) := ExecuteSubtask(env, cfg, principal, st, w);
      ExecuteGatekept(env, cfg, principal, st, w);
      if result != Ok(true) {
        AttemptsGatekept(env, cfg, principal, st, attempt + 1, w1);
        GatekeptThen(cfg.autoCommit, {st.id}, w, w1, Attempts(env, cfg, principal, st, attempt + 1, w1).0);
      }
    }
  }

  lemma ExecuteGatekept(env: Env, cfg: QuestConfig, principal: Principal, st: SubTask, w: World)
    ensures Gatekept(cfg.autoCommit, {st.id}, w, ExecuteSubtask(env, cfg, principal, st, w).0)
  {
    hide Gatekept, RunSteps, Context.Fresh, Context.State.Push, QuestAgent;
    StepsGatekept(env, cfg, principal, st.id, 0, Context.Fresh(16, 4096).Push("goal: " + st.description), EMPTY_TRACE,
        w);
  }

  lemma GatekeptMore(autoCommit: bool, ids: set<string>, more: set<string>, w: World, w': World)
    requires Gatekept(autoCommit, ids, w, w') && ids <= more
    ensures Gatekept(autoCommit, more, w, w')
  {
    hide Effect, RiskyDispatched, New;
  }

  lemma {:induction false} RunSubtasksGatekept(env: Env, cfg: QuestConfig, principal: Principal, i: nat, p: Progressing,
                                               ids: set<string>, w: World)
    requires forall k :: i <= k < |p.subtasks| && p.subtasks[k].status != Skipped ==> p.subtasks[k].id in ids
    ensures Gatekept(cfg.autoCommit, ids, w, RunSubtasks(env, cfg, principal, i, p, w).0)
    decreases |p.subtasks| - i
  {
    hide Gatekept, Attempts;
    if i >= |p.subtasks| {
      StillGatekept(cfg.autoCommit, ids, w);
    } else if p.subtasks[i].status == Skipped {
      RunSubtasksGatekept(env, cfg, principal, i + 1, p, ids, w);
    } else {
      var st := p.subtasks[i];
      var (w1, ok) := Attempts(env, cfg, principal, st, 0, w);
      AttemptsGatekept(env, cfg, principal, st, 0, w);
      GatekeptMore(cfg.autoCommit, {st.id}, ids, w, w1);
      var next := Settle(p, i, ok);
      RunSubtasksGatekept(env, cfg, principal, i + 1, next, ids, w1);
      GatekeptThen(cfg.autoCommit, ids, w, w1, RunSubtasks(env, cfg, principal, i + 1, next, w1).0);
    }
  }

  /** The subtasks a run executes. */
  ghost function ExecutedIds(report: QuestReport): set<string> {
    set k | 0 <= k < |report.subtasks| && report.subtasks[k].status != Skipped :: report.subtasks[k].id
  }

  /** Over a whole run the pending list keeps what it held and grows by exactly one approval for each
      authorized attempt at a risky tool, in order, under the id of an executed subtask; with auto_commit it
      does not grow at all. */
  lemma QuestApprovalGate(env: Env, decomposer: Decomposer, cfg: QuestConfig, principal: Principal, goal: string,
                          w: World)
    returns (held: seq<PendingApproval>)
    ensures var (w', report) := RunQuest(env, decomposer, cfg, principal, goal, w);
            && report.pendingApprovals == w'.ledger.pending == w.ledger.pending + held
            && Asked(held) == (if cfg.autoCommit then [] else RiskyDispatched(New(w, w')))
            && forall k :: 0 <= k < |held| ==> held[k].subtaskId in ExecutedIds(report)
  {
    hide Decompose, RunSubtasks, Gatekept, Calls, Effect, RiskyDispatched, AllPermitted, SubtaskCost, Min;
    var (w1, decomposed) := Decompose(env, decomposer, goal, w);
    var start := Progressing(MarkOverflow(decomposed, cfg.maxSubtasks), 0, 0);
    var (w2, p) := RunSubtasks(env, cfg, principal, 0, start, w1);
    var report := RunQuest(env, decomposer, cfg, principal, goal, w).1;
    RunSubtasksReports(env, cfg, principal, 0, start, w1);
    var ids := ExecutedIds(report);
    assert forall k :: 0 <= k < |p.subtasks| && p.subtasks[k].status != Skipped ==> report.subtasks[k].id in ids;
    RunSubtasksGatekept(env, cfg, principal, 0, start, ids, w1);
    DecomposeGatekept(env, decomposer, cfg.autoCommit, ids, goal, w);
    GatekeptThen(cfg.autoCommit, ids, w, w1, w2);
    QuestRunSpent(env, decomposer, cfg, principal, goal, w);
    held := Effect(New(w, w2)).pending;
    GatekeptHeld(cfg.autoCommit, ids, w, w2);
  }

  lemma GatekeptHeld(autoCommit: bool, ids: set<string>, w: World, w': World)
    requires Gatekept(autoCommit, ids, w, w')
    ensures var held := Effect(New(w, w')).pending;
            && Asked(held) == (if autoCommit then [] else RiskyDispatched(New(w, w')))
            && forall k :: 0 <= k < |held| ==> held[k].subtaskId in ids
  {
  }

  lemma DecomposeGatekept(env: Env, decomposer: Decomposer, autoCommit: bool, ids: set<string>, goal: string, w: World)
    ensures Gatekept(autoCommit, ids, w, Decompose(env, decomposer, goal, w).0)
  {
    hide Gatekept, DecompositionPrompt, ParseSubtasks, Effect;
    GatekeptQuiet(autoCommit, ids, w, Decompose(env, decomposer, goal, w).0);
  }

  /** One Quest asked to reach one goal after another. */
  function RunGoals(env: Env, decomposer: Decomposer, cfg: QuestConfig, principal: Principal, goals: seq<string>,
                    w: World)
    : (r: (World, seq<QuestReport>))
    ensures |r.1| == |goals|
  {
    var n := |goals|;
    if n == 0 then (w, [])
    else
      var (w1, reports) := RunGoals(env, decomposer, cfg, principal, goals[..n - 1], w);
      var (w2, report) := RunQuest(env, decomposer, cfg, principal, goals[n - 1], w1);
      (w2, reports + [report])
  }

  /** Every list starts with all earlier ones, and `pending` with every list. */
  ghost predicate ListsGrow(reports: seq<QuestReport>, pending: seq<PendingApproval>) {
    && (forall j :: 0 <= j < |reports| ==> reports[j].pendingApprovals <= pending)
    && (forall i, j :: 0 <= i <= j < |reports| ==> reports[i].pendingApprovals <= reports[j].pendingApprovals)
  }

  lemma ListsGrowOn(reports: seq<QuestReport>, pending: seq<PendingApproval>, report: QuestReport)
    requires ListsGrow(reports, pending) && pending <= report.pendingApprovals
    ensures ListsGrow(reports + [report], report.pendingApprovals)
  {
  }

  /** Nothing clears the pending list between runs: of any two reports of one Quest the later one's list starts with the
      earlier one's. */
  lemma {:induction false} PendingListOnlyGrows(env: Env, decomposer: Decomposer, cfg: QuestConfig,
                                                principal: Principal, goals: seq<string>, w: World)
    ensures var (w', reports) := RunGoals(env, decomposer, cfg, principal, goals, w);
            ListsGrow(reports, w'.ledger.pending)
    decreases |goals|
  {
    hide RunQuest, Asked, ExecutedIds, ListsGrow;
    var n := |goals|;
    if n == 0 {
      NoLists(w.ledger.pending);
    } else {
      var (w1, reports) := RunGoals(env, decomposer, cfg, principal, goals[..n - 1], w);
      PendingListOnlyGrows(env, decomposer, cfg, principal, goals[..n - 1], w);
      var held := QuestApprovalGate(env, decomposer, cfg, principal, goals[n - 1], w1);
      ListsGrowOn(reports, w1.ledger.pending, RunQuest(env, decomposer, cfg, principal, goals[n - 1], w1).1);
    }
  }

  lemma NoLists(pending: seq<PendingApproval>)
    ensures ListsGrow([], pending)
  {
  }

  // ---------------------------------------------------------------- one stretch of the run for each subtask

  /** The approvals of a stretch are one for each authorized attempt at a risky tool, in order, all under one id. */
  ghost predicate Filed(autoCommit: bool, id: string, before: World, after: World) {
    var held := Effect(New(before, after)).pending;
    && after.ledger.pending == before.ledger.pending + held
    && Asked(held) == (if autoCommit then [] else RiskyDispatched(New(before, after)))
    && forall k :: 0 <= k < |held| ==> held[k].subtaskId == id
  }

  lemma AttemptsFiled(env: Env, cfg: QuestConfig, principal: Principal, st: SubTask, w: World)
    ensures var w' := Attempts(env, cfg, principal, st, 0, w).0;
            w.log <= w'.log && Filed(cfg.autoCommit, st.id, w, w')
  {
    hide Attempts, Asked, RiskyDispatched, Calls, AllPermitted, SubtaskCost, Effect;
    AttemptsGatekept(env, cfg, principal, st, 0, w);
    SubtaskSpent(env, cfg, principal, st, w);
    GatekeptHeld(cfg.autoCommit, {st.id}, w, Attempts(env, cfg, principal, st, 0, w).0);
  }

  /** What happens between two marks: nothing for a skipped subtask; for any other its own attempts, whose outcome is
      what the report says of it, and whose approvals carry its id. */
  ghost predicate Stretch(env: Env, cfg: QuestConfig, principal: Principal, before: World, after: World,
                          planned: SubTask, reported: SubTask) {
    && before.log <= after.log
    && if planned.status == Skipped then after == before && reported == planned
       else
         var (w', ok) := Attempts(env, cfg, principal, planned, 0, before);
         && after == w' && reported == planned.(status := if ok then Success else Failed)
         && Filed(cfg.autoCommit, planned.id, before, after)
  }

  lemma FirstStretch(env: Env, cfg: QuestConfig, principal: Principal, i: nat, p: Progressing, w: World)
    requires i < |p.subtasks|
    ensures var st := p.subtasks[i];
            var (w', ok) := if st.status == Skipped then (w, false) else Attempts(env, cfg, principal, st, 0, w);
            var next := if st.status == Skipped then p else Settle(p, i, ok);
            Stretch(env, cfg, principal, w, w', st, next.subtasks[i])
  {
    hide Attempts, Filed;
    if p.subtasks[i].status != Skipped {
      AttemptsFiled(env, cfg, principal, p.subtasks[i], w);
    }
  }

  /** The subtask loop splits into one stretch for each subtask. */
  lemma {:induction false} LoopSplits(env: Env, cfg: QuestConfig, principal: Principal, i: nat, p: Progressing,
                                      w: World)
    returns (marks: seq<World>)
    requires i <= |p.subtasks|
    ensures var (w', q) := RunSubtasks(env, cfg, principal, i, p, w);
            && |q.subtasks| == |p.subtasks| && |marks| == |p.subtasks| - i + 1
            && marks[0] == w && marks[|p.subtasks| - i] == w'
            && forall j :: 0 <= j < |p.subtasks| - i ==>
                 Stretch(env, cfg, principal, marks[j], marks[j + 1], p.subtasks[i + j], q.subtasks[i + j])
    decreases |p.subtasks| - i
  {
    hide Attempts, Stretch;
    RunSubtasksReports(env, cfg, principal, i, p, w);
    var q := RunSubtasks(env, cfg, principal, i, p, w).1;
    marks := [w];
    if i < |p.subtasks| {
      var st := p.subtasks[i];
      var (w1, next) := (w, p);
      if st.status != Skipped {
        var (w2, ok) := Attempts(env, cfg, principal, st, 0, w);
        w1, next := w2, Settle(p, i, ok);
      }
      FirstStretch(env, cfg, principal, i, p, w);
      RunSubtasksReports(env, cfg, principal, i + 1, next, w1);
      var rest := LoopSplits(env, cfg, principal, i + 1, next, w1);
      marks := [w] + rest;
      forall j | 0 <= j < |p.subtasks| - i
        ensures Stretch(env, cfg, principal, marks[j], marks[j + 1], p.subtasks[i + j], q.subtasks[i + j])
      {
        if j > 0 {
          assert Stretch(env, cfg, principal, rest[j - 1], rest[j], next.subtasks[i + 1 + (j - 1)],
              q.subtasks[i + 1 + (j - 1)]);
        }
      }
    }
  }

  /** `marks` cut the way from `start` to `end` into the stretches of the subtasks. */
  ghost predicate Splits(env: Env, cfg: QuestConfig, principal: Principal, marks: seq<World>, start: World, end: World,
                         planned: seq<SubTask>, reported: seq<SubTask>) {
    && |reported| == |planned| && |marks| == |planned| + 1 && marks[0] == start && marks[|planned|] == end
    && forall j :: 0 <= j < |planned| ==> Stretch(env, cfg, principal, marks[j], marks[j + 1], planned[j], reported[j])
  }

  /** A whole run is its decomposition and then one stretch for each subtask, in order: the report's entry for a subtask
      is the outcome of that subtask's own attempts, and the approvals held meanwhile carry its id. */
  lemma QuestSplits(env: Env, decomposer: Decomposer, cfg: QuestConfig, principal: Principal, goal: string, w: World)
    returns (marks: seq<World>)
    ensures var (w1, decomposed) := Decompose(env, decomposer, goal, w);
            var (w', report) := RunQuest(env, decomposer, cfg, principal, goal, w);
            Splits(env, cfg, principal, marks, w1, w', MarkOverflow(decomposed, cfg.maxSubtasks), report.subtasks)
  {
    hide Decompose, RunSubtasks, Stretch;
    var (w1, decomposed) := Decompose(env, decomposer, goal, w);
    marks := LoopSplits(env, cfg, principal, 0, Progressing(MarkOverflow(decomposed, cfg.maxSubtasks), 0, 0), w1);
  }

  // ---------------------------------------------------------------- success means finish

  /** Over the built-in tools and the default validator, a subtask ends in success exactly when its last
      attempt ended in a call of `finish`. */
  lemma {:induction false} SubtaskSuccessIsFinish(env: Env, limit: nat, cfg: QuestConfig, principal: Principal,
                                                  st: SubTask, attempt: nat, w: World)
    requires BasicStack(env, limit)
    ensures var (w', ok) := Attempts(env, cfg, principal, st, attempt, w);
            w.log <= w'.log && (ok <==> EndsInFinish(New(w, w')))
    decreases cfg.subtaskMaxRetries + 1 - attempt
  {
    hide BasicStack, RunPlanner, EndsInFinish, New;
    NothingNew(w);
    if attempt <= cfg.subtaskMaxRetries {
      var (w1, result) := ExecuteSubtask(env, cfg, principal, st, w);
      FinishedIffFinishCalled(env, limit, QuestAgent(cfg, principal, st.id), st.description, w);
      if result != Ok(true) {
        SubtaskSuccessIsFinish(env, limit, cfg, principal, st, attempt + 1, w1);
        var w2 := Attempts(env, cfg, principal, st, attempt + 1, w1).0;
        NewChain(w, w1, w2);
        EndsConcat(New(w, w1), New(w1, w2));
      }
    }
  }

  /** Each subtask that was not skipped is reported a success exactly when its stretch ends in a call of `finish`. */
  ghost predicate SuccessMeansFinish(marks: seq<World>, planned: seq<SubTask>, reported: seq<SubTask>) {
    && |reported| == |planned| && |marks| == |planned| + 1
    && forall j :: 0 <= j < |planned| && planned[j].status != Skipped ==>
         (marks[j].log <= marks[j + 1].log
          && (reported[j].status == Success <==> EndsInFinish(New(marks[j], marks[j + 1]))))
  }

  /** With the built-in stack, success in a report means that the subtask's own attempts ended in a call of `finish`. */
  lemma SuccessIffFinish(env: Env, limit: nat, decomposer: Decomposer, cfg: QuestConfig, principal: Principal,
                         goal: string, w: World) returns (marks: seq<World>)
    requires BasicStack(env, limit)
    ensures var (w1, decomposed) := Decompose(env, decomposer, goal, w);
            var (w', report) := RunQuest(env, decomposer, cfg, principal, goal, w);
            var planned := MarkOverflow(decomposed, cfg.maxSubtasks);
            && Splits(env, cfg, principal, marks, w1, w', planned, report.subtasks)
            && SuccessMeansFinish(marks, planned, report.subtasks)
  {
    hide *;
    marks := QuestSplits(env, decomposer, cfg, principal, goal, w);
    var (w1, decomposed) := Decompose(env, decomposer, goal, w);
    var (w', report) := RunQuest(env, decomposer, cfg, principal, goal, w);
    SplitsFinish(env, limit, cfg, principal, marks, w1, w', MarkOverflow(decomposed, cfg.maxSubtasks), report.subtasks);
  }

  lemma SplitsFinish(env: Env, limit: nat, cfg: QuestConfig, principal: Principal, marks: seq<World>, start: World,
                     end: World, planned: seq<SubTask>, reported: seq<SubTask>)
    requires BasicStack(env, limit) && Splits(env, cfg, principal, marks, start, end, planned, reported)
    ensures SuccessMeansFinish(marks, planned, reported)
  {
    hide BasicStack, Attempts, Filed, EndsInFinish, New;
    forall j | 0 <= j < |planned| && planned[j].status != Skipped
      ensures marks[j].log <= marks[j + 1].log
      ensures reported[j].status == Success <==> EndsInFinish(New(marks[j], marks[j + 1]))
    {
      assert Stretch(env, cfg, principal, marks[j], marks[j + 1], planned[j], reported[j]);
      SubtaskSuccessIsFinish(env, limit, cfg, principal, planned[j], 0, marks[j]);
    }
  }

  // ---------------------------------------------------------------- the Quest as it runs

  class Quest {
    const shared: Shared
    const decomposer: Decomposer
    const cfg: QuestConfig
    const principal: Principal

    constructor (shared: Shared, decomposer: Decomposer, cfg: QuestConfig, principal: Principal)
      ensures this.shared == shared && this.decomposer == decomposer && this.cfg == cfg && this.principal == principal
    {
      this.shared, this.decomposer, this.cfg, this.principal := shared, decomposer, cfg, principal;
    }

    method DecomposeGoal(goal: string) returns (subtasks: seq<SubTask>)
      modifies shared
      ensures (shared.Now(), subtasks) == Decompose(shared.env, decomposer, goal, old(shared.Now()))
    {
      hide DecompositionPrompt, ParseSubtasks, Think;
      match decomposer {
        case Custom(decompose) =>
          subtasks := decompose(shared.log, goal);
        case FromLlm =>
          var answer := shared.AskLlm(Decomposition, DecompositionPrompt(goal));
          if answer.Ok? {
            subtasks := ParseLines(answer.value, goal);
          } else {
            subtasks := [NewSubTask(1, goal)];
          }
      }
    }

    method ParseLines(text: string, goal: string) returns (out: seq<SubTask>)
      ensures out == ParseSubtasks(text, goal)
    {
      hide NumberedLine, NewSubTask, Lines;
      out := [];
      var lines := Lines(text);
      for i := 0 to |lines|
        invariant NumberedLines(lines, 0) == out + NumberedLines(lines[i..], |out|)
      {
        assert lines[i..][0] == lines[i] && lines[i..][1..] == lines[i + 1..];
        match NumberedLine(lines[i]) {
          case None =>
          case Some(description) => out := out + [NewSubTask(|out| + 1, description)];
        }
      }
      if out == [] {
        out := [NewSubTask(1, goal)];
      }
    }

    method Execute(st: SubTask) returns (result: Result<bool>)
      modifies shared
      ensures (shared.Now(), result) == ExecuteSubtask(shared.env, cfg, principal, st, old(shared.Now()))
    {
      hide RunPlanner;
      var planner := new Planner(shared, principal, QuestExecutor(cfg, st.id), cfg.maxSteps);
      var trace := planner.Run(st.description);
      match trace {
        case Ok(t) => result := Ok(t.finalAnswer == TASK_FINISHED);
        case Err(e) => result := Err(e);
      }
    }

    method Retry(st: SubTask) returns (ok: bool)
      modifies shared
      ensures (shared.Now(), ok) == Attempts(shared.env, cfg, principal, st, 0, old(shared.Now()))
    {
      hide ExecuteSubtask;
      ghost var goal := Attempts(shared.env, cfg, principal, st, 0, shared.Now());
      var attempt := 0;
      ok := false;
      while attempt <= cfg.subtaskMaxRetries && !ok
        invariant attempt <= cfg.subtaskMaxRetries + 1
        invariant goal == if ok then (shared.Now(), true)
            else Attempts(shared.env, cfg, principal, st, attempt, shared.Now())
        decreases cfg.subtaskMaxRetries + 1 - attempt, !ok
      {
        var result := Execute(st);
        if result == Ok(true) {
          ok := true;
        } else {
          attempt := attempt + 1;
        }
      }
    }

    method Run(goal: string) returns (report: QuestReport)
      modifies shared
      ensures (shared.Now(), report) == RunQuest(shared.env, decomposer, cfg, principal, goal, old(shared.Now()))
    {
      hide Decompose, Attempts;
      var subtasks := DecomposeGoal(goal);
      ghost var decomposed := subtasks;
      if |subtasks| > cfg.maxSubtasks {
        for i := 0 to |subtasks|
          invariant |subtasks| == |decomposed|
          invariant forall k :: 0 <= k < |subtasks| ==>
                      subtasks[k]
                      == if cfg.maxSubtasks <= k < i then decomposed[k].(status := Skipped) else decomposed[k]
        {
          if i >= cfg.maxSubtasks {
            subtasks := subtasks[i := subtasks[i].(status := Skipped)];
          }
        }
      }
      assert subtasks == MarkOverflow(decomposed, cfg.maxSubtasks);
      var successes, failures := 0, 0;
      ghost var spec := RunSubtasks(shared.env, cfg, principal, 0, Progressing(subtasks, 0, 0), shared.Now());
      for i := 0 to |subtasks|
        invariant |subtasks| == |decomposed|
        invariant RunSubtasks(shared.env, cfg, principal, i, Progressing(subtasks, successes, failures), shared.Now())
            == spec
      {
        if subtasks[i].status == Skipped {
          continue;
        }
        ghost var before := Progressing(subtasks, successes, failures);
        var st := subtasks[i];
        subtasks := subtasks[i := st.(status := Running)];
        var ok := Retry(st);
        if ok {
          subtasks := subtasks[i := st.(status := Success)];
          successes := successes + 1;
        } else {
          subtasks := subtasks[i := st.(status := Failed)];
          failures := failures + 1;
        }
        assert Progressing(subtasks, successes, failures) == Settle(before, i, ok);
      }
      report := QuestReport(goal, subtasks, successes, failures, shared.pending);
    }
  }
}
