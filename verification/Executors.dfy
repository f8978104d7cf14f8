/** Tool executors and the wrappers stacked on them: the built-in tools (`tool_executor.rs`), the self-healing
    executor (`self_heal.rs`) and the approval gate of a Quest (`quest.rs`). */
module Executors {
  import opened Text
  import opened Permissions
  import opened Principals
  import opened Runtime

  /** How a `ToolExecutor` is put together. */
  datatype Executor =
    | Base
    | Healing(inner: Executor, maxRepairs: nat)
    | Gated(inner: Executor, autoCommit: bool, subtaskId: string)

  datatype RepairOutcome = RepairOutcome(observation: Observation, repairAttempts: nat, healed: bool)

  // ---------------------------------------------------------------- what the wrappers do

  function ParsePatch(text: string): string {
    var trimmed := Trim(text);
    match StripPrefix(trimmed, "PATCH:")
    case Some(rest) => Trim(rest)
    case None =>
      match StripPrefix(trimmed, "PATCH ")
      case Some(rest) => Trim(rest)
      case None => trimmed
  }

  const REPAIR_REQUEST: string :=
    "\nPropose a corrected input that would make the tool succeed. "
    + "Reply with a single line beginning with PATCH: followed by the corrected input."

  function RepairPrompt(tool: string, input: string, error: string): string {
    "The tool `" + tool + "` failed when run with input `" + input + "`.\nError: " + error + REPAIR_REQUEST
  }

  function ExhaustedError(attempts: nat, tool: string, error: string): string {
    "self-heal exhausted after " + Decimal(attempts) + " repair attempts for tool `" + tool + "`: " + error
  }

  function PendingOutput(tool: string, argument: string): string {
    "[pending approval] " + tool + " " + argument
  }

  function RunTool(env: Env, ex: Executor, w: World, tool: string, argument: string): (World, Result<Observation>)
    decreases ex, 0, 0
  {
    match ex
    case Base => CallBase(env, w, tool, argument)
    case Healing(inner, maxRepairs) =>
      var (w1, outcome) := Heal(env, inner, maxRepairs, w, tool, argument);
      (w1, match outcome case Ok(o) => Ok(o.observation) case Err(e) => Err(e))
    case Gated(inner, autoCommit, subtaskId) =>
      if Risky(tool) && !autoCommit then
        (Hold(w, tool, argument, subtaskId), Ok(Observation(tool, PendingOutput(tool, argument), false)))
      else RunTool(env, inner, w, tool, argument)
  }

  /** First attempt with the input as given, then the repair loop. */
  function Heal(env: Env, inner: Executor, maxRepairs: nat, w: World, tool: string, input: string)
    : (World, Result<RepairOutcome>)
    decreases inner, 2, 0
  {
    var (w1, first) := RunTool(env, inner, w, tool, input);
    match first
    case Ok(obs) => (w1, Ok(RepairOutcome(obs, 0, false)))
    case Err(e) => RepairLoop(env, inner, maxRepairs, 0, w1, tool, input, e)
  }

  function RepairLoop(env: Env, inner: Executor, maxRepairs: nat, attempts: nat, w: World, tool: string,
                      current: string, lastError: string): (World, Result<RepairOutcome>)
    decreases inner, 1, maxRepairs - attempts
  {
    if attempts >= maxRepairs then (w, Err(ExhaustedError(attempts, tool, lastError)))
    else
      hide RepairPrompt, ExhaustedError, ParsePatch;
      var (w1, answer) := Think(env, w, Repair, RepairPrompt(tool, current, lastError));
      match answer
      case Err(e) => (w1, Err(e))
      case Ok(text) =>
        var (w2, reply) := RunTool(env, inner, w1, tool, ParsePatch(text));
        match reply
        case Ok(obs) => (w2, Ok(RepairOutcome(obs, attempts + 1, true)))
        case Err(e) => RepairLoop(env, inner, maxRepairs, attempts + 1, w2, tool, ParsePatch(text), e)
  }

  // ---------------------------------------------------------------- what counts as a patch

  /** `text` proposes `patch`: after `PATCH:`, or after `PATCH` and a blank, or, without either, as it stands; white
      space around it never belongs to it. */
  ghost predicate Proposes(text: string, patch: string) {
    Bare(patch) && (|| AfterMark(text, "PATCH:", patch)
                    || (patch != "" && AfterMark(text, "PATCH ", patch))
                    || (Padded(text, patch) && !("PATCH:" <= patch) && !("PATCH " <= patch)))
  }

  ghost predicate AfterMark(text: string, mark: string, patch: string) {
    exists a, b, c :: AllBlank(a) && AllBlank(b) && AllBlank(c) && text == a + mark + b + patch + c
  }

  /** The mark and what follows it, trimmed at the end, is the trimmed text. */
  lemma MarkedCore(text: string, mark: string, patch: string) returns (gap: string)
    requires AfterMark(text, mark, patch) && Bare(patch)
    requires mark != "" && !IsWhitespace(mark[0]) && (patch != "" || !IsWhitespace(mark[|mark| - 1]))
    ensures AllBlank(gap) && Trim(text) == mark + (if patch == "" then "" else gap + patch)
    ensures Trim(if patch == "" then "" else gap + patch) == patch
  {
    hide IsWhitespace, TrimStart, TrimEnd, AllBlank, Trim;
    var a, b, c :| AllBlank(a) && AllBlank(b) && AllBlank(c) && text == a + mark + b + patch + c;
    gap := b;
    NoPadding();
    if patch == "" {
      BlankConcat(b, c);
      assert text == a + mark + (b + c);
      TrimExact(text, mark);
      assert mark + "" == mark && "" + "" + "" == "";
      TrimExact("", "");
    } else {
      var core := mark + (b + patch);
      assert text == a + core + c && core[0] == mark[0] && core[|core| - 1] == patch[|patch| - 1];
      TrimExact(text, core);
      assert b + patch == b + patch + "";
      TrimExact(b + patch, patch);
    }
  }

  lemma NoPadding()
    ensures AllBlank("")
  {
  }

  lemma BlankConcat(a: string, b: string)
    requires AllBlank(a) && AllBlank(b)
    ensures AllBlank(a + b)
  {
  }

  lemma MarkSplits(trimmed: string, mark: string) returns (a: string, c: string)
    requires mark <= trimmed
    ensures AllBlank(a) && AllBlank(c) && trimmed == mark + a + Trim(trimmed[|mark|..]) + c
  {
    hide IsWhitespace, TrimStart, TrimEnd, AllBlank, Trim;
    var rest := trimmed[|mark|..];
    TrimExact(rest, Trim(rest));
    var x, y :| AllBlank(x) && AllBlank(y) && rest == x + Trim(rest) + y;
    a, c := x, y;
    assert trimmed == mark + rest;
  }

  lemma ParsedIsProposed(text: string)
    ensures Proposes(text, ParsePatch(text))
  {
    hide IsWhitespace, TrimStart, TrimEnd, AllBlank, Trim, AfterMark;
    var trimmed, patch := Trim(text), ParsePatch(text);
    TrimExact(text, trimmed);
    if "PATCH:" <= trimmed {
      ParsedAfterMark(text, "PATCH:");
    } else if "PATCH " <= trimmed {
      ParsedAfterMark(text, "PATCH ");
    }
  }

  lemma ParsedAfterMark(text: string, mark: string)
    requires mark <= Trim(text)
    ensures var patch := Trim(Trim(text)[|mark|..]);
            && Bare(patch) && AfterMark(text, mark, patch) && (mark == "PATCH " ==> patch != "")
  {
    hide IsWhitespace, TrimStart, TrimEnd, AllBlank, Trim, Bare;
    var trimmed := Trim(text);
    TrimExact(text, trimmed);
    var p, q :| AllBlank(p) && AllBlank(q) && text == p + trimmed + q;
    var patch := Trim(trimmed[|mark|..]);
    TrimExact(trimmed[|mark|..], patch);
    var a, c := MarkSplits(trimmed, mark);
    BlankConcat(c, q);
    assert text == p + mark + a + patch + (c + q);
    if mark == "PATCH " {
      NothingAfterBlank(trimmed, patch, a, c);
    }
  }

  /** A trimmed text cannot end in the blank of its mark. */
  lemma NothingAfterBlank(trimmed: string, patch: string, a: string, c: string)
    requires Bare(trimmed) && AllBlank(a) && AllBlank(c) && trimmed == "PATCH " + a + patch + c
    ensures patch != ""
  {
    BlankConcat(a, c);
    assert IsWhitespace("PATCH "[5]);
    assert patch == "" ==> trimmed == "PATCH " + (a + c);
  }

  lemma ProposedIsParsed(text: string, patch: string)
    requires Proposes(text, patch)
    ensures ParsePatch(text) == patch
  {
    hide IsWhitespace, TrimStart, TrimEnd, AllBlank, Trim, AfterMark, Padded;
    PatchMarks();
    if AfterMark(text, "PATCH:", patch) {
      var gap := MarkedCore(text, "PATCH:", patch);
      var rest := if patch == "" then "" else gap + patch;
      assert Trim(text)[6..] == rest;
    } else if patch != "" && AfterMark(text, "PATCH ", patch) {
      var gap := MarkedCore(text, "PATCH ", patch);
      assert Trim(text)[6..] == gap + patch;
      assert Trim(text)[5] == "PATCH "[5] == ' ';
    } else {
      TrimExact(text, patch);
    }
  }

  lemma PatchMarks()
    ensures !IsWhitespace('P') && !IsWhitespace(':')
    ensures "PATCH:"[0] == 'P' && "PATCH:"[5] == ':' && "PATCH "[0] == 'P'
  {
  }

  /** The parser finds exactly what the text proposes. */
  lemma PatchExact(text: string, patch: string)
    ensures ParsePatch(text) == patch <==> Proposes(text, patch)
  {
    hide ParsePatch, Proposes;
    ParsedIsProposed(text);
    if Proposes(text, patch) { ProposedIsParsed(text, patch); }
  }

  /** The prompt quotes tool, input and error, in this order and as they are. */
  lemma RepairPromptQuotes() returns (a: string, b: string, c: string, d: string)
    ensures forall tool, input, error :: RepairPrompt(tool, input, error) == a + tool + b + input + c + error + d
  {
    a, b, c, d := "The tool `", "` failed when run with input `", "`.\nError: ", REPAIR_REQUEST;
  }

  // ---------------------------------------------------------------- permission safety and work bound

  /** Whether some gate on the way to the base executor holds risky tools back. */
  predicate GateClosed(ex: Executor) {
    match ex
    case Base => false
    case Healing(inner, _) => GateClosed(inner)
    case Gated(inner, autoCommit, _) => !autoCommit || GateClosed(inner)
  }

  /** The most calls one run of the executor can make to the base executor. */
  function Fanout(ex: Executor): nat {
    match ex
    case Base => 1
    case Healing(inner, maxRepairs) => (maxRepairs + 1) * Fanout(inner)
    case Gated(inner, _, _) => Fanout(inner)
  }

  predicate CalledOnly(tool: string, events: seq<Event>) {
    forall i :: 0 <= i < |events| && events[i].Called? ==> events[i].tool == tool
  }

  predicate HeldOnly(tool: string, approvals: seq<PendingApproval>) {
    forall i :: 0 <= i < |approvals| ==> approvals[i].tool == tool
  }

  /** The run called the base executor only under the name `tool`, at most `limit` times, and entered nothing
      but held approvals for that tool in the counted part of the ledger. */
  ghost predicate OnlyRan(tool: string, limit: int, events: seq<Event>) {
    && CalledOnly(tool, events)
    && Calls(events) <= limit
    && Effect(events).metrics.Idle()
    && HeldOnly(tool, Effect(events).pending)
  }

  lemma CalledOnlyConcat(tool: string, a: seq<Event>, b: seq<Event>)
    requires CalledOnly(tool, a) && CalledOnly(tool, b)
    ensures CalledOnly(tool, a + b)
  {
    forall i | 0 <= i < |a + b| && (a + b)[i].Called? ensures (a + b)[i].tool == tool {
      if i < |a| { assert (a + b)[i] == a[i]; } else { assert (a + b)[i] == b[i - |a|]; }
    }
  }

  lemma HeldOnlyConcat(tool: string, a: seq<PendingApproval>, b: seq<PendingApproval>)
    requires HeldOnly(tool, a) && HeldOnly(tool, b)
    ensures HeldOnly(tool, a + b)
  {
  }

  lemma IdleConcat(a: Ledger, b: Ledger)
    requires a.metrics.Idle() && b.metrics.Idle()
    ensures a.Plus(b).metrics.Idle() && a.Plus(b).pending == a.pending + b.pending
  {
  }

  lemma OnlyRanConcat(tool: string, m: int, n: int, a: seq<Event>, b: seq<Event>)
    requires OnlyRan(tool, m, a) && OnlyRan(tool, n, b)
    ensures OnlyRan(tool, m + n, a + b)
  {
    hide Calls, Effect, CalledOnly, HeldOnly, Counters.Idle, Ledger.Plus;
    CalledOnlyConcat(tool, a, b);
    CallsConcat(a, b);
    EffectConcat(a, b);
    HeldOnlyConcat(tool, Effect(a).pending, Effect(b).pending);
    IdleConcat(Effect(a), Effect(b));
  }

  /** What a run of the executor for `tool` amounts to. */
  ghost predicate RanWell(principal: Principal, gateClosed: bool, tool: string, limit: int, w: World, w': World) {
    Accounted(principal, gateClosed, w, w') && OnlyRan(tool, limit, New(w, w'))
  }

  lemma RanThen(principal: Principal, gateClosed: bool, tool: string, m: int, n: int, a: World, b: World, c: World)
    requires RanWell(principal, gateClosed, tool, m, a, b) && RanWell(principal, gateClosed, tool, n, b, c)
    ensures RanWell(principal, gateClosed, tool, m + n, a, c)
  {
    hide Accounted, OnlyRan, New;
    Chain(principal, gateClosed, a, b, c);
    OnlyRanConcat(tool, m, n, New(a, b), New(b, c));
  }

  lemma RanWeaken(principal: Principal, gateClosed: bool, tool: string, m: int, n: int, w: World, w': World)
    requires RanWell(principal, gateClosed, tool, m, w, w') && m <= n
    ensures RanWell(principal, gateClosed, tool, n, w, w')
  {
    hide Accounted;
  }

  /** Every executor, whatever its wrappers, keeps the permission rules and accounts for what it does, never
      changes the tool's name, and stays within its fan-out. */
  lemma {:induction false} RunToolAccounted(env: Env, principal: Principal, ex: Executor, w: World, tool: string,
                                            argument: string)
    requires MayUse(principal, tool)
    ensures var w' := RunTool(env, ex, w, tool, argument).0;
            RanWell(principal, GateClosed(ex), tool, Fanout(ex), w, w')
    decreases ex, 0, 0
  {
    hide MayUse, Risky, Heal, RepairLoop, RanWell;
    match ex
    case Base =>
      BaseAccounted(env, principal, w, tool, argument);
    case Healing(inner, maxRepairs) =>
      HealAccounted(env, principal, inner, maxRepairs, w, tool, argument);
    case Gated(inner, autoCommit, subtaskId) =>
      if Risky(tool) && !autoCommit {
        HeldAccounted(principal, GateClosed(ex), w, tool, argument, subtaskId);
        var w' := Hold(w, tool, argument, subtaskId);
        RanWeaken(principal, GateClosed(ex), tool, 0, Fanout(ex), w, w');
      } else {
        RunToolAccounted(env, principal, inner, w, tool, argument);
        var w' := RunTool(env, inner, w, tool, argument).0;
        GateTightens(principal, GateClosed(ex), GateClosed(inner), tool, Fanout(inner), w, w');
      }
  }

  lemma BaseAccounted(env: Env, principal: Principal, w: World, tool: string, argument: string)
    requires MayUse(principal, tool)
    ensures var w' := CallBase(env, w, tool, argument).0;
            RanWell(principal, false, tool, 1, w, w')
  {
    hide MayUse, Risky, Accounted, Effect, Calls;
    CallAccounted(env, principal, false, w, tool, argument);
  }

  lemma HeldAccounted(principal: Principal, gateClosed: bool, w: World, tool: string, argument: string,
                      subtaskId: string)
    requires MayUse(principal, tool) && Risky(tool)
    ensures var w' := Hold(w, tool, argument, subtaskId);
            RanWell(principal, gateClosed, tool, 0, w, w')
  {
    hide MayUse, Risky, Accounted, Effect, Calls;
    HoldAccounted(principal, gateClosed, w, tool, argument, subtaskId);
  }

  /** Runs of a tool that is not risky meet the rules of a closed gate too. */
  lemma GateTightens(principal: Principal, closed: bool, gateClosed: bool, tool: string, limit: int, w: World,
                     w': World)
    requires RanWell(principal, gateClosed, tool, limit, w, w')
    requires closed ==> gateClosed || !Risky(tool)
    ensures RanWell(principal, closed, tool, limit, w, w')
  {
    hide MayUse, Risky, Effect, Calls;
    forall i | 0 <= i < |New(w, w')| ensures Permitted(principal, closed, New(w, w')[i]) {
      assert Permitted(principal, gateClosed, New(w, w')[i]);
    }
  }

  lemma {:induction false} HealAccounted(env: Env, principal: Principal, inner: Executor, maxRepairs: nat, w: World,
                                         tool: string, input: string)
    requires MayUse(principal, tool)
    ensures var w' := Heal(env, inner, maxRepairs, w, tool, input).0;
            RanWell(principal, GateClosed(inner), tool, (maxRepairs + 1) * Fanout(inner), w, w')
    decreases inner, 2, 0
  {
    hide MayUse, Risky, RanWell, RunTool, RepairLoop;
    var (w1, first) := RunTool(env, inner, w, tool, input);
    OneMore(maxRepairs, Fanout(inner));
    RunToolAccounted(env, principal, inner, w, tool, input);
    if first.Err? {
      var w' := RepairLoop(env, inner, maxRepairs, 0, w1, tool, input, first.error).0;
      RepairAccounted(env, principal, inner, maxRepairs, 0, w1, tool, input, first.error);
      RanThen(principal, GateClosed(inner), tool, Fanout(inner), maxRepairs * Fanout(inner), w, w1, w');
    } else {
      RanWeaken(principal, GateClosed(inner), tool, Fanout(inner), (maxRepairs + 1) * Fanout(inner), w, w1);
    }
  }

  lemma OneMore(k: nat, f: nat)
    ensures (k + 1) * f == k * f + f
    ensures k * f >= 0
  {
  }

  lemma {:induction false} RepairAccounted(env: Env, principal: Principal, inner: Executor, maxRepairs: nat,
                                           attempts: nat, w: World, tool: string, current: string, lastError: string)
    requires MayUse(principal, tool) && attempts <= maxRepairs
    ensures var w' := RepairLoop(env, inner, maxRepairs, attempts, w, tool, current, lastError).0;
            RanWell(principal, GateClosed(inner), tool, (maxRepairs - attempts) * Fanout(inner), w, w')
    decreases inner, 1, maxRepairs - attempts
  {
    hide MayUse, Risky, RanWell, Think, RunTool, Heal, Fanout, GateClosed, ParsePatch, RepairPrompt, ExhaustedError;
    var gate, f := GateClosed(inner), Fanout(inner);
    if attempts >= maxRepairs {
      NothingRan(principal, gate, tool, w);
    } else {
      var prompt := RepairPrompt(tool, current, lastError);
      var (w1, answer) := Think(env, w, Repair, prompt);
      RepairThoughtAccounted(env, principal, gate, w, tool, prompt);
      var left := (maxRepairs - attempts - 1) * f;
      OneMore(maxRepairs - attempts - 1, f);
      if answer.Err? {
        RanWeaken(principal, gate, tool, 0, left + f, w, w1);
      } else {
        var patch := ParsePatch(answer.value);
        var (w2, reply) := RunTool(env, inner, w1, tool, patch);
        RunToolAccounted(env, principal, inner, w1, tool, patch);
        RanThen(principal, gate, tool, 0, f, w, w1, w2);
        if reply.Err? {
          var w3 := RepairLoop(env, inner, maxRepairs, attempts + 1, w2, tool, patch, reply.error).0;
          RepairAccounted(env, principal, inner, maxRepairs, attempts + 1, w2, tool, patch, reply.error);
          RanThen(principal, gate, tool, f, left, w, w2, w3);
        } else {
          RanWeaken(principal, gate, tool, f, left + f, w, w2);
        }
      }
    }
  }

  lemma NothingRan(principal: Principal, gateClosed: bool, tool: string, w: World)
    ensures RanWell(principal, gateClosed, tool, 0, w, w)
  {
    hide Accounted;
    Still(principal, gateClosed, w);
  }

  lemma RepairThoughtAccounted(env: Env, principal: Principal, gateClosed: bool, w: World, tool: string, prompt: string)
    ensures RanWell(principal, gateClosed, tool, 0, w, Think(env, w, Repair, prompt).0)
  {
    hide Accounted, Effect, Calls;
    ThinkAccounted(env, principal, gateClosed, w, Repair, prompt);
  }

  // ---------------------------------------------------------------- the self-healing protocol

  /** A repair thought is asked about the failed call before it; a later call runs the patch that the thought before it
      proposes. */
  ghost predicate FollowsOn(tool: string, before: Event, e: Event) {
    match e
    case Thought(purpose, prompt, _) =>
      && purpose == Repair && before.Called? && before.reply.Err?
      && prompt == RepairPrompt(tool, before.argument, before.reply.error)
    case Called(name, argument, _) =>
      && name == tool && before.Thought? && before.answer.Ok? && Proposes(before.answer.value, argument)
    case _ => false
  }

  /** Call, thought, call, thought, ...: starts with the original input, and nothing else ever happens. */
  ghost predicate Alternates(tool: string, input: string, events: seq<Event>) {
    && events != [] && events[0].Called? && events[0].tool == tool && events[0].argument == input
    && forall i :: 0 < i < |events| ==> FollowsOn(tool, events[i - 1], events[i])
  }

  lemma AlternatesExtend(tool: string, input: string, events: seq<Event>, e: Event)
    requires Alternates(tool, input, events) && FollowsOn(tool, events[|events| - 1], e)
    ensures Alternates(tool, input, events + [e])
  {
    hide FollowsOn;
    var longer := events + [e];
    forall i | 0 < i < |longer| ensures FollowsOn(tool, longer[i - 1], longer[i]) {
      assert longer[i - 1] == events[i - 1];
      if i < |events| { assert longer[i] == events[i]; }
    }
  }

  /** How a self-healing run over the base executor may end. */
  ghost predicate EndsAs(tool: string, maxRepairs: nat, events: seq<Event>, outcome: Result<RepairOutcome>)
    requires events != []
  {
    var last := events[|events| - 1];
    match outcome
    case Ok(o) =>
      && |events| == 2 * o.repairAttempts + 1 && o.repairAttempts <= maxRepairs
      && last.Called? && last.reply == Ok(o.observation) && (o.healed <==> o.repairAttempts > 0)
    case Err(error) =>
      || (|events| == 2 * maxRepairs + 1 && last.Called? && last.reply.Err?
          && error == "self-heal exhausted after " + Decimal(maxRepairs) + " repair attempts for tool `" + tool + "`: "
                      + last.reply.error)
      || (|events| % 2 == 0 && |events| <= 2 * maxRepairs && last.Thought? && last.answer == Err(error))
  }

  /** Self-healing over the base executor, for any LLM and any tool: calls and repair thoughts alternate, only
      the last call may have succeeded, and it gives up exactly when a repair thought fails or the circuit
      breaker trips after `maxRepairs` repairs. */
  lemma HealProtocol(env: Env, maxRepairs: nat, w: World, tool: string, input: string)
    ensures var (w', outcome) := Heal(env, Base, maxRepairs, w, tool, input);
            && w.log <= w'.log && Alternates(tool, input, New(w, w'))
            && EndsAs(tool, maxRepairs, New(w, w'), outcome)
  {
    hide RepairLoop, RepairPrompt, ParsePatch, Decimal, FollowsOn;
    var (w1, first) := CallBase(env, w, tool, input);
    assert RunTool(env, Base, w, tool, input) == (w1, first);
    assert New(w, w1) == [Called(tool, input, first)];
    if first.Err? {
      RepairProtocol(env, maxRepairs, 0, w, w1, tool, input, input, first.error);
    }
  }

  lemma {:induction false} RepairProtocol(env: Env, maxRepairs: nat, attempts: nat, w0: World, w: World, tool: string,
                                          input: string, current: string, lastError: string)
    requires attempts <= maxRepairs && w0.log <= w.log
    requires Alternates(tool, input, New(w0, w)) && |New(w0, w)| == 2 * attempts + 1
    requires New(w0, w)[2 * attempts] == Called(tool, current, Err(lastError))
    ensures var (w', outcome) := RepairLoop(env, Base, maxRepairs, attempts, w, tool, current, lastError);
            && w0.log <= w'.log && Alternates(tool, input, New(w0, w'))
            && EndsAs(tool, maxRepairs, New(w0, w'), outcome)
    decreases maxRepairs - attempts
  {
    hide RepairPrompt, ParsePatch, Proposes, Decimal, Alternates, Heal;
    if attempts < maxRepairs {
      var prompt := RepairPrompt(tool, current, lastError);
      var (w1, answer) := Think(env, w, Repair, prompt);
      var asked := Thought(Repair, prompt, answer);
      assert New(w0, w1) == New(w0, w) + [asked];
      AlternatesExtend(tool, input, New(w0, w), asked);
      if answer.Ok? {
        var patch := ParsePatch(answer.value);
        PatchExact(answer.value, patch);
        var (w2, reply) := CallBase(env, w1, tool, patch);
        assert RunTool(env, Base, w1, tool, patch) == (w2, reply);
        assert New(w0, w2) == New(w0, w1) + [Called(tool, patch, reply)];
        AlternatesExtend(tool, input, New(w0, w1), Called(tool, patch, reply));
        if reply.Err? {
          RepairProtocol(env, maxRepairs, attempts + 1, w0, w2, tool, input, patch, reply.error);
        }
      }
    }
  }

  /** In a self-healing run the call after the answer `PATCH: s`, however padded, runs `s`. */
  lemma RepairRunsThePatch(tool: string, input: string, events: seq<Event>, i: nat, a: string, b: string, patch: string,
                           c: string)
    requires Alternates(tool, input, events) && 0 < i < |events| && events[i].Called?
    requires AllBlank(a) && AllBlank(b) && AllBlank(c) && Bare(patch)
    requires events[i - 1].Thought? && events[i - 1].answer == Ok(a + "PATCH:" + b + patch + c)
    ensures events[i].tool == tool && events[i].argument == patch
  {
    hide AllBlank, Bare, Proposes, RepairPrompt;
    var text := a + "PATCH:" + b + patch + c;
    assert FollowsOn(tool, events[i - 1], events[i]);
    assert Proposes(text, patch) by { MarkedIsProposed(text, a, b, patch, c); }
    PatchExact(text, patch);
    PatchExact(text, events[i].argument);
  }

  lemma MarkedIsProposed(text: string, a: string, b: string, patch: string, c: string)
    requires AllBlank(a) && AllBlank(b) && AllBlank(c) && Bare(patch) && text == a + "PATCH:" + b + patch + c
    ensures Proposes(text, patch)
  {
    hide AllBlank;
  }

  // ---------------------------------------------------------------- the approval gate

  /** With the gate closed, a risky tool is answered with a neutral observation, leaves exactly one pending
      approval carrying the subtask, and never reaches an executor; every other tool passes through. */
  lemma GateHolds(env: Env, inner: Executor, autoCommit: bool, subtaskId: string, w: World, tool: string,
                  argument: string)
    ensures var (w', reply) := RunTool(env, Gated(inner, autoCommit, subtaskId), w, tool, argument);
            if Risky(tool) && !autoCommit then
              var approval := PendingApproval(Decimal(w.nextId), tool, argument, subtaskId);
              && New(w, w') == [Held(approval)] && w'.ledger.pending == w.ledger.pending + [approval]
              && w'.ledger.metrics == w.ledger.metrics && w'.ledger.audit == w.ledger.audit
              && reply == Ok(Observation(tool, PendingOutput(tool, argument), false))
            else
              (w', reply) == RunTool(env, inner, w, tool, argument)
  {
    hide Risky;
  }

  // ---------------------------------------------------------------- the executors as they run

  /** Runs the executor on the shared state. */
  method Run(shared: Shared, ex: Executor, tool: string, argument: string) returns (reply: Result<Observation>)
    modifies shared
    ensures (shared.Now(), reply) == RunTool(shared.env, ex, old(shared.Now()), tool, argument)
    decreases ex, 0
  {
    match ex {
      case Base =>
        reply := shared.CallTool(tool, argument);
      case Healing(inner, maxRepairs) =>
        var outcome := SelfHeal(shared, inner, maxRepairs, tool, argument);
        match outcome {
          case Ok(o) => reply := Ok(o.observation);
          case Err(e) => reply := Err(e);
        }
      case Gated(inner, autoCommit, subtaskId) =>
        if Risky(tool) && !autoCommit {
          shared.HoldForApproval(tool, argument, subtaskId);
          reply := Ok(Observation(tool, PendingOutput(tool, argument), false));
        } else {
          reply := Run(shared, inner, tool, argument);
        }
    }
  }

  method SelfHeal(shared: Shared, inner: Executor, maxRepairs: nat, tool: string, input: string)
    returns (outcome: Result<RepairOutcome>)
    modifies shared
    ensures (shared.Now(), outcome) == Heal(shared.env, inner, maxRepairs, old(shared.Now()), tool, input)
    decreases inner, 1
  {
    hide RunTool, Think, ParsePatch, RepairPrompt, ExhaustedError;
    ghost var goal := Heal(shared.env, inner, maxRepairs, shared.Now(), tool, input);
    var first := Run(shared, inner, tool, input);
    match first {
      case Ok(obs) =>
        return Ok(RepairOutcome(obs, 0, false));
      case Err(firstError) =>
        var attempts, current, lastError := 0, input, firstError;
        while attempts < maxRepairs
          invariant attempts <= maxRepairs
          invariant RepairLoop(shared.env, inner, maxRepairs, attempts, shared.Now(), tool, current, lastError) == goal
        {
          var answer := shared.AskLlm(Repair, RepairPrompt(tool, current, lastError));
          match answer {
            case Err(e) =>
              return Err(e);
            case Ok(text) =>
              current := ParsePatch(text);
              attempts := attempts + 1;
              var reply := Run(shared, inner, tool, current);
              match reply {
                case Ok(obs) => return Ok(RepairOutcome(obs, attempts, true));
                case Err(e) => lastError := e;
              }
          }
        }
        outcome := Err(ExhaustedError(attempts, tool, lastError));
    }
  }
}
