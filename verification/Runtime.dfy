/** What one agent run can observe and change: the outside world as arbitrary oracles, and the shared state
    (audit sink, counters, pending approvals) every component writes to. */
module Runtime {
  import opened Text
  import opened Permissions
  import opened Principals

  datatype ActionPlan = ActionPlan(tool: string, argument: string)

  datatype Observation = Observation(tool: string, output: string, terminal: bool)

  datatype Verdict = Continue | Done | BudgetExhausted

  /** One row of the audit log; the JSON payload is reduced to the tool it names. */
  datatype AuditEntry = AuditEntry(tenantId: string, userId: string, action: AuditAction, granted: bool, tool: string)

  datatype PendingApproval = PendingApproval(id: string, tool: string, argument: string, subtaskId: string)

  /** Who asks the LLM: the planner loop, the self-healing executor or the goal decomposer. */
  datatype Purpose = Planning | Repair | Decomposition

  /** Everything that happens at the boundary of the core, in order. */
  datatype Event =
    | Thought(purpose: Purpose, prompt: string, answer: Result<string>)
    | Planned(thought: string, plan: Result<ActionPlan>)
    | Audited(entry: AuditEntry, stored: bool)
    | Dispatched(tool: string, argument: string)
    | Called(tool: string, argument: string, reply: Result<Observation>)
    | Held(approval: PendingApproval)
    | Edited(text: string)

  /** The collaborators the core is given. Each may answer anything, and may take everything that has
      happened so far into account. */
  datatype Env = Env(
    think: (seq<Event>, string) -> Result<string>,
    plan: (seq<Event>, string) -> Result<ActionPlan>,
    exec: (seq<Event>, string, string) -> Result<Observation>,
    stores: (seq<Event>, AuditEntry) -> bool,
    validate: (seq<Event>, Observation, nat) -> Verdict)

  datatype Counters = Counters(toolCalls: nat, llmCalls: nat, denials: nat, auditEvents: nat) {
    function Plus(other: Counters): Counters {
      Counters(toolCalls + other.toolCalls, llmCalls + other.llmCalls, denials + other.denials,
          auditEvents + other.auditEvents)
    }

    predicate Idle() { toolCalls == 0 && llmCalls == 0 && denials == 0 && auditEvents == 0 }
  }

  /** What a run leaves behind: counters, the rows in the audit sink, the approvals held back. */
  datatype Ledger = Ledger(metrics: Counters, audit: seq<AuditEntry>, pending: seq<PendingApproval>) {
    function Plus(other: Ledger): Ledger {
      Ledger(metrics.Plus(other.metrics), audit + other.audit, pending + other.pending)
    }
  }

  function Nothing(): Ledger { Ledger(Counters(0, 0, 0, 0), [], []) }

  datatype World = World(log: seq<Event>, ledger: Ledger, nextId: nat) {
    function Metered(m: Counters): World { this.(ledger := ledger.(metrics := ledger.metrics.Plus(m))) }

    function Logged(e: Event): World { this.(log := log + [e]) }
  }

  // ---------------------------------------------------------------- one boundary crossing each

  /** Only the planner loop meters its thoughts. */
  function Think(env: Env, w: World, purpose: Purpose, prompt: string): (World, Result<string>) {
    var answer := env.think(w.log, prompt);
    var w' := w.Logged(Thought(purpose, prompt, answer));
    (if purpose == Planning then w'.Metered(Counters(0, 1, 0, 0)) else w', answer)
  }

  function PlanAction(env: Env, w: World, thought: string): (World, Result<ActionPlan>) {
    var plan := env.plan(w.log, thought);
    (w.Logged(Planned(thought, plan)), plan)
  }

  function CallBase(env: Env, w: World, tool: string, argument: string): (World, Result<Observation>) {
    var reply := env.exec(w.log, tool, argument);
    (w.Logged(Called(tool, argument, reply)), reply)
  }

  /** A sink failure is only logged: the counter still grows and the run goes on. */
  function RecordAudit(env: Env, w: World, entry: AuditEntry): World {
    var stored := env.stores(w.log, entry);
    var w' := w.Logged(Audited(entry, stored)).Metered(Counters(0, 0, 0, 1));
    if stored then w'.(ledger := w'.ledger.(audit := w'.ledger.audit + [entry])) else w'
  }

  function EntryFor(principal: Principal, right: Permission, granted: bool, tool: string): AuditEntry {
    AuditEntry(principal.tenantId, principal.userId, AuditAction(right), granted, tool)
  }

  /** The right is checked, and the decision audited, before anything runs. */
  function Authorize(env: Env, principal: Principal, w: World, tool: string): (World, bool) {
    match ActionPermission(tool)
    case None => (w, true)
    case Some(required) =>
      if CheckPermission(principal, required).Granted? then
        (RecordAudit(env, w, EntryFor(principal, required, true, tool)), true)
      else
        (RecordAudit(env, w.Metered(Counters(0, 0, 1, 0)), EntryFor(principal, required, false, tool)), false)
  }

  function Dispatch(w: World, tool: string, argument: string): World {
    w.Logged(Dispatched(tool, argument)).Metered(Counters(1, 0, 0, 0))
  }

  function Hold(w: World, tool: string, argument: string, subtaskId: string): World {
    var approval := PendingApproval(Decimal(w.nextId), tool, argument, subtaskId);
    World(w.log + [Held(approval)], w.ledger.(pending := w.ledger.pending + [approval]), w.nextId + 1)
  }

  function Edit(w: World, text: string): World {
    w.Logged(Edited(text))
  }

  // ---------------------------------------------------------------- what an event log says

  function EffectOf(e: Event): Ledger {
    match e
    case Thought(purpose, _, _) => if purpose == Planning then Nothing().(metrics := Counters(0, 1, 0, 0))
        else Nothing()
    case Audited(entry, stored) =>
      Ledger(Counters(0, 0, if entry.granted then 0 else 1, 1), if stored then [entry] else [], [])
    case Dispatched(_, _) => Nothing().(metrics := Counters(1, 0, 0, 0))
    case Held(approval) => Nothing().(pending := [approval])
    case _ => Nothing()
  }

  /** The ledger an event log accounts for. */
  function Effect(events: seq<Event>): Ledger {
    if events == [] then Nothing() else EffectOf(events[0]).Plus(Effect(events[1..]))
  }

  /** Number of calls that reached the base executor. */
  function Calls(events: seq<Event>): nat {
    if events == [] then 0 else (if events[0].Called? then 1 else 0) + Calls(events[1..])
  }

  lemma PlusLaws(a: Ledger, b: Ledger, c: Ledger)
    ensures a.Plus(b).Plus(c) == a.Plus(b.Plus(c))
    ensures a.Plus(Nothing()) == a && Nothing().Plus(a) == a
  {
  }

  lemma {:induction false} EffectConcat(a: seq<Event>, b: seq<Event>)
    ensures Effect(a + b) == Effect(a).Plus(Effect(b))
  {
    hide EffectOf, Ledger.Plus, Nothing;
    PlusLaws(Effect(b), Nothing(), Nothing());
    if a == [] {
      assert a + b == b;
    } else {
      assert (a + b)[1..] == a[1..] + b;
      EffectConcat(a[1..], b);
      PlusLaws(EffectOf(a[0]), Effect(a[1..]), Effect(b));
    }
  }

  lemma {:induction false} CallsConcat(a: seq<Event>, b: seq<Event>)
    ensures Calls(a + b) == Calls(a) + Calls(b)
  {
    if a == [] {
      assert a + b == b;
    } else {
      assert (a + b)[1..] == a[1..] + b;
      CallsConcat(a[1..], b);
    }
  }

  /** The events that turned `w` into `w'`. */
  function New(w: World, w': World): seq<Event> {
    if w.log <= w'.log then w'.log[|w.log|..] else []
  }

  /** What the permission model allows an event to be. With the gate closed, no Execute- or
      Commit-classified tool may reach the base executor. */
  predicate Permitted(principal: Principal, gateClosed: bool, e: Event) {
    match e
    case Called(tool, _, _) => MayUse(principal, tool) && (gateClosed ==> !Risky(tool))
    case Dispatched(tool, _) => MayUse(principal, tool)
    case Held(approval) => MayUse(principal, approval.tool) && Risky(approval.tool)
    case Edited(_) => principal.perms.Has(Modify)
    case Audited(entry, _) => IsDecisionOf(principal, entry)
    case _ => true
  }

  predicate IsDecisionOf(principal: Principal, entry: AuditEntry) {
    && ActionPermission(entry.tool) == Some(entry.action.right)
    && entry == EntryFor(principal, entry.action.right, principal.perms.Has(entry.action.right), entry.tool)
  }

  predicate AllPermitted(principal: Principal, gateClosed: bool, events: seq<Event>) {
    forall i :: 0 <= i < |events| ==> Permitted(principal, gateClosed, events[i])
  }

  /** From `w` to `w'` the log only grew, every new event is permitted, and counters, audit sink and pending
      list grew by exactly what the new events say. */
  ghost predicate Accounted(principal: Principal, gateClosed: bool, w: World, w': World) {
    && w.log <= w'.log
    && AllPermitted(principal, gateClosed, New(w, w'))
    && w'.ledger == w.ledger.Plus(Effect(New(w, w')))
    && w'.nextId == w.nextId + |Effect(New(w, w')).pending|
  }

  lemma NewChain(a: World, b: World, c: World)
    requires a.log <= b.log && b.log <= c.log
    ensures a.log <= c.log && New(a, c) == New(a, b) + New(b, c)
    ensures Calls(New(a, c)) == Calls(New(a, b)) + Calls(New(b, c))
    ensures Effect(New(a, c)) == Effect(New(a, b)).Plus(Effect(New(b, c)))
  {
    hide Calls, Effect;
    assert c.log[|a.log|..] == b.log[|a.log|..] + c.log[|b.log|..];
    CallsConcat(New(a, b), New(b, c));
    EffectConcat(New(a, b), New(b, c));
  }

  lemma Chain(principal: Principal, gateClosed: bool, a: World, b: World, c: World)
    requires Accounted(principal, gateClosed, a, b) && Accounted(principal, gateClosed, b, c)
    ensures Accounted(principal, gateClosed, a, c)
    ensures New(a, c) == New(a, b) + New(b, c)
    ensures Calls(New(a, c)) == Calls(New(a, b)) + Calls(New(b, c))
    ensures Effect(New(a, c)) == Effect(New(a, b)).Plus(Effect(New(b, c)))
  {
    hide Permitted, Effect, Calls;
    NewChain(a, b, c);
    PlusLaws(a.ledger, Effect(New(a, b)), Effect(New(b, c)));
    PermittedConcat(principal, gateClosed, New(a, b), New(b, c));
  }

  lemma PermittedConcat(principal: Principal, gateClosed: bool, a: seq<Event>, b: seq<Event>)
    requires AllPermitted(principal, gateClosed, a) && AllPermitted(principal, gateClosed, b)
    ensures AllPermitted(principal, gateClosed, a + b)
  {
    hide Permitted;
    forall i | 0 <= i < |a + b| ensures Permitted(principal, gateClosed, (a + b)[i]) {
      if i < |a| { assert (a + b)[i] == a[i]; } else { assert (a + b)[i] == b[i - |a|]; }
    }
  }

  lemma PermittedOne(principal: Principal, gateClosed: bool, e: Event, one: seq<Event>)
    requires Permitted(principal, gateClosed, e) && |one| == 1 && one[0] == e
    ensures AllPermitted(principal, gateClosed, one)
  {
    hide Permitted;
  }

  lemma Still(principal: Principal, gateClosed: bool, w: World)
    ensures Accounted(principal, gateClosed, w, w)
    ensures New(w, w) == []
  {
  }

  lemma EffectOfOne(e: Event, one: seq<Event>)
    requires |one| == 1 && one[0] == e
    ensures Effect(one) == EffectOf(e)
  {
    assert Effect(one[1..]) == Nothing();
    PlusLaws(EffectOf(e), Nothing(), Nothing());
  }

  lemma CallsOfOne(e: Event, one: seq<Event>)
    requires |one| == 1 && one[0] == e
    ensures Calls(one) == if e.Called? then 1 else 0
  {
    assert Calls(one[1..]) == 0;
  }

  /** One boundary crossing that appends `e` and enters its effect. */
  lemma OneEvent(principal: Principal, gateClosed: bool, w: World, w': World, e: Event, effect: Ledger)
    requires w'.log == w.log + [e] && Permitted(principal, gateClosed, e) && effect == EffectOf(e)
    requires w'.ledger == w.ledger.Plus(effect) && w'.nextId == w.nextId + |effect.pending|
    ensures Accounted(principal, gateClosed, w, w')
    ensures New(w, w') == [e] && Effect(New(w, w')) == effect && Calls(New(w, w')) == if e.Called? then 1 else 0
  {
    hide Permitted, EffectOf;
    assert New(w, w') == [e];
    PermittedOne(principal, gateClosed, e, New(w, w'));
    EffectOfOne(e, New(w, w'));
    CallsOfOne(e, New(w, w'));
  }

  lemma ThinkAccounted(env: Env, principal: Principal, gateClosed: bool, w: World, purpose: Purpose, prompt: string)
    ensures var (w', answer) := Think(env, w, purpose, prompt);
            var e := Thought(purpose, prompt, answer);
            && Accounted(principal, gateClosed, w, w')
            && New(w, w') == [e] && Effect(New(w, w')) == EffectOf(e) && Calls(New(w, w')) == 0
  {
    hide MayUse, Risky;
    var (w', answer) := Think(env, w, purpose, prompt);
    OneEvent(principal, gateClosed, w, w', Thought(purpose, prompt, answer),
        EffectOf(Thought(purpose, prompt, answer)));
  }

  lemma PlanAccounted(env: Env, principal: Principal, gateClosed: bool, w: World, thought: string)
    ensures var (w', plan) := PlanAction(env, w, thought);
            && Accounted(principal, gateClosed, w, w')
            && New(w, w') == [Planned(thought, plan)] && Effect(New(w, w')) == Nothing() && Calls(New(w, w')) == 0
  {
    var (w', plan) := PlanAction(env, w, thought);
    OneEvent(principal, gateClosed, w, w', Planned(thought, plan), EffectOf(Planned(thought, plan)));
  }

  lemma CallAccounted(env: Env, principal: Principal, gateClosed: bool, w: World, tool: string, argument: string)
    requires MayUse(principal, tool) && (gateClosed ==> !Risky(tool))
    ensures var (w', reply) := CallBase(env, w, tool, argument);
            && Accounted(principal, gateClosed, w, w')
            && New(w, w') == [Called(tool, argument, reply)] && Effect(New(w, w')) == Nothing()
            && Calls(New(w, w')) == 1
  {
    var (w', reply) := CallBase(env, w, tool, argument);
    OneEvent(principal, gateClosed, w, w', Called(tool, argument, reply), EffectOf(Called(tool, argument, reply)));
  }

  lemma HoldAccounted(principal: Principal, gateClosed: bool, w: World, tool: string, argument: string,
                      subtaskId: string)
    requires MayUse(principal, tool) && Risky(tool)
    ensures var w' := Hold(w, tool, argument, subtaskId);
            var e := Held(PendingApproval(Decimal(w.nextId), tool, argument, subtaskId));
            && Accounted(principal, gateClosed, w, w')
            && New(w, w') == [e] && Effect(New(w, w')) == EffectOf(e) && Calls(New(w, w')) == 0
  {
    var e := Held(PendingApproval(Decimal(w.nextId), tool, argument, subtaskId));
    OneEvent(principal, gateClosed, w, Hold(w, tool, argument, subtaskId), e, EffectOf(e));
  }

  lemma DispatchAccounted(principal: Principal, gateClosed: bool, w: World, tool: string, argument: string)
    requires MayUse(principal, tool)
    ensures var w' := Dispatch(w, tool, argument);
            var e := Dispatched(tool, argument);
            && Accounted(principal, gateClosed, w, w')
            && New(w, w') == [e] && Effect(New(w, w')) == EffectOf(e) && Calls(New(w, w')) == 0
  {
    OneEvent(principal, gateClosed, w, Dispatch(w, tool, argument), Dispatched(tool, argument),
        EffectOf(Dispatched(tool, argument)));
  }

  lemma EditAccounted(principal: Principal, gateClosed: bool, w: World, text: string)
    requires principal.perms.Has(Modify)
    ensures var w' := Edit(w, text);
            && Accounted(principal, gateClosed, w, w')
            && New(w, w') == [Edited(text)] && Effect(New(w, w')) == Nothing() && Calls(New(w, w')) == 0
  {
    OneEvent(principal, gateClosed, w, Edit(w, text), Edited(text), EffectOf(Edited(text)));
  }

  /** The permission check grants exactly what the mask grants; a privileged decision leaves exactly one audit
      event, a denial is also counted, and an unprivileged tool leaves no trace. */
  lemma AuthorizeAccounted(env: Env, principal: Principal, gateClosed: bool, w: World, tool: string)
    ensures var (w', granted) := Authorize(env, principal, w, tool);
            && Accounted(principal, gateClosed, w, w')
            && (granted <==> MayUse(principal, tool)) && (granted || ActionPermission(tool).Some?)
            && |New(w, w')| == (if ActionPermission(tool).Some? then 1 else 0)
            && (forall i :: 0 <= i < |New(w, w')| ==> New(w, w')[i].Audited?)
            && Calls(New(w, w')) == 0 && Effect(New(w, w')).pending == []
            && Effect(New(w, w')).metrics ==
               Counters(0, 0, if granted then 0 else 1, if ActionPermission(tool).Some? then 1 else 0)
  {
    hide ActionPermission, PermissionSet.Has, RecordAudit, Permitted, Effect;
    match ActionPermission(tool) {
      case None => Still(principal, gateClosed, w);
      case Some(required) => DecisionAccounted(env, principal, gateClosed, w, tool, required);
    }
  }

  lemma DecisionAccounted(env: Env, principal: Principal, gateClosed: bool, w: World, tool: string,
                          required: Permission)
    requires ActionPermission(tool) == Some(required)
    ensures var (w', granted) := Authorize(env, principal, w, tool);
            && Accounted(principal, gateClosed, w, w')
            && (granted <==> principal.perms.Has(required))
            && |New(w, w')| == 1 && New(w, w')[0].Audited?
            && Calls(New(w, w')) == 0 && Effect(New(w, w')).pending == []
            && Effect(New(w, w')).metrics == Counters(0, 0, if granted then 0 else 1, 1)
  {
    hide ActionPermission, PermissionSet.Has, RecordAudit, Accounted, New, Effect;
    var granted := principal.perms.Has(required);
    var counted := if granted then w else w.Metered(Counters(0, 0, 1, 0));
    var entry := EntryFor(principal, required, granted, tool);
    var stored := env.stores(w.log, entry);
    var effect := Ledger(Counters(0, 0, if granted then 0 else 1, 1), if stored then [entry] else [], []);
    assert Authorize(env, principal, w, tool) == (RecordAudit(env, counted, entry), granted);
    RecordLedger(env, counted, entry);
    assert EffectOf(Audited(entry, stored)) == effect;
    OneEvent(principal, gateClosed, w, RecordAudit(env, counted, entry), Audited(entry, stored), effect);
  }

  lemma RecordLedger(env: Env, w: World, entry: AuditEntry)
    ensures var w' := RecordAudit(env, w, entry);
            var stored := env.stores(w.log, entry);
            && w'.log == w.log + [Audited(entry, stored)] && w'.nextId == w.nextId
            && w'.ledger == w.ledger.Plus(Ledger(Counters(0, 0, 0, 1), if stored then [entry] else [], []))
  {
  }

  // ---------------------------------------------------------------- rows against counters

  /** The sink took every row it was given. */
  predicate AllStored(events: seq<Event>) {
    forall i :: 0 <= i < |events| && events[i].Audited? ==> events[i].stored
  }

  /** Number of rows that were not granted. */
  function Refused(rows: seq<AuditEntry>): nat {
    if rows == [] then 0 else (if rows[0].granted then 0 else 1) + Refused(rows[1..])
  }

  lemma AllStoredFront(events: seq<Event>)
    requires events != []
    ensures AllStored(events) <==> AllStored(events[1..]) && (events[0].Audited? ==> events[0].stored)
  {
    assert events == [events[0]] + events[1..];
    assert forall i :: 1 <= i < |events| ==> events[i] == events[1..][i - 1];
  }

  /** What one event adds to rows and counters. */
  lemma RowsOfOne(e: Event, rest: Ledger)
    ensures var all, row := EffectOf(e).Plus(rest), e.Audited? && e.stored;
            && |all.audit| == (if row then 1 else 0) + |rest.audit|
            && Refused(all.audit) == (if row && !e.entry.granted then 1 else 0) + Refused(rest.audit)
            && all.metrics.auditEvents == (if e.Audited? then 1 else 0) + rest.metrics.auditEvents
            && all.metrics.denials == (if e.Audited? && !e.entry.granted then 1 else 0) + rest.metrics.denials
  {
    var all := EffectOf(e).Plus(rest);
    if e.Audited? && e.stored {
      assert all.audit == [e.entry] + rest.audit && all.audit[1..] == rest.audit;
    } else {
      assert all.audit == [] + rest.audit == rest.audit;
    }
  }

  lemma {:induction false} RowsOfEvents(events: seq<Event>)
    ensures var effect := Effect(events);
            && |effect.audit| <= effect.metrics.auditEvents && Refused(effect.audit) <= effect.metrics.denials
            && (|effect.audit| == effect.metrics.auditEvents <==> AllStored(events))
            && (AllStored(events) ==> Refused(effect.audit) == effect.metrics.denials)
  {
    hide AllStored, EffectOf, Ledger.Plus, Refused;
    if events == [] {
      NoRows();
    } else {
      RowsOfEvents(events[1..]);
      AllStoredFront(events);
      RowsOfOne(events[0], Effect(events[1..]));
    }
  }

  lemma NoRows()
    ensures AllStored([]) && Refused([]) == 0
  {
  }

  /** The sink grows by at most one row for each audit event counted, by exactly one exactly when it took every row;
      and then the denials counted are its rows that were not granted. */
  lemma RowsMatchCounters(principal: Principal, gateClosed: bool, w: World, w': World)
    requires Accounted(principal, gateClosed, w, w')
    ensures w.ledger.audit <= w'.ledger.audit
    ensures var rows := w'.ledger.audit[|w.ledger.audit|..];
            var counted := w'.ledger.metrics.auditEvents - w.ledger.metrics.auditEvents;
            var denied := w'.ledger.metrics.denials - w.ledger.metrics.denials;
            && |rows| <= counted && Refused(rows) <= denied
            && (|rows| == counted <==> AllStored(New(w, w')))
            && (AllStored(New(w, w')) ==> Refused(rows) == denied)
  {
    hide AllPermitted, AllStored, Effect;
    RowsOfEvents(New(w, w'));
    assert w'.ledger.audit[|w.ledger.audit|..] == Effect(New(w, w')).audit;
  }

  // ---------------------------------------------------------------- the shared mutable state

  /** The state behind the shared handles: `Arc<dyn AuditSink>`, `Arc<Metrics>`, `Arc<Mutex<Vec<..>>>`. */
  class Shared {
    const env: Env
    var log: seq<Event>
    var audit: seq<AuditEntry>
    var pending: seq<PendingApproval>
    var metrics: Counters
    var nextId: nat

    function Now(): World
      reads this
    {
      World(log, Ledger(metrics, audit, pending), nextId)
    }

    constructor (env: Env)
      ensures this.env == env && Now() == World([], Nothing(), 0)
    {
      this.env := env;
      log, audit, pending, metrics, nextId := [], [], [], Counters(0, 0, 0, 0), 0;
    }

    method AskLlm(purpose: Purpose, prompt: string) returns (answer: Result<string>)
      modifies this
      ensures (Now(), answer) == Think(env, old(Now()), purpose, prompt)
    {
      answer := env.think(log, prompt);
      if purpose == Planning {
        metrics := metrics.(llmCalls := metrics.llmCalls + 1);
      }
      log := log + [Thought(purpose, prompt, answer)];
    }

    method AskPlan(thought: string) returns (plan: Result<ActionPlan>)
      modifies this
      ensures (Now(), plan) == PlanAction(env, old(Now()), thought)
    {
      plan := env.plan(log, thought);
      log := log + [Planned(thought, plan)];
    }

    method CallTool(tool: string, argument: string) returns (reply: Result<Observation>)
      modifies this
      ensures (Now(), reply) == CallBase(env, old(Now()), tool, argument)
    {
      reply := env.exec(log, tool, argument);
      log := log + [Called(tool, argument, reply)];
    }

    method Record(entry: AuditEntry)
      modifies this
      ensures Now() == RecordAudit(env, old(Now()), entry)
    {
      metrics := metrics.(auditEvents := metrics.auditEvents + 1);
      var stored := env.stores(log, entry);
      if stored {
        audit := audit + [entry];
      }
      log := log + [Audited(entry, stored)];
    }

    method AuthorizeAndRecord(principal: Principal, tool: string) returns (granted: bool)
      modifies this
      ensures (Now(), granted) == Authorize(env, principal, old(Now()), tool)
    {
      match ActionPermission(tool) {
        case None => granted := true;
        case Some(required) =>
          granted := CheckPermission(principal, required).Granted?;
          if !granted {
            metrics := metrics.(denials := metrics.denials + 1);
          }
          Record(AuditEntry(principal.tenantId, principal.userId, AuditAction(required), granted, tool));
      }
    }

    method NoteDispatch(tool: string, argument: string)
      modifies this
      ensures Now() == Dispatch(old(Now()), tool, argument)
    {
      metrics := metrics.(toolCalls := metrics.toolCalls + 1);
      log := log + [Dispatched(tool, argument)];
    }

    method HoldForApproval(tool: string, argument: string, subtaskId: string)
      modifies this
      ensures Now() == Hold(old(Now()), tool, argument, subtaskId)
    {
      var approval := PendingApproval(Decimal(nextId), tool, argument, subtaskId);
      nextId := nextId + 1;
      pending := pending + [approval];
      log := log + [Held(approval)];
    }

    method ApplyEdit(text: string)
      modifies this
      ensures Now() == Edit(old(Now()), text)
    {
      log := log + [Edited(text)];
    }
  }
}
