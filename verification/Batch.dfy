/** Bounded-concurrency batches (`crates/probe/src/ollama.rs`, `run_batch`) as a step system: the caller takes a
    permit, spawns a task that owns it, and at the end joins the tasks in order; a task gives its permit back when
    it finishes. */
module Batch {
  import opened Text
  import opened Nes

  datatype Task = Running | Finished(reply: Reply)

  /** `holding`: the caller has taken a permit it has not handed to a task yet. */
  datatype Scheduler = Scheduler(permits: nat, holding: bool, tasks: seq<Task>, out: seq<Reply>)

  datatype Turn = Acquire | Spawn | Finish(i: nat, reply: Reply) | Join

  function Concurrency(requested: nat): nat { if requested == 0 then 1 else requested }

  function Begin(requested: nat): Scheduler { Scheduler(Concurrency(requested), false, [], []) }

  /** One step of a batch of `n` items; `None` when it is not possible now. */
  function Take(n: nat, s: Scheduler, turn: Turn): Option<Scheduler> {
    match turn
    case Acquire =>
      if !s.holding && |s.tasks| < n && s.permits > 0 then Some(s.(holding := true, permits := s.permits - 1)) else None
    case Spawn =>
      if s.holding then Some(s.(holding := false, tasks := s.tasks + [Running])) else None
    case Finish(i, reply) =>
      if i < |s.tasks| && s.tasks[i].Running? then
        Some(s.(tasks := s.tasks[i := Finished(reply)], permits := s.permits + 1))
      else None
    case Join =>
      var k := |s.out|;
      if |s.tasks| == n && k < n && s.tasks[k].Finished? then Some(s.(out := s.out + [s.tasks[k].reply])) else None
  }

  function Play(n: nat, requested: nat, turns: seq<Turn>): Option<Scheduler> {
    var k := |turns|;
    if k == 0 then Some(Begin(requested))
    else match Play(n, requested, turns[..k - 1])
      case None => None
      case Some(s) => Take(n, s, turns[k - 1])
  }

  function CountRunning(tasks: seq<Task>): nat {
    var k := |tasks|;
    if k == 0 then 0 else CountRunning(tasks[..k - 1]) + if tasks[k - 1].Running? then 1 else 0
  }

  /** Who has a permit: the running tasks and, between acquiring and spawning, the caller. */
  function Holders(s: Scheduler): nat {
    CountRunning(s.tasks) + if s.holding then 1 else 0
  }

  lemma {:induction false} FinishOne(tasks: seq<Task>, i: nat, reply: Reply)
    requires i < |tasks| && tasks[i].Running?
    ensures CountRunning(tasks[i := Finished(reply)]) == CountRunning(tasks) - 1
    decreases |tasks|
  {
    var k := |tasks|;
    var updated := tasks[i := Finished(reply)];
    if i == k - 1 {
      assert updated[..k - 1] == tasks[..k - 1];
    } else {
      assert updated[..k - 1] == tasks[..k - 1][i := Finished(reply)];
      FinishOne(tasks[..k - 1], i, reply);
    }
  }

  lemma SpawnOne(tasks: seq<Task>)
    ensures CountRunning(tasks + [Running]) == CountRunning(tasks) + 1
  {
    assert (tasks + [Running])[..|tasks|] == tasks;
  }

  /** What every step keeps: the permits, how far each item is, and what was recorded for it. */
  ghost predicate Balanced(n: nat, requested: nat, turns: seq<Turn>, s: Scheduler) {
    && s.permits + Holders(s) == Concurrency(requested)
    && |s.tasks| + (if s.holding then 1 else 0) <= n
    && |s.out| <= |s.tasks| && (s.out != [] ==> |s.tasks| == n)
    && |turns| == 2 * |s.tasks| + (if s.holding then 1 else 0) + (|s.tasks| - CountRunning(s.tasks)) + |s.out|
    && Recorded(turns, s)
  }

  ghost predicate Recorded(turns: seq<Turn>, s: Scheduler) {
    && |s.out| <= |s.tasks|
    && (forall k :: 0 <= k < |s.out| ==> s.tasks[k] == Finished(s.out[k]))
    && (forall k: nat, r :: Finish(k, r) in turns <==> k < |s.tasks| && s.tasks[k] == Finished(r))
  }

  lemma TakeRecorded(n: nat, turns: seq<Turn>, s: Scheduler, turn: Turn)
    requires Recorded(turns, s) && Take(n, s, turn).Some? && (s.out != [] ==> |s.tasks| == n)
    requires turn.Join? ==> |s.out| < |s.tasks|
    ensures Recorded(turns + [turn], Take(n, s, turn).value)
  {
    var more, s' := turns + [turn], Take(n, s, turn).value;
    forall k: nat, r ensures Finish(k, r) in more <==> k < |s'.tasks| && s'.tasks[k] == Finished(r) {
      assert Finish(k, r) in more <==> Finish(k, r) in turns || Finish(k, r) == turn;
    }
  }

  lemma TakeBalanced(n: nat, requested: nat, turns: seq<Turn>, s: Scheduler, turn: Turn)
    requires Balanced(n, requested, turns, s) && Take(n, s, turn).Some?
    ensures Balanced(n, requested, turns + [turn], Take(n, s, turn).value)
  {
    hide Recorded, CountRunning;
    var s' := Take(n, s, turn).value;
    TakeRecorded(n, turns, s, turn);
    assert |turns + [turn]| == |turns| + 1;
    match turn
    case Acquire =>
    case Spawn => SpawnOne(s.tasks);
    case Finish(i, reply) => FinishOne(s.tasks, i, reply);
    case Join =>
  }

  lemma {:induction false} PlayBalanced(n: nat, requested: nat, turns: seq<Turn>)
    requires Play(n, requested, turns).Some?
    ensures Balanced(n, requested, turns, Play(n, requested, turns).value)
    decreases |turns|
  {
    hide Balanced, Take;
    var k := |turns|;
    if k == 0 {
      BeginBalanced(n, requested);
      assert turns == [];
    } else {
      PlayBalanced(n, requested, turns[..k - 1]);
      TakeBalanced(n, requested, turns[..k - 1], Play(n, requested, turns[..k - 1]).value, turns[k - 1]);
      assert turns == turns[..k - 1] + [turns[k - 1]];
    }
  }

  lemma BeginBalanced(n: nat, requested: nat)
    ensures Balanced(n, requested, [], Begin(requested))
  {
  }

  lemma RunningAtMost(tasks: seq<Task>)
    ensures CountRunning(tasks) <= |tasks|
    ensures CountRunning(tasks) == 0 <==> forall k :: 0 <= k < |tasks| ==> tasks[k].Finished?
  {
  }

  /** In every interleaving at most `max(1, concurrency)` hold a permit and no permit is lost. */
  lemma PermitsConserved(n: nat, requested: nat, turns: seq<Turn>)
    requires Play(n, requested, turns).Some?
    ensures var s := Play(n, requested, turns).value;
            s.permits + Holders(s) == Concurrency(requested) && CountRunning(s.tasks) <= Concurrency(requested)
  {
    PlayBalanced(n, requested, turns);
  }

  /** No interleaving is stuck before the end as long as running tasks can finish, none takes more than `4 * n` steps,
      and one has ended exactly when it took that many. */
  lemma EndsAfterFourStepsEach(n: nat, requested: nat, turns: seq<Turn>, reply: Reply) returns (turn: Turn)
    requires Play(n, requested, turns).Some?
    ensures |turns| <= 4 * n
    ensures |Play(n, requested, turns).value.out| == n <==> |turns| == 4 * n
    ensures |turns| < 4 * n ==> Play(n, requested, turns + [turn]).Some? && (turn.Finish? ==> turn.reply == reply)
  {
    var s := Play(n, requested, turns).value;
    PlayBalanced(n, requested, turns);
    RunningAtMost(s.tasks);
    if s.holding {
      turn := Spawn;
    } else if CountRunning(s.tasks) > 0 {
      var i :| 0 <= i < |s.tasks| && s.tasks[i].Running?;
      turn := Finish(i, reply);
    } else if |s.tasks| < n {
      turn := Acquire;
    } else {
      turn := Join;
    }
    assert (turns + [turn])[..|turns|] == turns;
  }

  /** The answers come in the order of the items: each is what that item's own task finished with, once. */
  lemma AnswersInOrder(n: nat, requested: nat, turns: seq<Turn>)
    requires Play(n, requested, turns).Some?
    ensures var out := Play(n, requested, turns).value.out;
            forall i: nat, r :: i < |out| ==> (Finish(i, r) in turns <==> r == out[i])
  {
    PlayBalanced(n, requested, turns);
  }

  /** With a backend that answers by the request alone, a finished batch is the plain map over the items. */
  lemma FinishedBatchIsMap(backend: Request -> Reply, items: seq<Request>, requested: nat, turns: seq<Turn>)
    requires Play(|items|, requested, turns).Some? && |turns| == 4 * |items|
    requires forall i: nat, r :: Finish(i, r) in turns && i < |items| ==> r == backend(items[i])
    ensures Play(|items|, requested, turns).value.out == seq(|items|, i requires 0 <= i < |items| => backend(items[i]))
  {
    var n := |items|;
    var out := Play(n, requested, turns).value.out;
    PlayBalanced(n, requested, turns);
    RunningAtMost(Play(n, requested, turns).value.tasks);
    AnswersInOrder(n, requested, turns);
    forall i | 0 <= i < |out| ensures out[i] == backend(items[i]) {
      assert Finish(i, out[i]) in turns;
    }
  }
}
