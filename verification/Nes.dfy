/** The completion client (`crates/probe/src/ollama.rs`, `NesClient::complete`): one call on its own, and many
    concurrent calls whose look-up, backend call and insertion are separate steps. */
module Nes {
  import opened Text
  import opened Cache

  datatype Request = Request(prefix: string, suffix: string, language: string) {
    function Key(): Cache.Key { (prefix, language) }
  }

  type Reply = Result<Value>

  class NesClient {
    const cache: CompletionCache
    /** The real backend, its own retries included. */
    const model: Request -> Reply
    const fallback: Request -> Reply

    constructor (capacity: nat, model: Request -> Reply, fallback: Request -> Reply)
      ensures cache.Valid() && cache.history == [] && fresh(cache)
      ensures this.model == model && this.fallback == fallback
    {
      cache := new CompletionCache(capacity);
      this.model, this.fallback := model, fallback;
    }

    /** A call that nothing interleaves with: a hit answers without the backend; a good answer is stored; a failure
        is answered by the fallback and stored nowhere. */
    method Complete(request: Request) returns (reply: Reply)
      requires cache.Valid()
      modifies cache
      ensures cache.Valid()
      ensures var present :=
                request.Key() in LastOf(Admitted(cache.capacity, old(cache.history)), Bound(cache.capacity));
              var stored := !present && model(request).Ok?;
              && cache.history
                 == old(cache.history) + (if stored then [Insertion(request.Key(), model(request).value)] else [])
              && reply == if present then Ok(Latest(old(cache.history), request.Key()).value)
                          else if stored then model(request) else fallback(request)
    {
      InWindowIff(Admitted(cache.capacity, cache.history), request.Key(), Bound(cache.capacity));
      var hit := cache.Get(request.prefix, request.language);
      if hit.Some? {
        return Ok(hit.value);
      }
      reply := model(request);
      if reply.Ok? {
        cache.Insert(request.prefix, request.language, reply.value);
      } else {
        reply := fallback(request);
      }
    }
  }

  // ---------------------------------------------------------------- concurrent calls

  /** Where one call stands. `Hit`, `Fresh` and `Degraded` have returned. */
  datatype Phase =
    | Waiting
    | Missed
    | Answered(value: Value)
    | Failed
    | Hit(value: Value)
    | Fresh(value: Value)
    | Degraded(reply: Reply)
  {
    function Returned(): Option<Reply> {
      match this
      case Hit(value) => Some(Ok(value))
      case Fresh(value) => Some(Ok(value))
      case Degraded(reply) => Some(reply)
      case _ => None
    }
  }

  /** What the real backend was asked and what it said. */
  datatype Answer = Answer(request: Request, reply: Reply)

  datatype State = State(store: Store, phases: seq<Phase>, inserted: seq<Insertion>, answers: seq<Answer>)

  /** One critical section or one return from a backend, of call `i`. */
  datatype Move = Lookup(i: nat) | RealReturns(i: nat, reply: Reply) | Insert(i: nat)
      | FallbackReturns(i: nat, reply: Reply)

  function Start(n: nat): State {
    State(Store([], map[]), seq(n, i => Waiting), [], [])
  }

  function Step(capacity: nat, requests: seq<Request>, s: State, move: Move): (r: Option<State>)
    requires |s.phases| == |requests|
    ensures r.Some? ==> |r.value.phases| == |requests|
  {
    if move.i >= |requests| then None
    else
      var i, key := move.i, requests[move.i].Key();
      match (move, s.phases[i])
      case (Lookup(_), Waiting) =>
        Some(s.(phases := s.phases[i := if key in s.store.entries then Hit(s.store.entries[key]) else Missed]))
      case (RealReturns(_, reply), Missed) =>
        Some(s.(phases := s.phases[i := if reply.Ok? then Answered(reply.value) else Failed],
                answers := s.answers + [Answer(requests[i], reply)]))
      case (Insert(_), Answered(value)) =>
        Some(s.(phases := s.phases[i := Fresh(value)],
                store := InsertInto(capacity, s.store, key, value),
                inserted := s.inserted + [Insertion(key, value)]))
      case (FallbackReturns(_, reply), Failed) =>
        Some(s.(phases := s.phases[i := Degraded(reply)]))
      case _ => None
  }

  /** The state after a sequence of steps, if each was possible. */
  function Run(capacity: nat, requests: seq<Request>, moves: seq<Move>): (r: Option<State>)
    ensures r.Some? ==> |r.value.phases| == |requests|
  {
    var n := |moves|;
    if n == 0 then Some(Start(|requests|))
    else match Run(capacity, requests, moves[..n - 1])
      case None => None
      case Some(s) => Step(capacity, requests, s, moves[n - 1])
  }

  /** The real backend gave this value for a request with this key. */
  ghost predicate Backed(answers: seq<Answer>, key: Cache.Key, value: Value) {
    exists a :: a in answers && a.request.Key() == key && a.reply == Ok(value)
  }

  ghost predicate PhaseSound(request: Request, answers: seq<Answer>, phase: Phase) {
    match phase
    case Answered(value) => Answer(request, Ok(value)) in answers
    case Fresh(value) => Answer(request, Ok(value)) in answers
    case Hit(value) => Backed(answers, request.Key(), value)
    case _ => true
  }

  ghost predicate Coherent(capacity: nat, requests: seq<Request>, s: State) {
    && |s.phases| == |requests|
    && s.store == After(capacity, s.inserted)
    && (forall ins <- s.inserted :: Backed(s.answers, ins.key, ins.value))
    && (forall i :: 0 <= i < |requests| ==> PhaseSound(requests[i], s.answers, s.phases[i]))
  }

  lemma {:induction false} LatestWasInserted(history: seq<Insertion>, key: Cache.Key)
    ensures Latest(history, key).Some? ==> Insertion(key, Latest(history, key).value) in history
    decreases |history|
  {
    var n := |history|;
    if n > 0 && history[n - 1].key != key {
      LatestWasInserted(history[..n - 1], key);
    }
  }

  lemma PresentIsBacked(capacity: nat, requests: seq<Request>, s: State, key: Cache.Key)
    requires Coherent(capacity, requests, s) && key in s.store.entries
    ensures Backed(s.answers, key, s.store.entries[key])
  {
    hide Backed, PhaseSound;
    CacheRefinesWindow(capacity, s.inserted);
    LatestWasInserted(s.inserted, key);
  }

  lemma BackedByMore(answers: seq<Answer>, more: Answer, key: Cache.Key, value: Value)
    requires Backed(answers, key, value)
    ensures Backed(answers + [more], key, value)
  {
    var a :| a in answers && a.request.Key() == key && a.reply == Ok(value);
    assert a in answers + [more];
  }

  lemma StepCoherent(capacity: nat, requests: seq<Request>, s: State, move: Move)
    requires Coherent(capacity, requests, s) && Step(capacity, requests, s, move).Some?
    ensures Coherent(capacity, requests, Step(capacity, requests, s, move).value)
  {
    var s' := Step(capacity, requests, s, move).value;
    var i, key := move.i, requests[move.i].Key();
    match move
    case Lookup(_) =>
      if key in s.store.entries { PresentIsBacked(capacity, requests, s, key); }
    case RealReturns(_, reply) =>
      forall k, v | Backed(s.answers, k, v) ensures Backed(s'.answers, k, v) {
        BackedByMore(s.answers, Answer(requests[i], reply), k, v);
      }
      assert s'.answers[|s.answers|] == Answer(requests[i], reply);
    case Insert(_) =>
      assert s'.inserted[..|s.inserted|] == s.inserted;
      assert Backed(s.answers, key, s.phases[i].value);
    case FallbackReturns(_, reply) =>
  }

  lemma {:induction false} RunCoherent(capacity: nat, requests: seq<Request>, moves: seq<Move>)
    requires Run(capacity, requests, moves).Some?
    ensures Coherent(capacity, requests, Run(capacity, requests, moves).value)
    decreases |moves|
  {
    hide Coherent, Step;
    var n := |moves|;
    if n > 0 {
      RunCoherent(capacity, requests, moves[..n - 1]);
      StepCoherent(capacity, requests, Run(capacity, requests, moves[..n - 1]).value, moves[n - 1]);
    } else {
      StartCoherent(capacity, requests);
    }
  }

  lemma StartCoherent(capacity: nat, requests: seq<Request>)
    ensures Coherent(capacity, requests, Start(|requests|))
  {
  }

  /** In every state of every interleaving the cache refines its window, everything in it is a good answer of the
      real backend for that key, and so is every hit: a fallback's answer is never stored. */
  lemma CacheCoherent(capacity: nat, requests: seq<Request>, moves: seq<Move>)
    requires Run(capacity, requests, moves).Some?
    ensures var s := Run(capacity, requests, moves).value;
            && Refines(capacity, s.inserted, s.store.order, s.store.entries) && |s.store.order| <= Bound(capacity)
            && (forall key :: key in s.store.entries ==> Backed(s.answers, key, s.store.entries[key]))
            && (forall i :: 0 <= i < |requests| && s.phases[i].Hit? ==>
                  Backed(s.answers, requests[i].Key(), s.phases[i].value))
            && (forall i :: 0 <= i < |requests| && s.phases[i].Fresh? ==>
                  Answer(requests[i], Ok(s.phases[i].value)) in s.answers)
  {
    hide Backed, Refines;
    var s := Run(capacity, requests, moves).value;
    RunCoherent(capacity, requests, moves);
    CacheRefinesWindow(capacity, s.inserted);
    forall key | key in s.store.entries ensures Backed(s.answers, key, s.store.entries[key]) {
      PresentIsBacked(capacity, requests, s, key);
    }
    forall i | 0 <= i < |requests| ensures PhaseSound(requests[i], s.answers, s.phases[i]) {
    }
  }

  /** With a fallback that always answers, no call returns an error, whatever the real backend does. */
  lemma {:induction false} TotalFallbackNoErrors(capacity: nat, requests: seq<Request>, moves: seq<Move>, i: nat)
    requires Run(capacity, requests, moves).Some? && i < |requests|
    requires forall move <- moves :: move.FallbackReturns? ==> move.reply.Ok?
    ensures var returned := Run(capacity, requests, moves).value.phases[i].Returned();
            returned.Some? ==> returned.value.Ok?
    decreases |moves|
  {
    var n := |moves|;
    if n > 0 {
      assert moves[n - 1] in moves;
      TotalFallbackNoErrors(capacity, requests, moves[..n - 1], i);
    }
  }

  // ---------------------------------------------------------------- hits against uncached answers

  /** The real backend always answers as `backend` does. */
  predicate AnswersAs(backend: Request -> Reply, requests: seq<Request>, moves: seq<Move>) {
    forall move <- moves :: move.RealReturns? && move.i < |requests| ==> move.reply == backend(requests[move.i])
  }

  /** Every hit of every run is what an uncached call would have answered. */
  ghost predicate HitsAgree(backend: Request -> Reply) {
    forall capacity: nat, requests: seq<Request>, moves: seq<Move>, i: nat ::
      Run(capacity, requests, moves).Some? && AnswersAs(backend, requests, moves) && i < |requests|
      && Run(capacity, requests, moves).value.phases[i].Hit?
      ==> backend(requests[i]) == Ok(Run(capacity, requests, moves).value.phases[i].value)
  }

  /** A request the backend answers is answered alike with any other suffix. */
  ghost predicate SuffixFree(backend: Request -> Reply) {
    forall r: Request, r': Request :: r.Key() == r'.Key() && backend(r).Ok? ==> backend(r') == backend(r)
  }

  lemma {:induction false} AnswersAreBackends(backend: Request -> Reply, capacity: nat, requests: seq<Request>,
                                              moves: seq<Move>)
    requires Run(capacity, requests, moves).Some? && AnswersAs(backend, requests, moves)
    ensures forall a <- Run(capacity, requests, moves).value.answers :: a.reply == backend(a.request)
    decreases |moves|
  {
    var n := |moves|;
    if n > 0 {
      assert moves[n - 1] in moves;
      AnswersAreBackends(backend, capacity, requests, moves[..n - 1]);
    }
  }

  /** One call stores its answer, a second one with the same key hits it. */
  lemma HitAfterFresh(r: Request, r': Request, value: Value)
    requires r.Key() == r'.Key()
    ensures var moves := [Lookup(0), RealReturns(0, Ok(value)), Insert(0), Lookup(1)];
            var s := Run(1, [r, r'], moves);
            s.Some? && s.value.phases[1] == Hit(value)
  {
    var requests := [r, r'];
    var l1, l2, l3 := [Lookup(0)], [Lookup(0), RealReturns(0, Ok(value))],
        [Lookup(0), RealReturns(0, Ok(value)), Insert(0)];
    assert l1[..0] == [] && l2[..1] == l1 && l3[..2] == l2 && (l3 + [Lookup(1)])[..3] == l3;
    assert l3 + [Lookup(1)] == [Lookup(0), RealReturns(0, Ok(value)), Insert(0), Lookup(1)];
    assert Run(1, requests, []) == Some(Start(2)) && Start(2).phases == [Waiting, Waiting];
    var s1 := Run(1, requests, l1);
    assert s1.Some? && s1.value.phases == [Missed, Waiting] && s1.value.store == Store([], map[]);
    var s2 := Run(1, requests, l2);
    assert s2.Some? && s2.value.phases == [Answered(value), Waiting] && s2.value.store == Store([], map[]);
    var s3 := Run(1, requests, l3);
    assert s3.Some? && s3.value.phases == [Fresh(value), Waiting] && s3.value.store.entries == map[r.Key() := value];
  }

  /** Since the key leaves the suffix out, hits agree with uncached answers exactly for backends that ignore it. */
  lemma HitsAgreeIffSuffixFree(backend: Request -> Reply)
    ensures HitsAgree(backend) <==> SuffixFree(backend)
  {
    hide Run;
    if HitsAgree(backend) {
      forall r: Request, r': Request | r.Key() == r'.Key() && backend(r).Ok? ensures backend(r') == backend(r) {
        HitAfterFresh(r, r', backend(r).value);
        var moves := [Lookup(0), RealReturns(0, Ok(backend(r).value)), Insert(0), Lookup(1)];
        assert AnswersAs(backend, [r, r'], moves);
        assert [r, r'][1] == r';
      }
    }
    if SuffixFree(backend) {
      forall capacity: nat, requests: seq<Request>, moves: seq<Move>, i: nat |
        Run(capacity, requests, moves).Some? && AnswersAs(backend, requests, moves) && i < |requests|
        && Run(capacity, requests, moves).value.phases[i].Hit?
        ensures backend(requests[i]) == Ok(Run(capacity, requests, moves).value.phases[i].value)
      {
        CacheCoherent(capacity, requests, moves);
        AnswersAreBackends(backend, capacity, requests, moves);
      }
    }
  }
}
