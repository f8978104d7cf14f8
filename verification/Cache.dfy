/** The completion cache (`crates/probe/src/ollama.rs`, `CompletionCache`): a queue and a map updated together,
    against a bounded first-in first-out window over the keys admitted so far. */
module Cache {
  import opened Text

  datatype Candidate = Candidate(text: string, confidence: real)

  type Value = seq<Candidate>

  /** The prompt and the language; the suffix is not part of it. */
  type Key = (string, string)

  datatype Insertion = Insertion(key: Key, value: Value)

  // ---------------------------------------------------------------- the reference

  /** Number of keys kept; a capacity of zero, which only `Default` leaves, keeps one too. */
  function Bound(capacity: nat): (n: nat)
    ensures n >= 1
  {
    if capacity == 0 then 1 else capacity
  }

  /** The keys admitted: those that were not among the last `Bound` admitted before them. */
  function Admitted(capacity: nat, history: seq<Insertion>): seq<Key> {
    var n := |history|;
    if n == 0 then []
    else
      var before, key := Admitted(capacity, history[..n - 1]), history[n - 1].key;
      if key in LastOf(before, Bound(capacity)) then before else before + [key]
  }

  /** The most recent value inserted under a key. */
  function Latest(history: seq<Insertion>, key: Key): Option<Value> {
    var n := |history|;
    if n == 0 then None
    else if history[n - 1].key == key then Some(history[n - 1].value)
    else Latest(history[..n - 1], key)
  }

  /** Queue and map are what the history of insertions says. */
  ghost predicate Refines(capacity: nat, history: seq<Insertion>, order: seq<Key>, entries: map<Key, Value>) {
    && order == LastOf(Admitted(capacity, history), Bound(capacity))
    && Distinct(order)
    && (forall key :: key in entries <==> key in order)
    && (forall key :: key in entries ==> Latest(history, key) == Some(entries[key]))
  }

  // ---------------------------------------------------------------- one insertion

  datatype Store = Store(order: seq<Key>, entries: map<Key, Value>)

  function InsertInto(capacity: nat, s: Store, key: Key, value: Value): Store {
    if key in s.entries then s.(entries := s.entries[key := value])
    else
      var evicted := if |s.order| >= capacity && s.order != [] then Some(s.order[0]) else None;
      var order := if evicted.Some? then s.order[1..] else s.order;
      var entries := if evicted.Some? then s.entries - {evicted.value} else s.entries;
      Store(order + [key], entries[key := value])
  }

  function After(capacity: nat, history: seq<Insertion>): Store {
    var n := |history|;
    if n == 0 then Store([], map[])
    else InsertInto(capacity, After(capacity, history[..n - 1]), history[n - 1].key, history[n - 1].value)
  }

  lemma DistinctShift(order: seq<Key>, key: Key)
    requires Distinct(order) && key !in order
    ensures Distinct(order + [key]) && (order != [] ==> order[0] !in order[1..] && Distinct(order[1..] + [key]))
  {
  }

  lemma HistoryStep(capacity: nat, history: seq<Insertion>, ins: Insertion)
    ensures var before := Admitted(capacity, history);
            Admitted(capacity, history + [ins])
            == if ins.key in LastOf(before, Bound(capacity)) then before else before + [ins.key]
    ensures forall key ::
              Latest(history + [ins], key) == if key == ins.key then Some(ins.value) else Latest(history, key)
  {
    assert (history + [ins])[..|history|] == history;
  }

  /** The queue after admitting a new key: the oldest one goes when the bound is reached. */
  lemma AdmitKeepsWindow(admitted: seq<Key>, key: Key, order: seq<Key>, n: nat)
    requires n >= 1 && order == LastOf(admitted, n) && Distinct(order) && key !in order
    ensures var kept := if |order| == n then order[1..] else order;
            && LastOf(admitted + [key], n) == kept + [key] && Distinct(kept + [key])
            && forall k :: k in kept + [key] <==> k == key || (k in order && (|order| == n ==> k != order[0]))
  {
    LastOfSnoc(admitted, key, n);
    DistinctShift(order, key);
    assert order != [] ==> order == [order[0]] + order[1..];
  }

  lemma InsertRefines(capacity: nat, history: seq<Insertion>, s: Store, ins: Insertion)
    requires Refines(capacity, history, s.order, s.entries)
    ensures var s' := InsertInto(capacity, s, ins.key, ins.value);
            Refines(capacity, history + [ins], s'.order, s'.entries)
  {
    hide Admitted, Latest, Distinct, LastOf;
    HistoryStep(capacity, history, ins);
    if ins.key !in s.entries {
      LastOfBound(Admitted(capacity, history), Bound(capacity));
      AdmitKeepsWindow(Admitted(capacity, history), ins.key, s.order, Bound(capacity));
      InsertShape(capacity, s, ins);
      var s' := InsertInto(capacity, s, ins.key, ins.value);
      forall key ensures key in s'.entries <==> key in s'.order {
        assert key in s.entries <==> key in s.order;
      }
    }
  }

  /** A new key pushes the oldest out exactly when the bound is reached. */
  lemma InsertShape(capacity: nat, s: Store, ins: Insertion)
    requires ins.key !in s.entries && |s.order| <= Bound(capacity)
    ensures var s' := InsertInto(capacity, s, ins.key, ins.value);
            var full := |s.order| == Bound(capacity);
            && s'.order == (if full then s.order[1..] else s.order) + [ins.key]
            && s'.entries == (if full then s.entries - {s.order[0]} else s.entries)[ins.key := ins.value]
  {
  }

  lemma LastOfBound<T>(xs: seq<T>, n: nat)
    ensures |LastOf(xs, n)| <= n
  {
  }

  /** For every sequence of insertions, queue and map refine the window: distinct keys, no more than the bound, each
      present key with the value inserted last under it. */
  lemma {:induction false} CacheRefinesWindow(capacity: nat, history: seq<Insertion>)
    ensures var s := After(capacity, history);
            Refines(capacity, history, s.order, s.entries) && |s.order| <= Bound(capacity)
    decreases |history|
  {
    hide Refines, InsertInto;
    var n := |history|;
    if n > 0 {
      CacheRefinesWindow(capacity, history[..n - 1]);
      assert history == history[..n - 1] + [history[n - 1]];
      InsertRefines(capacity, history[..n - 1], After(capacity, history[..n - 1]), history[n - 1]);
    } else {
      EmptyRefines(capacity);
      assert history == [];
    }
    RefinesBound(capacity, history, After(capacity, history));
  }

  lemma EmptyRefines(capacity: nat)
    ensures Refines(capacity, [], [], map[])
  {
  }

  lemma RefinesBound(capacity: nat, history: seq<Insertion>, s: Store)
    requires Refines(capacity, history, s.order, s.entries)
    ensures |s.order| <= Bound(capacity)
  {
    LastOfBound(Admitted(capacity, history), Bound(capacity));
  }

  /** How many keys were admitted after `key` was last; `None` if it never was. */
  function AdmittedSince(admitted: seq<Key>, key: Key): Option<nat> {
    var n := |admitted|;
    if n == 0 then None
    else if admitted[n - 1] == key then Some(0)
    else match AdmittedSince(admitted[..n - 1], key) case None => None case Some(k) => Some(k + 1)
  }

  lemma {:induction false} InWindowIff(admitted: seq<Key>, key: Key, n: nat)
    ensures key in LastOf(admitted, n) <==> AdmittedSince(admitted, key).Some? && AdmittedSince(admitted, key).value < n
    decreases |admitted|
  {
    hide LastOf;
    var k := |admitted|;
    if k > 0 && n > 0 {
      var before, last := admitted[..k - 1], admitted[k - 1];
      InWindowIff(before, key, n - 1);
      LastOfPop(admitted, n);
      assert key in LastOf(before, n - 1) + [last] <==> key in LastOf(before, n - 1) || key == last;
    } else {
      LastOfNothing(admitted, n);
    }
  }

  lemma LastOfPop<T>(xs: seq<T>, n: nat)
    requires xs != [] && n > 0
    ensures LastOf(xs, n) == LastOf(xs[..|xs| - 1], n - 1) + [xs[|xs| - 1]]
  {
  }

  lemma LastOfNothing<T>(xs: seq<T>, n: nat)
    requires xs == [] || n == 0
    ensures LastOf(xs, n) == []
  {
  }

  /** A key is present exactly when fewer keys than the bound were admitted since it was. */
  lemma PresentIffRecent(capacity: nat, history: seq<Insertion>, key: Key)
    ensures var since := AdmittedSince(Admitted(capacity, history), key);
            key in After(capacity, history).entries <==> since.Some? && since.value < Bound(capacity)
  {
    CacheRefinesWindow(capacity, history);
    InWindowIff(Admitted(capacity, history), key, Bound(capacity));
  }

  // ---------------------------------------------------------------- the cache

  class CompletionCache {
    const capacity: nat
    var order: seq<Key>
    var entries: map<Key, Value>
    ghost var history: seq<Insertion>

    ghost predicate Valid()
      reads this
    {
      Refines(capacity, history, order, entries)
    }

    /** `new`; at least one entry is kept. */
    constructor (capacity: nat)
      ensures Valid() && history == [] && this.capacity == Bound(capacity)
    {
      this.capacity := if capacity == 0 then 1 else capacity;
      order, entries, history := [], map[], [];
    }

    /** The cache of a derived `Default`, with capacity zero. */
    constructor Default()
      ensures Valid() && history == [] && this.capacity == 0
    {
      capacity := 0;
      order, entries, history := [], map[], [];
    }

    /** A hit is the value inserted last; a key misses when the bound was reached since it was admitted. */
    method Get(prompt: string, language: string) returns (hit: Option<Value>)
      requires Valid()
      ensures var since := AdmittedSince(Admitted(capacity, history), (prompt, language));
              hit == if since.Some? && since.value < Bound(capacity) then Latest(history, (prompt, language)) else None
    {
      var key := (prompt, language);
      InWindowIff(Admitted(capacity, history), key, Bound(capacity));
      hit := if key in entries then Some(entries[key]) else None;
    }

    method Insert(prompt: string, language: string, value: Value)
      requires Valid()
      modifies this
      ensures Valid() && history == old(history) + [Insertion((prompt, language), value)]
      ensures Store(order, entries) == InsertInto(capacity, Store(old(order), old(entries)), (prompt, language), value)
    {
      hide Admitted, Latest, Distinct, LastOf, Refines;
      var key := (prompt, language);
      InsertRefines(capacity, history, Store(order, entries), Insertion(key, value));
      history := history + [Insertion(key, value)];
      if key in entries {
        entries := entries[key := value];
        return;
      }
      if |order| >= capacity {
        if order != [] {
          var evicted := order[0];
          order, entries := order[1..], entries - {evicted};
        }
      }
      order, entries := order + [key], entries[key := value];
    }

    /** `len`. */
    method Len() returns (n: nat)
      requires Valid()
      ensures n == |LastOf(Admitted(capacity, history), Bound(capacity))| <= Bound(capacity)
    {
      n := |entries|;
      DistinctCount(order, entries.Keys);
    }
  }

  lemma {:induction false} DistinctCount(xs: seq<Key>, keys: set<Key>)
    requires Distinct(xs) && forall k :: k in keys <==> k in xs
    ensures |keys| == |xs|
    decreases |xs|
  {
    if xs == [] {
      assert keys == {};
    } else {
      assert xs == [xs[0]] + xs[1..];
      DistinctCount(xs[1..], keys - {xs[0]});
    }
  }
}
