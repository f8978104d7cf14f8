/** Neighbourhood queries over the code knowledge graph (`crates/core/src/ckg.rs`, `InMemoryCkg`). */
module CkgQuery {
  import opened Text
  import opened CkgParse

  /** A neighbour; the source repeats the symbol's file and line beside it. */
  datatype Related = Related(symbol: Symbol, relation: EdgeKind)

  datatype Graph = Graph(symbols: seq<Symbol>, edges: seq<Edge>)

  // ---------------------------------------------------------------- which neighbours

  /** `symbol_by_name`: the first symbol of that name. */
  function SymbolByName(symbols: seq<Symbol>, name: string): (r: Option<Symbol>)
    ensures r.Some? ==> r.value in symbols && r.value.name == name
    ensures r.None? ==> forall s <- symbols :: s.name != name
  {
    if symbols == [] then None
    else if symbols[0].name == name then Some(symbols[0])
    else SymbolByName(symbols[1..], name)
  }

  /** It is the first one. */
  lemma {:induction false} SymbolByNameIsFirst(symbols: seq<Symbol>, name: string)
    ensures SymbolByName(symbols, name).Some? ==>
              exists k: nat :: k < |symbols| && symbols[k] == SymbolByName(symbols, name).value
                && forall j :: 0 <= j < k ==> symbols[j].name != name
  {
    if symbols != [] && symbols[0].name != name {
      var rest := symbols[1..];
      SymbolByNameIsFirst(rest, name);
      if SymbolByName(rest, name).Some? {
        var k: nat :| k < |rest| && rest[k] == SymbolByName(rest, name).value
          && forall j :: 0 <= j < k ==> rest[j].name != name;
        assert symbols[k + 1] == rest[k];
        assert forall j :: 0 < j < k + 1 ==> symbols[j] == rest[j - 1];
      }
    }
  }

  predicate Relevant(kind: EdgeKind) { kind == Calls || kind == Defines || kind == Contained }

  /** What an edge contributes to the neighbourhood of a seed. */
  function Contribution(g: Graph, seed: Symbol, e: Edge): Option<Related> {
    if !Relevant(e.kind) then None
    else
      var other :=
        if e.from == seed.name then SymbolByName(g.symbols, e.to)
        else if e.to == seed.name then SymbolByName(g.symbols, e.from)
        else None;
      if other.None? || other.value.name == seed.name then None else Some(Related(other.value, e.kind))
  }

  /** `name` is the other endpoint of a relevant edge at a symbol called `seed`. */
  predicate Neighbours(e: Edge, seed: string, name: string) {
    Relevant(e.kind) && seed != name && ((e.from == seed && e.to == name) || (e.to == seed && e.from == name))
  }

  /** The neighbourhood, without reference to how it is collected: the first bearer of a name joined by a relevant edge
      to the name of some symbol that contains the needle. */
  ghost predicate IsNeighbour(g: Graph, needle: string, r: Related) {
    exists seed, e :: seed in g.symbols && Contains(seed.name, needle) && e in g.edges && e.kind == r.relation
      && Neighbours(e, seed.name, r.symbol.name) && SymbolByName(g.symbols, r.symbol.name) == Some(r.symbol)
  }

  // ---------------------------------------------------------------- sorting and removing repetitions

  /** `str::cmp`, by code point. */
  predicate StrLeq(a: string, b: string) {
    a == "" || (b != "" && (a[0] < b[0] || (a[0] == b[0] && StrLeq(a[1..], b[1..]))))
  }

  lemma StrLeqOrder(a: string, b: string, c: string)
    ensures StrLeq(a, a) && (StrLeq(a, b) || StrLeq(b, a))
    ensures StrLeq(a, b) && StrLeq(b, a) ==> a == b
    ensures StrLeq(a, b) && StrLeq(b, c) ==> StrLeq(a, c)
  {
    if a != "" {
      assert a == [a[0]] + a[1..];
      if b != "" {
        assert b == [b[0]] + b[1..];
        StrLeqOrder(a[1..], b[1..], if c != "" then c[1..] else "");
      } else {
        StrLeqOrder(a[1..], "", "");
      }
    }
  }

  /** At `k` the texts differ for the first time, and `a` has the smaller character. */
  ghost predicate SmallerAt(a: string, b: string, k: nat) {
    k < |a| && k < |b| && a[..k] == b[..k] && a[k] < b[k]
  }

  lemma SmallerBehind(c: char, x: string, y: string, k: nat)
    ensures SmallerAt([c] + x, [c] + y, k) <==> k > 0 && SmallerAt(x, y, k - 1)
  {
    var a, b := [c] + x, [c] + y;
    if 0 < k <= |a| && k <= |b| {
      assert a[..k] == [c] + x[..k - 1] && b[..k] == [c] + y[..k - 1];
      assert x[..k - 1] == a[..k][1..] && y[..k - 1] == b[..k][1..];
    }
  }

  lemma SmallerAtFront(a: string, b: string, k: nat)
    requires a != "" && b != "" && a[0] != b[0]
    ensures !(a <= b) && (SmallerAt(a, b, k) <==> k == 0 && a[0] < b[0])
  {
    if 0 < k <= |a| && k <= |b| {
      assert a[..k][0] == a[0] && b[..k][0] == b[0];
    }
  }

  /** Comparison decides at the first place where the texts differ; a text comes after its beginnings. */
  lemma {:induction false} StrLeqExact(a: string, b: string)
    ensures StrLeq(a, b) <==> a <= b || exists k :: SmallerAt(a, b, k)
    decreases |a|
  {
    hide SmallerAt;
    if a == "" || b == "" {
      forall k ensures !SmallerAt(a, b, k) {
        NothingSmaller(a, b, k);
      }
    } else if a[0] == b[0] {
      var x, y := a[1..], b[1..];
      assert a == [a[0]] + x && b == [a[0]] + y;
      StrLeqExact(x, y);
      assert a <= b <==> x <= y;
      forall k: nat ensures SmallerAt(a, b, k) <==> k > 0 && SmallerAt(x, y, k - 1) {
        SmallerBehind(a[0], x, y, k);
      }
      if k: nat :| SmallerAt(x, y, k) {
        assert SmallerAt(a, b, k + 1);
      }
    } else {
      forall k ensures SmallerAt(a, b, k) <==> k == 0 && a[0] < b[0] {
        SmallerAtFront(a, b, k);
      }
      assert SmallerAt(a, b, 0) <==> a[0] < b[0];
    }
  }

  lemma NothingSmaller(a: string, b: string, k: nat)
    requires a == "" || b == ""
    ensures !SmallerAt(a, b, k)
  {
  }

  /** The sort key. */
  type Place = (string, nat, string)

  function PlaceOf(r: Related): Place { (r.symbol.file, r.symbol.line, r.symbol.name) }

  predicate Leq(a: Place, b: Place) {
    if a.0 != b.0 then StrLeq(a.0, b.0)
    else if a.1 != b.1 then a.1 < b.1
    else StrLeq(a.2, b.2)
  }

  lemma LeqOrder(a: Place, b: Place, c: Place)
    ensures Leq(a, a) && (Leq(a, b) || Leq(b, a))
    ensures Leq(a, b) && Leq(b, a) ==> a == b
    ensures Leq(a, b) && Leq(b, c) ==> Leq(a, c)
  {
    hide StrLeq;
    StrLeqOrder(a.0, b.0, c.0);
    StrLeqOrder(a.2, b.2, c.2);
    StrLeqOrder(b.0, a.0, c.0);
    StrLeqOrder(b.2, a.2, c.2);
  }

  predicate Sorted(rs: seq<Related>) {
    forall i, j :: 0 <= i < j < |rs| ==> Leq(PlaceOf(rs[i]), PlaceOf(rs[j]))
  }

  /** Before the first element that is not smaller. */
  function Insert(r: Related, rs: seq<Related>): seq<Related> {
    if rs == [] || Leq(PlaceOf(r), PlaceOf(rs[0])) then [r] + rs else [rs[0]] + Insert(r, rs[1..])
  }

  /** A stable sort by place, like `sort_by`. */
  function Sort(rs: seq<Related>): seq<Related> {
    if rs == [] then [] else Insert(rs[0], Sort(rs[1..]))
  }

  predicate SameEntry(a: Related, b: Related) {
    PlaceOf(a) == PlaceOf(b) && a.relation == b.relation
  }

  /** `dedup_by`: of equal entries next to each other the first stays. */
  function Dedup(rs: seq<Related>): (r: seq<Related>)
    ensures rs != [] ==> r != [] && r[0] == rs[0]
  {
    if |rs| <= 1 then rs
    else
      var rest := Dedup(rs[1..]);
      [rs[0]] + if SameEntry(rs[0], rs[1]) then rest[1..] else rest
  }

  // ---------------------------------------------------------------- the query

  function Seeds(symbols: seq<Symbol>, needle: string): seq<Symbol> {
    var n := |symbols|;
    if n == 0 then []
    else Seeds(symbols[..n - 1], needle) + if Contains(symbols[n - 1].name, needle) then [symbols[n - 1]] else []
  }

  function OneOrNone(r: Option<Related>): seq<Related> {
    match r case None => [] case Some(x) => [x]
  }

  function FromSeed(g: Graph, seed: Symbol, edges: seq<Edge>): seq<Related> {
    var n := |edges|;
    if n == 0 then [] else FromSeed(g, seed, edges[..n - 1]) + OneOrNone(Contribution(g, seed, edges[n - 1]))
  }

  function FromSeeds(g: Graph, seeds: seq<Symbol>): seq<Related> {
    var n := |seeds|;
    if n == 0 then [] else FromSeeds(g, seeds[..n - 1]) + FromSeed(g, seeds[n - 1], g.edges)
  }

  /** What the two loops push, in order. */
  function Collected(g: Graph, needle: string): seq<Related> {
    FromSeeds(g, Seeds(g.symbols, Trim(needle)))
  }

  function Query(g: Graph, needle: string): seq<Related> {
    Dedup(Sort(Collected(g, needle)))
  }

  class InMemoryCkg {
    var symbols: seq<Symbol>
    var edges: seq<Edge>

    function Contents(): Graph
      reads this
    {
      Graph(symbols, edges)
    }

    constructor ()
      ensures Contents() == Graph([], [])
    {
      symbols, edges := [], [];
    }

    /** `ingest_file`: appends what the parser extracts. */
    method IngestFile(alnum: CharClass, file: string, content: string)
      modifies this
      ensures Contents() == Ingested(alnum, old(Contents()), file, content)
    {
      var syms, es := ParseSource(alnum, file, content);
      symbols, edges := symbols + syms, edges + es;
    }

    /** `query`. */
    method Find(symbolOrName: string) returns (out: seq<Related>)
      ensures out == Query(Contents(), symbolOrName)
    {
      hide Contribution, Sort, Dedup, Trim;
      var needle := Trim(symbolOrName);
      var g := Contents();
      var seeds: seq<Symbol> := [];
      for i := 0 to |symbols|
        invariant seeds == Seeds(symbols[..i], needle)
      {
        assert symbols[..i + 1][..i] == symbols[..i];
        if Text.Contains(symbols[i].name, needle) {
          seeds := seeds + [symbols[i]];
        }
      }
      assert symbols[..|symbols|] == symbols;
      out := [];
      for i := 0 to |seeds|
        invariant out == FromSeeds(g, seeds[..i])
      {
        assert seeds[..i + 1][..i] == seeds[..i];
        ghost var earlier := out;
        for k := 0 to |edges|
          invariant out == earlier + FromSeed(g, seeds[i], edges[..k])
        {
          assert edges[..k + 1][..k] == edges[..k];
          var related := Contribution(g, seeds[i], edges[k]);
          if related.Some? {
            out := out + [related.value];
          }
        }
        assert edges[..|edges|] == edges;
      }
      assert seeds[..|seeds|] == seeds;
      out := Dedup(Sort(out));
    }
  }

  function Ingested(alnum: CharClass, g: Graph, file: string, content: string): Graph {
    var p := ParseLines(alnum, file, Lines(content));
    Graph(g.symbols + p.symbols, g.edges + p.edges)
  }

  datatype SourceFile = SourceFile(name: string, content: string)

  /** `from_files`. */
  function FromFiles(alnum: CharClass, files: seq<SourceFile>): Graph {
    var n := |files|;
    if n == 0 then Graph([], [])
    else Ingested(alnum, FromFiles(alnum, files[..n - 1]), files[n - 1].name, files[n - 1].content)
  }

  /** In a graph built from any files the source name of every edge a query follows is found. */
  lemma {:induction false} SourcesAlwaysFound(alnum: CharClass, files: seq<SourceFile>)
    ensures var g := FromFiles(alnum, files);
            forall e <- g.edges :: Relevant(e.kind) ==> SymbolByName(g.symbols, e.from).Some?
    decreases |files|
  {
    hide ParseLines, Lines;
    var n := |files|;
    if n > 0 {
      SourcesAlwaysFound(alnum, files[..n - 1]);
      var before, last := FromFiles(alnum, files[..n - 1]), files[n - 1];
      var g := FromFiles(alnum, files);
      forall e | e in g.edges && Relevant(e.kind) ensures SymbolByName(g.symbols, e.from).Some? {
        if e in before.edges {
          assert SymbolByName(before.symbols, e.from).value in g.symbols;
        } else {
          SourcesResolve(alnum, last.name, Lines(last.content), e);
        }
      }
    }
  }

  // ---------------------------------------------------------------- contents of the answer

  lemma ContributionMeansNeighbour(g: Graph, seed: Symbol, e: Edge, r: Related)
    ensures Contribution(g, seed, e) == Some(r)
       <==> e.kind == r.relation && Neighbours(e, seed.name, r.symbol.name)
            && SymbolByName(g.symbols, r.symbol.name) == Some(r.symbol)
  {
  }

  lemma {:induction false} InSeeds(symbols: seq<Symbol>, needle: string, seed: Symbol)
    ensures seed in Seeds(symbols, needle) <==> seed in symbols && Contains(seed.name, needle)
    decreases |symbols|
  {
    var n := |symbols|;
    if n > 0 {
      assert symbols == symbols[..n - 1] + [symbols[n - 1]];
      InSeeds(symbols[..n - 1], needle, seed);
    }
  }

  lemma {:induction false} InFromSeed(g: Graph, seed: Symbol, edges: seq<Edge>, r: Related)
    ensures r in FromSeed(g, seed, edges) <==> exists e :: e in edges && Contribution(g, seed, e) == Some(r)
    decreases |edges|
  {
    hide Contribution;
    var n := |edges|;
    if n > 0 {
      assert edges == edges[..n - 1] + [edges[n - 1]];
      InFromSeed(g, seed, edges[..n - 1], r);
    }
  }

  lemma {:induction false} InFromSeeds(g: Graph, seeds: seq<Symbol>, r: Related)
    ensures r in FromSeeds(g, seeds)
       <==> exists seed, e :: seed in seeds && e in g.edges && Contribution(g, seed, e) == Some(r)
    decreases |seeds|
  {
    hide Contribution, FromSeed;
    var n := |seeds|;
    if n > 0 {
      assert seeds == seeds[..n - 1] + [seeds[n - 1]];
      InFromSeeds(g, seeds[..n - 1], r);
      InFromSeed(g, seeds[n - 1], g.edges, r);
    }
  }

  lemma CollectedExactly(g: Graph, needle: string, r: Related)
    ensures r in Collected(g, needle) <==> IsNeighbour(g, Trim(needle), r)
  {
    hide Contribution, Neighbours, Trim, Text.Contains;
    var seeds := Seeds(g.symbols, Trim(needle));
    InFromSeeds(g, seeds, r);
    if r in Collected(g, needle) {
      var seed, e :| seed in seeds && e in g.edges && Contribution(g, seed, e) == Some(r);
      InSeeds(g.symbols, Trim(needle), seed);
      ContributionMeansNeighbour(g, seed, e, r);
    }
    if IsNeighbour(g, Trim(needle), r) {
      var seed, e :| seed in g.symbols && Text.Contains(seed.name, Trim(needle)) && e in g.edges && e.kind == r.relation
                     && Neighbours(e, seed.name, r.symbol.name)
                     && SymbolByName(g.symbols, r.symbol.name) == Some(r.symbol);
      InSeeds(g.symbols, Trim(needle), seed);
      ContributionMeansNeighbour(g, seed, e, r);
    }
  }

  lemma {:induction false} InsertSorted(r: Related, rs: seq<Related>)
    requires Sorted(rs)
    ensures Sorted(Insert(r, rs)) && multiset(Insert(r, rs)) == multiset(rs) + multiset{r}
  {
    hide Leq;
    if rs == [] {
    } else if Leq(PlaceOf(r), PlaceOf(rs[0])) {
      forall k | 0 <= k < |rs| ensures Leq(PlaceOf(r), PlaceOf(rs[k])) {
        LeqOrder(PlaceOf(r), PlaceOf(rs[0]), PlaceOf(rs[k]));
      }
    } else {
      assert rs == [rs[0]] + rs[1..];
      InsertSorted(r, rs[1..]);
      var rest := Insert(r, rs[1..]);
      LeqOrder(PlaceOf(r), PlaceOf(rs[0]), PlaceOf(r));
      forall k | 0 <= k < |rest| ensures Leq(PlaceOf(rs[0]), PlaceOf(rest[k])) {
        assert rest[k] in multiset(rest);
      }
    }
  }

  lemma {:induction false} SortSorts(rs: seq<Related>)
    ensures Sorted(Sort(rs)) && multiset(Sort(rs)) == multiset(rs)
  {
    if rs != [] {
      assert rs == [rs[0]] + rs[1..];
      SortSorts(rs[1..]);
      InsertSorted(rs[0], Sort(rs[1..]));
    }
  }

  /** The same name never stands for two symbols. */
  predicate OneSymbolPerName(rs: seq<Related>) {
    forall a, b :: a in rs && b in rs && a.symbol.name == b.symbol.name ==> a.symbol == b.symbol
  }

  predicate NoNeighboursAlike(rs: seq<Related>) {
    forall i :: 0 <= i < |rs| - 1 ==> !SameEntry(rs[i], rs[i + 1])
  }

  lemma {:induction false} DedupKeeps(rs: seq<Related>)
    requires Sorted(rs) && OneSymbolPerName(rs)
    ensures Sorted(Dedup(rs)) && NoNeighboursAlike(Dedup(rs)) && forall r :: r in Dedup(rs) <==> r in rs
  {
    if |rs| > 1 {
      hide Leq, Sorted, SameEntry, OneSymbolPerName, NoNeighboursAlike;
      SplitFront(rs);
      DedupKeeps(rs[1..]);
      var rest := Dedup(rs[1..]);
      if SameEntry(rs[0], rs[1]) {
        assert [rs[0]] + rest[1..] == rest;
      } else {
        FrontKeeps(rs, rest);
      }
    }
  }

  lemma SplitFront(rs: seq<Related>)
    requires |rs| > 1 && Sorted(rs) && OneSymbolPerName(rs)
    ensures Sorted(rs[1..]) && OneSymbolPerName(rs[1..]) && rs == [rs[0]] + rs[1..]
    ensures SameEntry(rs[0], rs[1]) ==> rs[0] == rs[1]
  {
    assert rs[0] in rs && rs[1] in rs;
  }

  lemma FrontKeeps(rs: seq<Related>, rest: seq<Related>)
    requires |rs| > 1 && Sorted(rs) && Sorted(rest) && NoNeighboursAlike(rest)
    requires rest != [] && rest[0] == rs[1] && !SameEntry(rs[0], rs[1]) && forall r :: r in rest <==> r in rs[1..]
    ensures Sorted([rs[0]] + rest) && NoNeighboursAlike([rs[0]] + rest)
  {
    hide Leq, SameEntry;
    forall k | 0 <= k < |rest| ensures Leq(PlaceOf(rs[0]), PlaceOf(rest[k])) {
      assert rest[k] in rs[1..];
    }
  }

  /** The answer to a query: exactly the neighbours, ordered by file, line and name, no two alike in a row. */
  lemma QueryAnswersNeighbourhood(g: Graph, needle: string)
    ensures forall r :: r in Query(g, needle) <==> IsNeighbour(g, Trim(needle), r)
    ensures Sorted(Query(g, needle)) && NoNeighboursAlike(Query(g, needle))
  {
    hide Sort, Dedup, Collected, Sorted, NoNeighboursAlike;
    var raw := Collected(g, needle);
    SortSorts(raw);
    forall r ensures r in Sort(raw) <==> IsNeighbour(g, Trim(needle), r) {
      CollectedExactly(g, needle, r);
      assert r in Sort(raw) <==> r in multiset(Sort(raw));
      assert r in raw <==> r in multiset(raw);
    }
    DedupKeeps(Sort(raw));
  }

  /** `a` is smaller than `b`: it ends before they differ, or has the smaller character where they first do. */
  ghost predicate TextBefore(a: string, b: string) {
    a != b && (a <= b || exists k :: SmallerAt(a, b, k))
  }

  /** By file, then by line, then by name. */
  ghost predicate InPlaceOrder(a: Symbol, b: Symbol) {
    || TextBefore(a.file, b.file)
    || (a.file == b.file && a.line < b.line)
    || (a.file == b.file && a.line == b.line && (a.name == b.name || TextBefore(a.name, b.name)))
  }

  /** The answer comes sorted by file, then line, then name of the neighbours. */
  lemma QueryIsOrdered(g: Graph, needle: string)
    ensures forall i, j :: 0 <= i < j < |Query(g, needle)| ==>
              InPlaceOrder(Query(g, needle)[i].symbol, Query(g, needle)[j].symbol)
  {
    hide Query, StrLeq, SmallerAt;
    QueryAnswersNeighbourhood(g, needle);
    var answer := Query(g, needle);
    forall i, j | 0 <= i < j < |answer| ensures InPlaceOrder(answer[i].symbol, answer[j].symbol) {
      var a, b := answer[i].symbol, answer[j].symbol;
      assert Leq(PlaceOf(answer[i]), PlaceOf(answer[j]));
      StrLeqExact(a.file, b.file);
      StrLeqExact(a.name, b.name);
    }
  }

  // ---------------------------------------------------------------- when a repetition survives

  /** The entries at one place, in order. */
  function At(rs: seq<Related>, place: Place): seq<Related> {
    if rs == [] then [] else (if PlaceOf(rs[0]) == place then [rs[0]] else []) + At(rs[1..], place)
  }

  /** Equal entries stand next to each other. */
  predicate InRuns(rs: seq<Related>) {
    |rs| <= 1 || (InRuns(rs[1..]) && (rs[0] in rs[1..] ==> rs[1] == rs[0]))
  }

  /** What the loops reached at one place came in one run per relation. */
  predicate RunsAt(rs: seq<Related>, place: Place) { InRuns(At(rs, place)) }

  ghost predicate RunsEverywhere(rs: seq<Related>) {
    forall place :: RunsAt(rs, place)
  }

  lemma {:induction false} InsertStable(r: Related, rs: seq<Related>, place: Place)
    ensures At(Insert(r, rs), place) == (if PlaceOf(r) == place then [r] else []) + At(rs, place)
  {
    if rs != [] && !Leq(PlaceOf(r), PlaceOf(rs[0])) {
      InsertStable(r, rs[1..], place);
      LeqOrder(PlaceOf(r), PlaceOf(rs[0]), PlaceOf(r));
    }
  }

  lemma {:induction false} SortStable(rs: seq<Related>, place: Place)
    ensures At(Sort(rs), place) == At(rs, place)
  {
    if rs != [] {
      SortStable(rs[1..], place);
      InsertStable(rs[0], Sort(rs[1..]), place);
    }
  }

  lemma {:induction false} InAt(rs: seq<Related>, r: Related)
    ensures r in At(rs, PlaceOf(r)) <==> r in rs
  {
    if rs != [] {
      assert rs == [rs[0]] + rs[1..];
      InAt(rs[1..], r);
    }
  }

  /** In a sorted vector, what lies between two equal entries lies at the same place. */
  lemma NextSharesPlace(rs: seq<Related>)
    requires Sorted(rs) && |rs| > 1 && rs[0] in rs[1..]
    ensures PlaceOf(rs[1]) == PlaceOf(rs[0])
  {
    var k :| 1 <= k < |rs| && rs[k] == rs[0];
    if k > 1 {
      LeqOrder(PlaceOf(rs[0]), PlaceOf(rs[1]), PlaceOf(rs[k]));
    }
  }

  /** Putting an entry in front breaks the runs exactly when it occurs later but not next. */
  lemma RunsAfterFront(rs: seq<Related>)
    requires Sorted(rs) && |rs| > 1
    ensures RunsEverywhere(rs) <==> RunsEverywhere(rs[1..]) && (rs[0] in rs[1..] ==> rs[1] == rs[0])
  {
    hide RunsAt, Sorted;
    var rest, here := rs[1..], PlaceOf(rs[0]);
    FrontRuns(rs);
    forall place: Place | place != here ensures RunsAt(rs, place) == RunsAt(rest, place) {
      ElsewhereRuns(rs, place);
    }
    if RunsEverywhere(rs) {
      forall place ensures RunsAt(rest, place) {
        assert RunsAt(rs, here) && RunsAt(rs, place);
      }
    }
    if RunsEverywhere(rest) && (rs[0] in rest ==> rs[1] == rs[0]) {
      forall place ensures RunsAt(rs, place) {
        assert RunsAt(rest, here) && RunsAt(rest, place);
      }
    }
  }

  lemma ElsewhereRuns(rs: seq<Related>, place: Place)
    requires rs != [] && place != PlaceOf(rs[0])
    ensures RunsAt(rs, place) == RunsAt(rs[1..], place)
  {
    assert At(rs, place) == At(rs[1..], place);
  }

  lemma FrontRuns(rs: seq<Related>)
    requires Sorted(rs) && |rs| > 1
    ensures RunsAt(rs, PlaceOf(rs[0])) <==> RunsAt(rs[1..], PlaceOf(rs[0])) && (rs[0] in rs[1..] ==> rs[1] == rs[0])
  {
    var rest, here := rs[1..], PlaceOf(rs[0]);
    var t := At(rs, here);
    assert t == [rs[0]] + At(rest, here) && t[1..] == At(rest, here);
    InAt(rest, rs[0]);
    if rs[0] in rest {
      NextSharesPlace(rs);
      assert At(rest, here)[0] == rs[1];
    }
  }

  lemma DistinctFront(r: Related, rs: seq<Related>)
    ensures Distinct([r] + rs) <==> r !in rs && Distinct(rs)
  {
    var all := [r] + rs;
    assert forall k :: 0 <= k < |rs| ==> all[k + 1] == rs[k];
    if Distinct(all) {
      forall i, j | 0 <= i < j < |rs| ensures rs[i] != rs[j] {
        assert all[i + 1] != all[j + 1];
      }
      forall k | 0 <= k < |rs| ensures rs[k] != r {
        assert all[0] != all[k + 1];
      }
    }
  }

  lemma {:induction false} DedupDistinctIff(rs: seq<Related>)
    requires Sorted(rs) && OneSymbolPerName(rs)
    ensures Distinct(Dedup(rs)) <==> RunsEverywhere(rs)
  {
    hide RunsEverywhere, Distinct;
    if |rs| > 1 {
      var rest := rs[1..];
      assert rs == [rs[0]] + rest;
      DedupDistinctIff(rest);
      DedupKeeps(rest);
      RunsAfterFront(rs);
      if SameEntry(rs[0], rs[1]) {
        assert [rs[0]] + Dedup(rest)[1..] == Dedup(rest);
      } else {
        DistinctFront(rs[0], Dedup(rest));
      }
    } else {
      ShortRuns(rs);
    }
  }

  lemma ShortRuns(rs: seq<Related>)
    requires |rs| <= 1
    ensures Distinct(rs) && RunsEverywhere(rs)
  {
    forall place ensures RunsAt(rs, place) {
      assert |rs| == 1 ==> rs[1..] == [] && |At(rs, place)| <= 1;
    }
  }

  lemma CollectedNames(g: Graph, needle: string)
    ensures OneSymbolPerName(Collected(g, needle))
  {
    forall a, b | a in Collected(g, needle) && b in Collected(g, needle) && a.symbol.name == b.symbol.name
      ensures a.symbol == b.symbol
    {
      CollectedExactly(g, needle, a);
      CollectedExactly(g, needle, b);
    }
  }

  /** The answer is free of repetitions exactly when, place by place, the loops pushed each relation in one run. */
  lemma DistinctIffRuns(g: Graph, needle: string)
    ensures Distinct(Query(g, needle)) <==> RunsEverywhere(Collected(g, needle))
  {
    hide Sort, Dedup, Collected, Sorted, Distinct, OneSymbolPerName;
    var raw := Collected(g, needle);
    SortSorts(raw);
    CollectedNames(g, needle);
    forall r ensures r in Sort(raw) <==> r in raw {
      assert r in Sort(raw) <==> r in multiset(Sort(raw));
      assert r in raw <==> r in multiset(raw);
    }
    SortedNames(raw, Sort(raw));
    DedupDistinctIff(Sort(raw));
    forall place: Place ensures RunsAt(Sort(raw), place) == RunsAt(raw, place) {
      SortStable(raw, place);
    }
  }

  lemma SortedNames(raw: seq<Related>, sorted: seq<Related>)
    requires OneSymbolPerName(raw) && forall r :: r in sorted <==> r in raw
    ensures OneSymbolPerName(sorted)
  {
  }
}
