/** When the answer to a neighbourhood query names an entry twice (`crates/core/src/ckg.rs`, `query`). */
module CkgRepetition {
  import opened Text
  import opened CkgParse
  import opened CkgQuery

  // ---------------------------------------------------------------- entries that come back

  /** `v` occurs after another entry of its place. */
  predicate Broken(rs: seq<Related>, v: Related) {
    rs != [] && (Broken(rs[1..], v) || (rs[0] != v && PlaceOf(rs[0]) == PlaceOf(v) && v in rs[1..]))
  }

  /** Some entry is followed by another one of its place and then comes back. */
  predicate Returns(rs: seq<Related>) {
    rs != [] && (Broken(rs[1..], rs[0]) || Returns(rs[1..]))
  }

  lemma {:induction false} BrokenIff(rs: seq<Related>, v: Related)
    requires RunsAt(rs, PlaceOf(v))
    ensures var t := At(rs, PlaceOf(v)); Broken(rs, v) <==> v in t && t[0] != v
  {
    if rs != [] {
      var here := PlaceOf(v);
      var t, rest := At(rs, here), At(rs[1..], here);
      InAt(rs[1..], v);
      BrokenIsIn(rs[1..], v);
      if PlaceOf(rs[0]) == here {
        assert t == [rs[0]] + rest && t[1..] == rest;
      } else {
        assert t == rest;
      }
      BrokenIff(rs[1..], v);
    }
  }

  lemma {:induction false} BrokenIsIn(rs: seq<Related>, v: Related)
    ensures Broken(rs, v) ==> v in rs
  {
    if rs != [] {
      assert rs == [rs[0]] + rs[1..];
      BrokenIsIn(rs[1..], v);
    }
  }

  lemma FrontRunsIff(rs: seq<Related>)
    requires rs != []
    ensures RunsEverywhere(rs) <==> RunsEverywhere(rs[1..]) && !Broken(rs[1..], rs[0])
  {
    hide RunsAt, Broken;
    var rest, here := rs[1..], PlaceOf(rs[0]);
    forall place: Place | place != here ensures RunsAt(rs, place) == RunsAt(rest, place) {
      ElsewhereRuns(rs, place);
    }
    HereRuns(rs);
    if RunsEverywhere(rs) {
      forall place ensures RunsAt(rest, place) {
        assert RunsAt(rs, here) && RunsAt(rs, place);
      }
    }
    if RunsEverywhere(rest) && !Broken(rest, rs[0]) {
      forall place ensures RunsAt(rs, place) {
        assert RunsAt(rest, here) && RunsAt(rest, place);
      }
    }
  }

  lemma HereRuns(rs: seq<Related>)
    requires rs != []
    ensures RunsAt(rs, PlaceOf(rs[0])) <==> RunsAt(rs[1..], PlaceOf(rs[0])) && !Broken(rs[1..], rs[0])
  {
    var rest, here := rs[1..], PlaceOf(rs[0]);
    var t := At(rs, here);
    assert t == [rs[0]] + At(rest, here) && t[1..] == At(rest, here);
    if RunsAt(rest, here) { BrokenIff(rest, rs[0]); }
  }

  lemma {:induction false} RunsIffNoReturn(rs: seq<Related>)
    ensures RunsEverywhere(rs) <==> !Returns(rs)
  {
    hide RunsEverywhere, Broken;
    if rs == [] {
      ShortRuns(rs);
    } else {
      FrontRunsIff(rs);
      RunsIffNoReturn(rs[1..]);
    }
  }

  /** Positions of an entry, another one of its place, and the entry again. */
  predicate ReturnsAt(rs: seq<Related>, x: nat, y: nat, z: nat) {
    x < y < z < |rs| && rs[x] == rs[z] && PlaceOf(rs[y]) == PlaceOf(rs[x]) && rs[y] != rs[x]
  }

  lemma {:induction false} BrokenAt(rs: seq<Related>, v: Related) returns (y: nat, z: nat)
    requires Broken(rs, v)
    ensures y < z < |rs| && rs[z] == v && PlaceOf(rs[y]) == PlaceOf(v) && rs[y] != v
  {
    if Broken(rs[1..], v) {
      y, z := BrokenAt(rs[1..], v);
      y, z := y + 1, z + 1;
    } else {
      var k :| 0 <= k < |rs[1..]| && rs[1..][k] == v;
      y, z := 0, k + 1;
    }
  }

  lemma {:induction false} AtBroken(rs: seq<Related>, v: Related, y: nat, z: nat)
    requires y < z < |rs| && rs[z] == v && PlaceOf(rs[y]) == PlaceOf(v) && rs[y] != v
    ensures Broken(rs, v)
  {
    assert rs[1..][z - 1] == v;
    if y > 0 { AtBroken(rs[1..], v, y - 1, z - 1); }
  }

  lemma {:induction false} ReturnPositions(rs: seq<Related>) returns (x: nat, y: nat, z: nat)
    requires Returns(rs)
    ensures ReturnsAt(rs, x, y, z)
  {
    if Broken(rs[1..], rs[0]) {
      y, z := BrokenAt(rs[1..], rs[0]);
      x, y, z := 0, y + 1, z + 1;
    } else {
      x, y, z := ReturnPositions(rs[1..]);
      x, y, z := x + 1, y + 1, z + 1;
    }
  }

  lemma {:induction false} PositionsReturn(rs: seq<Related>, x: nat, y: nat, z: nat)
    requires ReturnsAt(rs, x, y, z)
    ensures Returns(rs)
  {
    if x == 0 {
      AtBroken(rs[1..], rs[0], y - 1, z - 1);
    } else {
      PositionsReturn(rs[1..], x - 1, y - 1, z - 1);
    }
  }

  // ---------------------------------------------------------------- over symbols and edges

  /** A symbol and an edge of the graph, by position; the loops visit them in this order. */
  datatype Hit = Hit(seed: nat, edge: nat)

  predicate Earlier(a: Hit, b: Hit) {
    a.seed < b.seed || (a.seed == b.seed && a.edge < b.edge)
  }

  /** The symbol's name contains the needle and the edge joins it to the neighbour. */
  predicate Reaches(g: Graph, needle: string, h: Hit, r: Related) {
    h.seed < |g.symbols| && h.edge < |g.edges| &&
    var seed, e := g.symbols[h.seed], g.edges[h.edge];
    Contains(seed.name, needle) && e.kind == r.relation && Neighbours(e, seed.name, r.symbol.name)
    && SymbolByName(g.symbols, r.symbol.name) == Some(r.symbol)
  }

  /** Two symbol-edge pairs reach a neighbour under one relation, and a pair between them reaches the same place under
      another. */
  ghost predicate ComesBack(g: Graph, needle: string) {
    exists a, b, c, r, d ::
      && Earlier(a, b) && Earlier(b, c)
      && Reaches(g, needle, a, r) && Reaches(g, needle, b, d) && Reaches(g, needle, c, r)
      && PlaceOf(d) == PlaceOf(r) && d != r
  }

  function SeedTrail(g: Graph, i: nat, k: nat): seq<Hit>
    requires i < |g.symbols| && k <= |g.edges|
  {
    if k == 0 then []
    else SeedTrail(g, i, k - 1) + if Contribution(g, g.symbols[i], g.edges[k - 1]).Some? then [Hit(i, k - 1)] else []
  }

  /** The pairs that push something, over the first `i` symbols. */
  function Trail(g: Graph, needle: string, i: nat): seq<Hit>
    requires i <= |g.symbols|
  {
    if i == 0 then []
    else
      Trail(g, needle, i - 1)
      + if Contains(g.symbols[i - 1].name, needle) then SeedTrail(g, i - 1, |g.edges|) else []
  }

  predicate InVisitOrder(trail: seq<Hit>) {
    forall x, y :: 0 <= x < y < |trail| ==> Earlier(trail[x], trail[y])
  }

  lemma OrderSnoc(trail: seq<Hit>, h: Hit)
    requires InVisitOrder(trail) && forall t <- trail :: Earlier(t, h)
    ensures InVisitOrder(trail + [h])
  {
    hide Earlier;
  }

  /** The trail of seed `i` over the first `k` edges lists what they contribute, in order, and leaves nothing out. */
  ghost predicate Tracks(g: Graph, i: nat, k: nat, trail: seq<Hit>, pushed: seq<Related>)
    requires i < |g.symbols| && k <= |g.edges|
  {
    && |trail| == |pushed| && InVisitOrder(trail)
    && (forall t :: 0 <= t < |trail| ==>
          && trail[t].seed == i && trail[t].edge < k
          && Contribution(g, g.symbols[i], g.edges[trail[t].edge]) == Some(pushed[t]))
    && (forall e: nat :: e < k && Contribution(g, g.symbols[i], g.edges[e]).Some? ==> Hit(i, e) in trail)
  }

  lemma TracksStep(g: Graph, i: nat, k: nat, trail: seq<Hit>, pushed: seq<Related>)
    requires i < |g.symbols| && k < |g.edges| && Tracks(g, i, k, trail, pushed)
    ensures var c := Contribution(g, g.symbols[i], g.edges[k]);
            if c.None? then Tracks(g, i, k + 1, trail, pushed)
            else Tracks(g, i, k + 1, trail + [Hit(i, k)], pushed + [c.value])
  {
    hide Contribution, InVisitOrder;
    if Contribution(g, g.symbols[i], g.edges[k]).Some? {
      OrderSnoc(trail, Hit(i, k));
    }
  }

  lemma {:induction false} SeedTrailMatches(g: Graph, i: nat, k: nat)
    requires i < |g.symbols| && k <= |g.edges|
    ensures Tracks(g, i, k, SeedTrail(g, i, k), FromSeed(g, g.symbols[i], g.edges[..k]))
  {
    hide Contribution, Tracks;
    if k > 0 {
      SeedTrailMatches(g, i, k - 1);
      var trail, pushed := SeedTrail(g, i, k - 1), FromSeed(g, g.symbols[i], g.edges[..k - 1]);
      PrefixOfPrefix(g.edges, k - 1, k);
      TracksStep(g, i, k - 1, trail, pushed);
      assert trail + [] == trail && pushed + [] == pushed;
    } else {
      TracksNothing(g, i);
    }
  }

  lemma TracksNothing(g: Graph, i: nat)
    requires i < |g.symbols|
    ensures Tracks(g, i, 0, [], [])
  {
  }

  /** The trail over some symbols lists what they push, in visiting order, and leaves nothing out. */
  ghost predicate Follows(g: Graph, needle: string, i: nat, trail: seq<Hit>, pushed: seq<Related>) {
    && |trail| == |pushed| && InVisitOrder(trail)
    && (forall t :: 0 <= t < |trail| ==> trail[t].seed < i && Reaches(g, needle, trail[t], pushed[t]))
    && (forall h, r :: Reaches(g, needle, h, r) && h.seed < i ==> h in trail)
  }

  lemma ReachesMeans(g: Graph, needle: string, h: Hit, r: Related)
    ensures Reaches(g, needle, h, r)
       <==> h.seed < |g.symbols| && h.edge < |g.edges| && Contains(g.symbols[h.seed].name, needle)
            && Contribution(g, g.symbols[h.seed], g.edges[h.edge]) == Some(r)
  {
    hide Contribution, Neighbours, SymbolByName, Text.Contains;
    if h.seed < |g.symbols| && h.edge < |g.edges| {
      ContributionMeansNeighbour(g, g.symbols[h.seed], g.edges[h.edge], r);
    }
  }

  lemma OrderConcat(a: seq<Hit>, b: seq<Hit>, i: nat)
    requires InVisitOrder(a) && InVisitOrder(b)
    requires (forall h <- a :: h.seed < i) && (forall h <- b :: h.seed == i)
    ensures InVisitOrder(a + b)
  {
  }

  /** The trail of one seed is sound and complete for it. */
  lemma SeedFollows(g: Graph, needle: string, i: nat)
    requires i < |g.symbols| && Contains(g.symbols[i].name, needle)
    ensures var more, added := SeedTrail(g, i, |g.edges|), FromSeed(g, g.symbols[i], g.edges);
            && |more| == |added| && InVisitOrder(more)
            && (forall t :: 0 <= t < |more| ==> more[t].seed == i && Reaches(g, needle, more[t], added[t]))
            && (forall h, r :: Reaches(g, needle, h, r) && h.seed == i ==> h in more)
  {
    hide Contribution, FromSeed, SeedTrail, Text.Contains, Reaches, InVisitOrder;
    var more, added := SeedTrail(g, i, |g.edges|), FromSeed(g, g.symbols[i], g.edges);
    SeedTrailMatches(g, i, |g.edges|);
    assert g.edges[..|g.edges|] == g.edges;
    forall t | 0 <= t < |more| ensures Reaches(g, needle, more[t], added[t]) {
      ReachesMeans(g, needle, more[t], added[t]);
    }
    forall h, r | Reaches(g, needle, h, r) && h.seed == i ensures h in more {
      ReachesMeans(g, needle, h, r);
      assert h == Hit(i, h.edge);
    }
  }

  lemma FollowsSeed(g: Graph, needle: string, i: nat, trail: seq<Hit>, pushed: seq<Related>)
    requires i < |g.symbols| && Contains(g.symbols[i].name, needle) && Follows(g, needle, i, trail, pushed)
    ensures Follows(g, needle, i + 1, trail + SeedTrail(g, i, |g.edges|), pushed + FromSeed(g, g.symbols[i], g.edges))
  {
    hide FromSeed, SeedTrail, Text.Contains, Reaches, InVisitOrder;
    SeedFollows(g, needle, i);
    OrderConcat(trail, SeedTrail(g, i, |g.edges|), i);
  }

  lemma FollowsSkip(g: Graph, needle: string, i: nat, trail: seq<Hit>, pushed: seq<Related>)
    requires i < |g.symbols| && !Contains(g.symbols[i].name, needle) && Follows(g, needle, i, trail, pushed)
    ensures Follows(g, needle, i + 1, trail, pushed)
  {
    hide Contribution, Text.Contains, Reaches;
    forall h, r | Reaches(g, needle, h, r) && h.seed < i + 1 ensures h in trail {
      ReachesMeans(g, needle, h, r);
    }
  }

  lemma FollowsNothing(g: Graph, needle: string)
    ensures Follows(g, needle, 0, [], [])
  {
  }

  lemma {:induction false} TrailMatches(g: Graph, needle: string, i: nat)
    requires i <= |g.symbols|
    ensures Follows(g, needle, i, Trail(g, needle, i), FromSeeds(g, Seeds(g.symbols[..i], needle)))
  {
    hide Follows, FromSeed, FromSeeds, Seeds, SeedTrail, Text.Contains;
    if i == 0 {
      assert g.symbols[..0] == [];
      NothingPushed(g, needle);
      FollowsNothing(g, needle);
    } else {
      TrailMatches(g, needle, i - 1);
      PushedStep(g, needle, i);
      var pushed := FromSeeds(g, Seeds(g.symbols[..i - 1], needle));
      if Contains(g.symbols[i - 1].name, needle) {
        FollowsSeed(g, needle, i - 1, Trail(g, needle, i - 1), pushed);
      } else {
        FollowsSkip(g, needle, i - 1, Trail(g, needle, i - 1), pushed);
        assert Trail(g, needle, i - 1) + [] == Trail(g, needle, i - 1);
      }
    }
  }

  lemma NothingPushed(g: Graph, needle: string)
    ensures FromSeeds(g, Seeds([], needle)) == []
  {
  }

  lemma PushedStep(g: Graph, needle: string, i: nat)
    requires 0 < i <= |g.symbols|
    ensures var seed, pushed := g.symbols[i - 1], FromSeeds(g, Seeds(g.symbols[..i - 1], needle));
            FromSeeds(g, Seeds(g.symbols[..i], needle))
            == if Contains(seed.name, needle) then pushed + FromSeed(g, seed, g.edges) else pushed
  {
    hide FromSeed, Text.Contains;
    var before, seed := Seeds(g.symbols[..i - 1], needle), g.symbols[i - 1];
    assert g.symbols[..i][..i - 1] == g.symbols[..i - 1] && (before + [seed])[..|before|] == before
        && before + [] == before;
  }

  /** What a pair reaches is determined by the pair. */
  lemma ReachesOne(g: Graph, needle: string, h: Hit, r: Related, d: Related)
    requires Reaches(g, needle, h, r) && Reaches(g, needle, h, d)
    ensures r == d
  {
  }

  lemma InOrderPair(trail: seq<Hit>, x: nat, y: nat)
    requires InVisitOrder(trail) && x < y < |trail|
    ensures Earlier(trail[x], trail[y])
  {
  }

  lemma TrailPosition(trail: seq<Hit>, a: Hit, b: Hit, x: nat, y: nat)
    requires InVisitOrder(trail) && x < |trail| && y < |trail| && trail[x] == a && trail[y] == b && Earlier(a, b)
    ensures x < y
  {
    if y < x { InOrderPair(trail, y, x); }
  }

  lemma ReturnsIffComesBack(g: Graph, needle: string)
    ensures Returns(FromSeeds(g, Seeds(g.symbols, needle))) <==> ComesBack(g, needle)
  {
    hide Returns, Reaches, FromSeeds, Trail, Earlier, InVisitOrder;
    var n := |g.symbols|;
    var trail, raw := Trail(g, needle, n), FromSeeds(g, Seeds(g.symbols, needle));
    assert g.symbols[..n] == g.symbols;
    TrailMatches(g, needle, n);
    if Returns(raw) {
      var x, y, z := ReturnPositions(raw);
      InOrderPair(trail, x, y);
      InOrderPair(trail, y, z);
      assert Reaches(g, needle, trail[x], raw[x]) && Reaches(g, needle, trail[y], raw[y])
          && Reaches(g, needle, trail[z], raw[x]);
    }
    if ComesBack(g, needle) {
      var a, b, c, r, d :| && Earlier(a, b) && Earlier(b, c) && Reaches(g, needle, a, r) && Reaches(g, needle, b, d)
                           && Reaches(g, needle, c, r) && PlaceOf(d) == PlaceOf(r) && d != r;
      ReachesInside(g, needle, a, r);
      ReachesInside(g, needle, b, d);
      ReachesInside(g, needle, c, r);
      var x: nat :| x < |trail| && trail[x] == a;
      var y: nat :| y < |trail| && trail[y] == b;
      var z: nat :| z < |trail| && trail[z] == c;
      TrailPosition(trail, a, b, x, y);
      TrailPosition(trail, b, c, y, z);
      ReachesOne(g, needle, a, r, raw[x]);
      ReachesOne(g, needle, b, d, raw[y]);
      ReachesOne(g, needle, c, r, raw[z]);
      PositionsReturn(raw, x, y, z);
    }
  }

  lemma ReachesInside(g: Graph, needle: string, h: Hit, r: Related)
    requires Reaches(g, needle, h, r)
    ensures h.seed < |g.symbols|
  {
  }

  /** The relation is not part of the sort key: an answer holds a repetition exactly when the walk over symbols and
      edges comes back to a relation of a place after another relation of that place. */
  lemma NoRepetitionIff(g: Graph, needle: string)
    ensures Distinct(Query(g, needle)) <==> !ComesBack(g, Trim(needle))
  {
    hide Query, Distinct, RunsEverywhere, Returns, ComesBack;
    DistinctIffRuns(g, needle);
    RunsIffNoReturn(Collected(g, needle));
    ReturnsIffComesBack(g, Trim(needle));
  }

  // ---------------------------------------------------------------- a file with such an answer

  predicate PlainLine(line: string) {
    line != "" && '\n' !in line && line[|line| - 1] != '\r'
  }

  lemma LinesRoundTrip(lines: seq<string>)
    requires forall line <- lines :: PlainLine(line)
    ensures Lines(Fed(lines)) == lines
  {
    forall i | 0 <= i < |lines| ensures IsPieceOf(lines[i], lines[i]) {
      assert PlainLine(lines[i]);
    }
    LinesExact(lines, lines, "");
    assert Fed(lines) + "" == Fed(lines);
  }

  function RepeatingLines(): seq<string> { ["impl X {", "fn b() {}", "struct b;", "fn b() {}"] }

  function RepeatingFile(): SourceFile { SourceFile("f", Fed(RepeatingLines())) }

  /** How the characters of that file are classified. */
  predicate ReadsLetters(alnum: CharClass) {
    alnum('X') && alnum('b') && !alnum(' ') && !alnum('(') && !alnum(';')
  }

  lemma LinesArePlain()
    ensures forall line <- RepeatingLines() :: PlainLine(line)
  {
    assert PlainLine("impl X {") && PlainLine("fn b() {}") && PlainLine("struct b;");
  }

  lemma CharOfOccurrence(line: string, word: string, q: nat, k: nat)
    requires k < |word| && OccursAt(line, word, q)
    ensures word[k] in line
  {
    assert line[q..q + |word|][k] == line[q + k];
  }

  /** A word with a character the line does not hold is not in the line. */
  lemma Absent(line: string, word: string, k: nat)
    requires k < |word| && word[k] !in line
    ensures Find(line, word, 0) == None && FirstStandalone(line, word, 0) == None
  {
    hide OccursAt;
    forall q: nat | q <= |line| ensures !OccursAt(line, word, q) {
      if OccursAt(line, word, q) { CharOfOccurrence(line, word, q, k); }
    }
    NoOccurrenceNoDecl(line, word, 0);
  }

  /** A one-letter name after a blank, and something that ends it. */
  lemma NameAfterBlank(alnum: CharClass, rest: string, name: char)
    requires |rest| > 2 && rest[0] == ' ' && rest[1] == name
    requires alnum(name) && !IsWhitespace(name) && !alnum(rest[2]) && rest[2] != '_'
    ensures StripPrefix(rest, "<") == None && Ident(alnum, TrimStart(rest)) == [name]
  {
    var tail := rest[1..];
    assert tail[0] == name && tail[1..][0] == rest[2];
    assert TrimStart(tail) == tail && IsWhitespace(' ');
    assert TrimStart(rest) == tail;
    assert Ident(alnum, tail[1..]) == "";
    assert "<"[0] == '<' && !("<" <= rest);
  }

  lemma DeclAtStart(alnum: CharClass, line: string, kw: string, name: char)
    requires kw <= line && |line| > |kw| + 2 && line[|kw|] == ' ' && line[|kw| + 1] == name
    requires alnum(name) && !IsWhitespace(name) && !alnum(line[|kw| + 2]) && line[|kw| + 2] != '_'
    ensures DeclName(alnum, line, kw) == Some([name])
  {
    hide TrimStart, Ident, StripPrefix, FirstStandalone;
    assert line[0..|kw|] == kw;
    StandaloneHere(line, kw, 0);
    NameAfterBlank(alnum, line[|kw|..], name);
  }

  lemma ReadImpl(alnum: CharClass)
    requires ReadsLetters(alnum)
    ensures Reading(alnum, "impl X {") == ImplLine("X", "")
  {
    hide FirstStandalone, Find, DeclName;
    var line := "impl X {";
    assert TrimStart(line) == line && "impl" <= line && line[0] != '/';
    Absent(line, " for ", 1);
    DeclAtStart(alnum, line, "impl", 'X');
  }

  /** A declaration line that starts with its keyword. */
  lemma ReadsDeclared(alnum: CharClass, line: string)
    requires line != "" && !IsWhitespace(line[0]) && line[0] != '/' && line[0] != 'i'
    ensures var declared, fn := Declared(alnum, line), DeclName(alnum, line, "fn");
            && (declared.Some? ==> Reading(alnum, line) == DeclLine(declared.value.0, declared.value.1))
            && (declared.None? && fn.Some? ==> Reading(alnum, line) == DeclLine(Fn, fn.value))
  {
    hide Declared, DeclName, UseTargets, CallSites, ImplNames;
    assert TrimStart(line) == line;
    assert "impl"[0] == 'i' && "///"[0] == '/';
    assert !("impl" <= line) && !("///" <= line);
  }

  lemma ReadFn(alnum: CharClass)
    requires ReadsLetters(alnum)
    ensures Reading(alnum, "fn b() {}") == DeclLine(Fn, "b")
  {
    hide Reading, FirstStandalone, Find, IdentAfter;
    var line := "fn b() {}";
    ReadsDeclared(alnum, line);
    Absent(line, "struct", 0);
    Absent(line, "trait", 0);
    Absent(line, "mod", 0);
    DeclAtStart(alnum, line, "fn", 'b');
  }

  lemma ReadStruct(alnum: CharClass)
    requires ReadsLetters(alnum)
    ensures Reading(alnum, "struct b;") == DeclLine(Struct, "b")
  {
    hide Reading, DeclName;
    var line := "struct b;";
    ReadsDeclared(alnum, line);
    DeclAtStart(alnum, line, "struct", 'b');
  }

  lemma RepeatingGraph(alnum: CharClass)
    requires ReadsLetters(alnum)
    ensures FromFiles(alnum, [RepeatingFile()])
         == Graph([Symbol(Impl, "impl X", "f", 1, ""), Symbol(Fn, "b", "f", 2, ""),
                   Symbol(Struct, "b", "f", 3, ""), Symbol(Fn, "b", "f", 4, "")],
                  [Edge("impl X", "b", Contained, "f", 2), Edge("impl X", "b", Defines, "f", 3),
                   Edge("impl X", "b", Contained, "f", 4)])
  {
    hide Reading, Lines, RepeatingFile, Fed, PlainLine;
    ReadImpl(alnum);
    ReadFn(alnum);
    ReadStruct(alnum);
    LinesArePlain();
    LinesRoundTrip(RepeatingLines());
    FileContents();
    var l1, l2, l3 := ["impl X {"], ["impl X {", "fn b() {}"], ["impl X {", "fn b() {}", "struct b;"];
    var l4 := ["impl X {", "fn b() {}", "struct b;", "fn b() {}"];
    assert l1[..0] == [] && l2[..1] == l1 && l3[..2] == l2 && l4[..3] == l3;
    assert ImplName("X") == "impl X";
    var p1 := ParseLines(alnum, "f", l1);
    assert p1 == Parser([Symbol(Impl, "impl X", "f", 1, "")], [], "", None, Some("X"));
    var p2 := ParseLines(alnum, "f", l2);
    assert p2.edges == [Edge("impl X", "b", Contained, "f", 2)] && p2.doc == "" && p2.currentImpl == Some("X");
    var p3 := ParseLines(alnum, "f", l3);
    assert p3.edges == [Edge("impl X", "b", Contained, "f", 2), Edge("impl X", "b", Defines, "f", 3)];
    assert p3.doc == "" && p3.currentImpl == Some("X");
    var p4 := ParseLines(alnum, "f", l4);
    OneFile(alnum, RepeatingFile());
  }

  lemma FileContents()
    ensures RepeatingFile() == SourceFile("f", Fed(RepeatingLines()))
  {
  }

  lemma OneFile(alnum: CharClass, file: SourceFile)
    ensures var p := ParseLines(alnum, file.name, Lines(file.content));
            FromFiles(alnum, [file]) == Graph(p.symbols, p.edges)
  {
    hide ParseLines, Lines;
    assert [file][..0] == [] && FromFiles(alnum, []) == Graph([], []);
  }

  /** An `impl` with a function, a structure and again a function of one name: asked for the `impl`, the answer names
      the first of them twice as contained. */
  lemma RepetitionSurvives(alnum: CharClass)
    requires ReadsLetters(alnum)
    ensures !Distinct(Query(FromFiles(alnum, [RepeatingFile()]), "X"))
  {
    hide FromFiles, Query, Distinct, Text.Contains, RepeatingFile;
    RepeatingGraph(alnum);
    var g := FromFiles(alnum, [RepeatingFile()]);
    var b := g.symbols[1];
    assert g.symbols[1..][0] == b && "impl X"[0] != "b"[0];
    assert SymbolByName(g.symbols, "b") == Some(b);
    NeedleInside();
    assert Reaches(g, "X", Hit(0, 0), Related(b, Contained));
    assert Reaches(g, "X", Hit(0, 1), Related(b, Defines));
    assert Reaches(g, "X", Hit(0, 2), Related(b, Contained));
    assert Earlier(Hit(0, 0), Hit(0, 1)) && Earlier(Hit(0, 1), Hit(0, 2));
    NoRepetitionIff(g, "X");
  }

  lemma NeedleInside()
    ensures Trim("X") == "X" && Text.Contains("impl X", "X")
  {
    assert TrimStart("X") == "X" && TrimEnd("X") == "X";
    assert OccursAt("impl X", "X", 5);
  }
}
