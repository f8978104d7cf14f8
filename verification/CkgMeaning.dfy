/** What the extracted graph says, line by line, without reference to the walk that extracts it
    (`crates/core/src/ckg.rs`, `parse_source`). */
module CkgMeaning {
  import opened Text
  import opened CkgParse

  /** The documentation waiting after some lines: the doc lines since the last declaration, joined. */
  function PendingDoc(alnum: CharClass, lines: seq<string>): string {
    var n := |lines|;
    if n == 0 then ""
    else match Reading(alnum, lines[n - 1])
      case DocLine(text) => JoinDoc(PendingDoc(alnum, lines[..n - 1]), text)
      case ImplLine(_, _) => ""
      case DeclLine(_, _) => ""
      case _ => PendingDoc(alnum, lines[..n - 1])
  }

  /** Line `n` introduces the symbol. */
  predicate SaysSymbol(line: Line, s: Symbol) {
    match line
    case ImplLine(implType, _) => s.kind == Impl && s.name == ImplName(implType)
    case DeclLine(kind, name) => s.kind == kind && s.name == name
    case _ => false
  }

  /** The line introduces the edge, given the symbols declared on earlier lines. */
  predicate SaysEdge(file: string, before: seq<Symbol>, line: Line, e: Edge) {
    e.file == file &&
    match line
    case DocLine(_) => false
    case ImplLine(implType, traitName) =>
      traitName != "" && e.from == ImplName(implType) && e.to == traitName && e.kind == Defines
    case DeclLine(kind, name) =>
      LatestImpl(before) == Some(e.from) && e.to == name && e.kind == if kind == Fn then Contained else Defines
    case UseLine(targets) => e.from == file && e.to in targets && e.kind == Imports
    case CodeLine(callees) => LastFn(before) == Some(e.from) && e.to in callees && !IsKeyword(e.to) && e.kind == Calls
  }

  predicate EdgeSaid(alnum: CharClass, file: string, lines: seq<string>, symbols: seq<Symbol>, e: Edge) {
    1 <= e.line <= |lines| && SaysEdge(file, UpTo(symbols, e.line - 1), Reading(alnum, lines[e.line - 1]), e)
  }

  predicate SymbolSaid(alnum: CharClass, file: string, lines: seq<string>, s: Symbol) {
    && 1 <= s.line <= |lines| && s.file == file && SaysSymbol(Reading(alnum, lines[s.line - 1]), s)
    && s.doc == PendingDoc(alnum, lines[..s.line - 1])
  }

  /** Symbols and edges are exactly what the lines say. */
  ghost predicate Means(alnum: CharClass, file: string, lines: seq<string>, p: Parser) {
    && (forall s :: s in p.symbols <==> SymbolSaid(alnum, file, lines, s))
    && (forall e :: e in p.edges <==> EdgeSaid(alnum, file, lines, p.symbols, e))
    && p.doc == PendingDoc(alnum, lines)
  }

  lemma {:induction false} InCallEdges(from: string, file: string, lineno: nat, callees: seq<string>, e: Edge)
    ensures e in CallEdges(from, file, lineno, callees)
       <==> && e.from == from && e.to in callees && !IsKeyword(e.to)
            && e.kind == Calls && e.file == file && e.line == lineno
  {
    hide IsKeyword;
    var n := |callees|;
    if n > 0 {
      assert callees == callees[..n - 1] + [callees[n - 1]];
      InCallEdges(from, file, lineno, callees[..n - 1], e);
    }
  }

  lemma InImportEdges(file: string, lineno: nat, targets: seq<string>, e: Edge)
    ensures e in ImportEdges(file, lineno, targets)
       <==> e.from == file && e.to in targets && e.kind == Imports && e.file == file && e.line == lineno
  {
    if e.to in targets {
      var k :| 0 <= k < |targets| && targets[k] == e.to;
      assert ImportEdges(file, lineno, targets)[k] == Edge(file, e.to, Imports, file, lineno);
    }
  }

  /** The symbols and edges that one line adds are the ones it says. */
  lemma TakeSays(file: string, p: Parser, n: nat, line: Line, e: Edge)
    requires Sound(file, p, n)
    ensures var q := Take(file, p, n + 1, line);
            e in q.edges <==> e in p.edges || (e.line == n + 1 && SaysEdge(file, p.symbols, line, e))
  {
    hide LatestImpl, LastFn, IsKeyword, CallEdges, ImportEdges, UpTo, EdgeSound;
    match line
    case DocLine(_) =>
    case ImplLine(_, _) =>
    case DeclLine(_, _) =>
    case UseLine(targets) => InImportEdges(file, n + 1, targets, e);
    case CodeLine(callees) =>
      if p.currentFn.Some? { InCallEdges(p.currentFn.value, file, n + 1, callees, e); }
  }

  lemma TakeDeclares(file: string, p: Parser, n: nat, line: Line, s: Symbol)
    ensures var q := Take(file, p, n + 1, line);
            s in q.symbols
            <==> s in p.symbols || (s.line == n + 1 && s.file == file && SaysSymbol(line, s) && s.doc == p.doc)
  {
    hide CallEdges, ImportEdges;
  }

  lemma TakeKeepsDoc(file: string, p: Parser, n: nat, line: Line)
    ensures Take(file, p, n + 1, line).doc
            == match line
               case DocLine(text) => JoinDoc(p.doc, text)
               case ImplLine(_, _) => ""
               case DeclLine(_, _) => ""
               case _ => p.doc
  {
  }

  /** A line leaves the symbols of the lines before it alone. */
  lemma TakeKeepsEarlier(file: string, p: Parser, n: nat, line: Line, k: nat)
    requires Sound(file, p, n) && k <= n
    ensures UpTo(Take(file, p, n + 1, line).symbols, k) == UpTo(p.symbols, k)
    ensures UpTo(p.symbols, n) == p.symbols
  {
    hide LatestImpl, LastFn, EdgeSound, UpTo, CallEdges, ImportEdges, JoinDoc;
    UpToAll(p.symbols, n);
    match line
    case ImplLine(implType, traitName) => UpToSnoc(p.symbols, Symbol(Impl, ImplName(implType), file, n + 1, p.doc), k);
    case DeclLine(kind, name) => UpToSnoc(p.symbols, Symbol(kind, name, file, n + 1, p.doc), k);
    case _ =>
  }

  lemma StepMeans(alnum: CharClass, file: string, lines: seq<string>, raw: string, p: Parser)
    requires Sound(file, p, |lines|) && Means(alnum, file, lines, p)
    ensures Means(alnum, file, lines + [raw], Take(file, p, |lines| + 1, Reading(alnum, raw)))
  {
    hide Sound, Take, Reading, SaysEdge, SaysSymbol, JoinDoc;
    var n, line, more := |lines|, Reading(alnum, raw), lines + [raw];
    var q := Take(file, p, n + 1, line);
    assert more[..n] == lines;
    forall s ensures s in q.symbols <==> SymbolSaid(alnum, file, more, s) {
      TakeDeclares(file, p, n, line, s);
      if 1 <= s.line <= n {
        assert more[s.line - 1] == lines[s.line - 1] && more[..s.line - 1] == lines[..s.line - 1];
      }
      assert s in p.symbols <==> SymbolSaid(alnum, file, lines, s);
    }
    forall e ensures e in q.edges <==> EdgeSaid(alnum, file, more, q.symbols, e) {
      TakeSays(file, p, n, line, e);
      if 1 <= e.line <= n + 1 {
        TakeKeepsEarlier(file, p, n, line, e.line - 1);
        assert e.line <= n ==> more[e.line - 1] == lines[e.line - 1];
      }
      assert e in p.edges <==> EdgeSaid(alnum, file, lines, p.symbols, e);
    }
    TakeKeepsDoc(file, p, n, line);
  }

  /** For every text: a symbol is extracted exactly for each `impl` and each declaration, with the documentation waiting
      for it; an edge exactly where a line says so, its source the function declared last or the `impl` opened last. */
  lemma {:induction false} GraphIsWhatLinesSay(alnum: CharClass, file: string, lines: seq<string>)
    ensures Means(alnum, file, lines, ParseLines(alnum, file, lines))
    decreases |lines|
  {
    hide Means, Take, Reading;
    var n := |lines|;
    if n == 0 {
      NothingSaid(alnum, file);
      assert lines == [];
    } else {
      GraphIsWhatLinesSay(alnum, file, lines[..n - 1]);
      ParsedGraphIsSound(alnum, file, lines[..n - 1]);
      StepMeans(alnum, file, lines[..n - 1], lines[n - 1], ParseLines(alnum, file, lines[..n - 1]));
      assert lines == lines[..n - 1] + [lines[n - 1]];
    }
  }

  lemma NothingSaid(alnum: CharClass, file: string)
    ensures Means(alnum, file, [], Fresh())
  {
  }
}
