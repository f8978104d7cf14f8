/** Extraction of symbols and relations from source text (`crates/core/src/ckg.rs`, `parse_source`). Unicode's
    alphanumeric class is a parameter. */
module CkgParse {
  import opened Text

  datatype SymbolKind = Mod | Fn | Struct | Impl | Trait

  datatype Symbol = Symbol(kind: SymbolKind, name: string, file: string, line: nat, doc: string)

  datatype EdgeKind = Calls | Defines | Imports | Contained

  datatype Edge = Edge(from: string, to: string, kind: EdgeKind, file: string, line: nat)

  type CharClass = char -> bool

  // ---------------------------------------------------------------- declarations

  predicate EndsWordBefore(c: char) { c == ' ' || c == '\t' || c == '(' || c == '\n' }

  predicate EndsWordAfter(c: char) { c == ' ' || c == '\t' || c == '<' || c == '(' }

  /** `kw` stands at `p` as a word of its own. */
  predicate Standalone(line: string, kw: string, p: nat) {
    && OccursAt(line, kw, p)
    && (p == 0 || EndsWordBefore(line[p - 1]))
    && (p + |kw| == |line| || EndsWordAfter(line[p + |kw|]))
  }

  function FirstStandalone(line: string, kw: string, from: nat): (r: Option<nat>)
    requires from <= |line|
    ensures r.Some? ==> from <= r.value && Standalone(line, kw, r.value)
    ensures forall q :: from <= q < (if r.Some? then r.value else |line| + 1) ==> !Standalone(line, kw, q)
    decreases |line| - from
  {
    if Standalone(line, kw, from) then Some(from)
    else if from == |line| then None
    else FirstStandalone(line, kw, from + 1)
  }

  /** The leading identifier characters. */
  function Ident(alnum: CharClass, s: string): (r: string)
    ensures r <= s
  {
    if s != "" && (alnum(s[0]) || s[0] == '_') then [s[0]] + Ident(alnum, s[1..]) else ""
  }

  /** The identifier after a keyword that ends at `end`; one `<` is skipped. */
  function IdentAfter(alnum: CharClass, line: string, end: nat): Option<string>
    requires end <= |line|
  {
    var rest := match StripPrefix(line[end..], "<") case None => line[end..] case Some(inner) => inner;
    var ident := Ident(alnum, TrimStart(rest));
    if ident == "" then None else Some(ident)
  }

  /** What `decl_name` looks for: the identifier after the first standalone occurrence of the keyword. */
  function DeclName(alnum: CharClass, line: string, kw: string): Option<string> {
    match FirstStandalone(line, kw, 0)
    case None => None
    case Some(p) => IdentAfter(alnum, line, p + |kw|)
  }

  /** An occurrence overlapping an earlier one is never standalone: the character before it is part of the keyword. */
  lemma OverlapIsNotStandalone(line: string, kw: string, p: nat, q: nat)
    requires OccursAt(line, kw, p) && p < q < p + |kw| && forall c <- kw :: !EndsWordBefore(c)
    ensures !Standalone(line, kw, q)
  {
    assert line[p..p + |kw|][q - 1 - p] == line[q - 1] == kw[q - 1 - p];
  }

  /** `decl_name`: jumps from occurrence to occurrence. */
  method FindDecl(alnum: CharClass, line: string, kw: string) returns (ident: Option<string>)
    requires kw != "" && forall c <- kw :: !EndsWordBefore(c)
    ensures ident == DeclName(alnum, line, kw)
  {
    hide Find, FirstStandalone, OccursAt, IdentAfter;
    var pos := 0;
    while true
      invariant pos <= |line|
      invariant FirstStandalone(line, kw, 0) == FirstStandalone(line, kw, pos)
      decreases |line| - pos
    {
      var found := Find(line, kw, pos);
      NextOccurrence(line, kw, pos);
      if found.None? {
        return None;
      }
      var at := found.value;
      var after := at + |kw|;
      if at > 0 {
        var c := line[at - 1];
        if !(c == ' ' || c == '\t' || c == '(' || c == '\n') {
          SkipOccurrence(line, kw, at);
          pos := after;
          continue;
        }
      }
      if after < |line| {
        var c := line[after];
        if !(c == ' ' || c == '\t' || c == '<' || c == '(') {
          SkipOccurrence(line, kw, at);
          pos := after;
          continue;
        }
      }
      StandaloneHere(line, kw, at);
      return IdentAfter(alnum, line, after);
    }
  }

  lemma NextOccurrence(line: string, kw: string, pos: nat)
    requires pos <= |line|
    ensures match Find(line, kw, pos)
            case None => FirstStandalone(line, kw, pos) == None
            case Some(at) => at + |kw| <= |line| && OccursAt(line, kw, at)
                             && FirstStandalone(line, kw, pos) == FirstStandalone(line, kw, at)
  {
    var found := Find(line, kw, pos);
    if found.None? {
      NoOccurrenceNoDecl(line, kw, pos);
    } else {
      SkipTo(line, kw, pos, found.value);
    }
  }

  lemma StandaloneHere(line: string, kw: string, at: nat)
    requires at <= |line| && Standalone(line, kw, at)
    ensures FirstStandalone(line, kw, at) == Some(at)
  {
  }

  lemma SkipTo(line: string, kw: string, pos: nat, at: nat)
    requires pos <= at <= |line| && forall q :: pos <= q < at ==> !Standalone(line, kw, q)
    ensures FirstStandalone(line, kw, pos) == FirstStandalone(line, kw, at)
    decreases at - pos
  {
    if pos < at { SkipTo(line, kw, pos + 1, at); }
  }

  lemma SkipOccurrence(line: string, kw: string, at: nat)
    requires OccursAt(line, kw, at) && !Standalone(line, kw, at) && kw != "" && forall c <- kw :: !EndsWordBefore(c)
    ensures FirstStandalone(line, kw, at) == FirstStandalone(line, kw, at + |kw|)
  {
    forall q | at < q < at + |kw| ensures !Standalone(line, kw, q) {
      OverlapIsNotStandalone(line, kw, at, q);
    }
    SkipTo(line, kw, at, at + |kw|);
  }

  lemma NoOccurrenceNoDecl(line: string, kw: string, pos: nat)
    requires pos <= |line| && forall q :: pos <= q <= |line| ==> !OccursAt(line, kw, q)
    ensures FirstStandalone(line, kw, pos) == None
  {
    var r := FirstStandalone(line, kw, pos);
    assert r.Some? ==> OccursAt(line, kw, r.value);
  }

  // ---------------------------------------------------------------- call sites

  predicate IsKeyword(w: string) {
    w in ["if", "for", "while", "loop", "match", "return", "let", "fn", "struct", "impl", "trait", "mod", "use",
          "const", "static", "async", "await", "move", "ref", "where", "as", "unsafe", "mut", "pub", "self", "Self",
          "crate", "super", "dyn", "enum", "type", "in", "do", "else", "break", "continue", "true", "false"]
  }

  predicate IsIdentStart(c: char) { 'a' <= c <= 'z' || 'A' <= c <= 'Z' || c == '_' }

  predicate IsIdentContinue(c: char) { IsIdentStart(c) || IsDigit(c) }

  function WordLen(s: string): (n: nat)
    ensures n <= |s|
  {
    if s != "" && IsIdentContinue(s[0]) then 1 + WordLen(s[1..]) else 0
  }

  function BlankLen(s: string): (n: nat)
    ensures n <= |s|
  {
    if s != "" && (s[0] == ' ' || s[0] == '\t') then 1 + BlankLen(s[1..]) else 0
  }

  /** Whether the first character after blanks is an opening parenthesis. */
  predicate OpensCall(s: string) {
    BlankLen(s) < |s| && s[BlankLen(s)] == '('
  }

  /** The identifiers followed by `(`, in order. */
  function CallSites(s: string): seq<string>
    decreases |s|
  {
    if s == "" then []
    else if IsIdentStart(s[0]) then
      var n := WordLen(s);
      (if OpensCall(s[n..]) then [s[..n]] else []) + CallSites(s[n..])
    else CallSites(s[1..])
  }

  /** One turn of the scan. */
  lemma CallTurn(line: string, i: nat)
    requires i < |line|
    ensures var n := WordLen(line[i..]);
            CallSites(line[i..])
            == if !IsIdentStart(line[i]) then CallSites(line[i + 1..])
               else (if OpensCall(line[i + n..]) then [line[i..i + n]] else []) + CallSites(line[i + n..])
    ensures IsIdentStart(line[i]) ==> WordLen(line[i..]) > 0
  {
    var s := line[i..];
    var n := WordLen(s);
    assert s != "" && s[0] == line[i];
    assert IsIdentStart(s[0]) ==> n > 0;
    assert s[1..] == line[i + 1..] && s[..n] == line[i..i + n] && s[n..] == line[i + n..];
  }

  /** `collect_calls`, by index. */
  method CollectCalls(line: string) returns (out: seq<string>)
    ensures out == CallSites(line)
  {
    hide CallSites, WordLen, BlankLen, IsIdentStart;
    out := [];
    var i := 0;
    assert line[0..] == line;
    while i < |line|
      invariant i <= |line|
      invariant CallSites(line) == out + CallSites(line[i..])
    {
      CallTurn(line, i);
      if IsIdentStart(line[i]) {
        var start := i;
        i := ScanWhile(line, i, true);
        var j := ScanWhile(line, i, false);
        assert j < |line| && line[j] == '(' <==> OpensCall(line[i..]);
        if j < |line| && line[j] == '(' {
          out := out + [line[start..i]];
        }
      } else {
        i := i + 1;
      }
    }
    assert line[i..] == "";
    NoCalls();
  }

  lemma NoCalls()
    ensures CallSites("") == []
  {
  }

  /** Skips identifier characters, or blanks, from `i` on. */
  method ScanWhile(line: string, i: nat, word: bool) returns (j: nat)
    requires i <= |line|
    ensures i <= j <= |line| && j - i == if word then WordLen(line[i..]) else BlankLen(line[i..])
  {
    j := i;
    while j < |line| && (if word then IsIdentContinue(line[j]) else line[j] == ' ' || line[j] == '\t')
      invariant i <= j <= |line|
      invariant WordLen(line[i..]) == (if word then j - i + WordLen(line[j..]) else WordLen(line[i..]))
      invariant BlankLen(line[i..]) == (if word then BlankLen(line[i..]) else j - i + BlankLen(line[j..]))
    {
      assert line[j..][1..] == line[j + 1..];
      j := j + 1;
    }
  }

  // ---------------------------------------------------------------- imports

  function Split(s: string, sep: char): (parts: seq<string>)
    ensures parts != []
  {
    if s == "" then [""]
    else
      var rest := Split(s[1..], sep);
      if s[0] == sep then [""] + rest else [[s[0]] + rest[0]] + rest[1..]
  }

  /** The part after the last `::` that starts at `end` or before. */
  function LastSegment(s: string, end: nat): string
    requires end <= |s|
    decreases end
  {
    if OccursAt(s, "::", end) then s[end + 2..] else if end == 0 then s else LastSegment(s, end - 1)
  }

  /** The text before the first white space. */
  function UntilBlank(s: string): string {
    if s != "" && !IsWhitespace(s[0]) then [s[0]] + UntilBlank(s[1..]) else ""
  }

  function FirstWord(s: string): string {
    UntilBlank(TrimStart(s))
  }

  /** The non-empty names between the braces, aliases dropped. */
  function Names(parts: seq<string>): seq<string> {
    if parts == [] then []
    else
      var word := FirstWord(parts[|parts| - 1]);
      Names(parts[..|parts| - 1]) + if word == "" then [] else [word]
  }

  function UseBody(line: string): string {
    var trimmed := Trim(line);
    var body := match StripPrefix(trimmed, "use ") case None => trimmed case Some(rest) => rest;
    Trim(match StripSuffix(body, ";") case None => body case Some(rest) => rest)
  }

  function UseTargets(line: string): seq<string> {
    var body := UseBody(line);
    match Find(body, "{", 0)
    case Some(i) => Names(Split(Split(body[i + 1..], '}')[0], ','))
    case None =>
      var segment := Trim(LastSegment(body, |body|));
      if segment == "" then [] else [segment]
  }

  /** `parse_use_targets`. */
  method ParseUseTargets(line: string) returns (out: seq<string>)
    ensures out == UseTargets(line)
  {
    hide UseBody, Find, Split, FirstWord, LastSegment;
    var body := UseBody(line);
    out := [];
    var brace := Find(body, "{", 0);
    if brace.Some? {
      var parts := Split(Split(body[brace.value + 1..], '}')[0], ',');
      for k := 0 to |parts|
        invariant out == Names(parts[..k])
      {
        assert parts[..k + 1][..k] == parts[..k];
        var word := FirstWord(parts[k]);
        if word != "" {
          out := out + [word];
        }
      }
      assert parts[..|parts|] == parts;
      return;
    }
    var segment := Trim(LastSegment(body, |body|));
    if segment != "" {
      out := out + [segment];
    }
  }

  // ---------------------------------------------------------------- one line after another

  /** What the walk over the lines carries along. */
  datatype Parser = Parser(
    symbols: seq<Symbol>, edges: seq<Edge>, doc: string, currentFn: Option<string>, currentImpl: Option<string>)

  function Fresh(): Parser { Parser([], [], "", None, None) }

  function JoinDoc(doc: string, text: string): string {
    (if doc == "" then "" else doc + " ") + Trim(text)
  }

  /** The implemented type and, for `impl Trait for Type`, the trait. */
  function ImplNames(alnum: CharClass, raw: string): (string, string) {
    match Find(raw, " for ", 0)
    case Some(pos) =>
      var head := match StripPrefix(TrimStart(raw[..pos]), "impl") case None => "" case Some(rest) => rest;
      (Ident(alnum, TrimStart(raw[pos + 5..])), Ident(alnum, TrimStart(head)))
    case None =>
      (match DeclName(alnum, raw, "impl") case None => "" case Some(name) => name, "")
  }

  function ImplName(t: string): string { "impl " + t }

  function OpenImpl(p: Parser, file: string, lineno: nat, implType: string, traitName: string): Parser {
    Parser(
      p.symbols + [Symbol(Impl, ImplName(implType), file, lineno, p.doc)],
      p.edges + if traitName == "" then [] else [Edge(ImplName(implType), traitName, Defines, file, lineno)],
      "", None, Some(implType))
  }

  /** The relation to the enclosing `impl`, if there is one. */
  function FromImpl(p: Parser, file: string, lineno: nat, name: string, kind: EdgeKind): seq<Edge> {
    match p.currentImpl case None => [] case Some(t) => [Edge(ImplName(t), name, kind, file, lineno)]
  }

  function Declare(p: Parser, file: string, lineno: nat, kind: SymbolKind, name: string): Parser {
    Parser(
      p.symbols + [Symbol(kind, name, file, lineno, p.doc)],
      p.edges + FromImpl(p, file, lineno, name, if kind == Fn then Contained else Defines),
      "", if kind == Fn then Some(name) else None, p.currentImpl)
  }

  /** A `struct`, else a `trait`, else a `mod` declared on the line. */
  function Declared(alnum: CharClass, raw: string): Option<(SymbolKind, string)> {
    match DeclName(alnum, raw, "struct")
    case Some(name) => Some((Struct, name))
    case None =>
      match DeclName(alnum, raw, "trait")
      case Some(name) => Some((Trait, name))
      case None => match DeclName(alnum, raw, "mod") case Some(name) => Some((Mod, name)) case None => None
  }

  function ImportEdges(file: string, lineno: nat, targets: seq<string>): seq<Edge> {
    seq(|targets|, i requires 0 <= i < |targets| => Edge(file, targets[i], Imports, file, lineno))
  }

  function CallEdges(from: string, file: string, lineno: nat, callees: seq<string>): seq<Edge> {
    if callees == [] then []
    else
      var last := callees[|callees| - 1];
      CallEdges(from, file, lineno, callees[..|callees| - 1])
      + if IsKeyword(last) then [] else [Edge(from, last, Calls, file, lineno)]
  }

  /** What a line is, tried in the order of the source. */
  datatype Line =
    | DocLine(text: string)
    | ImplLine(implType: string, traitName: string)
    | DeclLine(kind: SymbolKind, name: string)
    | UseLine(targets: seq<string>)
    | CodeLine(callees: seq<string>)

  function Reading(alnum: CharClass, raw: string): Line {
    var trimmed := TrimStart(raw);
    var names := if "impl" <= trimmed then ImplNames(alnum, raw) else ("", "");
    if "///" <= trimmed then DocLine(trimmed[3..])
    else if names.0 != "" then ImplLine(names.0, names.1)
    else match Declared(alnum, raw)
      case Some(declared) => DeclLine(declared.0, declared.1)
      case None =>
        match DeclName(alnum, raw, "fn")
        case Some(name) => DeclLine(Fn, name)
        case None => if "use " <= trimmed then UseLine(UseTargets(raw)) else CodeLine(CallSites(raw))
  }

  function Take(file: string, p: Parser, lineno: nat, line: Line): Parser {
    match line
    case DocLine(text) => p.(doc := JoinDoc(p.doc, text))
    case ImplLine(implType, traitName) => OpenImpl(p, file, lineno, implType, traitName)
    case DeclLine(kind, name) => Declare(p, file, lineno, kind, name)
    case UseLine(targets) => p.(edges := p.edges + ImportEdges(file, lineno, targets))
    case CodeLine(callees) =>
      if p.currentFn.None? then p else p.(edges := p.edges + CallEdges(p.currentFn.value, file, lineno, callees))
  }

  function ParseLine(alnum: CharClass, file: string, p: Parser, lineno: nat, raw: string): Parser {
    Take(file, p, lineno, Reading(alnum, raw))
  }

  function ParseLines(alnum: CharClass, file: string, lines: seq<string>): Parser {
    var n := |lines|;
    if n == 0 then Fresh() else ParseLine(alnum, file, ParseLines(alnum, file, lines[..n - 1]), n, lines[n - 1])
  }

  lemma KeywordsAreWords()
    ensures forall kw, c | kw in ["struct", "trait", "mod", "fn"] && c in kw :: kw != "" && !EndsWordBefore(c)
  {
  }

  /** The body of the walk, with the line scanners run by index. */
  method ParseOneLine(alnum: CharClass, file: string, p: Parser, lineno: nat, raw: string) returns (next: Parser)
    ensures next == ParseLine(alnum, file, p, lineno, raw)
  {
    hide DeclName, UseTargets, CallSites, TrimStart, Trim, ImplNames, JoinDoc, OpenImpl, Declare, IsKeyword;
    KeywordsAreWords();
    var trimmed := TrimStart(raw);
    if "///" <= trimmed {
      return p.(doc := JoinDoc(p.doc, trimmed[3..]));
    }
    if "impl" <= trimmed {
      var names := ImplNames(alnum, raw);
      if names.0 != "" {
        return OpenImpl(p, file, lineno, names.0, names.1);
      }
    }
    var structName := FindDecl(alnum, raw, "struct");
    var traitName := FindDecl(alnum, raw, "trait");
    var modName := FindDecl(alnum, raw, "mod");
    if structName.Some? || traitName.Some? || modName.Some? {
      var kind := if structName.Some? then Struct else if traitName.Some? then Trait else Mod;
      var name :=
        if structName.Some? then structName.value else if traitName.Some? then traitName.value else modName.value;
      return Declare(p, file, lineno, kind, name);
    }
    var fnName := FindDecl(alnum, raw, "fn");
    if fnName.Some? {
      return Declare(p, file, lineno, Fn, fnName.value);
    }
    if "use " <= trimmed {
      var targets := ParseUseTargets(raw);
      return p.(edges := p.edges + ImportEdges(file, lineno, targets));
    }
    next := p;
    if p.currentFn.Some? {
      var callees := CollectCalls(raw);
      for k := 0 to |callees|
        invariant next == p.(edges := p.edges + CallEdges(p.currentFn.value, file, lineno, callees[..k]))
      {
        assert callees[..k + 1][..k] == callees[..k];
        if !IsKeyword(callees[k]) {
          next := next.(edges := next.edges + [Edge(p.currentFn.value, callees[k], Calls, file, lineno)]);
        }
      }
      assert callees[..|callees|] == callees;
    }
  }

  /** `parse_source`. */
  method ParseSource(alnum: CharClass, file: string, content: string) returns (symbols: seq<Symbol>, edges: seq<Edge>)
    ensures var p := ParseLines(alnum, file, Lines(content)); symbols == p.symbols && edges == p.edges
  {
    hide ParseLine, Lines;
    var lines, p := Lines(content), Fresh();
    for i := 0 to |lines|
      invariant p == ParseLines(alnum, file, lines[..i])
    {
      assert lines[..i + 1][..i] == lines[..i];
      p := ParseOneLine(alnum, file, p, i + 1, lines[i]);
    }
    assert lines[..|lines|] == lines;
    symbols, edges := p.symbols, p.edges;
  }

  // ---------------------------------------------------------------- the graph is well formed

  /** The symbols declared up to a line. */
  function UpTo(symbols: seq<Symbol>, line: nat): (r: seq<Symbol>)
    ensures r <= symbols
  {
    var n := |symbols|;
    if n == 0 || symbols[n - 1].line <= line then symbols else UpTo(symbols[..n - 1], line)
  }

  /** Name of the latest `impl`. */
  function LatestImpl(symbols: seq<Symbol>): Option<string> {
    var n := |symbols|;
    if n == 0 then None
    else if symbols[n - 1].kind == Impl then Some(symbols[n - 1].name)
    else LatestImpl(symbols[..n - 1])
  }

  /** Name of the last symbol, if that is a function. */
  function LastFn(symbols: seq<Symbol>): Option<string> {
    if symbols != [] && symbols[|symbols| - 1].kind == Fn then Some(symbols[|symbols| - 1].name) else None
  }

  /** Where an edge may start: a call at the function declared last, on an earlier line; a definition or containment
      at the `impl` opened last; an import at the file. */
  predicate EdgeSound(file: string, symbols: seq<Symbol>, e: Edge) {
    var before := UpTo(symbols, e.line);
    match e.kind
    case Calls => LastFn(before) == Some(e.from) && before[|before| - 1].line < e.line
    case Defines => LatestImpl(before) == Some(e.from)
    case Contained => LatestImpl(before) == Some(e.from)
    case Imports => e.from == file
  }

  predicate SymbolsInOrder(file: string, symbols: seq<Symbol>, n: nat) {
    && (forall s <- symbols :: s.file == file && 1 <= s.line <= n)
    && (forall i, j :: 0 <= i < j < |symbols| ==> symbols[i].line < symbols[j].line)
  }

  /** What holds after `n` lines. */
  predicate Sound(file: string, p: Parser, n: nat) {
    && SymbolsInOrder(file, p.symbols, n)
    && (forall e <- p.edges :: e.file == file && 1 <= e.line <= n && EdgeSound(file, p.symbols, e))
    && LatestImpl(p.symbols) == (match p.currentImpl case None => None case Some(t) => Some(ImplName(t)))
    && p.currentFn == LastFn(p.symbols)
  }

  lemma UpToSnoc(symbols: seq<Symbol>, s: Symbol, line: nat)
    ensures UpTo(symbols + [s], line) == if s.line <= line then symbols + [s] else UpTo(symbols, line)
  {
    assert (symbols + [s])[..|symbols|] == symbols;
  }

  lemma LatestImplSnoc(symbols: seq<Symbol>, s: Symbol)
    ensures LatestImpl(symbols + [s]) == if s.kind == Impl then Some(s.name) else LatestImpl(symbols)
  {
    assert (symbols + [s])[..|symbols|] == symbols;
  }

  lemma UpToAll(symbols: seq<Symbol>, line: nat)
    requires forall s <- symbols :: s.line <= line
    ensures UpTo(symbols, line) == symbols
  {
  }

  /** A symbol on the next line changes nothing for the edges before it. */
  lemma AddSymbol(file: string, p: Parser, n: nat, s: Symbol)
    requires Sound(file, p, n) && s.file == file && s.line == n + 1
    ensures SymbolsInOrder(file, p.symbols + [s], n + 1)
    ensures forall e <- p.edges :: EdgeSound(file, p.symbols + [s], e)
    ensures UpTo(p.symbols + [s], n + 1) == p.symbols + [s]
  {
    hide LatestImpl;
    forall e | e in p.edges ensures EdgeSound(file, p.symbols + [s], e) {
      UpToSnoc(p.symbols, s, e.line);
    }
    UpToSnoc(p.symbols, s, n + 1);
  }

  lemma CallEdgesShape(from: string, file: string, lineno: nat, callees: seq<string>)
    ensures forall e <- CallEdges(from, file, lineno, callees) ::
              e.from == from && e.kind == Calls && e.file == file && e.line == lineno
  {
  }

  lemma OpenImplSound(file: string, p: Parser, n: nat, implType: string, traitName: string)
    requires Sound(file, p, n)
    ensures Sound(file, OpenImpl(p, file, n + 1, implType, traitName), n + 1)
  {
    hide EdgeSound;
    var s := Symbol(Impl, ImplName(implType), file, n + 1, p.doc);
    AddSymbol(file, p, n, s);
    LatestImplSnoc(p.symbols, s);
    ImplEdgeSound(file, p.symbols + [s], Edge(ImplName(implType), traitName, Defines, file, n + 1));
  }

  lemma ImplEdgeSound(file: string, symbols: seq<Symbol>, e: Edge)
    requires UpTo(symbols, e.line) == symbols && LatestImpl(symbols) == Some(e.from)
        && (e.kind == Defines || e.kind == Contained)
    ensures EdgeSound(file, symbols, e)
  {
  }

  lemma DeclareSound(file: string, p: Parser, n: nat, kind: SymbolKind, name: string)
    requires Sound(file, p, n) && kind != Impl
    ensures Sound(file, Declare(p, file, n + 1, kind, name), n + 1)
  {
    hide EdgeSound, LatestImpl, UpTo;
    var s := Symbol(kind, name, file, n + 1, p.doc);
    AddSymbol(file, p, n, s);
    LatestImplSnoc(p.symbols, s);
    if p.currentImpl.Some? {
      ImplEdgeSound(file, p.symbols + [s],
                    Edge(ImplName(p.currentImpl.value), name, if kind == Fn then Contained else Defines, file, n + 1));
    }
  }

  lemma CallsSound(file: string, p: Parser, n: nat, callees: seq<string>)
    requires Sound(file, p, n) && p.currentFn.Some?
    ensures Sound(file, p.(edges := p.edges + CallEdges(p.currentFn.value, file, n + 1, callees)), n + 1)
  {
    CallEdgesShape(p.currentFn.value, file, n + 1, callees);
    UpToAll(p.symbols, n + 1);
  }

  lemma TakeSound(file: string, p: Parser, n: nat, line: Line)
    requires Sound(file, p, n) && !(line.DeclLine? && line.kind == Impl)
    ensures Sound(file, Take(file, p, n + 1, line), n + 1)
  {
    hide Sound, OpenImpl, Declare, CallEdges, ImportEdges, JoinDoc;
    match line
    case DocLine(text) => QuietSound(file, p, n, JoinDoc(p.doc, text), []);
    case ImplLine(implType, traitName) => OpenImplSound(file, p, n, implType, traitName);
    case DeclLine(kind, name) => DeclareSound(file, p, n, kind, name);
    case UseLine(targets) => QuietSound(file, p, n, "", targets);
    case CodeLine(callees) =>
      QuietSound(file, p, n, "", []);
      if p.currentFn.Some? { CallsSound(file, p, n, callees); }
  }

  lemma QuietSound(file: string, p: Parser, n: nat, doc: string, targets: seq<string>)
    requires Sound(file, p, n)
    ensures Sound(file, p.(doc := doc), n + 1) && Sound(file, p, n + 1)
    ensures Sound(file, p.(edges := p.edges + ImportEdges(file, n + 1, targets)), n + 1)
  {
    hide LatestImpl, UpTo, LastFn;
  }

  /** A declaration read from a line is never an `impl`. */
  lemma ReadingKinds(alnum: CharClass, raw: string)
    ensures var line := Reading(alnum, raw); !(line.DeclLine? && line.kind == Impl)
  {
    hide DeclName, UseTargets, CallSites, TrimStart, ImplNames;
  }

  /** For every text: symbols come on strictly increasing lines, and every edge starts where it may. */
  lemma {:induction false} ParsedGraphIsSound(alnum: CharClass, file: string, lines: seq<string>)
    ensures Sound(file, ParseLines(alnum, file, lines), |lines|)
    decreases |lines|
  {
    hide Sound, Take, Reading;
    var n := |lines|;
    if n == 0 {
      FreshSound(file);
    } else {
      ParsedGraphIsSound(alnum, file, lines[..n - 1]);
      ReadingKinds(alnum, lines[n - 1]);
      TakeSound(file, ParseLines(alnum, file, lines[..n - 1]), n - 1, Reading(alnum, lines[n - 1]));
    }
  }

  lemma FreshSound(file: string)
    ensures Sound(file, Fresh(), 0)
  {
  }

  lemma LatestImplIsThere(symbols: seq<Symbol>)
    ensures LatestImpl(symbols).Some? ==> exists s :: s in symbols && s.name == LatestImpl(symbols).value
  {
    var n := |symbols|;
    if n > 0 {
      if symbols[n - 1].kind == Impl {
        assert symbols[n - 1] in symbols;
      } else {
        LatestImplIsThere(symbols[..n - 1]);
      }
    }
  }

  /** Every edge but an import starts at the name of an extracted symbol. */
  lemma SourcesResolve(alnum: CharClass, file: string, lines: seq<string>, e: Edge)
    requires e in ParseLines(alnum, file, lines).edges && e.kind != Imports
    ensures exists s :: s in ParseLines(alnum, file, lines).symbols && s.name == e.from
  {
    hide ParseLines, LatestImpl;
    var p := ParseLines(alnum, file, lines);
    ParsedGraphIsSound(alnum, file, lines);
    var before := UpTo(p.symbols, e.line);
    LatestImplIsThere(before);
    if e.kind == Calls {
      assert before[|before| - 1] in p.symbols;
    }
  }
}
