/** The bracket matcher (`scripts/ci/rs_static_check.py`, `check_delimiters`) against the grammar
    S = empty | ( S ) S | [ S ] S | { S } S. */
module Delimiters {
  import Lexer
  import LexerCoverage
  import LexerGrammar
  import LexerReading

  datatype Kind = Round | Square | Curly

  function Open(kind: Kind): char {
    match kind case Round => '(' case Square => '[' case Curly => '{'
  }

  function Close(kind: Kind): char {
    match kind case Round => ')' case Square => ']' case Curly => '}'
  }

  datatype Bracket = Opening(kind: Kind) | Closing(kind: Kind) | Other

  function Classify(c: char): Bracket {
    match c
    case '(' => Opening(Round)
    case '[' => Opening(Square)
    case '{' => Opening(Curly)
    case ')' => Closing(Round)
    case ']' => Closing(Square)
    case '}' => Closing(Curly)
    case _ => Other
  }

  lemma ClassifyExact(c: char, kind: Kind)
    ensures Classify(c) == Opening(kind) <==> c == Open(kind)
    ensures Classify(c) == Closing(kind) <==> c == Close(kind)
  {
  }

  /** An opening bracket waiting for its partner. */
  datatype Mark = Mark(kind: Kind, line: nat)

  datatype Diagnostic = Extra(kind: Kind, line: nat) | Mismatch(kind: Kind, line: nat, open: Mark)
      | Unclosed(open: Mark)

  function Leftover(stack: seq<Mark>): seq<Diagnostic> {
    seq(|stack|, i requires 0 <= i < |stack| => Unclosed(stack[i]))
  }

  /** What one character does to the stack, the line count and the diagnostics. */
  datatype Matcher = Matcher(stack: seq<Mark>, line: nat, errs: seq<Diagnostic>)

  function Step(m: Matcher, c: char): Matcher {
    if c == '\n' then m.(line := m.line + 1)
    else match Classify(c)
      case Opening(kind) => m.(stack := m.stack + [Mark(kind, m.line)])
      case Closing(kind) =>
        if m.stack == [] then m.(errs := m.errs + [Extra(kind, m.line)])
        else
          var top := m.stack[|m.stack| - 1];
          var popped := m.(stack := m.stack[..|m.stack| - 1]);
          if top.kind != kind then popped.(errs := m.errs + [Mismatch(kind, m.line, top)]) else popped
      case Other => m
  }

  function Run(m: Matcher, code: string): Matcher
    decreases |code|
  {
    if code == "" then m else Run(Step(m, code[0]), code[1..])
  }

  function Report(m: Matcher): seq<Diagnostic> {
    m.errs + Leftover(m.stack)
  }

  function Check(code: string): seq<Diagnostic> {
    Report(Run(Matcher([], 1, []), code))
  }

  /** `check_delimiters`. */
  method CheckDelimiters(code: string) returns (errs: seq<Diagnostic>)
    ensures errs == Check(code)
  {
    errs := [];
    var stack: seq<Mark> := [];
    var line: nat := 1;
    assert code[0..] == code;
    for i := 0 to |code|
      invariant Run(Matcher([], 1, []), code) == Run(Matcher(stack, line, errs), code[i..])
    {
      assert code[i..][1..] == code[i + 1..];
      var ch := code[i];
      if ch == '\n' {
        line := line + 1;
      } else {
        match Classify(ch)
        case Opening(kind) =>
          stack := stack + [Mark(kind, line)];
        case Closing(kind) =>
          if stack == [] {
            errs := errs + [Extra(kind, line)];
          } else {
            var top := stack[|stack| - 1];
            if top.kind != kind {
              errs := errs + [Mismatch(kind, line, top)];
            }
            stack := stack[..|stack| - 1];
          }
        case Other =>
      }
    }
    ghost var scanned := errs;
    for k := 0 to |stack|
      invariant errs == scanned + Leftover(stack[..k])
    {
      assert Leftover(stack[..k + 1]) == Leftover(stack[..k]) + [Unclosed(stack[k])];
      errs := errs + [Unclosed(stack[k])];
    }
    assert stack[..|stack|] == stack;
  }

  // ---------------------------------------------------------------- the grammar

  datatype Tree = Empty | Pair(kind: Kind, inside: Tree, after: Tree)

  function Yield(t: Tree): string {
    match t
    case Empty => ""
    case Pair(kind, inside, after) => [Open(kind)] + Yield(inside) + [Close(kind)] + Yield(after)
  }

  /** The brackets of a text, in order. */
  function Brackets(code: string): string {
    if code == "" then ""
    else (if Classify(code[0]) == Other then "" else [code[0]]) + Brackets(code[1..])
  }

  /** Whether `b` closes exactly the brackets on `stack`, innermost last, and everything it opens itself. */
  predicate Closes(b: string, stack: seq<Kind>) {
    if b == "" then stack == []
    else match Classify(b[0])
      case Opening(kind) => Closes(b[1..], stack + [kind])
      case Closing(kind) =>
        stack != [] && stack[|stack| - 1] == kind && Closes(b[1..], stack[..|stack| - 1])
      case Other => false
  }

  function Kinds(stack: seq<Mark>): seq<Kind> {
    seq(|stack|, i requires 0 <= i < |stack| => stack[i].kind)
  }

  lemma {:induction false} ErrorsStay(m: Matcher, code: string)
    ensures m.errs <= Run(m, code).errs
    decreases |code|
  {
    if code != "" { ErrorsStay(Step(m, code[0]), code[1..]); }
  }

  lemma {:induction false} SilentIffCloses(m: Matcher, code: string)
    requires m.errs == []
    ensures Report(Run(m, code)) == [] <==> Closes(Brackets(code), Kinds(m.stack))
    decreases |code|
  {
    if code != "" {
      var next, rest := Step(m, code[0]), Brackets(code[1..]);
      var n := |m.stack|;
      assert Classify(code[0]) == Other ==> Brackets(code) == rest;
      assert Classify(code[0]) != Other ==> Brackets(code)[0] == code[0] && Brackets(code)[1..] == rest;
      assert Classify(code[0]).Opening? ==> Kinds(next.stack) == Kinds(m.stack) + [Classify(code[0]).kind];
      assert n > 0 ==> Kinds(m.stack[..n - 1]) == Kinds(m.stack)[..n - 1];
      if next.errs == [] {
        SilentIffCloses(next, code[1..]);
      } else {
        ErrorsStay(next, code[1..]);
        assert Run(m, code).errs != [];
      }
    }
  }

  /** A balanced text leaves the stack as it was. */
  lemma {:induction false} TreeIsNeutral(t: Tree, rest: string, stack: seq<Kind>)
    ensures Closes(Yield(t) + rest, stack) <==> Closes(rest, stack)
    decreases t
  {
    match t
    case Empty => assert Yield(t) + rest == rest;
    case Pair(kind, inside, after) =>
      var outer := Yield(after) + rest;
      var closing := [Close(kind)] + outer;
      assert Yield(t) + rest == [Open(kind)] + (Yield(inside) + closing);
      OpenThenClose(kind, Yield(inside) + closing, outer, stack);
      TreeIsNeutral(inside, closing, stack + [kind]);
      TreeIsNeutral(after, rest, stack);
  }

  lemma OpenThenClose(kind: Kind, inner: string, outer: string, stack: seq<Kind>)
    ensures Closes([Open(kind)] + inner, stack) <==> Closes(inner, stack + [kind])
    ensures Closes([Close(kind)] + outer, stack + [kind]) <==> Closes(outer, stack)
  {
    ClassifyExact(Open(kind), kind);
    ClassifyExact(Close(kind), kind);
    hide Classify, Open, Close;
    assert ([Open(kind)] + inner)[1..] == inner && ([Close(kind)] + outer)[1..] == outer;
    assert (stack + [kind])[..|stack|] == stack;
  }

  /** The text that finishes `stack`: `trees` stand before, between and after the closing brackets, the
      innermost tree last. */
  function Finish(stack: seq<Kind>, trees: seq<Tree>): string
    requires |trees| == |stack| + 1
    decreases |stack|, 1
  {
    Yield(trees[|stack|]) + Outside(stack, trees[..|stack|])
  }

  function Outside(stack: seq<Kind>, trees: seq<Tree>): string
    requires |trees| == |stack|
    decreases |stack|, 0
  {
    var n := |stack|;
    if n == 0 then "" else [Close(stack[n - 1])] + Finish(stack[..n - 1], trees)
  }

  /** A text that closes `stack` can be parsed. */
  lemma {:induction false} ParseClosing(b: string, stack: seq<Kind>) returns (trees: seq<Tree>)
    requires Closes(b, stack)
    ensures |trees| == |stack| + 1 && Finish(stack, trees) == b
  {
    var n := |stack|;
    if b == "" {
      trees := [Empty];
    } else {
      match Classify(b[0])
      case Opening(kind) =>
        var deeper := ParseClosing(b[1..], stack + [kind]);
        trees := deeper[..n] + [Pair(kind, deeper[n + 1], deeper[n])];
        JoinPair(stack, kind, deeper, b);
      case Closing(kind) =>
        var outer := ParseClosing(b[1..], stack[..n - 1]);
        trees := outer + [Empty];
        assert trees[..n] == outer;
    }
  }

  lemma JoinPair(stack: seq<Kind>, kind: Kind, deeper: seq<Tree>, b: string)
    requires |deeper| == |stack| + 2 && b != "" && b[0] == Open(kind) && Finish(stack + [kind], deeper) == b[1..]
    ensures Finish(stack, deeper[..|stack|] + [Pair(kind, deeper[|stack| + 1], deeper[|stack|])]) == b
  {
    hide Outside, Yield;
    var n := |stack|;
    var pair, outside := Pair(kind, deeper[n + 1], deeper[n]), Outside(stack, deeper[..n]);
    OutsideDeeper(stack, kind, deeper[..n + 1]);
    assert deeper[..n + 1][..n] == deeper[..n];
    PairThen(pair, outside);
    var trees := deeper[..n] + [pair];
    assert trees[..n] == deeper[..n] && trees[n] == pair;
    assert b == [Open(kind)] + b[1..];
  }

  lemma OutsideDeeper(stack: seq<Kind>, kind: Kind, trees: seq<Tree>)
    requires |trees| == |stack| + 1
    ensures Outside(stack + [kind], trees) == [Close(kind)] + (Yield(trees[|stack|]) + Outside(stack, trees[..|stack|]))
  {
    hide Yield;
    assert (stack + [kind])[..|stack|] == stack;
  }

  lemma PairThen(t: Tree, rest: string)
    requires t.Pair?
    ensures Yield(t) + rest == [Open(t.kind)] + (Yield(t.inside) + ([Close(t.kind)] + (Yield(t.after) + rest)))
  {
  }

  lemma SameFirst(a: char, b: char, s: string, t: string)
    requires [a] + s == [b] + t
    ensures a == b && s == t
  {
    assert a == ([a] + s)[0] && s == ([a] + s)[1..] && t == ([b] + t)[1..];
  }

  /** The matcher is silent exactly on the texts whose brackets are in the grammar. */
  lemma SilentIffBalanced(code: string)
    ensures Check(code) == [] <==> exists t :: Yield(t) == Brackets(code)
  {
    SilentIffCloses(Matcher([], 1, []), code);
    assert Kinds([]) == [];
    if t :| Yield(t) == Brackets(code) {
      assert Yield(t) + "" == Yield(t);
      TreeIsNeutral(t, "", []);
    }
    if Closes(Brackets(code), []) {
      var trees := ParseClosing(Brackets(code), []);
      assert Yield(trees[0]) == Brackets(code);
    }
  }

  predicate StartsNoPair(s: string) {
    s == "" || Classify(s[0]).Closing?
  }

  /** The grammar is unambiguous: the brackets have one tree. */
  lemma {:induction false} TreeIsUnique(t: Tree, u: Tree, r: string, s: string)
    requires Yield(t) + r == Yield(u) + s && StartsNoPair(r) && StartsNoPair(s)
    ensures t == u && r == s
    decreases t
  {
    hide Yield;
    if t == Empty {
      assert Yield(t) + r == r by { YieldEmpty(); }
      EmptyTreeFirst(u, r, s);
    } else if u == Empty {
      assert Yield(u) + s == s by { YieldEmpty(); }
      EmptyTreeFirst(t, s, r);
    } else {
      var tRest, uRest := Yield(t.after) + r, Yield(u.after) + s;
      PairThen(t, r);
      PairThen(u, s);
      SameFirst(Open(t.kind), Open(u.kind), Yield(t.inside) + ([Close(t.kind)] + tRest),
                Yield(u.inside) + ([Close(u.kind)] + uRest));
      TreeIsUnique(t.inside, u.inside, [Close(t.kind)] + tRest, [Close(u.kind)] + uRest);
      SameFirst(Close(t.kind), Close(u.kind), tRest, uRest);
      TreeIsUnique(t.after, u.after, r, s);
    }
  }

  lemma YieldEmpty()
    ensures Yield(Empty) == ""
  {
  }

  lemma EmptyTreeFirst(u: Tree, r: string, s: string)
    requires r == Yield(u) + s && StartsNoPair(r)
    ensures u == Empty && r == s
  {
    if u != Empty {
      PairThen(u, s);
      assert false;
    }
    assert Yield(u) + s == s;
  }

  // ---------------------------------------------------------------- where the diagnostics point

  function LineAt(code: string, k: nat): nat
    requires k <= |code|
  {
    if k == 0 then 1 else LineAt(code, k - 1) + if code[k - 1] == '\n' then 1 else 0
  }

  /** Some bracket of the text stands on the given line. */
  ghost predicate On(code: string, bracket: Bracket, line: nat) {
    exists k: nat :: k < |code| && Classify(code[k]) == bracket && LineAt(code, k) == line
  }

  ghost predicate MarkPoints(code: string, mark: Mark) {
    On(code, Opening(mark.kind), mark.line)
  }

  ghost predicate Points(code: string, d: Diagnostic) {
    match d
    case Extra(kind, line) => On(code, Closing(kind), line)
    case Mismatch(kind, line, open) => On(code, Closing(kind), line) && MarkPoints(code, open) && open.kind != kind
    case Unclosed(open) => MarkPoints(code, open)
  }

  lemma LineAtPrefix(a: string, b: string, k: nat)
    requires k <= |a|
    ensures LineAt(a + b, k) == LineAt(a, k)
  {
  }

  lemma OnLonger(a: string, b: string, bracket: Bracket, line: nat)
    requires On(a, bracket, line)
    ensures On(a + b, bracket, line)
  {
    var k: nat :| k < |a| && Classify(a[k]) == bracket && LineAt(a, k) == line;
    LineAtPrefix(a, b, k);
    assert (a + b)[k] == a[k];
  }

  ghost predicate AllPoint(code: string, m: Matcher) {
    && m.line == LineAt(code, |code|)
    && (forall d <- m.errs :: Points(code, d))
    && (forall mark <- m.stack :: MarkPoints(code, mark))
  }

  lemma StepPoints(code: string, m: Matcher, c: char)
    requires AllPoint(code, m)
    ensures AllPoint(code + [c], Step(m, c))
  {
    hide On;
    var longer, next := code + [c], Step(m, c);
    LineAtPrefix(code, [c], |code|);
    assert longer[|code|] == c && LineAt(longer, |longer|) == next.line;
    forall bracket, line | On(code, bracket, line) ensures On(longer, bracket, line) {
      OnLonger(code, [c], bracket, line);
    }
    if c != '\n' {
      LastOn(code, c);
    }
    assert forall d <- m.errs :: Points(longer, d);
    assert forall mark <- m.stack :: MarkPoints(longer, mark);
    assert forall mark <- next.stack :: MarkPoints(longer, mark);
    assert forall d <- next.errs :: Points(longer, d);
  }

  lemma LastOn(code: string, c: char)
    ensures On(code + [c], Classify(c), LineAt(code, |code|))
  {
    LineAtPrefix(code, [c], |code|);
    assert (code + [c])[|code|] == c;
  }

  lemma {:induction false} RunPoints(code: string, m: Matcher, rest: string)
    requires AllPoint(code, m)
    ensures AllPoint(code + rest, Run(m, rest))
    decreases |rest|
  {
    if rest == "" {
      assert code + rest == code;
    } else {
      hide AllPoint, Step;
      StepPoints(code, m, rest[0]);
      RunPoints(code + [rest[0]], Step(m, rest[0]), rest[1..]);
      assert code + [rest[0]] + rest[1..] == code + rest;
    }
  }

  /** Every diagnostic names brackets that are in the text, with the lines they stand on. */
  lemma DiagnosticsPoint(code: string)
    ensures forall d <- Check(code) :: Points(code, d)
  {
    RunPoints("", Matcher([], 1, []), code);
    assert "" + code == code;
  }

  // ---------------------------------------------------------------- stripping, then matching

  /** The code characters of a text given by its grammar tree. */
  function CodeOf(items: seq<LexerGrammar.Item>): string {
    if items == [] then "" else (if items[0].Code? then [items[0].c] else "") + CodeOf(items[1..])
  }

  lemma BracketsAppend(a: string, b: string)
    ensures Brackets(a + b) == Brackets(a) + Brackets(b)
  {
    if a == "" {
      assert a + b == b;
    } else {
      assert (a + b)[1..] == a[1..] + b;
      BracketsAppend(a[1..], b);
    }
  }

  lemma BlanksHaveNoBrackets(s: string, keepLines: bool)
    ensures Brackets(Lexer.Blanks(s, keepLines)) == ""
  {
    if s != "" {
      BlanksHaveNoBrackets(s[1..], keepLines);
      assert Lexer.Blanks(s, keepLines)[1..] == Lexer.Blanks(s[1..], keepLines);
    }
  }

  lemma {:induction false} BlankedBrackets(items: seq<LexerGrammar.Item>)
    ensures Brackets(LexerGrammar.BlankedAll(items)) == Brackets(CodeOf(items))
  {
    if items != [] {
      var item, rest := items[0], items[1..];
      BlankedBrackets(rest);
      BracketsAppend(LexerGrammar.Blanked(item), LexerGrammar.BlankedAll(rest));
      BracketsAppend(if item.Code? then [item.c] else "", CodeOf(rest));
      if !item.Code? {
        BlanksHaveNoBrackets(LexerGrammar.Written(item), LexerGrammar.KeepsItsLines(item));
      }
    }
  }

  /** The two passes together, on any text: it is reported exactly when the brackets of its code are not in the
      grammar, whatever brackets its comments and literals hold. */
  lemma FileSilentIffCodeBalanced(src: string) returns (items: seq<LexerGrammar.Item>, rest: string)
    ensures LexerReading.Reading(src, items, rest)
    ensures Check(Lexer.Strip(src)) == [] <==> exists t :: Yield(t) == Brackets(CodeOf(items))
  {
    hide Check, Yield;
    items, rest := LexerCoverage.EveryTextIsRead(src);
    BlankedBrackets(items);
    BracketsAppend(LexerGrammar.BlankedAll(items), Lexer.Blanks(rest, true));
    BlanksHaveNoBrackets(rest, true);
    SilentIffBalanced(Lexer.Strip(src));
  }

  // ---------------------------------------------------------------- lines of the source

  lemma {:induction false} LinesOfStripped(src: string, stripped: string, k: nat)
    requires |src| == |stripped| && k <= |src|
    requires forall i :: 0 <= i < |src| ==> stripped[i] == '\n' ==> src[i] == '\n'
    ensures LineAt(stripped, k) <= LineAt(src, k)
    ensures LineAt(stripped, k) == LineAt(src, k)
       <==> forall i :: 0 <= i < k && src[i] == '\n' ==> stripped[i] == '\n'
  {
    if k > 0 { LinesOfStripped(src, stripped, k - 1); }
  }

  /** Stripping leaves every position on its line. */
  ghost predicate SameLines(src: string, stripped: string) {
    |src| == |stripped| && forall k: nat :: k <= |src| ==> LineAt(stripped, k) == LineAt(src, k)
  }

  lemma StrippedFeeds(src: string)
    ensures var o := Lexer.Strip(src);
            |o| == |src| && forall k :: 0 <= k < |src| ==> o[k] == src[k] || o[k] == ' '
  {
    hide Lexer.Strip;
    Lexer.StripPreservesOffsets(src);
    forall k | 0 <= k < |src| ensures Lexer.Strip(src)[k] == src[k] || Lexer.Strip(src)[k] == ' ' {
      assert Lexer.MayBecome(src, k, Lexer.Strip(src)[k]);
    }
  }

  lemma SameLinesIff(src: string)
    ensures |Lexer.Strip(src)| == |src|
    ensures SameLines(src, Lexer.Strip(src)) <==> LexerCoverage.KeepsFeeds(src, Lexer.Strip(src))
  {
    hide Lexer.Strip, LineAt;
    var o := Lexer.Strip(src);
    StrippedFeeds(src);
    forall k: nat | k <= |src|
      ensures LineAt(o, k) == LineAt(src, k) <==> forall i :: 0 <= i < k && src[i] == '\n' ==> o[i] == '\n'
    {
      LinesOfStripped(src, o, k);
    }
    assert SameLines(src, o) ==> LineAt(o, |src|) == LineAt(src, |src|);
  }

  lemma PointsIntoSource(src: string, d: Diagnostic)
    requires SameLines(src, Lexer.Strip(src)) && Points(Lexer.Strip(src), d)
    ensures Points(src, d)
  {
    hide Lexer.Strip, LineAt;
    var o := Lexer.Strip(src);
    StrippedFeeds(src);
    forall bracket: Bracket, line: nat | On(o, bracket, line) && bracket != Other ensures On(src, bracket, line) {
      var k: nat :| k < |o| && Classify(o[k]) == bracket && LineAt(o, k) == line;
      assert Classify(' ') == Other;
    }
  }

  /** The diagnostics of a file name lines of its source, and stripping moves no position to another line, exactly when
      no character literal of the source is a bare line feed. */
  lemma DiagnosticsPointIntoSource(src: string) returns (items: seq<LexerGrammar.Item>, rest: string)
    ensures LexerReading.Reading(src, items, rest)
    ensures SameLines(src, Lexer.Strip(src)) <==> LexerGrammar.CharLit('\n') !in items
    ensures LexerGrammar.CharLit('\n') !in items ==> forall d <- Check(Lexer.Strip(src)) :: Points(src, d)
  {
    hide SameLines, Points, Check, LexerCoverage.KeepsFeeds, LexerReading.Reading, Lexer.Strip;
    items, rest := LexerCoverage.EveryTextIsRead(src);
    LexerCoverage.LineFeedsKeptIff(src, items, rest);
    SameLinesIff(src);
    DiagnosticsPoint(Lexer.Strip(src));
    if LexerGrammar.CharLit('\n') !in items {
      forall d | d in Check(Lexer.Strip(src)) ensures Points(src, d) {
        PointsIntoSource(src, d);
      }
    }
  }

  /** A bare line feed between quotes, then a bracket: it is reported on line 1 and stands on line 2. */
  lemma DiagnosticOnTheWrongLine()
    ensures var src := "'\n'(";
            Check(Lexer.Strip(src)) == [Unclosed(Mark(Round, 1))] && !Points(src, Unclosed(Mark(Round, 1)))
  {
    var src := "'\n'(";
    BareFeedStripped(src);
    LonelyBracket();
    assert LineAt(src, 3) == LineAt(src, 2) == LineAt(src, 1) + 1;
  }

  lemma LonelyBracket()
    ensures Check("   (") == [Unclosed(Mark(Round, 1))]
  {
    var stripped := "   (";
    assert stripped[1..] == "  (" && "  ("[1..] == " (" && " ("[1..] == "(" && "("[1..] == "";
    var start := Matcher([], 1, []);
    assert Run(start, stripped) == Run(start, "  (") == Run(start, " (") == Run(start, "(");
    assert Run(start, "(") == Matcher([Mark(Round, 1)], 1, []);
  }

  lemma BareFeedStripped(src: string)
    requires src == "'\n'("
    ensures Lexer.Strip(src) == "   ("
  {
    Lexer.DelimitersByChar(src);
    assert Lexer.TokenLen(src) == 3;
    assert src[3..] == "(" && src[..3] == "'\n'" && "("[1..] == "";
    assert Lexer.Blanks(src[..3], false) == "   ";
    Lexer.DelimitersByChar("(");
    assert Lexer.TokenLen("(") == 0;
    assert Lexer.Strip("(") == "(" + Lexer.Strip("");
  }
}
