/** Which words of a line are calls, told by their positions (`crates/core/src/ckg.rs`, `collect_calls`). */
module CkgCalls {
  import opened Text
  import opened CkgParse
  import opened CkgMeaning

  ghost predicate AllWord(line: string, a: nat, b: nat) {
    b <= |line| && forall k :: a <= k < b ==> IsIdentContinue(line[k])
  }

  /** No run of identifier characters that ends at `a` has a letter or an underscore in it. */
  ghost predicate NoLetterInto(line: string, a: nat) {
    forall r: nat :: r < a && AllWord(line, r, a) ==> !IsIdentStart(line[r])
  }

  /** `line[a..b]` is what is left of a maximal run of identifier characters from its first letter or underscore on. */
  ghost predicate WordAt(line: string, a: nat, b: nat) {
    && a < b && AllWord(line, a, b) && (b == |line| || !IsIdentContinue(line[b]))
    && IsIdentStart(line[a]) && NoLetterInto(line, a)
  }

  /** Only blanks and tabs stand between `b` and an opening parenthesis. */
  ghost predicate ParenAfter(line: string, b: nat) {
    exists p :: b <= p < |line| && line[p] == '(' && forall k :: b <= k < p ==> line[k] == ' ' || line[k] == '\t'
  }

  ghost predicate CallAt(line: string, a: nat, b: nat) { WordAt(line, a, b) && ParenAfter(line, b) }

  /** `spans` are the calls that start at `i` or later, in order. */
  ghost predicate CallsFrom(line: string, i: nat, spans: seq<(nat, nat)>) {
    && (forall x, y :: 0 <= x < y < |spans| ==> spans[x].0 < spans[y].0)
    && (forall a: nat, b: nat :: (a, b) in spans <==> a >= i && CallAt(line, a, b))
  }

  function Cut(line: string, span: (nat, nat)): string {
    if span.0 <= span.1 <= |line| then line[span.0..span.1] else ""
  }

  function CutAll(line: string, spans: seq<(nat, nat)>): seq<string> {
    seq(|spans|, i requires 0 <= i < |spans| => Cut(line, spans[i]))
  }

  lemma {:induction false} WordLenExact(s: string)
    ensures var n := WordLen(s);
            (forall k :: 0 <= k < n ==> IsIdentContinue(s[k])) && (n < |s| ==> !IsIdentContinue(s[n]))
  {
    if s != "" && IsIdentContinue(s[0]) {
      WordLenExact(s[1..]);
      assert forall k :: 1 <= k < |s| ==> s[k] == s[1..][k - 1];
    }
  }

  lemma {:induction false} BlankLenExact(s: string)
    ensures var n := BlankLen(s);
            && (forall k :: 0 <= k < n ==> s[k] == ' ' || s[k] == '\t')
            && (n < |s| ==> s[n] != ' ' && s[n] != '\t')
  {
    if s != "" && (s[0] == ' ' || s[0] == '\t') {
      BlankLenExact(s[1..]);
      assert forall k :: 1 <= k < |s| ==> s[k] == s[1..][k - 1];
    }
  }

  lemma OpensCallExact(line: string, b: nat)
    requires b <= |line|
    ensures OpensCall(line[b..]) <==> ParenAfter(line, b)
  {
    hide BlankLen;
    var s := line[b..];
    var n := BlankLen(s);
    BlankLenExact(s);
    assert forall k :: 0 <= k < |s| ==> s[k] == line[b + k];
    assert b + n < |line| ==> line[b + n] != ' ' && line[b + n] != '\t';
    if ParenAfter(line, b) {
      var p :| b <= p < |line| && line[p] == '(' && forall k :: b <= k < p ==> line[k] == ' ' || line[k] == '\t';
      assert s[p - b] == '(';
    }
    if OpensCall(s) {
      assert forall k :: b <= k < b + n ==> line[k] == s[k - b];
      assert line[b + n] == '(';
    }
  }

  lemma WordUnique(line: string, a: nat, b: nat, c: nat)
    requires WordAt(line, a, b) && WordAt(line, a, c)
    ensures b == c
  {
  }

  /** No word starts inside a word. */
  lemma NoWordInside(line: string, a: nat, b: nat, c: nat, d: nat)
    requires WordAt(line, a, b) && a < c < b
    ensures !WordAt(line, c, d)
  {
    assert AllWord(line, a, c);
  }

  lemma WordFound(line: string, i: nat)
    requires i < |line| && IsIdentStart(line[i]) && NoLetterInto(line, i)
    ensures var b := i + WordLen(line[i..]);
            WordAt(line, i, b)
  {
    hide WordLen;
    var s := line[i..];
    var n := WordLen(s);
    WordLenExact(s);
    assert s[0] == line[i];
    assert forall k :: i <= k < i + n ==> line[k] == s[k - i];
    assert i + n < |line| ==> line[i + n] == s[n];
  }

  lemma {:induction false} CallSitesFrom(line: string, i: nat) returns (spans: seq<(nat, nat)>)
    requires i <= |line| && (i == |line| || !IsIdentContinue(line[i]) || NoLetterInto(line, i))
    ensures CallsFrom(line, i, spans) && CallSites(line[i..]) == CutAll(line, spans)
    decreases |line| - i
  {
    hide CallSites, WordLen, OpensCall, CallAt, NoLetterInto;
    spans := [];
    if i == |line| {
      NoCallsLeft(line);
      assert line[i..] == "";
      NoCalls();
    } else {
      CallTurn(line, i);
      if IsIdentStart(line[i]) {
        var b := i + WordLen(line[i..]);
        WordFound(line, i);
        var rest := CallSitesFrom(line, b);
        OpensCallExact(line, b);
        spans := (if OpensCall(line[b..]) then [(i, b)] else []) + rest;
        WordThenRest(line, i, b, rest);
      } else {
        LetterlessOn(line, i);
        spans := CallSitesFrom(line, i + 1);
        SkipOne(line, i, spans);
      }
    }
  }

  lemma NoCallsLeft(line: string)
    ensures CallsFrom(line, |line|, [])
  {
  }

  lemma LetterlessOn(line: string, i: nat)
    requires i < |line| && !IsIdentStart(line[i]) && (!IsIdentContinue(line[i]) || NoLetterInto(line, i))
    ensures NoLetterInto(line, i + 1)
  {
    forall r: nat | r < i + 1 && AllWord(line, r, i + 1) ensures !IsIdentStart(line[r]) {
      assert IsIdentContinue(line[i]);
      assert r < i ==> AllWord(line, r, i);
    }
  }

  lemma SkipOne(line: string, i: nat, spans: seq<(nat, nat)>)
    requires i < |line| && !IsIdentStart(line[i]) && CallsFrom(line, i + 1, spans)
    ensures CallsFrom(line, i, spans)
  {
    forall a: nat, b: nat ensures (a, b) in spans <==> a >= i && CallAt(line, a, b) {
      assert (a, b) in spans <==> a >= i + 1 && CallAt(line, a, b);
    }
  }

  lemma WordThenRest(line: string, i: nat, b: nat, rest: seq<(nat, nat)>)
    requires WordAt(line, i, b) && CallsFrom(line, b, rest)
    ensures var spans := (if ParenAfter(line, b) then [(i, b)] else []) + rest;
            CallsFrom(line, i, spans)
            && CutAll(line, spans) == (if ParenAfter(line, b) then [line[i..b]] else []) + CutAll(line, rest)
  {
    hide WordAt, ParenAfter;
    var spans := (if ParenAfter(line, b) then [(i, b)] else []) + rest;
    WordBounds(line, i, b);
    forall y | 0 <= y < |rest| ensures rest[y].0 >= b {
      var (c, d) := rest[y];
      assert (c, d) in rest;
    }
    forall c: nat, d: nat ensures (c, d) in spans <==> c >= i && CallAt(line, c, d) {
      assert (c, d) in rest <==> c >= b && CallAt(line, c, d);
      if c == i && CallAt(line, c, d) {
        WordUnique(line, i, b, d);
      }
      if i < c < b {
        NoWordInside(line, i, b, c, d);
      }
    }
  }

  lemma WordBounds(line: string, a: nat, b: nat)
    requires WordAt(line, a, b)
    ensures a < b <= |line|
  {
  }

  /** The scan yields, in order, exactly the words of the line that an opening parenthesis follows. */
  lemma CallSitesExact(line: string) returns (spans: seq<(nat, nat)>)
    ensures CallsFrom(line, 0, spans) && CallSites(line) == CutAll(line, spans)
  {
    assert line[0..] == line;
    spans := CallSitesFrom(line, 0);
  }

  lemma InCallSites(line: string, word: string)
    ensures word in CallSites(line) <==> exists a: nat, b: nat :: CallAt(line, a, b) && Cut(line, (a, b)) == word
  {
    hide CallSites, CallAt, Cut;
    var spans := CallSitesExact(line);
    if word in CallSites(line) {
      var i :| 0 <= i < |spans| && CutAll(line, spans)[i] == word;
      var (a, b) := spans[i];
      assert (a, b) in spans;
    }
    if a: nat, b: nat :| CallAt(line, a, b) && Cut(line, (a, b)) == word {
      assert (a, b) in spans;
      var i :| 0 <= i < |spans| && spans[i] == (a, b);
      assert CutAll(line, spans)[i] == word;
    }
  }

  /** For every text, a call edge stands for a word before a parenthesis, not a keyword, on a line that is no
      declaration, documentation or import; it starts at the function declared last before that line. */
  lemma CallEdgesExact(alnum: CharClass, file: string, lines: seq<string>, e: Edge)
    requires e.kind == Calls
    ensures var p := ParseLines(alnum, file, lines);
            e in p.edges
            <==> && e.file == file && 1 <= e.line <= |lines| && Reading(alnum, lines[e.line - 1]).CodeLine?
                 && LastFn(UpTo(p.symbols, e.line - 1)) == Some(e.from) && !IsKeyword(e.to)
                 && exists a: nat, b: nat ::
                      CallAt(lines[e.line - 1], a, b) && Cut(lines[e.line - 1], (a, b)) == e.to
  {
    hide CallAt, Cut, CallSites, IsKeyword, LastFn, UpTo, LatestImpl, ParseLines, Reading, SymbolSaid, PendingDoc;
    GraphIsWhatLinesSay(alnum, file, lines);
    var p := ParseLines(alnum, file, lines);
    assert e in p.edges <==> EdgeSaid(alnum, file, lines, p.symbols, e);
    if 1 <= e.line <= |lines| {
      InCallSites(lines[e.line - 1], e.to);
      CodeLineCallees(alnum, lines[e.line - 1]);
    }
  }

  lemma CodeLineCallees(alnum: CharClass, raw: string)
    ensures Reading(alnum, raw).CodeLine? ==> Reading(alnum, raw).callees == CallSites(raw)
  {
    hide DeclName, UseTargets, CallSites, TrimStart, ImplNames, Declared;
  }
}
