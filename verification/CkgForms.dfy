/** How the usual forms of a line are read: what is declared is what is written (`crates/core/src/ckg.rs`,
    `parse_source`). The forms leave open what stands before and after. */
module CkgForms {
  import opened Text
  import opened CkgParse
  import opened CkgMeaning

  // ---------------------------------------------------------------- names

  predicate IsName(alnum: CharClass, name: string) {
    name != "" && forall c <- name :: (alnum(c) || c == '_') && !IsWhitespace(c)
  }

  predicate EndsName(alnum: CharClass, tail: string) {
    tail == "" || (!alnum(tail[0]) && tail[0] != '_')
  }

  lemma {:induction false} IdentExact(alnum: CharClass, name: string, tail: string)
    requires (forall c <- name :: alnum(c) || c == '_') && EndsName(alnum, tail)
    ensures Ident(alnum, name + tail) == name
  {
    if name == "" {
      assert name + tail == tail;
    } else {
      assert (name + tail)[1..] == name[1..] + tail && name[0] in name;
      IdentExact(alnum, name[1..], tail);
    }
  }

  lemma NameAfterGap(alnum: CharClass, gap: string, name: string, tail: string)
    requires AllBlank(gap) && IsName(alnum, name) && EndsName(alnum, tail)
    ensures Ident(alnum, TrimStart(gap + name + tail)) == name
  {
    hide IsWhitespace;
    assert name[0] in name && gap + name + tail == gap + (name + tail);
    TrimStartOver(gap, name + tail);
    IdentExact(alnum, name, tail);
  }

  // ---------------------------------------------------------------- declarations

  function Keyword(kind: SymbolKind): string {
    match kind
    case Mod => "mod"
    case Fn => "fn"
    case Struct => "struct"
    case Impl => "impl"
    case Trait => "trait"
  }

  /** The line holds no such word. */
  ghost predicate NoWord(line: string, kw: string) {
    forall q: nat :: !Standalone(line, kw, q)
  }

  /** The first such word stands at `p`. */
  ghost predicate FirstWordAt(line: string, kw: string, p: nat) {
    Standalone(line, kw, p) && forall q: nat :: q < p ==> !Standalone(line, kw, q)
  }

  lemma NoWordNoDecl(alnum: CharClass, line: string, kw: string)
    requires NoWord(line, kw)
    ensures DeclName(alnum, line, kw) == None
  {
    hide Standalone;
  }

  lemma DeclNameExact(alnum: CharClass, line: string, kw: string, p: nat, gap: string, name: string, tail: string)
    requires FirstWordAt(line, kw, p) && p + |kw| <= |line| && line[p + |kw|..] == gap + name + tail
    requires AllBlank(gap) && gap != "" && IsName(alnum, name) && EndsName(alnum, tail)
    ensures DeclName(alnum, line, kw) == Some(name)
  {
    hide Standalone, TrimStart, Ident, AllBlank, IsName;
    var first := FirstStandalone(line, kw, 0);
    assert first == Some(p);
    GapIsNoAngle(gap);
    assert line[p + |kw|..][0] == gap[0];
    NameAfterGap(alnum, gap, name, tail);
    assert IsName(alnum, name) ==> name != "" by { NameNotEmpty(alnum, name); }
  }

  lemma NameNotEmpty(alnum: CharClass, name: string)
    ensures IsName(alnum, name) ==> name != ""
  {
  }

  lemma GapIsNoAngle(gap: string)
    requires AllBlank(gap) && gap != ""
    ensures gap[0] != '<' && "<"[0] == '<'
  {
    assert gap[0] in gap;
  }

  /** The kinds that are looked for before this one. */
  function TriedBefore(kind: SymbolKind): seq<SymbolKind> {
    match kind
    case Struct => []
    case Trait => [Struct]
    case Mod => [Struct, Trait]
    case Fn => [Struct, Trait, Mod]
    case Impl => []
  }

  lemma EarlierKinds(alnum: CharClass, line: string, kind: SymbolKind)
    requires forall k <- TriedBefore(kind) :: NoWord(line, Keyword(k))
    ensures forall k <- TriedBefore(kind) :: DeclName(alnum, line, Keyword(k)) == None
  {
    hide NoWord, DeclName;
    forall k | k in TriedBefore(kind) ensures DeclName(alnum, line, Keyword(k)) == None {
      NoWordNoDecl(alnum, line, Keyword(k));
    }
  }

  /** The order in which a line that is neither documentation nor an `impl` is read. */
  lemma KindsTried(alnum: CharClass, line: string)
    requires !("///" <= TrimStart(line)) && !("impl" <= TrimStart(line))
    ensures var s, t := DeclName(alnum, line, Keyword(Struct)), DeclName(alnum, line, Keyword(Trait));
            var m, f := DeclName(alnum, line, Keyword(Mod)), DeclName(alnum, line, Keyword(Fn));
            Reading(alnum, line)
            == if s.Some? then DeclLine(Struct, s.value)
               else if t.Some? then DeclLine(Trait, t.value)
               else if m.Some? then DeclLine(Mod, m.value)
               else if f.Some? then DeclLine(Fn, f.value)
               else if "use " <= TrimStart(line) then UseLine(UseTargets(line))
               else CodeLine(CallSites(line))
  {
    hide DeclName, UseTargets, CallSites, TrimStart, ImplNames;
  }

  /** Whatever stands before the keyword and after the name: the first word `struct` declares the name after it; without
      one the first word `trait`; then `mod`; then `fn`. */
  lemma DeclarationRead(alnum: CharClass, line: string, kind: SymbolKind, p: nat, gap: string, name: string,
                        tail: string)
    requires kind != Impl && !("///" <= TrimStart(line)) && !("impl" <= TrimStart(line))
    requires forall k <- TriedBefore(kind) :: NoWord(line, Keyword(k))
    requires var kw := Keyword(kind);
             FirstWordAt(line, kw, p) && p + |kw| <= |line| && line[p + |kw|..] == gap + name + tail
    requires AllBlank(gap) && gap != "" && IsName(alnum, name) && EndsName(alnum, tail)
    ensures Reading(alnum, line) == DeclLine(kind, name)
  {
    hide Reading, DeclName, TrimStart, AllBlank, IsName, EndsName, NoWord, FirstWordAt;
    DeclNameExact(alnum, line, Keyword(kind), p, gap, name, tail);
    KindsTried(alnum, line);
    EarlierKinds(alnum, line, kind);
  }

  // ---------------------------------------------------------------- impl blocks

  predicate Indent(pad: string) { forall c <- pad :: c == ' ' || c == '\t' }

  lemma IndentIsBlank(pad: string)
    requires Indent(pad)
    ensures AllBlank(pad)
  {
  }

  lemma StartsAfterIndent(pad: string, rest: string)
    requires Indent(pad) && rest != "" && !IsWhitespace(rest[0])
    ensures TrimStart(pad + rest) == rest
  {
    hide IsWhitespace;
    IndentIsBlank(pad);
    TrimStartOver(pad, rest);
  }

  lemma OccursStarts(s: string, pattern: string, q: nat)
    requires pattern != ""
    ensures OccursAt(s, pattern, q) ==> q < |s| && s[q] == pattern[0]
  {
    if OccursAt(s, pattern, q) {
      assert s[q..q + |pattern|][0] == s[q];
    }
  }

  lemma ImplStandsFirst(pad: string, rest: string)
    requires Indent(pad) && (rest == "" || EndsWordAfter(rest[0]))
    ensures FirstWordAt(pad + "impl" + rest, "impl", |pad|)
  {
    var line := pad + "impl" + rest;
    assert line[|pad|..|pad| + 4] == "impl";
    assert |pad| > 0 ==> pad[|pad| - 1] in pad && line[|pad| - 1] == pad[|pad| - 1];
    assert rest != "" ==> line[|pad| + 4] == rest[0];
    forall q: nat | q < |pad| ensures !Standalone(line, "impl", q) {
      assert line[q] == pad[q] && pad[q] in pad && "impl"[0] == 'i';
      OccursStarts(line, "impl", q);
    }
  }

  /** `impl Type`, with no `for` in the line. */
  lemma ImplRead(alnum: CharClass, pad: string, gap: string, name: string, tail: string)
    requires Indent(pad) && Indent(gap) && gap != "" && IsName(alnum, name) && EndsName(alnum, tail)
    requires Find(pad + "impl" + gap + name + tail, " for ", 0) == None
    ensures Reading(alnum, pad + "impl" + gap + name + tail) == ImplLine(name, "")
  {
    hide Find, DeclName, Declared, UseTargets, CallSites, TrimStart, Indent, IsName, EndsName, FirstWordAt,
      IsWhitespace;
    var line, rest := pad + "impl" + gap + name + tail, gap + name + tail;
    assert line == pad + "impl" + rest && line == pad + ("impl" + rest) && rest[0] == gap[0];
    IndentIsBlank(gap);
    IndentStarts(gap);
    ImplStandsFirst(pad, rest);
    LetterI();
    StartsAfterIndent(pad, "impl" + rest);
    NotDoc("impl" + rest);
    assert line[|pad| + 4..] == rest;
    DeclNameExact(alnum, line, "impl", |pad|, gap, name, tail);
    NameNotEmpty(alnum, name);
  }

  lemma IndentStarts(gap: string)
    requires Indent(gap) && gap != ""
    ensures EndsWordAfter(gap[0])
  {
    assert gap[0] in gap;
  }

  lemma LetterI()
    ensures !IsWhitespace('i') && !IsWhitespace('u') && !IsWhitespace('/') && "impl"[0] == 'i' && "use "[0] == 'u'
  {
  }

  lemma NotDoc(s: string)
    requires s != "" && s[0] != '/'
    ensures !("///" <= s)
  {
    assert "///"[0] == '/';
  }

  /** `impl Trait for Type`, where the first `for` of the line is that one. */
  lemma TraitImplRead(alnum: CharClass, pad: string, gap: string, traitName: string, middle: string, more: string,
                      name: string, tail: string)
    requires Indent(pad) && AllBlank(gap) && IsName(alnum, traitName) && EndsName(alnum, middle)
    requires AllBlank(more) && IsName(alnum, name) && EndsName(alnum, tail)
    requires var head := pad + "impl" + gap + traitName + middle;
             Find(head + " for " + more + name + tail, " for ", 0) == Some(|head|)
    ensures Reading(alnum, pad + "impl" + gap + traitName + middle + " for " + more + name + tail)
         == ImplLine(name, traitName)
  {
    hide *;
    var inner, rest := gap + traitName + middle, " for " + more + name + tail;
    var line := pad + "impl" + gap + traitName + middle + " for " + more + name + tail;
    var head := pad + "impl" + gap + traitName + middle;
    assert head == pad + ("impl" + inner) && line == pad + ("impl" + inner + rest) && line == head + rest;
    StartsWithImpl(pad, inner);
    StartsWithImpl(pad, inner + rest);
    assert "impl" + (inner + rest) == "impl" + inner + rest;
    TraitNames(alnum, line, head, gap, traitName, middle, more, name, tail);
    NameNotEmpty(alnum, name);
    ReadsAsImpl(alnum, line);
  }

  lemma StartsWithImpl(pad: string, rest: string)
    requires Indent(pad)
    ensures TrimStart(pad + ("impl" + rest)) == "impl" + rest && "impl" <= "impl" + rest && !("///" <= "impl" + rest)
  {
    hide Indent, IsWhitespace, TrimStart;
    LetterI();
    StartsAfterIndent(pad, "impl" + rest);
    NotDoc("impl" + rest);
  }

  lemma TraitNames(alnum: CharClass, line: string, head: string, gap: string, traitName: string, middle: string,
                   more: string, name: string, tail: string)
    requires line == head + (" for " + more + name + tail) && Find(line, " for ", 0) == Some(|head|)
    requires TrimStart(head) == "impl" + (gap + traitName + middle)
    requires AllBlank(gap) && IsName(alnum, traitName) && EndsName(alnum, middle)
    requires AllBlank(more) && IsName(alnum, name) && EndsName(alnum, tail)
    ensures ImplNames(alnum, line) == (name, traitName)
  {
    hide Find, TrimStart, Ident, AllBlank, IsName, EndsName;
    NameAfterGap(alnum, gap, traitName, middle);
    NameAfterGap(alnum, more, name, tail);
    var inner := gap + traitName + middle;
    assert line[..|head|] == head && line[|head| + 5..] == more + name + tail;
    assert StripPrefix("impl" + inner, "impl") == Some(inner);
  }

  lemma ReadsAsImpl(alnum: CharClass, line: string)
    requires "impl" <= TrimStart(line) && !("///" <= TrimStart(line)) && ImplNames(alnum, line).0 != ""
    ensures Reading(alnum, line) == ImplLine(ImplNames(alnum, line).0, ImplNames(alnum, line).1)
  {
    hide ImplNames, TrimStart;
  }

  // ---------------------------------------------------------------- documentation

  lemma DocRead(alnum: CharClass, pad: string, text: string)
    requires Indent(pad)
    ensures Reading(alnum, pad + "///" + text) == DocLine(text)
  {
    hide ImplNames, Declared, DeclName, UseTargets, CallSites, TrimStart, Indent, IsWhitespace;
    assert pad + "///" + text == pad + ("///" + text);
    LetterI();
    StartsAfterIndent(pad, "///" + text);
  }

  /** The texts of the documentation lines since the last declaration, trimmed. */
  function WaitingTexts(alnum: CharClass, lines: seq<string>): seq<string> {
    var n := |lines|;
    if n == 0 then []
    else match Reading(alnum, lines[n - 1])
      case DocLine(text) => WaitingTexts(alnum, lines[..n - 1]) + [Trim(text)]
      case ImplLine(_, _) => []
      case DeclLine(_, _) => []
      case _ => WaitingTexts(alnum, lines[..n - 1])
  }

  function DropEmpty(texts: seq<string>): seq<string> {
    if texts != [] && texts[0] == "" then DropEmpty(texts[1..]) else texts
  }

  /** One blank between two texts. */
  function Joined(texts: seq<string>): string {
    if texts == [] then "" else if |texts| == 1 then texts[0] else texts[0] + " " + Joined(texts[1..])
  }

  lemma {:induction false} JoinedSnoc(texts: seq<string>, last: string)
    requires texts != []
    ensures Joined(texts + [last]) == Joined(texts) + " " + last
  {
    if |texts| == 1 {
      assert (texts + [last])[1..] == [last];
    } else {
      assert (texts + [last])[1..] == texts[1..] + [last];
      JoinedSnoc(texts[1..], last);
    }
  }

  lemma {:induction false} DropEmptySnoc(texts: seq<string>, last: string)
    ensures DropEmpty(texts + [last])
         == if DropEmpty(texts) == [] then if last == "" then [] else [last] else DropEmpty(texts) + [last]
    ensures DropEmpty(texts) != [] ==> DropEmpty(texts)[0] != ""
  {
    if texts == [] {
      assert texts + [last] == [last] && [last][1..] == [];
    } else {
      assert (texts + [last])[1..] == texts[1..] + [last];
      DropEmptySnoc(texts[1..], last);
    }
  }

  lemma JoinedEmpty(texts: seq<string>)
    requires texts != [] ==> texts[0] != ""
    ensures Joined(texts) == "" <==> texts == []
  {
  }

  /** The documentation of a symbol is the text of the lines before it, joined by blanks, from the first text that is
      not empty on. */
  lemma {:induction false} DocIsJoined(alnum: CharClass, lines: seq<string>)
    ensures PendingDoc(alnum, lines) == Joined(DropEmpty(WaitingTexts(alnum, lines)))
    decreases |lines|
  {
    hide Reading, Joined, DropEmpty, Trim;
    var n := |lines|;
    if n == 0 {
      NothingJoined();
    } else {
      DocIsJoined(alnum, lines[..n - 1]);
      match Reading(alnum, lines[n - 1])
      case DocLine(text) =>
        var before := WaitingTexts(alnum, lines[..n - 1]);
        DropEmptySnoc(before, Trim(text));
        JoinedEmpty(DropEmpty(before));
        OneJoined(Trim(text));
        if DropEmpty(before) != [] { JoinedSnoc(DropEmpty(before), Trim(text)); }
      case _ => NothingJoined();
    }
  }

  lemma NothingJoined()
    ensures Joined([]) == "" && DropEmpty([]) == []
  {
  }

  lemma OneJoined(text: string)
    ensures Joined([text]) == text && Joined([]) == ""
  {
  }

  // ---------------------------------------------------------------- imports

  /** No declaration keyword stands in the line. */
  ghost predicate DeclaresNothing(line: string) {
    NoWord(line, "struct") && NoWord(line, "trait") && NoWord(line, "mod") && NoWord(line, "fn")
  }

  lemma UseLineRead(alnum: CharClass, pad: string, rest: string)
    requires Indent(pad) && DeclaresNothing(pad + "use " + rest)
    ensures Reading(alnum, pad + "use " + rest) == UseLine(UseTargets(pad + "use " + rest))
  {
    hide Reading, DeclName, UseTargets, CallSites, TrimStart, Indent, IsWhitespace, NoWord;
    var line := pad + "use " + rest;
    assert line == pad + ("use " + rest);
    LetterI();
    StartsAfterIndent(pad, "use " + rest);
    NotDoc("use " + rest);
    assert !("impl" <= "use " + rest) by { assert ("use " + rest)[0] == 'u'; }
    KindsTried(alnum, line);
    forall kind: SymbolKind | kind != Impl ensures DeclName(alnum, line, Keyword(kind)) == None {
      NoWordNoDecl(alnum, line, Keyword(kind));
    }
  }

  /** What stands between `use` and the semicolon. */
  lemma UseBodyExact(pad: string, body: string, end: string)
    requires AllBlank(pad) && AllBlank(end) && body != "" && Bare(body) && body[|body| - 1] != ';'
    ensures UseBody(pad + "use " + body + ";" + end) == body
  {
    hide IsWhitespace, Trim, AllBlank, Bare;
    var core, line := "use " + body + ";", pad + "use " + body + ";" + end;
    assert line == pad + core + end;
    UseCoreIsBare(body);
    TrimExact(line, core);
    UseCoreParts(body);
    NoPadding();
    assert body == "" + body + "";
    TrimExact(body, body);
  }

  lemma UseCoreIsBare(body: string)
    ensures Bare("use " + body + ";")
  {
    var core := "use " + body + ";";
    assert core[0] == 'u' && core[|core| - 1] == ';';
    LetterI();
    Semicolon();
  }

  lemma UseCoreParts(body: string)
    ensures StripPrefix("use " + body + ";", "use ") == Some(body + ";") && StripSuffix(body + ";", ";") == Some(body)
  {
    assert ("use " + body + ";")[4..] == body + ";";
    assert (body + ";")[|body|..] == ";" && (body + ";")[..|body|] == body;
  }

  lemma Semicolon()
    ensures !IsWhitespace(';')
  {
  }

  lemma NoPadding()
    ensures AllBlank("")
  {
  }

  lemma {:induction false} LastSegmentExact(path: string, name: string, end: nat)
    requires (path == "" || (|path| >= 2 && path[|path| - 2..] == "::")) && ':' !in name
    requires |path| <= end + 2 && end <= |path| + |name| && (path == "" ==> name != "")
    ensures LastSegment(path + name, end) == name
    decreases end
  {
    var s := path + name;
    assert forall k :: |path| <= k < |s| ==> s[k] == name[k - |path|] && s[k] in name;
    if OccursAt(s, "::", end) {
      assert s[end..end + 2][1] == s[end + 1] == ':';
      assert end + 2 == |path|;
    } else {
      assert path != "" ==> s[|path| - 2..|path|] == path[|path| - 2..];
      if end > 0 && end + 2 != |path| {
        LastSegmentExact(path, name, end - 1);
      }
    }
  }

  /** `use a::b::Name;` imports `Name`. */
  lemma UsePathRead(alnum: CharClass, pad: string, path: string, name: string, end: string)
    requires Indent(pad) && AllBlank(end) && (path == "" || (|path| >= 2 && path[|path| - 2..] == "::"))
    requires name != "" && Bare(name) && Bare(path + name) && ':' !in name && ';' !in name
    requires '{' !in path && '{' !in name
    requires DeclaresNothing(pad + "use " + (path + name + ";" + end))
    ensures Reading(alnum, pad + "use " + (path + name + ";" + end)) == UseLine([name])
  {
    hide Indent, AllBlank, IsWhitespace, UseBody, LastSegment, DeclaresNothing, Trim, Find;
    var body := path + name;
    IndentIsBlank(pad);
    UseLineRead(alnum, pad, path + name + ";" + end);
    assert body[|body| - 1] == name[|name| - 1] && name[|name| - 1] in name;
    UseBodyExact(pad, body, end);
    var line := pad + "use " + (path + name + ";" + end);
    assert line == pad + "use " + body + ";" + end;
    CharAbsent(body, '{');
    LastSegmentExact(path, name, |body|);
    NoPadding();
    assert name == "" + name + "";
    TrimExact(name, name);
  }

  lemma CharAbsent(s: string, c: char)
    requires c !in s
    ensures Find(s, [c], 0) == None
  {
    hide Find;
    forall q: nat ensures !OccursAt(s, [c], q) {
      OccursStarts(s, [c], q);
    }
  }

  lemma CharFirst(head: string, c: char, tail: string)
    requires c !in head
    ensures Find(head + [c] + tail, [c], 0) == Some(|head|)
  {
    hide Find;
    var s := head + [c] + tail;
    assert s[|head|..|head| + 1] == [c];
    forall q: nat | q < |head| ensures !OccursAt(s, [c], q) {
      assert s[q..q + 1][0] == head[q];
    }
    assert OccursAt(s, [c], |head|);
  }

  /** The items with a separator after each but the last. */
  function Separated(items: seq<string>, sep: char): string {
    if items == [] then "" else if |items| == 1 then items[0] else items[0] + [sep] + Separated(items[1..], sep)
  }

  lemma {:induction false} SplitHead(head: string, sep: char, rest: string)
    requires sep !in head
    ensures Split(head + [sep] + rest, sep) == [head] + Split(rest, sep)
    ensures Split(head, sep) == [head]
  {
    if head == "" {
      assert head + [sep] + rest == [sep] + rest && ([sep] + rest)[1..] == rest;
      assert [""] + Split(rest, sep) == [head] + Split(rest, sep);
    } else {
      assert head[0] in head;
      assert (head + [sep] + rest)[1..] == head[1..] + [sep] + rest;
      SplitHead(head[1..], sep, rest);
      assert [head[0]] + head[1..] == head;
      assert ([head[1..]] + Split(rest, sep))[1..] == Split(rest, sep);
    }
  }

  lemma {:induction false} SplitSeparated(items: seq<string>, sep: char)
    requires items != [] && forall item <- items :: sep !in item
    ensures Split(Separated(items, sep), sep) == items
  {
    SplitHead(items[0], sep, Separated(items[1..], sep));
    if |items| > 1 {
      SplitSeparated(items[1..], sep);
      assert items == [items[0]] + items[1..];
    }
  }

  /** The item names `word`, perhaps under an alias. */
  ghost predicate NamesWord(item: string, word: string) {
    && word != "" && (forall c <- word :: !IsWhitespace(c))
    && exists pad, after :: AllBlank(pad) && (after == "" || IsWhitespace(after[0])) && item == pad + word + after
  }

  lemma {:induction false} UntilBlankExact(word: string, after: string)
    requires (forall c <- word :: !IsWhitespace(c)) && (after == "" || IsWhitespace(after[0]))
    ensures UntilBlank(word + after) == word
  {
    hide IsWhitespace;
    if word == "" {
      assert word + after == after;
    } else {
      assert (word + after)[1..] == word[1..] + after && word[0] in word;
      UntilBlankExact(word[1..], after);
    }
  }

  lemma FirstWordExact(item: string, word: string)
    requires NamesWord(item, word)
    ensures FirstWord(item) == word
  {
    hide IsWhitespace, AllBlank;
    var pad, after :| AllBlank(pad) && (after == "" || IsWhitespace(after[0])) && item == pad + word + after;
    assert item == pad + (word + after) && word[0] in word;
    TrimStartOver(pad, word + after);
    UntilBlankExact(word, after);
  }

  lemma {:induction false} NamesExact(items: seq<string>, words: seq<string>)
    requires |items| == |words| && forall i :: 0 <= i < |items| ==> NamesWord(items[i], words[i])
    ensures Names(items) == words
    decreases |items|
  {
    hide NamesWord, FirstWord;
    var n := |items|;
    if n > 0 {
      NamesExact(items[..n - 1], words[..n - 1]);
      FirstWordExact(items[n - 1], words[n - 1]);
      WordNotEmpty(items[n - 1], words[n - 1]);
      assert words == words[..n - 1] + [words[n - 1]];
    }
  }

  lemma WordNotEmpty(item: string, word: string)
    requires NamesWord(item, word)
    ensures word != ""
  {
  }

  /** `use a::{B, C as D};` imports `B` and `C`. */
  lemma UseListRead(alnum: CharClass, pad: string, path: string, items: seq<string>, words: seq<string>, end: string)
    requires Indent(pad) && AllBlank(end) && '{' !in path && (path == "" || !IsWhitespace(path[0]))
    requires items != [] && |items| == |words| && forall i :: 0 <= i < |items| ==> NamesWord(items[i], words[i])
    requires (forall item <- items :: ',' !in item) && '}' !in Separated(items, ',')
    requires DeclaresNothing(pad + "use " + (path + "{" + Separated(items, ',') + "}" + ";" + end))
    ensures Reading(alnum, pad + "use " + (path + "{" + Separated(items, ',') + "}" + ";" + end)) == UseLine(words)
  {
    hide *;
    var inner := Separated(items, ',');
    IndentIsBlank(pad);
    UseLineRead(alnum, pad, path + "{" + inner + "}" + ";" + end);
    UseListBody(pad, path, inner, end);
    UseListTargets(pad + "use " + (path + "{" + inner + "}" + ";" + end), path, items, words);
  }

  lemma UseListBody(pad: string, path: string, inner: string, end: string)
    requires AllBlank(pad) && AllBlank(end) && (path == "" || !IsWhitespace(path[0]))
    ensures UseBody(pad + "use " + (path + "{" + inner + "}" + ";" + end)) == path + "{" + inner + "}"
  {
    hide AllBlank, IsWhitespace, UseBody, Bare;
    var body := path + "{" + inner + "}";
    BraceIsBare(body, path, inner);
    UseBodyExact(pad, body, end);
    assert pad + "use " + (body + ";" + end) == pad + "use " + body + ";" + end;
  }

  lemma UseListTargets(line: string, path: string, items: seq<string>, words: seq<string>)
    requires UseBody(line) == path + "{" + Separated(items, ',') + "}" && '{' !in path
    requires items != [] && |items| == |words| && forall i :: 0 <= i < |items| ==> NamesWord(items[i], words[i])
    requires (forall item <- items :: ',' !in item) && '}' !in Separated(items, ',')
    ensures UseTargets(line) == words
  {
    hide UseBody, Separated, Split, NamesWord, Find, Names;
    var inner := Separated(items, ',');
    var body := path + "{" + inner + "}";
    CharFirst(path, '{', inner + "}");
    assert body == path + "{" + (inner + "}") && body[|path| + 1..] == inner + "}";
    SplitHead(inner, '}', "");
    assert inner + "}" == inner + ['}'] + "";
    SplitSeparated(items, ',');
    NamesExact(items, words);
  }

  lemma BraceIsBare(body: string, path: string, inner: string)
    requires body == path + "{" + inner + "}" && (path == "" || !IsWhitespace(path[0]))
    ensures body != "" && Bare(body) && body[|body| - 1] == '}'
  {
    assert body[0] == if path == "" then '{' else path[0];
  }
}
