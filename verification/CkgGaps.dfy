/** Where the extracted graph says something other than the source text means (`crates/core/src/ckg.rs`,
    `decl_name` and `parse_source`). */
module CkgGaps {
  import opened Text
  import opened CkgParse
  import opened CkgRepetition

  // ---------------------------------------------------------------- generic implementations

  /** The identifier the scanner meets right after `impl<`. */
  function FirstParameter(alnum: CharClass, line: string): string
    requires "impl<" <= line
  {
    Ident(alnum, TrimStart(line[5..]))
  }

  /** Of `impl<...> Type` only the `<` is skipped, not the group: the block is named after the first parameter, and is
      no block at all when the group starts with something else, a lifetime for example. */
  lemma GenericImplNamedAfterParameter(alnum: CharClass, line: string)
    requires "impl<" <= line && Find(line, " for ", 0) == None
    ensures var name, read := FirstParameter(alnum, line), Reading(alnum, line);
            if name == "" then !read.ImplLine? else read == ImplLine(name, "")
  {
    hide FirstStandalone, Find, Declared, UseTargets, CallSites, Ident;
    GenericStart(line);
    StandaloneHere(line, "impl", 0);
    assert line[4..] == "<" + line[5..] && StripPrefix(line[4..], "<") == Some(line[5..]);
  }

  lemma ParameterTakenForType(alnum: CharClass)
    requires alnum('T') && !alnum('>')
    ensures Reading(alnum, "impl<T> Foo {") == ImplLine("T", "")
  {
    hide Reading, Find, FirstStandalone;
    var line := "impl<T> Foo {";
    Absent(line, " for ", 1);
    GenericImplNamedAfterParameter(alnum, line);
    NameBeforeBracket(alnum, line[5..]);
  }

  lemma NameBeforeBracket(alnum: CharClass, rest: string)
    requires |rest| > 1 && rest[0] == 'T' && rest[1] == '>' && alnum('T') && !alnum('>')
    ensures Ident(alnum, TrimStart(rest)) == "T"
  {
    assert !IsWhitespace('T') && TrimStart(rest) == rest && rest[1..][0] == '>';
    assert Ident(alnum, rest[1..]) == "";
  }

  /** `impl<...> Trait for Type` defines no trait. */
  lemma GenericImplDefinesNoTrait(alnum: CharClass, line: string)
    requires "impl<" <= line && Find(line, " for ", 0).Some? && !alnum('<')
    ensures Reading(alnum, line).ImplLine? ==> Reading(alnum, line).traitName == ""
  {
    hide FirstStandalone, Find, Declared, DeclName, UseTargets, CallSites, TrimStart;
    GenericStart(line);
    var pos := Find(line, " for ", 0).value;
    ForAfterGroup(line, pos);
    var head := line[..pos];
    assert "impl<" <= head;
    GenericStart(head);
    assert StripPrefix(head, "impl") == Some(head[4..]) && head[4] == '<';
    NotBlank(head[4..]);
  }

  lemma GenericStart(line: string)
    requires "impl<" <= line
    ensures TrimStart(line) == line && "impl" <= line && !("///" <= line)
    ensures |line| > 4 && line[4] == '<' && OccursAt(line, "impl", 0) && Standalone(line, "impl", 0)
  {
    assert line[..5] == "impl<" && line[0] == 'i' && line[4] == '<';
    assert line[0..4] == line[..5][..4] == "impl" && "///"[0] == '/';
    assert !IsWhitespace('i');
  }

  lemma NotBlank(s: string)
    requires s != "" && s[0] == '<'
    ensures TrimStart(s) == s
  {
  }

  lemma ForAfterGroup(line: string, pos: nat)
    requires "impl<" <= line && OccursAt(line, " for ", pos)
    ensures pos >= 5
  {
    assert line[pos..pos + 5][0] == line[pos] == ' ';
    assert forall k :: 0 <= k < 5 ==> line[k] == line[..5][k] == "impl<"[k] != ' ';
  }

  // ---------------------------------------------------------------- blocks that never end

  /** Line `i` opens a block and no later line before `n` does. */
  predicate LastImpl(alnum: CharClass, lines: seq<string>, i: nat, n: nat) {
    && i < n <= |lines| && Reading(alnum, lines[i]).ImplLine?
    && forall k :: i < k < n ==> !Reading(alnum, lines[k]).ImplLine?
  }

  lemma {:induction false} ImplStaysOpen(alnum: CharClass, file: string, lines: seq<string>, i: nat, n: nat)
    requires LastImpl(alnum, lines, i, n)
    ensures ParseLines(alnum, file, lines[..n]).currentImpl == Some(Reading(alnum, lines[i]).implType)
  {
    hide Reading;
    assert lines[..n][..n - 1] == lines[..n - 1];
    if i < n - 1 {
      ImplStaysOpen(alnum, file, lines, i, n - 1);
      var line := Reading(alnum, lines[n - 1]);
      assert !line.ImplLine?;
    }
  }

  lemma {:induction false} EdgesStay(alnum: CharClass, file: string, lines: seq<string>, n: nat)
    requires n <= |lines|
    ensures ParseLines(alnum, file, lines[..n]).edges <= ParseLines(alnum, file, lines).edges
    decreases |lines|
  {
    hide Reading;
    if n == |lines| {
      assert lines[..n] == lines;
    } else {
      var front := lines[..|lines| - 1];
      assert front[..n] == lines[..n];
      EdgesStay(alnum, file, front, n);
    }
  }

  /** A function belongs to the `impl` opened last, wherever that block was closed: only the next `impl` ends it. */
  lemma EveryLaterFnIsContained(alnum: CharClass, file: string, lines: seq<string>, i: nat, j: nat)
    requires j < |lines| && LastImpl(alnum, lines, i, j)
    requires Reading(alnum, lines[j]).DeclLine? && Reading(alnum, lines[j]).kind == Fn
    ensures var name, block := Reading(alnum, lines[j]).name, ImplName(Reading(alnum, lines[i]).implType);
            Edge(block, name, Contained, file, j + 1) in ParseLines(alnum, file, lines).edges
  {
    hide Reading;
    ImplStaysOpen(alnum, file, lines, i, j);
    EdgesStay(alnum, file, lines, j + 1);
    var p, line := ParseLines(alnum, file, lines[..j]), Reading(alnum, lines[j]);
    assert lines[..j + 1][..j] == lines[..j];
    var q := ParseLines(alnum, file, lines[..j + 1]);
    assert q == Declare(p, file, j + 1, Fn, line.name);
    var e := Edge(ImplName(Reading(alnum, lines[i]).implType), line.name, Contained, file, j + 1);
    assert q.edges[|p.edges|] == e;
    assert ParseLines(alnum, file, lines).edges[|p.edges|] == e;
  }

  /** A free function after a closed, empty block. */
  lemma FreeFnIsContained(alnum: CharClass)
    requires ReadsLetters(alnum)
    ensures Edge("impl X", "b", Contained, "f", 3)
        in ParseLines(alnum, "f", Lines(Fed(["impl X {", "}", "fn b() {}"]))).edges
  {
    hide Reading, ParseLines, Lines, PlainLine, Fed;
    var lines := ["impl X {", "}", "fn b() {}"];
    LinesArePlain();
    BraceIsNoImpl(alnum);
    LinesRoundTrip(lines);
    ReadImpl(alnum);
    ReadFn(alnum);
    EveryLaterFnIsContained(alnum, "f", lines, 0, 2);
    assert ImplName("X") == "impl X";
  }

  lemma BraceIsNoImpl(alnum: CharClass)
    ensures PlainLine("}") && !Reading(alnum, "}").ImplLine?
  {
    hide ImplNames, Declared, DeclName, UseTargets, CallSites;
    assert TrimStart("}") == "}" && !("impl" <= "}");
  }
}
