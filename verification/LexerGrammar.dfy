/** A grammar of Rust source text at the level `strip_noncode` looks at it: code characters, comments (block
    comments nest), raw strings, strings with escapes, character literals. */
module LexerGrammar {
  import opened Text
  import opened Lexer

  /** The inside of a block comment. */
  datatype Comment = End | Plain(c: char, rest: Comment) | Nest(inner: Comment, rest: Comment)

  datatype StringPiece = Literal(c: char) | Escape(c: char)

  datatype Item =
    | Code(c: char)
    | LineComment(body: string)
    | BlockComment(inside: Comment)
    | RawString(hashes: nat, body: string)
    | StringLit(pieces: seq<StringPiece>)
    | CharLit(c: char)
    | EscapedChar(c: char)

  function Inside(comment: Comment): string {
    match comment
    case End => ""
    case Plain(c, rest) => [c] + Inside(rest)
    case Nest(inner, rest) => "/*" + Inside(inner) + "*/" + Inside(rest)
  }

  function Pieces(pieces: seq<StringPiece>): string {
    if pieces == [] then ""
    else (match pieces[0] case Literal(c) => [c] case Escape(c) => ['\\', c]) + Pieces(pieces[1..])
  }

  function Terminator(hashes: nat): string { "\"" + Repeat('#', hashes) }

  function Written(item: Item): string {
    match item
    case Code(c) => [c]
    case LineComment(body) => "//" + body
    case BlockComment(inside) => "/*" + Inside(inside) + "*/"
    case RawString(hashes, body) => "r" + Repeat('#', hashes) + "\"" + body + Terminator(hashes)
    case StringLit(pieces) => "\"" + Pieces(pieces) + "\""
    case CharLit(c) => ['\'', c, '\'']
    case EscapedChar(c) => ['\'', '\\', c, '\'']
  }

  function Render(items: seq<Item>): string {
    if items == [] then "" else Written(items[0]) + Render(items[1..])
  }

  /** No plain character starts a comment delimiter together with what follows it. */
  predicate WellNested(comment: Comment, tail: string) {
    match comment
    case End => true
    case Plain(c, rest) =>
      var here := [c] + Inside(rest) + tail;
      !("/*" <= here) && !("*/" <= here) && WellNested(rest, tail)
    case Nest(inner, rest) => WellNested(inner, "*/" + Inside(rest) + tail) && WellNested(rest, tail)
  }

  /** Whether `c` followed by `tail` opens a comment or a literal. */
  ghost predicate Opens(c: char, tail: string) {
    || (c == '/' && tail != "" && (tail[0] == '/' || tail[0] == '*'))
    || c == '"'
    || (c == 'r' && exists h: nat :: Repeat('#', h) + "\"" <= tail)
    || (c == '\'' && |tail| > 1 && tail[0] != '\\' && tail[0] != '\'' && tail[1] == '\'')
    || (c == '\'' && |tail| > 2 && tail[0] == '\\' && tail[1] != '\n' && tail[2] == '\'')
  }

  /** Whether `item` may stand before `tail`. */
  ghost predicate Fits(item: Item, tail: string) {
    match item
    case Code(c) => !Opens(c, tail)
    case LineComment(body) => '\n' !in body && (tail == "" || tail[0] == '\n')
    case BlockComment(inside) => WellNested(inside, "*/" + tail)
    case RawString(hashes, body) =>
      forall k: nat :: k < |body| ==> !OccursAt(body + Terminator(hashes), Terminator(hashes), k)
    case StringLit(pieces) =>
      forall i :: 0 <= i < |pieces| && pieces[i].Literal? ==> pieces[i].c != '"' && pieces[i].c != '\\'
    case CharLit(c) => c != '\\' && c != '\''
    case EscapedChar(c) => c != '\n'
  }

  /** Whether `items` may stand in this order before `tail`. */
  ghost predicate WellFormed(items: seq<Item>, tail: string) {
    items == [] || (Fits(items[0], Render(items[1..]) + tail) && WellFormed(items[1..], tail))
  }

  predicate KeepsItsLines(item: Item) {
    item.BlockComment? || item.RawString? || item.StringLit?
  }

  /** Code is kept; everything else is blanked, line feeds surviving in block comments and strings. */
  function Blanked(item: Item): string {
    if item.Code? then [item.c]
    else Blanks(Written(item), KeepsItsLines(item))
  }

  function BlankedAll(items: seq<Item>): string {
    if items == [] then "" else Blanked(items[0]) + BlankedAll(items[1..])
  }

  // ---------------------------------------------------------------- the scanner recognizes each item

  lemma BlockOpensAndCloses(t: string, depth: nat)
    requires depth >= 1
    ensures BlockLen("/*" + t, depth) == 2 + BlockLen(t, depth + 1)
    ensures BlockLen("*/" + t, depth) == 2 + BlockLen(t, depth - 1)
  {
    DelimitersByChar("*/" + t);
    assert ("/*" + t)[2..] == t && ("*/" + t)[2..] == t;
  }

  lemma BlockPassesChar(c: char, t: string, depth: nat)
    requires depth >= 1 && !("/*" <= [c] + t) && !("*/" <= [c] + t)
    ensures BlockLen([c] + t, depth) == 1 + BlockLen(t, depth)
  {
    assert ([c] + t)[1..] == t;
  }

  /** Before `tail` the scanner sees exactly the item. */
  predicate Scanned(item: Item, tail: string) {
    var s := Written(item) + tail;
    && s != "" && TokenLen(s) == (if item.Code? then 0 else |Written(item)|)
    && (!item.Code? ==> (KeepsLines(s) <==> KeepsItsLines(item)))
  }

  lemma {:induction false} BlockCommentScanned(comment: Comment, tail: string, depth: nat)
    requires WellNested(comment, tail) && depth >= 1
    ensures BlockLen(Inside(comment) + tail, depth) == |Inside(comment)| + BlockLen(tail, depth)
    decreases comment
  {
    hide BlockLen;
    match comment
    case End =>
      assert Inside(comment) + tail == tail;
    case Plain(c, rest) =>
      assert [c] + Inside(rest) + tail == [c] + (Inside(rest) + tail);
      BlockPassesChar(c, Inside(rest) + tail, depth);
      BlockCommentScanned(rest, tail, depth);
    case Nest(inner, rest) =>
      var after := Inside(rest) + tail;
      assert "*/" + Inside(rest) + tail == "*/" + after;
      assert Inside(comment) + tail == "/*" + (Inside(inner) + ("*/" + after));
      BlockOpensAndCloses(Inside(inner) + ("*/" + after), depth);
      BlockCommentScanned(inner, "*/" + after, depth + 1);
      BlockOpensAndCloses(after, depth + 1);
      BlockCommentScanned(rest, tail, depth);
  }

  lemma {:induction false} StringScanned(pieces: seq<StringPiece>, tail: string)
    requires forall i :: 0 <= i < |pieces| && pieces[i].Literal? ==> pieces[i].c != '"' && pieces[i].c != '\\'
    ensures StringLen(Pieces(pieces) + "\"" + tail) == |Pieces(pieces)| + 1
  {
    var s := Pieces(pieces) + "\"" + tail;
    if pieces == [] {
      assert s[0] == '"';
    } else {
      var head := match pieces[0] case Literal(c) => [c] case Escape(c) => ['\\', c];
      assert s[|head|..] == Pieces(pieces[1..]) + "\"" + tail && s[0] == head[0];
      StringScanned(pieces[1..], tail);
    }
  }

  lemma {:induction false} HashesScanned(n: nat, tail: string)
    requires tail == "" || tail[0] != '#'
    ensures Hashes(Repeat('#', n) + tail) == n
  {
    var s := Repeat('#', n) + tail;
    if n == 0 {
      assert s == tail;
    } else {
      assert s[0] == '#' && s[1..] == Repeat('#', n - 1) + tail;
      HashesScanned(n - 1, tail);
    }
  }

  lemma OccursInPrefix(a: string, b: string, pattern: string, k: nat)
    requires k + |pattern| <= |a|
    ensures OccursAt(a + b, pattern, k) <==> OccursAt(a, pattern, k)
  {
    assert (a + b)[k..k + |pattern|] == a[k..k + |pattern|];
  }

  /** The terminator first occurs where the body ends. */
  lemma TerminatorFound(head: string, body: string, terminator: string, tail: string)
    requires forall k: nat :: k < |body| ==> !OccursAt(body + terminator, terminator, k)
    ensures Find(head + (body + terminator) + tail, terminator, |head|) == Some(|head| + |body|)
  {
    hide Find;
    var closed := body + terminator;
    var s := head + closed + tail;
    assert OccursAt(closed, terminator, |body|);
    forall k | |head| <= k <= |head| + |body| ensures OccursAt(s, terminator, k) <==> k == |head| + |body| {
      assert s[k..k + |terminator|] == (closed + tail)[k - |head|..k - |head| + |terminator|];
      OccursInPrefix(closed, tail, terminator, k - |head|);
    }
    assert OccursAt(s, terminator, |head| + |body|);
  }

  lemma RawStringScanned(hashes: nat, body: string, tail: string)
    requires Fits(RawString(hashes, body), tail)
    ensures Scanned(RawString(hashes, body), tail)
  {
    hide Find, Repeat, OccursAt, Hashes, Terminator;
    var head, terminator := "r" + Repeat('#', hashes) + "\"", Terminator(hashes);
    var closed := body + terminator;
    RepeatLen(hashes);
    var s := Written(RawString(hashes, body)) + tail;
    assert s == head + closed + tail;
    DelimitersByChar(s);
    RawHead(hashes, closed + tail, s);
    TerminatorFound(head, body, terminator, tail);
    assert terminator == "\"" + Repeat('#', hashes) by { TerminatorSpelled(hashes); }
  }

  lemma TerminatorSpelled(hashes: nat)
    ensures Terminator(hashes) == "\"" + Repeat('#', hashes)
  {
  }

  lemma RawHead(hashes: nat, rest: string, s: string)
    requires s == "r" + Repeat('#', hashes) + "\"" + rest
    ensures s[0] == 'r' && Hashes(s[1..]) == hashes && hashes + 1 < |s| && s[hashes + 1] == '"'
  {
    hide Hashes, Repeat;
    RepeatLen(hashes);
    assert s[1..] == Repeat('#', hashes) + ("\"" + rest);
    HashesScanned(hashes, "\"" + rest);
  }

  lemma RepeatLen(n: nat)
    ensures |Repeat('#', n)| == n
  {
  }

  lemma LineCommentScanned(body: string, tail: string)
    requires Fits(LineComment(body), tail)
    ensures Scanned(LineComment(body), tail)
  {
    var s := "//" + body + tail;
    DelimitersByChar(s);
    forall k | 0 <= k < |s| ensures OccursAt(s, "\n", k) <==> s[k] == '\n' {
      LineFeedAt(s, k);
    }
    forall k | 0 <= k < |body| + 2 ensures s[k] != '\n' {
      if k >= 2 { assert s[k] == body[k - 2]; }
    }
    if tail != "" {
      assert s[|body| + 2] == tail[0];
    }
  }

  lemma RawOpener(tail: string, h: nat)
    requires h < |tail| && (forall k :: 0 <= k < h ==> tail[k] == '#') && tail[h] == '"'
    ensures Repeat('#', h) + "\"" <= tail
  {
    assert tail[..h + 1] == Repeat('#', h) + "\"";
  }

  lemma CodeScanned(c: char, tail: string)
    requires !Opens(c, tail)
    ensures Scanned(Code(c), tail)
  {
    hide BlockLen, LineCommentLen, StringLen, Hashes, Find, Repeat;
    var s := [c] + tail;
    assert s[1..] == tail;
    DelimitersByChar(s);
    if c == 'r' && RawLen(s) > 0 {
      RawOpener(tail, Hashes(tail));
    }
  }

  lemma CommentScanned(inside: Comment, tail: string)
    requires WellNested(inside, "*/" + tail)
    ensures Scanned(BlockComment(inside), tail)
  {
    hide BlockLen, WellNested, Inside;
    var s := Written(BlockComment(inside)) + tail;
    DelimitersByChar(s);
    assert s[2..] == Inside(inside) + ("*/" + tail);
    BlockCommentScanned(inside, "*/" + tail, 1);
    BlockOpensAndCloses(tail, 1);
    assert BlockLen(tail, 0) == 0 by { BlockEnds(tail); }
  }

  lemma BlockEnds(tail: string)
    ensures BlockLen(tail, 0) == 0
  {
  }

  lemma StringLitScanned(pieces: seq<StringPiece>, tail: string)
    requires Fits(StringLit(pieces), tail)
    ensures Scanned(StringLit(pieces), tail)
  {
    hide StringLen, Pieces;
    var s := Written(StringLit(pieces)) + tail;
    DelimitersByChar(s);
    StringScanned(pieces, tail);
    assert s[1..] == Pieces(pieces) + "\"" + tail;
  }

  lemma CharScanned(item: Item, tail: string)
    requires (item.CharLit? || item.EscapedChar?) && Fits(item, tail)
    ensures Scanned(item, tail)
  {
    hide RawLen, BlockLen, StringLen, LineCommentLen, Opens;
    var s := Written(item) + tail;
    DelimitersByChar(s);
    if item.CharLit? {
      assert |s| > 2 && s[0] == '\'' && s[1] == item.c && s[2] == '\'';
    } else {
      assert |s| > 3 && s[0] == '\'' && s[1] == '\\' && s[2] == item.c && s[3] == '\'';
    }
  }

  lemma ItemScanned(item: Item, tail: string)
    requires Fits(item, tail)
    ensures Scanned(item, tail)
  {
    hide Scanned, WellNested, Opens;
    match item
    case Code(c) => CodeScanned(c, tail);
    case LineComment(body) => LineCommentScanned(body, tail);
    case BlockComment(inside) => CommentScanned(inside, tail);
    case RawString(hashes, body) => RawStringScanned(hashes, body, tail);
    case StringLit(pieces) => StringLitScanned(pieces, tail);
    case CharLit(_) => CharScanned(item, tail);
    case EscapedChar(_) => CharScanned(item, tail);
  }

  /** Stripping blanks exactly the comments and literals of the grammar tree, at any nesting depth and under any
      escapes, keeps the code, and goes on with what follows. */
  lemma {:induction false} StripFollowsGrammar(items: seq<Item>, tail: string)
    requires WellFormed(items, tail)
    ensures Strip(Render(items) + tail) == BlankedAll(items) + Strip(tail)
  {
    hide TokenLen, KeepsLines, Fits, Written, Strip;
    if items == [] {
      assert Render(items) + tail == tail;
    } else {
      var item, rest := items[0], Render(items[1..]) + tail;
      assert Render(items) + tail == Written(item) + rest;
      ItemScanned(item, rest);
      StripFollowsGrammar(items[1..], tail);
      ItemStripped(item, rest);
    }
  }

  lemma ItemStripped(item: Item, rest: string)
    requires Fits(item, rest)
    ensures Strip(Written(item) + rest) == Blanked(item) + Strip(rest)
  {
    hide TokenLen, KeepsLines, Fits, Written;
    var s := Written(item) + rest;
    ItemScanned(item, rest);
    if item.Code? {
      CodeWritten(item);
      assert s[0] == item.c && s[1..] == rest;
    } else {
      assert s[..|Written(item)|] == Written(item) && s[|Written(item)|..] == rest;
    }
  }

  lemma CodeWritten(item: Item)
    requires item.Code?
    ensures Written(item) == [item.c]
  {
  }
}
