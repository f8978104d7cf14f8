/** A text can be read by the grammar in one way only. What a reading is does not mention the scanner: it goes on to the
    end of the text, or to a comment or literal that nothing closes. */
module LexerReading {
  import opened Text
  import opened Lexer
  import opened LexerGrammar

  /** `inside` is the inside of the block comment that `t` continues, and `tail` what follows the comment. */
  ghost predicate ClosesAs(t: string, inside: Comment, tail: string) {
    t == Inside(inside) + ("*/" + tail) && WellNested(inside, "*/" + tail)
  }

  /** `pieces` is the inside of the string literal that `t` continues, and `tail` what follows the literal. */
  ghost predicate QuotesAs(t: string, pieces: seq<StringPiece>, tail: string) {
    t == Pieces(pieces) + ("\"" + tail) && Fits(StringLit(pieces), tail)
  }

  /** `item` stands at the start of `s` and fits what follows it. */
  ghost predicate Reads(s: string, item: Item, tail: string) {
    s == Written(item) + tail && Fits(item, tail)
  }

  ghost predicate NeverCloses(t: string) {
    forall inside, tail :: !ClosesAs(t, inside, tail)
  }

  ghost predicate NeverQuotes(t: string) {
    forall pieces, tail :: !QuotesAs(t, pieces, tail)
  }

  function RawOpening(hashes: nat): string { "r" + Repeat('#', hashes) + "\"" }

  /** A raw string with this many hashes is opened and its terminator never comes. */
  ghost predicate RawNeverEnds(s: string, hashes: nat) {
    && RawOpening(hashes) <= s
    && forall k :: hashes + 2 <= k <= |s| ==> !OccursAt(s, Terminator(hashes), k)
  }

  /** The text ends inside the block comment, string or raw string that starts at `s`. */
  ghost predicate CutOff(s: string) {
    || ("/*" <= s && NeverCloses(s[2..]))
    || (s != "" && s[0] == '"' && NeverQuotes(s[1..]))
    || exists hashes :: RawNeverEnds(s, hashes)
  }

  /** `s` consists of `items` and at most one comment or literal that nothing closes. */
  ghost predicate Reading(s: string, items: seq<Item>, rest: string) {
    s == Render(items) + rest && WellFormed(items, rest) && (rest == "" || CutOff(rest))
  }

  // ---------------------------------------------------------------- block comments

  /** What the first characters tell about the inside of a comment. */
  lemma CommentStart(t: string, inside: Comment, tail: string)
    requires ClosesAs(t, inside, tail)
    ensures t != "" && (inside.End? <==> "*/" <= t) && (inside.Nest? <==> "/*" <= t)
    ensures inside.End? ==> t[2..] == tail
    ensures inside.Plain? ==> t[0] == inside.c && ClosesAs(t[1..], inside.rest, tail)
    ensures inside.Nest? ==> var after := Inside(inside.rest) + ("*/" + tail);
                             ClosesAs(t[2..], inside.inner, after) && ClosesAs(after, inside.rest, tail)
  {
    DelimitersByChar(t);
    match inside
    case End => assert t == "*/" + tail;
    case Plain(c, rest) =>
      assert t == [c] + Inside(rest) + ("*/" + tail);
      assert t[1..] == Inside(rest) + ("*/" + tail);
    case Nest(inner, rest) =>
      var after := Inside(rest) + ("*/" + tail);
      assert "*/" + Inside(rest) + ("*/" + tail) == "*/" + after;
      assert t == "/*" + (Inside(inner) + ("*/" + after));
      assert t[2..] == Inside(inner) + ("*/" + after);
  }

  lemma {:induction false} CommentUnique(t: string, a: Comment, x: string, b: Comment, y: string)
    requires ClosesAs(t, a, x) && ClosesAs(t, b, y)
    ensures a == b && x == y
    decreases a
  {
    hide ClosesAs;
    DelimitersByChar(t);
    CommentStart(t, a, x);
    CommentStart(t, b, y);
    if a.Plain? {
      CommentUnique(t[1..], a.rest, x, b.rest, y);
    } else if a.Nest? {
      var afterA, afterB := Inside(a.rest) + ("*/" + x), Inside(b.rest) + ("*/" + y);
      CommentUnique(t[2..], a.inner, afterA, b.inner, afterB);
      CommentUnique(afterA, a.rest, x, b.rest, y);
    }
  }

  lemma EmptyNeverCloses()
    ensures NeverCloses("")
  {
    forall inside, tail ensures !ClosesAs("", inside, tail) {
      if ClosesAs("", inside, tail) { CommentStart("", inside, tail); }
    }
  }

  lemma NestedNeverCloses(t: string)
    requires "/*" <= t && NeverCloses(t[2..])
    ensures NeverCloses(t)
  {
    hide ClosesAs;
    forall inside, tail ensures !ClosesAs(t, inside, tail) {
      if ClosesAs(t, inside, tail) { CommentStart(t, inside, tail); }
    }
  }

  lemma RestNeverCloses(t: string, inner: Comment, middle: string)
    requires "/*" <= t && ClosesAs(t[2..], inner, middle) && NeverCloses(middle)
    ensures NeverCloses(t)
  {
    hide ClosesAs;
    forall inside, tail ensures !ClosesAs(t, inside, tail) {
      if ClosesAs(t, inside, tail) {
        CommentStart(t, inside, tail);
        CommentUnique(t[2..], inner, middle, inside.inner, Inside(inside.rest) + ("*/" + tail));
      }
    }
  }

  lemma PlainNeverCloses(t: string)
    requires t != "" && !("/*" <= t) && !("*/" <= t) && NeverCloses(t[1..])
    ensures NeverCloses(t)
  {
    hide ClosesAs;
    forall inside, tail ensures !ClosesAs(t, inside, tail) {
      if ClosesAs(t, inside, tail) { CommentStart(t, inside, tail); }
    }
  }

  // ---------------------------------------------------------------- strings

  /** Length of a piece in the text. */
  function PieceLen(piece: StringPiece): nat {
    if piece.Literal? then 1 else 2
  }

  /** What the first characters tell about the inside of a string. */
  lemma PiecesStart(t: string, pieces: seq<StringPiece>, tail: string)
    requires QuotesAs(t, pieces, tail)
    ensures t != "" && (pieces == [] <==> t[0] == '"') && (pieces == [] ==> t[1..] == tail)
    ensures pieces != [] ==>
              var piece := pieces[0];
              && PieceLen(piece) <= |t| && (piece.Escape? <==> t[0] == '\\') && piece.c == t[PieceLen(piece) - 1]
              && QuotesAs(t[PieceLen(piece)..], pieces[1..], tail)
  {
    if pieces != [] {
      var m := PieceLen(pieces[0]);
      assert t[m..] == Pieces(pieces[1..]) + ("\"" + tail);
    }
  }

  lemma {:induction false} PiecesUnique(t: string, a: seq<StringPiece>, x: string, b: seq<StringPiece>, y: string)
    requires QuotesAs(t, a, x) && QuotesAs(t, b, y)
    ensures a == b && x == y
    decreases |a|
  {
    hide QuotesAs;
    PiecesStart(t, a, x);
    PiecesStart(t, b, y);
    if a != [] {
      PiecesUnique(t[PieceLen(a[0])..], a[1..], x, b[1..], y);
      assert a == [a[0]] + a[1..] && b == [b[0]] + b[1..];
    }
  }

  lemma NeverQuotesStep(t: string)
    requires t == "" || (t[0] == '\\' && (|t| == 1 || NeverQuotes(t[2..])))
          || (t[0] != '"' && t[0] != '\\' && NeverQuotes(t[1..]))
    ensures NeverQuotes(t)
  {
    hide QuotesAs;
    forall pieces, tail ensures !QuotesAs(t, pieces, tail) {
      if QuotesAs(t, pieces, tail) { PiecesStart(t, pieces, tail); }
    }
  }

  // ---------------------------------------------------------------- one item

  lemma WrittenNotEmpty(item: Item)
    ensures Written(item) != ""
  {
  }

  predicate StartsWith(s: string, first: char, second: char) {
    |s| > 1 && s[0] == first && s[1] == second
  }

  /** The first characters of an item tell its kind. */
  lemma KindByStart(s: string, item: Item, tail: string)
    requires Reads(s, item, tail)
    ensures s != ""
    ensures item.LineComment? <==> StartsWith(s, '/', '/')
    ensures item.BlockComment? <==> StartsWith(s, '/', '*')
    ensures item.StringLit? <==> s[0] == '"'
    ensures item.RawString? ==> s[0] == 'r'
    ensures item.CharLit? || item.EscapedChar? ==> s[0] == '\''
  {
    hide Inside, Pieces, Terminator, WellNested;
    match item
    case Code(c) => assert s[1..] == tail;
    case LineComment(body) => assert s[0] == '/' && s[1] == '/';
    case BlockComment(inside) => assert s[0] == '/' && s[1] == '*';
    case RawString(hashes, body) => assert s[0] == 'r';
    case StringLit(pieces) => assert s[0] == '"';
    case CharLit(c) => assert s[0] == '\'';
    case EscapedChar(c) => assert s[0] == '\'';
  }

  lemma BlockStart(s: string, inside: Comment, tail: string)
    requires Reads(s, BlockComment(inside), tail)
    ensures ClosesAs(s[2..], inside, tail)
  {
    assert s[2..] == Inside(inside) + ("*/" + tail);
  }

  lemma StringStart(s: string, pieces: seq<StringPiece>, tail: string)
    requires Reads(s, StringLit(pieces), tail)
    ensures QuotesAs(s[1..], pieces, tail)
  {
    assert s[1..] == Pieces(pieces) + ("\"" + tail);
  }

  lemma RawSplit(s: string, hashes: nat, body: string, tail: string)
    requires Reads(s, RawString(hashes, body), tail)
    ensures s == RawOpening(hashes) + (body + Terminator(hashes) + tail)
  {
    hide Fits, Repeat, Terminator;
  }

  lemma OccursAfter(head: string, body: string, pattern: string, tail: string)
    ensures OccursAt(head + (body + pattern + tail), pattern, |head| + |body|)
  {
    var s := head + (body + pattern + tail);
    assert s == (head + body) + pattern + tail;
  }

  lemma RawStart(s: string, hashes: nat, body: string, tail: string)
    requires Reads(s, RawString(hashes, body), tail)
    ensures s != "" && s[0] == 'r' && Hashes(s[1..]) == hashes && hashes + 2 <= |s|
    ensures s[hashes + 2..] == body + Terminator(hashes) + tail
    ensures OccursAt(s, Terminator(hashes), hashes + 2 + |body|)
  {
    hide Hashes, Repeat, Terminator, Reads, OccursAt;
    RawSplit(s, hashes, body, tail);
    RepeatLen(hashes);
    RawHead(hashes, body + Terminator(hashes) + tail, s);
    OccursAfter(RawOpening(hashes), body, Terminator(hashes), tail);
  }

  lemma SameRaw(s: string, h: nat, b: string, g: nat, c: string, tail: string)
    requires Reads(s, RawString(h, b), tail) && Reads(s, RawString(g, c), tail)
    ensures h == g && b == c
  {
    hide Reads, Hashes, Terminator;
    RawStart(s, h, b, tail);
    RawStart(s, g, c, tail);
    assert |b| == |c|;
    assert b == s[h + 2..][..|b|] && c == s[h + 2..][..|c|];
  }

  lemma SameItem(s: string, a: Item, b: Item, tail: string)
    requires Reads(s, a, tail) && Reads(s, b, tail) && (a.Code? <==> b.Code?)
    ensures a == b
  {
    hide Fits, Inside, Pieces, Terminator;
    KindByStart(s, a, tail);
    KindByStart(s, b, tail);
    assert Written(a) == s[..|s| - |tail|] == Written(b);
    match a
    case RawString(h, body) => SameRaw(s, h, body, b.hashes, b.body, tail);
    case BlockComment(inside) =>
      BlockStart(s, inside, tail);
      BlockStart(s, b.inside, tail);
      CommentUnique(s[2..], inside, tail, b.inside, tail);
    case StringLit(pieces) =>
      StringStart(s, pieces, tail);
      StringStart(s, b.pieces, tail);
      PiecesUnique(s[1..], pieces, tail, b.pieces, tail);
    case LineComment(body) => assert body == Written(a)[2..] && b.body == Written(b)[2..];
    case Code(c) => assert Written(a)[0] == c && Written(b)[0] == b.c;
    case CharLit(c) => assert Written(a)[1] == c && Written(b)[1] == b.c && |Written(a)| == 3;
    case EscapedChar(c) => assert Written(a)[2] == c && Written(b)[2] == b.c && |Written(a)| == 4;
  }

  /** At the start of a text there stands at most one item. */
  lemma ItemUnique(s: string, a: Item, x: string, b: Item, y: string)
    requires Reads(s, a, x) && Reads(s, b, y)
    ensures a == b && x == y
  {
    hide Fits, TokenLen, KeepsLines;
    ItemScanned(a, x);
    ItemScanned(b, y);
    WrittenNotEmpty(a);
    WrittenNotEmpty(b);
    LengthOfCode(a);
    LengthOfCode(b);
    assert x == s[|Written(a)|..] && y == s[|Written(b)|..];
    SameItem(s, a, b, x);
  }

  lemma LengthOfCode(item: Item)
    ensures item.Code? ==> |Written(item)| == 1
  {
  }

  /** Where the text ends inside a comment or literal, no item stands. */
  lemma NothingStands(s: string, item: Item, tail: string)
    requires CutOff(s)
    ensures !Reads(s, item, tail)
  {
    hide Reads, ClosesAs, QuotesAs, Terminator, Repeat;
    if Reads(s, item, tail) {
      DelimitersByChar(s);
      KindByStart(s, item, tail);
      if "/*" <= s {
        BlockStart(s, item.inside, tail);
        BlockIsNoRaw(s);
      } else if s[0] == '"' {
        StringStart(s, item.pieces, tail);
        BlockIsNoRaw(s);
      } else {
        var hashes :| RawNeverEnds(s, hashes);
        RawStays(s, hashes, item, tail);
      }
    }
  }

  lemma BlockIsNoRaw(s: string)
    requires s != "" && s[0] != 'r'
    ensures forall hashes :: !RawNeverEnds(s, hashes)
  {
  }

  lemma RawStays(s: string, hashes: nat, item: Item, tail: string)
    requires RawNeverEnds(s, hashes)
    ensures !Reads(s, item, tail)
  {
    hide Hashes, Repeat, Terminator, Reads;
    assert s == RawOpening(hashes) + s[|RawOpening(hashes)|..];
    RawHead(hashes, s[|RawOpening(hashes)|..], s);
    if Reads(s, item, tail) {
      KindByStart(s, item, tail);
      if item.Code? {
        RawIsNoCode(s, hashes, item.c, tail);
      } else {
        RawStart(s, item.hashes, item.body, tail);
      }
    }
  }

  lemma RawIsNoCode(s: string, hashes: nat, c: char, tail: string)
    requires Reads(s, Code(c), tail)
    ensures !(RawOpening(hashes) <= s)
  {
    hide Repeat;
    assert s[0] == c && s[1..] == tail;
    if RawOpening(hashes) <= s {
      AfterTheR(s, hashes);
    }
  }

  lemma AfterTheR(s: string, hashes: nat)
    requires RawOpening(hashes) <= s
    ensures s[0] == 'r' && Repeat('#', hashes) + "\"" <= s[1..]
  {
    hide Repeat;
    var head := RawOpening(hashes);
    assert s[1..] == head[1..] + s[|head|..] && head[1..] == Repeat('#', hashes) + "\"";
  }

  // ---------------------------------------------------------------- a whole text

  lemma ReadingStart(s: string, items: seq<Item>, rest: string)
    requires Reading(s, items, rest) && items != []
    ensures Reads(s, items[0], Render(items[1..]) + rest)
    ensures Reading(Render(items[1..]) + rest, items[1..], rest)
    ensures |Render(items[1..]) + rest| < |s|
  {
    hide Fits, CutOff, Written;
    WrittenNotEmpty(items[0]);
    assert s == Written(items[0]) + (Render(items[1..]) + rest);
  }

  /** A text has one tree and one rest. */
  lemma {:induction false} ReadingUnique(s: string, a: seq<Item>, x: string, b: seq<Item>, y: string)
    requires Reading(s, a, x) && Reading(s, b, y)
    ensures a == b && x == y
    decreases |s|
  {
    hide Reading, Reads, CutOff;
    if a == [] || b == [] {
      EmptyReading(s, a, x);
      EmptyReading(s, b, y);
    } else {
      ReadingStart(s, a, x);
      ReadingStart(s, b, y);
      ItemUnique(s, a[0], Render(a[1..]) + x, b[0], Render(b[1..]) + y);
      ReadingUnique(Render(a[1..]) + x, a[1..], x, b[1..], y);
      assert a == [a[0]] + a[1..] && b == [b[0]] + b[1..];
    }
  }

  /** No items are read exactly where none stands. */
  lemma EmptyReading(s: string, items: seq<Item>, rest: string)
    requires Reading(s, items, rest)
    ensures items == [] <==> s == "" || CutOff(s)
    ensures items == [] ==> rest == s
  {
    hide CutOff, Fits;
    if items == [] {
      assert Render(items) + rest == rest;
    } else {
      ReadingStart(s, items, rest);
      if CutOff(s) {
        NothingStands(s, items[0], Render(items[1..]) + rest);
      }
    }
  }
}
