/** Every source text is a sequence of grammar items, followed at most by one comment or literal that the text ends
    inside. */
module LexerCoverage {
  import opened Text
  import opened Lexer
  import opened LexerGrammar
  import opened LexerReading

  // ---------------------------------------------------------------- block comments

  /** The scanner takes all of `t` for the inside of a block comment, however deep. */
  ghost predicate RunsOut(t: string) {
    forall depth: nat :: depth >= 1 ==> BlockLen(t, depth) == |t|
  }

  /** Reads the inside of a block comment; `None` when it is never closed. */
  lemma {:induction false} ReadComment(t: string) returns (inside: Option<Comment>, tail: string)
    ensures if inside.Some? then ClosesAs(t, inside.value, tail) else NeverCloses(t) && RunsOut(t)
    decreases |t|
  {
    hide ClosesAs, NeverCloses, RunsOut;
    DelimitersByChar(t);
    if t == "" {
      inside, tail := None, "";
      EmptyNeverCloses();
      EmptyRunsOut();
    } else if "/*" <= t {
      assert t == "/*" + t[2..];
      inside, tail := ReadComment(t[2..]);
      if inside.None? {
        NestedNeverCloses(t);
        NestedRunsOut(t[2..]);
      } else {
        var inner, middle := inside.value, tail;
        TailIsShorter(t[2..], inner, middle);
        inside, tail := ReadComment(middle);
        if inside.None? {
          RestNeverCloses(t, inner, middle);
          RestRunsOut(inner, t[2..], middle);
        } else {
          NestCloses(inner, inside.value, t[2..], middle, tail);
          inside := Some(Nest(inner, inside.value));
        }
      }
    } else if "*/" <= t {
      inside, tail := Some(End), t[2..];
      EndCloses(tail);
      assert t == "*/" + tail;
    } else {
      assert t == [t[0]] + t[1..];
      inside, tail := ReadComment(t[1..]);
      if inside.None? {
        PlainNeverCloses(t);
        PlainRunsOut(t[0], t[1..]);
      } else {
        PlainCloses(t[0], t[1..], inside.value, tail);
        inside := Some(Plain(t[0], inside.value));
      }
    }
  }

  lemma TailIsShorter(t: string, inside: Comment, tail: string)
    requires ClosesAs(t, inside, tail)
    ensures |tail| < |t|
  {
  }

  lemma EndCloses(tail: string)
    ensures ClosesAs("*/" + tail, End, tail)
  {
    assert "" + ("*/" + tail) == "*/" + tail;
  }

  lemma EmptyRunsOut()
    ensures RunsOut("")
  {
  }

  lemma NestedRunsOut(u: string)
    requires RunsOut(u)
    ensures RunsOut("/*" + u)
  {
    hide BlockLen;
    forall depth: nat | depth >= 1 ensures BlockLen("/*" + u, depth) == |u| + 2 {
      BlockOpensAndCloses(u, depth);
      assert BlockLen(u, depth + 1) == |u|;
    }
  }

  lemma RestRunsOut(inner: Comment, u: string, middle: string)
    requires ClosesAs(u, inner, middle) && RunsOut(middle)
    ensures RunsOut("/*" + u)
  {
    hide BlockLen, WellNested, Inside;
    forall depth: nat | depth >= 1 ensures BlockLen("/*" + u, depth) == |u| + 2 {
      BlockOpensAndCloses(u, depth);
      BlockCommentScanned(inner, "*/" + middle, depth + 1);
      BlockOpensAndCloses(middle, depth + 1);
      assert BlockLen(middle, depth) == |middle|;
    }
  }

  lemma NestCloses(inner: Comment, rest: Comment, u: string, middle: string, tail: string)
    requires ClosesAs(u, inner, middle) && ClosesAs(middle, rest, tail)
    ensures ClosesAs("/*" + u, Nest(inner, rest), tail)
  {
    assert Inside(Nest(inner, rest)) == "/*" + Inside(inner) + "*/" + Inside(rest);
    assert "/*" + u == Inside(Nest(inner, rest)) + ("*/" + tail);
    assert "*/" + Inside(rest) + ("*/" + tail) == "*/" + middle;
  }

  lemma PlainRunsOut(c: char, t: string)
    requires RunsOut(t) && !("/*" <= [c] + t) && !("*/" <= [c] + t)
    ensures RunsOut([c] + t)
  {
    hide BlockLen;
    forall depth: nat | depth >= 1 ensures BlockLen([c] + t, depth) == |t| + 1 {
      BlockPassesChar(c, t, depth);
      assert BlockLen(t, depth) == |t|;
    }
  }

  lemma PlainCloses(c: char, t: string, rest: Comment, tail: string)
    requires ClosesAs(t, rest, tail) && !("/*" <= [c] + t) && !("*/" <= [c] + t)
    ensures ClosesAs([c] + t, Plain(c, rest), tail)
  {
    assert [c] + Inside(rest) + ("*/" + tail) == [c] + t;
  }

  // ---------------------------------------------------------------- strings

  /** Reads the inside of a string literal; `None` when it is never closed. */
  lemma {:induction false} ReadPieces(t: string) returns (pieces: Option<seq<StringPiece>>, tail: string)
    ensures if pieces.Some? then QuotesAs(t, pieces.value, tail) else NeverQuotes(t) && StringLen(t) >= |t|
    decreases |t|
  {
    hide NeverQuotes, QuotesAs;
    if t == "" || (t[0] == '\\' && |t| == 1) {
      pieces, tail := None, "";
      NeverQuotesStep(t);
    } else if t[0] == '"' {
      pieces, tail := Some([]), t[1..];
      QuoteCloses(tail);
      assert t == "\"" + tail;
    } else {
      var piece, m := if t[0] == '\\' then Escape(t[1]) else Literal(t[0]), if t[0] == '\\' then 2 else 1;
      pieces, tail := ReadPieces(t[m..]);
      if pieces.Some? {
        PieceInFront(t, piece, m, pieces.value, tail);
        pieces := Some([piece] + pieces.value);
      } else {
        NeverQuotesStep(t);
      }
    }
  }

  lemma QuoteCloses(tail: string)
    ensures QuotesAs("\"" + tail, [], tail)
  {
    assert "" + ("\"" + tail) == "\"" + tail;
  }

  lemma PieceInFront(t: string, piece: StringPiece, m: nat, rest: seq<StringPiece>, tail: string)
    requires m <= |t| && t[..m] == (match piece case Literal(c) => [c] case Escape(c) => ['\\', c])
    requires piece.Literal? ==> piece.c != '"' && piece.c != '\\'
    requires QuotesAs(t[m..], rest, tail)
    ensures QuotesAs(t, [piece] + rest, tail)
  {
    assert ([piece] + rest)[1..] == rest;
    assert t == t[..m] + t[m..];
  }

  // ---------------------------------------------------------------- one item

  lemma OccursLater(s: string, from: nat, a: string, b: string, pattern: string, i: nat)
    requires from <= |s| && s[from..] == a + b && i + |pattern| <= |a| && !OccursAt(s, pattern, from + i)
    ensures !OccursAt(a, pattern, i)
  {
    assert s[from..][i..i + |pattern|] == s[from + i..from + i + |pattern|] == a[i..i + |pattern|];
  }

  lemma HashRun(t: string)
    ensures t[..Hashes(t)] == Repeat('#', Hashes(t))
  {
  }

  /** A raw string that is closed at `j`. */
  lemma RawReads(s: string, hashes: nat, j: nat)
    requires s != "" && s[0] == 'r' && hashes == Hashes(s[1..]) && hashes + 1 < |s| && s[hashes + 1] == '"'
    requires hashes + 2 <= j && OccursAt(s, Terminator(hashes), j)
    requires forall k :: hashes + 2 <= k < j ==> !OccursAt(s, Terminator(hashes), k)
    ensures Reads(s, RawString(hashes, s[hashes + 2..j]), s[j + |Terminator(hashes)|..])
  {
    hide Hashes, Repeat;
    var terminator, body := Terminator(hashes), s[hashes + 2..j];
    var tail := s[j + |terminator|..];
    HashRun(s[1..]);
    RepeatLen(hashes);
    RawSpelled(s, hashes, j, terminator);
    assert s[hashes + 2..] == (body + terminator) + tail;
    forall i: nat | i < |body| ensures !OccursAt(body + terminator, terminator, i) {
      OccursLater(s, hashes + 2, body + terminator, tail, terminator, i);
    }
  }

  lemma RawSpelled(s: string, hashes: nat, j: nat, terminator: string)
    requires hashes + 2 <= j && j + |terminator| <= |s| && s[j..j + |terminator|] == terminator
    requires s[0] == 'r' && |Repeat('#', hashes)| == hashes && s[1..][..hashes] == Repeat('#', hashes)
        && s[hashes + 1] == '"'
    ensures s == "r" + Repeat('#', hashes) + "\"" + s[hashes + 2..j] + terminator + s[j + |terminator|..]
  {
    assert s[..hashes + 2] == "r" + Repeat('#', hashes) + "\"";
    assert s == s[..hashes + 2] + s[hashes + 2..j] + s[j..j + |terminator|] + s[j + |terminator|..];
  }

  lemma RawOpens(s: string, hashes: nat)
    requires s != "" && s[0] == 'r' && hashes == Hashes(s[1..]) && hashes + 1 < |s| && s[hashes + 1] == '"'
    ensures RawOpening(hashes) <= s
  {
    HashRun(s[1..]);
    assert s[..hashes + 2] == RawOpening(hashes);
  }

  lemma ReadRaw(s: string) returns (item: Option<Item>, tail: string)
    requires s != "" && s[0] == 'r' && RawLen(s) > 0
    ensures if item.Some? then Reads(s, item.value, tail) else CutOff(s) && RawLen(s) == |s|
  {
    hide Find, Repeat, OccursAt, Hashes, Reads;
    var hashes := Hashes(s[1..]);
    var found := Find(s, Terminator(hashes), hashes + 2);
    item, tail := None, "";
    if found.Some? {
      var j := found.value;
      RawReads(s, hashes, j);
      item, tail := Some(RawString(hashes, s[hashes + 2..j])), s[j + |Terminator(hashes)|..];
    } else {
      RawOpens(s, hashes);
      assert RawNeverEnds(s, hashes);
    }
  }

  lemma ReadCode(s: string)
    requires s != "" && TokenLen(s) == 0
    ensures Reads(s, Code(s[0]), s[1..])
  {
    hide BlockLen, StringLen, Find, Hashes, Repeat;
    var c, tail := s[0], s[1..];
    assert s == [c] + tail;
    DelimitersByChar(s);
    if c == '/' && tail != "" && tail[0] == '/' {
      LineCommentNotEmpty(s);
    }
    if c == 'r' {
      forall h: nat ensures !(Repeat('#', h) + "\"" <= tail) {
        if Repeat('#', h) + "\"" <= tail { OpenerScanned(tail, h); }
      }
    }
  }

  lemma LineCommentNotEmpty(s: string)
    requires "//" <= s
    ensures LineCommentLen(s) >= 2
  {
    DelimitersByChar(s);
    LineFeedAt(s, 0);
    LineFeedAt(s, 1);
  }

  lemma OpenerScanned(tail: string, h: nat)
    requires Repeat('#', h) + "\"" <= tail
    ensures Hashes(tail) == h && RawLen(['r'] + tail) > 0
  {
    RepeatLen(h);
    assert tail == Repeat('#', h) + ("\"" + tail[h + 1..]);
    HashesScanned(h, "\"" + tail[h + 1..]);
    assert (['r'] + tail)[1..] == tail && tail[h] == '"';
  }

  lemma ReadLineComment(s: string) returns (item: Item, tail: string)
    requires "//" <= s
    ensures Reads(s, item, tail)
  {
    var n := LineCommentLen(s);
    LineCommentNotEmpty(s);
    forall k | 0 <= k < |s| ensures OccursAt(s, "\n", k) <==> s[k] == '\n' {
      LineFeedAt(s, k);
    }
    item, tail := LineComment(s[2..n]), s[n..];
    assert s == "//" + s[2..n] + s[n..];
  }

  lemma ReadBlock(s: string) returns (item: Option<Item>, tail: string)
    requires "/*" <= s
    ensures if item.Some? then Reads(s, item.value, tail) else CutOff(s) && TokenLen(s) == |s|
  {
    hide BlockLen, WellNested, Inside;
    DelimitersByChar(s);
    assert s == "/*" + s[2..];
    var inside;
    inside, tail := ReadComment(s[2..]);
    item := None;
    if inside.Some? {
      item := Some(BlockComment(inside.value));
      assert s == "/*" + Inside(inside.value) + "*/" + tail;
    }
  }

  lemma ReadString(s: string) returns (item: Option<Item>, tail: string)
    requires s != "" && s[0] == '"'
    ensures if item.Some? then Reads(s, item.value, tail) else CutOff(s) && TokenLen(s) == |s|
  {
    hide StringLen, Pieces;
    DelimitersByChar(s);
    assert s == "\"" + s[1..];
    var pieces;
    pieces, tail := ReadPieces(s[1..]);
    item := None;
    if pieces.Some? {
      item := Some(StringLit(pieces.value));
      assert s == "\"" + Pieces(pieces.value) + "\"" + tail;
    }
  }

  lemma ReadChar(s: string) returns (item: Item, tail: string)
    requires s != "" && s[0] == '\'' && TokenLen(s) > 0
    ensures Reads(s, item, tail)
  {
    DelimitersByChar(s);
    if CharLen(s) == 4 {
      item, tail := EscapedChar(s[2]), s[4..];
      assert s == ['\'', '\\', s[2], '\''] + tail;
    } else {
      item, tail := CharLit(s[1]), s[3..];
      assert s == ['\'', s[1], '\''] + tail;
    }
  }

  /** The next item, unless the text ends inside it. */
  lemma ReadItem(s: string) returns (item: Option<Item>, tail: string)
    requires s != ""
    ensures if item.Some? then Reads(s, item.value, tail) else CutOff(s) && TokenLen(s) == |s| && KeepsLines(s)
  {
    hide BlockLen, StringLen, LineCommentLen, RawLen, CharLen, Reads;
    DelimitersByChar(s);
    if TokenLen(s) == 0 {
      ReadCode(s);
      item, tail := Some(Code(s[0])), s[1..];
    } else if "//" <= s {
      var comment;
      comment, tail := ReadLineComment(s);
      item := Some(comment);
    } else if "/*" <= s {
      item, tail := ReadBlock(s);
    } else if s[0] == 'r' {
      item, tail := ReadRaw(s);
    } else if s[0] == '"' {
      item, tail := ReadString(s);
    } else {
      var literal;
      literal, tail := ReadChar(s);
      item := Some(literal);
    }
  }

  // ---------------------------------------------------------------- a whole text

  lemma ReadingInFront(s: string, item: Item, tail: string, items: seq<Item>, rest: string)
    requires Reads(s, item, tail) && Reading(tail, items, rest)
    ensures Reading(s, [item] + items, rest)
  {
    hide CutOff, Fits, Written;
    assert ([item] + items)[1..] == items;
    assert Written(item) + (Render(items) + rest) == Written(item) + Render(items) + rest;
  }

  lemma NothingRead(s: string)
    requires s == "" || CutOff(s)
    ensures Reading(s, [], s)
  {
    assert "" + s == s;
  }

  lemma {:induction false} ReadAll(s: string) returns (items: seq<Item>, rest: string)
    ensures Reading(s, items, rest)
    decreases |s|
  {
    hide Reading, CutOff, TokenLen, KeepsLines, Fits, Written;
    items, rest := [], s;
    if s == "" {
      NothingRead(s);
    } else {
      var item, tail := ReadItem(s);
      if item.Some? {
        WrittenNotEmpty(item.value);
        items, rest := ReadAll(tail);
        ReadingInFront(s, item.value, tail, items, rest);
        items := [item.value] + items;
      } else {
        NothingRead(s);
      }
    }
  }

  /** What the text ends inside of is blanked as a whole. */
  lemma CutOffIsBlanked(rest: string)
    requires rest == "" || CutOff(rest)
    ensures Strip(rest) == Blanks(rest, true)
  {
    hide CutOff, Reads, TokenLen, KeepsLines;
    if rest != "" {
      var item, tail := ReadItem(rest);
      if item.Some? {
        NothingStands(rest, item.value, tail);
      } else {
        assert rest[..|rest|] == rest && rest[|rest|..] == "";
        assert Blanks(rest, true) + "" == Blanks(rest, true);
      }
    }
  }

  /** Every text has exactly one grammar tree, up to a comment or literal that nothing closes; and stripping it is
      blanking that tree and that rest. */
  lemma EveryTextIsRead(s: string) returns (items: seq<Item>, rest: string)
    ensures Reading(s, items, rest)
    ensures forall others, after :: Reading(s, others, after) ==> others == items && after == rest
    ensures Strip(s) == BlankedAll(items) + Blanks(rest, true)
  {
    hide TokenLen, CutOff, Fits, Strip, Blanks, WellFormed;
    items, rest := ReadAll(s);
    forall others, after | Reading(s, others, after) ensures others == items && after == rest {
      ReadingUnique(s, others, after, items, rest);
    }
    StripFollowsGrammar(items, rest);
    CutOffIsBlanked(rest);
  }

  // ---------------------------------------------------------------- line feeds

  /** Every line feed of `s` is still one in `o`. */
  ghost predicate KeepsFeeds(s: string, o: string)
    requires |s| == |o|
  {
    forall k :: 0 <= k < |s| && s[k] == '\n' ==> o[k] == '\n'
  }

  lemma KeepsFeedsConcat(a: string, b: string, c: string, d: string)
    requires |a| == |c| && |b| == |d|
    ensures KeepsFeeds(a + b, c + d) <==> KeepsFeeds(a, c) && KeepsFeeds(b, d)
  {
    assert forall k :: 0 <= k < |a| ==> (a + b)[k] == a[k] && (c + d)[k] == c[k];
    assert forall k :: 0 <= k < |b| ==> (a + b)[|a| + k] == b[k] && (c + d)[|a| + k] == d[k];
  }

  lemma ItemKeepsFeedsIff(item: Item, tail: string)
    requires Fits(item, tail)
    ensures |Blanked(item)| == |Written(item)|
    ensures KeepsFeeds(Written(item), Blanked(item)) <==> item != CharLit('\n')
  {
    hide Inside, Pieces, Terminator, WellNested, Opens;
    match item
    case LineComment(body) =>
      forall k | 0 <= k < |Written(item)| ensures Written(item)[k] != '\n' {
        if k >= 2 { assert Written(item)[k] == body[k - 2]; }
      }
    case CharLit(c) => assert Written(item)[1] == c && Blanked(item)[1] == ' ';
    case _ =>
  }

  lemma {:induction false} ItemsKeepFeedsIff(items: seq<Item>, tail: string)
    requires WellFormed(items, tail)
    ensures |BlankedAll(items)| == |Render(items)|
    ensures KeepsFeeds(Render(items), BlankedAll(items)) <==> CharLit('\n') !in items
  {
    hide Fits, Written, Blanked, KeepsFeeds;
    if items == [] {
      NoFeeds();
    } else {
      assert items == [items[0]] + items[1..];
      ItemKeepsFeedsIff(items[0], Render(items[1..]) + tail);
      ItemsKeepFeedsIff(items[1..], tail);
      KeepsFeedsConcat(Written(items[0]), Render(items[1..]), Blanked(items[0]), BlankedAll(items[1..]));
    }
  }

  lemma NoFeeds()
    ensures KeepsFeeds("", "")
  {
  }

  /** Stripping keeps every line feed exactly when no character literal of the text is a bare line feed. */
  lemma LineFeedsKeptIff(src: string, items: seq<Item>, rest: string)
    requires Reading(src, items, rest)
    ensures |Strip(src)| == |src| && (KeepsFeeds(src, Strip(src)) <==> CharLit('\n') !in items)
  {
    hide WellFormed, Strip, CutOff;
    StripFollowsGrammar(items, rest);
    CutOffIsBlanked(rest);
    ItemsKeepFeedsIff(items, rest);
    KeepsFeedsConcat(Render(items), rest, BlankedAll(items), Blanks(rest, true));
  }
}
