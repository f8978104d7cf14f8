/** Blanking of comments and literals in Rust source text (`scripts/ci/rs_static_check.py`, `strip_noncode`).
    The scanner is specified on the text still to be read. */
module Lexer {
  import opened Text

  // ---------------------------------------------------------------- one token

  function LineCommentLen(s: string): (n: nat)
    ensures n <= |s|
  {
    match Find(s, "\n", 0) case None => |s| case Some(j) => j
  }

  /** Length of the rest of a block comment nested `depth` deep; unterminated comments reach the end. */
  function BlockLen(s: string, depth: nat): (n: nat)
    ensures n <= |s|
  {
    if s == "" || depth == 0 then 0
    else if "/*" <= s then 2 + BlockLen(s[2..], depth + 1)
    else if "*/" <= s then 2 + BlockLen(s[2..], depth - 1)
    else 1 + BlockLen(s[1..], depth)
  }

  /** Number of leading hashes. */
  function Hashes(s: string): (n: nat)
    ensures n <= |s| && (forall k :: 0 <= k < n ==> s[k] == '#') && (n < |s| ==> s[n] != '#')
  {
    if s != "" && s[0] == '#' then 1 + Hashes(s[1..]) else 0
  }

  function Repeat(c: char, n: nat): string {
    seq(n, i => c)
  }

  /** Length of a raw string literal at the start of `s`, or 0. */
  function RawLen(s: string): (n: nat)
    requires s != "" && s[0] == 'r'
    ensures n <= |s| && (n > 0 ==> n > 1)
  {
    var hashes := Hashes(s[1..]);
    var k := 1 + hashes;
    if k < |s| && s[k] == '"' then
      var terminator := "\"" + Repeat('#', hashes);
      match Find(s, terminator, k + 1) case None => |s| case Some(j) => j + |terminator|
    else 0
  }

  /** Length of the rest of a string literal; a trailing escape may point past the end. */
  function StringLen(s: string): nat {
    if s == "" then 0
    else if s[0] == '\\' then if |s| == 1 then 2 else 2 + StringLen(s[2..])
    else if s[0] == '"' then 1
    else 1 + StringLen(s[1..])
  }

  /** Length of a character literal at the start of `s`, or 0 when the quote starts a lifetime. */
  function CharLen(s: string): nat
    requires s != "" && s[0] == '\''
  {
    if |s| > 3 && s[1] == '\\' && s[2] != '\n' && s[3] == '\'' then 4
    else if |s| > 2 && s[1] != '\\' && s[1] != '\'' && s[2] == '\'' then 3
    else 0
  }

  /** Length of the comment or literal at the start of `s`; 0 when the first character is code. */
  function TokenLen(s: string): (n: nat)
    requires s != ""
    ensures n <= |s|
  {
    if "//" <= s then LineCommentLen(s)
    else if "/*" <= s then 2 + BlockLen(s[2..], 1)
    else if s[0] == 'r' then RawLen(s)
    else if s[0] == '"' then Min(1 + StringLen(s[1..]), |s|)
    else if s[0] == '\'' then CharLen(s)
    else 0
  }

  /** Whether the blanks written for the token at the start of `s` keep its line feeds. */
  predicate KeepsLines(s: string)
    requires s != ""
  {
    "/*" <= s || s[0] == 'r' || s[0] == '"'
  }

  function Blanks(s: string, keepLines: bool): (r: string)
    ensures |r| == |s|
  {
    seq(|s|, i requires 0 <= i < |s| => if keepLines && s[i] == '\n' then '\n' else ' ')
  }

  function Strip(s: string): string
    decreases |s|
  {
    if s == "" then ""
    else if TokenLen(s) == 0 then [s[0]] + Strip(s[1..])
    else Blanks(s[..TokenLen(s)], KeepsLines(s)) + Strip(s[TokenLen(s)..])
  }

  // ---------------------------------------------------------------- what stripping preserves

  predicate IsBlank(c: char) { c == ' ' || c == '\n' }

  /** Characters the scanner consumes in one go. */
  function StepLen(s: string): (n: nat)
    requires s != ""
    ensures 0 < n <= |s|
  {
    if TokenLen(s) == 0 then 1 else TokenLen(s)
  }

  /** What one step writes. */
  function Head(s: string): (r: string)
    requires s != ""
    ensures |r| == StepLen(s)
  {
    if TokenLen(s) == 0 then [s[0]] else Blanks(s[..TokenLen(s)], KeepsLines(s))
  }

  lemma StripStep(s: string)
    requires s != ""
    ensures Strip(s) == Head(s) + Strip(s[StepLen(s)..])
  {
    hide TokenLen, Blanks, KeepsLines;
  }

  /** A line feed that becomes a space was alone between two quotes. */
  predicate Swallowed(s: string, k: nat) {
    0 < k < |s| - 1 && s[k - 1] == '\'' && s[k + 1] == '\''
  }

  /** Character `k` of `s` may be written as `c`. */
  predicate MayBecome(s: string, k: nat, c: char)
    requires k < |s|
  {
    (c == s[k] || c == ' ') && (s[k] == '\n' && c != '\n' ==> Swallowed(s, k))
  }

  lemma HeadMayBecome(s: string, k: nat)
    requires s != "" && k < StepLen(s)
    ensures MayBecome(s, k, Head(s)[k])
  {
    LineFeedAt(s, k);
  }

  lemma MayBecomeLater(s: string, from: nat, k: nat, c: char)
    requires from <= k < |s| && MayBecome(s[from..], k - from, c)
    ensures MayBecome(s, k, c)
  {
  }

  /** Same length for every input, terminated or not; every character is kept or becomes a space, and a lost
      line feed was the content of a character literal. */
  lemma {:induction false} StripPreservesOffsets(s: string)
    ensures |Strip(s)| == |s|
    ensures forall k :: 0 <= k < |s| ==> MayBecome(s, k, Strip(s)[k])
    decreases |s|
  {
    hide MayBecome, Head, StepLen;
    if s != "" {
      var n := StepLen(s);
      StripStep(s);
      StripPreservesOffsets(s[n..]);
      forall k | 0 <= k < |s| ensures MayBecome(s, k, Strip(s)[k]) {
        if k < n {
          HeadMayBecome(s, k);
        } else {
          MayBecomeLater(s, n, k, Strip(s)[k]);
        }
      }
    }
  }

  // ---------------------------------------------------------------- idempotence

  lemma DelimitersByChar(s: string)
    ensures "/*" <= s <==> |s| > 1 && s[0] == '/' && s[1] == '*'
    ensures "*/" <= s <==> |s| > 1 && s[0] == '*' && s[1] == '/'
    ensures "//" <= s <==> |s| > 1 && s[0] == '/' && s[1] == '/'
  {
    if |s| > 1 {
      assert s[..2] == [s[0], s[1]];
      assert "/*" == ['/', '*'] && "*/" == ['*', '/'] && "//" == ['/', '/'];
    }
  }

  lemma LineFeedAt(s: string, k: nat)
    ensures OccursAt(s, "\n", k) <==> k < |s| && s[k] == '\n'
  {
    if k < |s| {
      assert s[k..k + 1] == [s[k]];
    }
  }

  lemma TokenLenFacts(s: string)
    requires s != ""
    ensures TokenLen(s) == 1 ==> |s| == 1
    ensures IsBlank(s[0]) ==> TokenLen(s) == 0
    ensures s[0] == '"' ==> TokenLen(s) > 0
  {
    hide BlockLen, RawLen, Find;
    DelimitersByChar(s);
    LineFeedAt(s, 0);
    LineFeedAt(s, 1);
    if s[0] == '"' && |s| > 1 {
      assert StringLen(s[1..]) >= 1;
    }
  }

  lemma {:induction false} NoQuoteLeft(s: string)
    ensures '"' !in Strip(s)
    decreases |s|
  {
    if s != "" {
      TokenLenFacts(s);
      NoQuoteLeft(s[StepLen(s)..]);
    }
  }

  /** No comment or literal starts anywhere in `o`. */
  ghost predicate NoTokens(o: string) {
    forall k :: 0 <= k < |o| ==> TokenLen(o[k..]) == 0
  }

  lemma {:induction false} NoTokensFixed(o: string)
    requires NoTokens(o)
    ensures Strip(o) == o
  {
    if o != "" {
      assert o[0..] == o;
      forall k | 0 <= k < |o[1..]| ensures TokenLen(o[1..][k..]) == 0 {
        assert o[1..][k..] == o[k + 1..];
      }
      NoTokensFixed(o[1..]);
    }
  }

  /** A character that is code in `s` starts no token in the stripped text either. */
  lemma CodeStaysCode(s: string)
    requires s != "" && TokenLen(s) == 0
    ensures TokenLen([s[0]] + Strip(s[1..])) == 0
  {
    hide Strip;
    var o := Strip(s[1..]);
    StripPreservesOffsets(s[1..]);
    NoQuoteLeft(s[1..]);
    TokenLenFacts(s);
    assert ([s[0]] + o)[1..] == o;
    assert forall k :: 0 <= k < |o| ==> MayBecome(s[1..], k, o[k]);
    if s[0] == '\'' {
      QuoteStaysCode(s, o);
    }
  }

  lemma QuoteStaysCode(s: string, o: string)
    requires s != "" && s[0] == '\'' && CharLen(s) == 0 && o == Strip(s[1..])
    ensures CharLen(['\''] + o) == 0
  {
    hide Strip, TokenLen, Swallowed;
    var t := s[1..];
    StripPreservesOffsets(t);
    assert forall k :: 0 <= k < |o| ==> MayBecome(t, k, o[k]);
    if |t| > 1 && o[0] != t[0] {
      SecondIsBlank(t);
    }
    if |t| > 2 && o[0] == t[0] == '\\' {
      BackslashIsCode(t);
      StripPreservesOffsets(t[1..]);
      if o[1] != t[1] {
        SecondIsBlank(t[1..]);
      }
    }
  }

  lemma BackslashIsCode(t: string)
    requires t != "" && t[0] == '\\'
    ensures Strip(t) == [t[0]] + Strip(t[1..])
  {
  }

  /** A blanked first character has a blanked neighbour. */
  lemma SecondIsBlank(t: string)
    requires |t| > 1 && |Strip(t)| == |t| && Strip(t)[0] != t[0]
    ensures IsBlank(Strip(t)[1])
  {
    TokenLenFacts(t);
  }

  lemma {:induction false} StrippedHasNoTokens(s: string)
    ensures NoTokens(Strip(s))
    decreases |s|
  {
    if s != "" {
      var o, n := Strip(s), TokenLen(s);
      var step := if n == 0 then 1 else n;
      StrippedHasNoTokens(s[step..]);
      StripPreservesOffsets(s[step..]);
      forall k | 0 <= k < |o| ensures TokenLen(o[k..]) == 0 {
        if k >= step {
          assert o[k..] == Strip(s[step..])[k - step..];
        } else if n == 0 {
          CodeStaysCode(s);
          assert o[0..] == o;
        } else {
          TokenLenFacts(o[k..]);
        }
      }
    }
  }

  /** Stripping twice is stripping once, for every input. */
  lemma StripIdempotent(s: string)
    ensures Strip(Strip(s)) == Strip(s)
  {
    StrippedHasNoTokens(s);
    NoTokensFixed(Strip(s));
  }

  // ---------------------------------------------------------------- the scanner

  /** The text from `i` on; empty past the end, like a Python slice. */
  function From(s: string, i: nat): string {
    if i <= |s| then s[i..] else ""
  }

  /** End of the block comment that opens at `i`. */
  method ScanBlock(src: string, i: nat) returns (j: nat)
    requires i + 2 <= |src|
    ensures j <= |src| && j - i == 2 + BlockLen(src[i + 2..], 1)
  {
    hide BlockLen;
    var depth := 1;
    j := i + 2;
    while j < |src| && depth > 0
      invariant i + 2 <= j <= |src|
      invariant 2 + BlockLen(src[i + 2..], 1) == j - i + BlockLen(src[j..], depth)
    {
      BlockTurn(src, j, depth);
      if src[j] == '/' && j + 1 < |src| && src[j + 1] == '*' {
        depth, j := depth + 1, j + 2;
      } else if src[j] == '*' && j + 1 < |src| && src[j + 1] == '/' {
        depth, j := depth - 1, j + 2;
      } else {
        j := j + 1;
      }
    }
    BlockDone(src[j..], depth);
  }

  lemma BlockDone(s: string, depth: nat)
    requires s == "" || depth == 0
    ensures BlockLen(s, depth) == 0
  {
  }

  /** One turn of the block comment loop. */
  lemma BlockTurn(src: string, j: nat, depth: nat)
    requires j < |src| && depth > 0
    ensures var opens, closes := "/*" <= src[j..], "*/" <= src[j..];
            && (opens <==> src[j] == '/' && j + 1 < |src| && src[j + 1] == '*')
            && (closes <==> src[j] == '*' && j + 1 < |src| && src[j + 1] == '/')
            && BlockLen(src[j..], depth)
               == if opens then 2 + BlockLen(src[j + 2..], depth + 1)
                  else if closes then 2 + BlockLen(src[j + 2..], depth - 1)
                  else 1 + BlockLen(src[j + 1..], depth)
  {
    DelimitersByChar(src[j..]);
    assert src[j..][1..] == src[j + 1..];
    if j + 1 < |src| {
      assert src[j..][2..] == src[j + 2..];
    }
  }

  method CountHashes(src: string, from: nat) returns (hashes: nat)
    requires from <= |src|
    ensures hashes == Hashes(src[from..])
  {
    hashes := 0;
    while from + hashes < |src| && src[from + hashes] == '#'
      invariant from + hashes <= |src|
      invariant Hashes(src[from..]) == hashes + Hashes(src[from + hashes..])
    {
      assert src[from + hashes..][1..] == src[from + hashes + 1..];
      hashes := hashes + 1;
    }
  }

  /** End of the string literal that opens at `i`; one past the text after a trailing escape. */
  method ScanString(src: string, i: nat) returns (j: nat)
    requires i < |src|
    ensures j == i + 1 + StringLen(src[i + 1..])
  {
    j := i + 1;
    while j < |src|
      invariant i < j <= |src| + 1
      invariant i + 1 + StringLen(src[i + 1..]) == j + StringLen(From(src, j))
    {
      assert src[j..][1..] == src[j + 1..];
      if src[j] == '\\' {
        assert j + 1 < |src| ==> src[j..][2..] == src[j + 2..];
        j := j + 2;
        continue;
      }
      if src[j] == '"' {
        return j + 1;
      }
      j := j + 1;
    }
  }

  /** End of the line comment that starts at `i`. */
  method ScanLine(src: string, i: nat) returns (j: nat)
    requires i < |src|
    ensures i <= j <= |src| && j - i == LineCommentLen(src[i..])
  {
    var newline := Find(src, "\n", i);
    FindFrom(src, "\n", i, 0);
    j := if newline.None? then |src| else newline.value;
  }

  /** End of the raw string literal that starts at `i`, or `i` when there is none. */
  method ScanRaw(src: string, i: nat) returns (j: nat)
    requires i < |src| && src[i] == 'r'
    ensures i <= j <= |src| && j - i == RawLen(src[i..])
  {
    var hashes := CountHashes(src, i + 1);
    assert src[i..][1..] == src[i + 1..];
    var k := i + 1 + hashes;
    if k < |src| && src[k] == '"' {
      var terminator := "\"" + Repeat('#', hashes);
      var found := Find(src, terminator, k + 1);
      FindFrom(src, terminator, i, k + 1 - i);
      j := if found.None? then |src| else found.value + |terminator|;
    } else {
      j := i;
    }
  }

  lemma RawNeedsOpener(s: string)
    requires s != "" && s[0] == 'r' && (|s| == 1 || (s[1] != '"' && s[1] != '#'))
    ensures RawLen(s) == 0
  {
  }

  /** End of the comment or literal that starts at `i` and whether its blanks keep line feeds; `i` when the
      character is code. The end may lie one past the text, after a trailing escape in a string. */
  method Token(src: string, i: nat) returns (j: nat, keepLines: bool)
    requires i < |src|
    ensures i <= j <= |src| + 1 && Min(j, |src|) - i == TokenLen(src[i..])
    ensures j > i ==> keepLines == KeepsLines(src[i..])
  {
    hide BlockLen, StringLen, Hashes, Find, LineCommentLen, RawLen;
    var n := |src|;
    var ch, next := src[i], if i + 1 < n then [src[i + 1]] else "";
    DelimitersByChar(src[i..]);
    j, keepLines := i, false;
    if ch == '/' && next == "/" {
      j := ScanLine(src, i);
    } else if ch == '/' && next == "*" {
      j := ScanBlock(src, i);
      keepLines := true;
    } else if ch == 'r' {
      if next == "\"" || next == "#" {
        j := ScanRaw(src, i);
      } else {
        RawNeedsOpener(src[i..]);
      }
      keepLines := true;
    } else if ch == '"' {
      j := ScanString(src, i);
      StringLenBound(src[i + 1..]);
      keepLines := true;
    } else if ch == '\'' {
      j := i + CharLen(src[i..]);
    }
  }

  lemma StringLenBound(s: string)
    ensures StringLen(s) <= |s| + 1
  {
  }

  /** `strip_noncode`, by index over the text. */
  method StripNoncode(src: string) returns (result: string)
    ensures result == Strip(src)
  {
    hide TokenLen, KeepsLines, Strip, Blanks;
    var n, i := |src|, 0;
    result := "";
    assert From(src, 0) == src;
    while i < n
      invariant i <= n + 1
      invariant result + Strip(From(src, i)) == Strip(src)
      decreases n + 1 - i
    {
      var j, keepLines := Token(src, i);
      Advance(src, i, Min(j, n), result, Strip(src));
      if j > i {
        result, i := result + Blanks(src[i..Min(j, n)], keepLines), j;
      } else {
        result, i := result + [src[i]], i + 1;
      }
      assert From(src, i) == src[Min(i, n)..];
    }
    assert Strip(From(src, i)) == "" by { StripEmpty(); }
  }

  lemma StripEmpty()
    ensures Strip("") == ""
  {
  }

  /** Searching the text from `i` finds what searching the whole text finds. */
  lemma FindFrom(s: string, pattern: string, i: nat, from: nat)
    requires i + from <= |s|
    ensures var whole, rest := Find(s, pattern, i + from), Find(s[i..], pattern, from);
            (whole.None? <==> rest.None?) && (whole.Some? ==> whole.value == i + rest.value)
    decreases |s| - from
  {
    if i + from + |pattern| <= |s| {
      assert s[i..][from..from + |pattern|] == s[i + from..i + from + |pattern|];
    }
    if i + from < |s| && !OccursAt(s, pattern, i + from) {
      FindFrom(s, pattern, i, from + 1);
    }
  }

  /** One step: the token found at `i` is blanked up to `j`, or the character is code. */
  lemma Advance(src: string, i: nat, j: nat, done: string, whole: string)
    requires i < |src| && i <= j <= |src| && TokenLen(src[i..]) == j - i && done + Strip(src[i..]) == whole
    ensures j > i ==> done + Blanks(src[i..j], KeepsLines(src[i..])) + Strip(src[j..]) == whole
    ensures j == i ==> done + [src[i]] + Strip(src[i + 1..]) == whole
  {
    hide TokenLen, Blanks, KeepsLines;
    var s := src[i..];
    if j > i {
      assert s[..j - i] == src[i..j] && s[j - i..] == src[j..];
    } else {
      assert s[1..] == src[i + 1..];
    }
  }
}
