/** The text primitives of the Rust and Python standard libraries that the modelled code calls. */
module Text {

  datatype Option<+T> = None | Some(value: T)

  /** `Err` carries the text of the error, which is all the modelled callers look at. */
  datatype Result<+T> = Ok(value: T) | Err(error: string)

  /** Unicode `White_Space`, the class `str::trim` removes. */
  predicate IsWhitespace(c: char) {
    var n := c as int;
    0x09 <= n <= 0x0D || n == 0x20 || n == 0x85 || n == 0xA0 || n == 0x1680 || 0x2000 <= n <= 0x200A
    || n == 0x2028 || n == 0x2029 || n == 0x202F || n == 0x205F || n == 0x3000
  }

  function TrimStart(s: string): string {
    if s != "" && IsWhitespace(s[0]) then TrimStart(s[1..]) else s
  }

  function TrimEnd(s: string): string {
    if s != "" && IsWhitespace(s[|s| - 1]) then TrimEnd(s[..|s| - 1]) else s
  }

  function Trim(s: string): string {
    TrimEnd(TrimStart(s))
  }

  predicate AllBlank(s: string) { forall c <- s :: IsWhitespace(c) }

  /** Neither end is white space. */
  predicate Bare(s: string) { s == "" || (!IsWhitespace(s[0]) && !IsWhitespace(s[|s| - 1])) }

  /** `s` is `core` with white space around it. */
  ghost predicate Padded(s: string, core: string) {
    exists a, b :: AllBlank(a) && AllBlank(b) && s == a + core + b
  }

  lemma {:induction false} TrimStartSplits(s: string) returns (pad: string)
    ensures s == pad + TrimStart(s) && AllBlank(pad) && (TrimStart(s) == "" || !IsWhitespace(TrimStart(s)[0]))
  {
    hide IsWhitespace;
    if s != "" && IsWhitespace(s[0]) {
      var rest := TrimStartSplits(s[1..]);
      pad := [s[0]] + rest;
      assert s == [s[0]] + s[1..];
    } else {
      pad := "";
    }
  }

  lemma {:induction false} TrimEndSplits(s: string) returns (pad: string)
    ensures s == TrimEnd(s) + pad && AllBlank(pad)
    ensures TrimEnd(s) == "" || !IsWhitespace(TrimEnd(s)[|TrimEnd(s)| - 1])
    decreases |s|
  {
    hide IsWhitespace;
    var n := |s|;
    if n > 0 && IsWhitespace(s[n - 1]) {
      var rest := TrimEndSplits(s[..n - 1]);
      pad := rest + [s[n - 1]];
      assert s == s[..n - 1] + [s[n - 1]];
    } else {
      pad := "";
    }
  }

  lemma {:induction false} TrimStartOver(a: string, s: string)
    requires AllBlank(a)
    ensures TrimStart(a + s) == TrimStart(s)
  {
    hide IsWhitespace;
    if a == "" {
      assert a + s == s;
    } else {
      assert a[0] in a && (a + s)[1..] == a[1..] + s;
      TrimStartOver(a[1..], s);
    }
  }

  lemma {:induction false} TrimEndOver(s: string, b: string)
    requires AllBlank(b)
    ensures TrimEnd(s + b) == TrimEnd(s)
    decreases |b|
  {
    hide IsWhitespace;
    var n := |b|;
    if n == 0 {
      assert s + b == s;
    } else {
      assert b[n - 1] in b && (s + b)[..|s| + n - 1] == s + b[..n - 1];
      TrimEndOver(s, b[..n - 1]);
    }
  }

  /** Trimming takes away the white space around a text, all of it and nothing else. */
  lemma TrimExact(s: string, core: string)
    ensures Trim(s) == core <==> Bare(core) && Padded(s, core)
  {
    hide IsWhitespace, TrimStart, TrimEnd, AllBlank;
    var a := TrimStartSplits(s);
    var b := TrimEndSplits(TrimStart(s));
    var t := Trim(s);
    assert s == a + t + b;
    if t != "" { assert t[0] == TrimStart(s)[0]; }
    if Bare(core) && Padded(s, core) {
      var c, d :| AllBlank(c) && AllBlank(d) && s == c + core + d;
      TrimPadded(c, core, d);
    }
  }

  lemma TrimPadded(a: string, core: string, b: string)
    requires Bare(core) && AllBlank(a) && AllBlank(b)
    ensures Trim(a + core + b) == core
  {
    hide IsWhitespace;
    assert a + core + b == a + (core + b);
    TrimStartOver(a, core + b);
    if core == "" {
      assert core + b == b && b + "" == b;
      TrimStartOver(b, "");
    } else {
      assert TrimStart(core + b) == core + b;
      TrimEndOver(core, b);
    }
  }

  function StripPrefix(s: string, prefix: string): Option<string> {
    if prefix <= s then Some(s[|prefix|..]) else None
  }

  function StripSuffix(s: string, suffix: string): Option<string> {
    if |suffix| <= |s| && s[|s| - |suffix|..] == suffix then Some(s[..|s| - |suffix|]) else None
  }

  /** Whether `pattern` occurs in `s` at offset `i`. */
  predicate OccursAt(s: string, pattern: string, i: nat) {
    i + |pattern| <= |s| && s[i..i + |pattern|] == pattern
  }

  /** The first offset not before `from` at which `pattern` occurs. */
  function Find(s: string, pattern: string, from: nat): (r: Option<nat>)
    requires from <= |s|
    ensures r.Some? ==> from <= r.value <= |s| && OccursAt(s, pattern, r.value)
    ensures r.Some? ==> forall k :: from <= k < r.value ==> !OccursAt(s, pattern, k)
    ensures r.None? ==> forall k :: from <= k <= |s| ==> !OccursAt(s, pattern, k)
    decreases |s| - from
  {
    if OccursAt(s, pattern, from) then Some(from)
    else if from == |s| then None
    else Find(s, pattern, from + 1)
  }

  predicate Contains(s: string, pattern: string) {
    Find(s, pattern, 0).Some?
  }

  /** `str::lines`: pieces ended by a line feed, a trailing carriage return removed from each; no empty
      last piece. */
  function Lines(s: string): seq<string> {
    if s == "" then []
    else
      var cut := Find(s, "\n", 0);
      if cut.None? then [s]
      else [DropCarriageReturn(s[..cut.value])] + Lines(s[cut.value + 1..])
  }

  function DropCarriageReturn(s: string): string {
    if s != "" && s[|s| - 1] == '\r' then s[..|s| - 1] else s
  }

  /** The pieces, each ended by a line feed. */
  function Fed(pieces: seq<string>): string {
    if pieces == [] then "" else pieces[0] + "\n" + Fed(pieces[1..])
  }

  /** A piece is its line, perhaps with a carriage return behind it. */
  predicate IsPieceOf(piece: string, line: string) {
    piece == line + "\r" || (piece == line && (line == "" || line[|line| - 1] != '\r'))
  }

  lemma PieceGivesLine(piece: string, line: string)
    requires IsPieceOf(piece, line)
    ensures DropCarriageReturn(piece) == line
  {
    assert (line + "\r")[..|line|] == line;
  }

  /** The lines of a text are its pieces between line feeds, each without one carriage return at its end; a last piece
      that no line feed ends is a line only when it is not empty, and keeps its carriage return. */
  lemma {:induction false} LinesExact(pieces: seq<string>, lines: seq<string>, last: string)
    requires (forall p <- pieces :: '\n' !in p) && '\n' !in last
    requires |lines| == |pieces| && forall i :: 0 <= i < |lines| ==> IsPieceOf(pieces[i], lines[i])
    ensures Lines(Fed(pieces) + last) == lines + if last == "" then [] else [last]
  {
    hide Find, DropCarriageReturn, IsPieceOf;
    var s := Fed(pieces) + last;
    if pieces == [] {
      assert s == last;
      FeedsAt(last, "");
    } else {
      var rest := Fed(pieces[1..]) + last;
      assert s == pieces[0] + "\n" + rest;
      FeedsAt(pieces[0], rest);
      PieceGivesLine(pieces[0], lines[0]);
      LinesExact(pieces[1..], lines[1..], last);
      assert s[..|pieces[0]|] == pieces[0] && s[|pieces[0]| + 1..] == rest;
      assert lines == [lines[0]] + lines[1..];
    }
  }

  lemma FeedsAt(line: string, rest: string)
    requires '\n' !in line
    ensures Find(line, "\n", 0) == None && Find(line + "\n" + rest, "\n", 0) == Some(|line|)
  {
    hide Find;
    var s := line + "\n" + rest;
    forall k: nat | k < |line| ensures !OccursAt(s, "\n", k) && !OccursAt(line, "\n", k) {
      assert s[k..k + 1][0] == line[k] && line[k..k + 1][0] == line[k];
    }
    assert s[|line|..|line| + 1] == "\n";
    assert OccursAt(s, "\n", |line|);
  }

  function LowerChar(c: char): char {
    if 'A' <= c <= 'Z' then c - 'A' + 'a' else c
  }

  /** `str::to_ascii_lowercase`. */
  function ToAsciiLower(s: string): string {
    seq(|s|, i requires 0 <= i < |s| => LowerChar(s[i]))
  }

  predicate IsDigit(c: char) {
    '0' <= c <= '9'
  }

  function Decimal(n: nat): string {
    if n < 10 then ['0' + n as char] else Decimal(n / 10) + ['0' + (n % 10) as char]
  }

  /** The number a text of digits writes. */
  function Value(digits: string): nat
    requires forall c <- digits :: IsDigit(c)
  {
    var n := |digits|;
    if n == 0 then 0
    else
      var c := digits[n - 1];
      assert c in digits && IsDigit(c);
      10 * Value(digits[..n - 1]) + (c - '0') as nat
  }

  lemma {:induction false} DecimalExact(n: nat)
    ensures Decimal(n) != "" && (forall c <- Decimal(n) :: IsDigit(c)) && Value(Decimal(n)) == n
    ensures n > 0 ==> Decimal(n)[0] != '0'
  {
    var s := Decimal(n);
    if n >= 10 {
      DecimalExact(n / 10);
      assert s[..|s| - 1] == Decimal(n / 10);
      assert s[|s| - 1] == '0' + (n % 10) as char;
    } else {
      assert s[..0] == "" && s[0] == '0' + n as char;
    }
  }

  /** Number of bytes of a character in UTF-8. */
  function Utf8Len(c: char): (n: nat)
    ensures 1 <= n <= 4
  {
    var code := c as int;
    if code < 0x80 then 1 else if code < 0x800 then 2 else if code < 0x1_0000 then 3 else 4
  }

  /** `str::len`: the length in bytes. */
  function ByteLen(s: string): nat {
    if s == "" then 0 else Utf8Len(s[0]) + ByteLen(s[1..])
  }

  lemma ByteLenAppend(a: string, b: string)
    ensures ByteLen(a + b) == ByteLen(a) + ByteLen(b)
  {
    if a == "" {
      assert a + b == b;
    } else {
      assert (a + b)[1..] == a[1..] + b;
      ByteLenAppend(a[1..], b);
    }
  }

  lemma ToAsciiLowerIdempotent(s: string)
    ensures ToAsciiLower(ToAsciiLower(s)) == ToAsciiLower(s)
  {
  }

  predicate Distinct<T(==)>(xs: seq<T>) {
    forall i, j :: 0 <= i < j < |xs| ==> xs[i] != xs[j]
  }

  function Min(a: nat, b: nat): nat { if a <= b then a else b }

  lemma PrefixOfPrefix<T>(xs: seq<T>, j: nat, k: nat)
    requires j <= k <= |xs|
    ensures xs[..k][..j] == xs[..j]
  {
  }

  /** The last `n` elements, or all when there are fewer. */
  function LastOf<T>(xs: seq<T>, n: nat): (r: seq<T>)
    ensures |r| == Min(|xs|, n)
  {
    if |xs| <= n then xs else xs[|xs| - n..]
  }

  lemma LastOfSnoc<T>(xs: seq<T>, x: T, n: nat)
    requires n >= 1
    ensures var window := LastOf(xs, n);
            LastOf(xs + [x], n) == (if |window| == n then window[1..] else window) + [x]
  {
  }
}
