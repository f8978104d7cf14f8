/** Texts as bytes: UTF-8, and PostgreSQL's reading of a text as `bytea`. */
module Encoding {
  import opened Text

  type Byte = b: nat | b < 256

  const BACKSLASH: Byte := 92

  function Utf8(c: char): (bs: seq<Byte>)
    ensures |bs| == Utf8Len(c)
  {
    var n := c as int;
    var m := n / 64;
    var l := m / 64;
    if n < 0x80 then [n]
    else if n < 0x800 then [0xC0 + m, 0x80 + n % 64]
    else if n < 0x1_0000 then [0xE0 + l, 0x80 + m % 64, 0x80 + n % 64]
    else [0xF0 + l / 64, 0x80 + l % 64, 0x80 + m % 64, 0x80 + n % 64]
  }

  /** `str::as_bytes`. */
  function Encode(s: string): seq<Byte> {
    if s == "" then [] else Utf8(s[0]) + Encode(s[1..])
  }

  /** The first byte gives the length of the character. */
  lemma FirstByte(c: char)
    ensures var b := Utf8(c)[0];
            && (b < 0x80 <==> Utf8Len(c) == 1) && (0xC0 <= b < 0xE0 <==> Utf8Len(c) == 2)
            && (0xE0 <= b < 0xF0 <==> Utf8Len(c) == 3) && (0xF0 <= b <==> Utf8Len(c) == 4)
  {
  }

  lemma Utf8Injective(c: char, d: char)
    requires Utf8(c) == Utf8(d)
    ensures c == d
  {
    FirstByte(c);
    FirstByte(d);
    var x, y := Utf8(c), Utf8(d);
    var m, n := c as int, d as int;
    assert |x| == |y| && x[0] == y[0];
    if |x| == 2 {
      SixBits(m, n, x[1], y[1]);
    } else if |x| == 3 {
      SixBits(m / 64, n / 64, x[1], y[1]);
      SixBits(m, n, x[2], y[2]);
    } else if |x| == 4 {
      SixBits(m / 64 / 64, n / 64 / 64, x[1], y[1]);
      SixBits(m / 64, n / 64, x[2], y[2]);
      SixBits(m, n, x[3], y[3]);
    }
  }

  lemma SixBits(m: nat, n: nat, x: int, y: int)
    requires m / 64 == n / 64 && x == 0x80 + m % 64 && y == 0x80 + n % 64 && x == y
    ensures m == n
  {
  }

  lemma {:induction false} EncodeInjective(s: string, t: string)
    requires Encode(s) == Encode(t)
    ensures s == t
  {
    hide Utf8;
    if s != "" && t != "" {
      var a, b := Utf8(s[0]), Utf8(t[0]);
      assert Encode(s)[0] == a[0] && Encode(t)[0] == b[0];
      FirstByte(s[0]);
      FirstByte(t[0]);
      assert Encode(s)[..|a|] == a && Encode(t)[..|b|] == b;
      assert Encode(s)[|a|..] == Encode(s[1..]) && Encode(t)[|b|..] == Encode(t[1..]);
      Utf8Injective(s[0], t[0]);
      EncodeInjective(s[1..], t[1..]);
      assert s == [s[0]] + s[1..] && t == [t[0]] + t[1..];
    }
  }

  lemma EncodeConcat(s: string, t: string)
    ensures Encode(s + t) == Encode(s) + Encode(t)
  {
    hide Utf8;
    if s == "" {
      assert s + t == t;
    } else {
      assert (s + t)[1..] == s[1..] + t;
      EncodeConcat(s[1..], t);
    }
  }

  lemma BackslashOfChar(c: char)
    ensures BACKSLASH in Utf8(c) <==> c == '\\'
    ensures Utf8('\\') == [BACKSLASH]
  {
    FirstByte(c);
  }

  /** No other character has the byte of a backslash in it. */
  lemma {:induction false} BackslashByte(s: string)
    ensures BACKSLASH in Encode(s) <==> '\\' in s
  {
    hide Utf8;
    if s != "" {
      assert s == [s[0]] + s[1..];
      BackslashOfChar(s[0]);
      BackslashByte(s[1..]);
    }
  }

  // ---------------------------------------------------------------- text read as bytea

  predicate IsOctal(b: Byte) { 48 <= b <= 55 }

  /** The escape format: a backslash stands before three octal digits or before another backslash. */
  function EscapeBytes(bs: seq<Byte>): Option<seq<Byte>> {
    if bs == [] then Some([])
    else
      var (head, used) :=
        if bs[0] != BACKSLASH then (Some(bs[0]), 1)
        else if |bs| >= 4 && 48 <= bs[1] <= 51 && IsOctal(bs[2]) && IsOctal(bs[3]) then
          (Some((bs[1] - 48) * 64 + (bs[2] - 48) * 8 + (bs[3] - 48)), 4)
        else if |bs| >= 2 && bs[1] == BACKSLASH then (Some(BACKSLASH), 2)
        else (None, 1);
      match (head, EscapeBytes(bs[used..]))
      case (Some(b), Some(rest)) => Some([b] + rest)
      case _ => None
  }

  function HexDigit(b: Byte): Option<nat> {
    if 48 <= b <= 57 then Some(b - 48)
    else if 97 <= b <= 102 then Some(b - 87)
    else if 65 <= b <= 70 then Some(b - 55)
    else None
  }

  /** The hex format: pairs of digits, white space between them. */
  function HexBytes(bs: seq<Byte>): Option<seq<Byte>> {
    if bs == [] then Some([])
    else if bs[0] == 32 || bs[0] == 10 || bs[0] == 9 || bs[0] == 13 then HexBytes(bs[1..])
    else if |bs| == 1 then None
    else
      match (HexDigit(bs[0]), HexDigit(bs[1]), HexBytes(bs[2..]))
      case (Some(h), Some(l), Some(rest)) => if 16 * h + l < 256 then Some([16 * h + l] + rest) else None
      case _ => None
  }

  /** `text::bytea`; `None` is the error the cast raises. */
  function Bytea(text: string): Option<seq<Byte>> {
    var bs := Encode(text);
    if |bs| >= 2 && bs[0] == BACKSLASH && bs[1] == 120 then HexBytes(bs[2..]) else EscapeBytes(bs)
  }

  lemma {:induction false} EscapeExactIff(bs: seq<Byte>)
    ensures BACKSLASH !in bs ==> EscapeBytes(bs) == Some(bs)
    ensures EscapeBytes(bs).Some? ==> |EscapeBytes(bs).value| <= |bs|
    ensures EscapeBytes(bs).Some? && BACKSLASH in bs ==> |EscapeBytes(bs).value| < |bs|
    decreases |bs|
  {
    if bs != [] {
      assert bs == [bs[0]] + bs[1..];
      EscapeExactIff(bs[1..]);
      if |bs| >= 2 { EscapeExactIff(bs[2..]); }
      if |bs| >= 4 { EscapeExactIff(bs[4..]); }
    }
  }

  lemma {:induction false} HexShortens(bs: seq<Byte>)
    ensures HexBytes(bs).Some? ==> |HexBytes(bs).value| <= |bs|
    decreases |bs|
  {
    if bs != [] {
      HexShortens(bs[1..]);
      if |bs| >= 2 { HexShortens(bs[2..]); }
    }
  }

  /** The cast yields the text's own bytes exactly when the text holds no backslash. */
  lemma ByteaExactIff(text: string)
    ensures Bytea(text) == Some(Encode(text)) <==> '\\' !in text
  {
    var bs := Encode(text);
    BackslashByte(text);
    EscapeExactIff(bs);
    if |bs| >= 2 { HexShortens(bs[2..]); }
  }

  /** Bytes before the first backslash are taken as they are. */
  lemma {:induction false} EscapePrefix(plain: seq<Byte>, rest: seq<Byte>)
    requires BACKSLASH !in plain
    ensures EscapeBytes(plain + rest)
         == match EscapeBytes(rest) case None => None case Some(r) => Some(plain + r)
  {
    if plain == [] {
      assert plain + rest == rest;
      assert forall r: seq<Byte> :: plain + r == r;
    } else {
      assert plain == [plain[0]] + plain[1..] && (plain + rest)[1..] == plain[1..] + rest;
      EscapePrefix(plain[1..], rest);
      assert forall r: seq<Byte> :: [plain[0]] + (plain[1..] + r) == plain + r;
    }
  }

  /** A backslash before anything but a backslash or a digit is an error; two of them are read as one. */
  lemma BackslashRead(before: string, after: string)
    requires '\\' !in before && before != "" && '\\' !in after && after != "" && !IsDigit(after[0])
    ensures Bytea(before + "\\" + after) == None
    ensures Bytea(before + "\\\\" + after) == Some(Encode(before + "\\" + after))
  {
    var x, y := Encode(before), Encode(after);
    BackslashByte(before);
    BackslashByte(after);
    BackslashOfChar('\\');
    assert "\\"[1..] == "" && "\\\\"[1..] == "\\";
    assert Encode("\\") == [BACKSLASH] && Encode("\\\\") == [BACKSLASH, BACKSLASH];
    EncodeConcat(before, "\\");
    EncodeConcat(before + "\\", after);
    EncodeConcat(before, "\\\\");
    EncodeConcat(before + "\\\\", after);
    StartOf(before);
    StartOf(after);
    OneBackslash(x, y);
  }

  lemma StartOf(s: string)
    requires s != ""
    ensures Encode(s) != [] && (Encode(s)[0] == BACKSLASH <==> s[0] == '\\')
    ensures !IsDigit(s[0]) ==> !(48 <= Encode(s)[0] <= 57)
  {
    FirstByte(s[0]);
  }

  lemma OneBackslash(x: seq<Byte>, y: seq<Byte>)
    requires BACKSLASH !in x && x != [] && BACKSLASH !in y && y != [] && !(48 <= y[0] <= 57)
    ensures EscapeBytes(x + [BACKSLASH] + y) == None
    ensures EscapeBytes(x + [BACKSLASH, BACKSLASH] + y) == Some(x + [BACKSLASH] + y)
    ensures (x + [BACKSLASH] + y)[0] != BACKSLASH && (x + [BACKSLASH, BACKSLASH] + y)[0] != BACKSLASH
  {
    hide EscapeBytes;
    var one, two := [BACKSLASH] + y, [BACKSLASH, BACKSLASH] + y;
    EscapePrefix(x, one);
    EscapePrefix(x, two);
    EscapeExactIff(y);
    LoneBackslash(y);
    BackslashOne(y);
    assert x + [BACKSLASH] + y == x + one;
    assert x + [BACKSLASH, BACKSLASH] + y == x + two;
    assert x + [BACKSLASH] + y == x + ([BACKSLASH] + y);
  }

  lemma LoneBackslash(y: seq<Byte>)
    requires y != [] && y[0] != BACKSLASH && !(48 <= y[0] <= 57)
    ensures EscapeBytes([BACKSLASH] + y) == None
  {
    assert ([BACKSLASH] + y)[1] == y[0];
  }

  /** A bar may also be written as an octal escape. */
  lemma OctalBar(before: string, after: string)
    requires '\\' !in before && before != ""
    ensures Bytea(before + "\\174" + after) == Bytea(before + "|" + after)
  {
    hide EscapeBytes, Encode, Utf8;
    var x, y := Encode(before), Encode(after);
    BackslashByte(before);
    StartOf(before);
    EscapeSpelled();
    EncodeConcat(before, "\\174");
    EncodeConcat(before + "\\174", after);
    EncodeConcat(before, "|");
    EncodeConcat(before + "|", after);
    var escaped, plain: seq<Byte> := [BACKSLASH, 49, 55, 52], [124];
    assert x + escaped + y == x + (escaped + y);
    assert x + plain + y == x + (plain + y);
    EscapePrefix(x, escaped + y);
    EscapePrefix(x, plain + y);
    OctalRead(y);
  }

  lemma EscapeSpelled()
    ensures Encode("\\174") == [BACKSLASH, 49, 55, 52] && Encode("|") == [124]
  {
    assert "\\174"[1..] == "174" && "174"[1..] == "74" && "74"[1..] == "4" && "4"[1..] == "" && "|"[1..] == "";
    assert Encode("4") == [52] && Encode("74") == [55, 52] && Encode("174") == [49, 55, 52];
  }

  lemma OctalRead(y: seq<Byte>)
    ensures EscapeBytes([BACKSLASH, 49, 55, 52] + y) == EscapeBytes([124] + y)
  {
    assert ([BACKSLASH, 49, 55, 52] + y)[4..] == y && ([124 as Byte] + y)[1..] == y;
  }

  // ---------------------------------------------------------------- the formats read back

  function EscapedByte(b: Byte): (r: seq<Byte>)
    ensures r != []
  {
    if b == BACKSLASH then [BACKSLASH, BACKSLASH]
    else if 32 <= b <= 126 then [b]
    else [BACKSLASH, 48 + b / 64, 48 + b / 8 % 8, 48 + b % 8]
  }

  /** Bytes in the escape format, as PostgreSQL writes them. */
  function Escaped(bs: seq<Byte>): seq<Byte> {
    if bs == [] then [] else EscapedByte(bs[0]) + Escaped(bs[1..])
  }

  lemma {:induction false} EscapeRoundTrip(bs: seq<Byte>)
    ensures EscapeBytes(Escaped(bs)) == Some(bs)
  {
    hide EscapeBytes, EscapedByte;
    if bs == [] {
      NothingEscaped();
    } else {
      EscapeRoundTrip(bs[1..]);
      EscapeOne(bs[0], Escaped(bs[1..]));
      assert bs == [bs[0]] + bs[1..];
    }
  }

  lemma NothingEscaped()
    ensures EscapeBytes([]) == Some([])
  {
  }

  lemma PlainOne(b: Byte, rest: seq<Byte>)
    requires b != BACKSLASH && EscapeBytes(rest).Some?
    ensures EscapeBytes([b] + rest) == Some([b] + EscapeBytes(rest).value)
  {
    assert ([b] + rest)[1..] == rest;
  }

  lemma BackslashOne(rest: seq<Byte>)
    requires EscapeBytes(rest).Some?
    ensures EscapeBytes([BACKSLASH, BACKSLASH] + rest) == Some([BACKSLASH] + EscapeBytes(rest).value)
  {
    var s: seq<Byte> := [BACKSLASH, BACKSLASH] + rest;
    assert s[2..] == rest && !(48 <= s[1] <= 51);
  }

  lemma EscapeOne(b: Byte, rest: seq<Byte>)
    requires EscapeBytes(rest).Some?
    ensures EscapeBytes(EscapedByte(b) + rest) == Some([b] + EscapeBytes(rest).value)
  {
    hide EscapeBytes;
    if b == BACKSLASH {
      BackslashOne(rest);
    } else if 32 <= b <= 126 {
      PlainOne(b, rest);
    } else {
      OctalDigits(b);
      OctalOne(b / 64, b / 8 % 8, b % 8, rest);
    }
  }

  lemma OctalDigits(b: Byte)
    ensures b / 64 <= 3 && b == b / 64 * 64 + b / 8 % 8 * 8 + b % 8
  {
  }

  /** Three octal digits are read as one byte. */
  lemma OctalOne(x: nat, y: nat, z: nat, rest: seq<Byte>)
    requires x <= 3 && y <= 7 && z <= 7 && EscapeBytes(rest).Some?
    ensures x * 64 + y * 8 + z < 256
    ensures EscapeBytes([BACKSLASH, 48 + x, 48 + y, 48 + z] + rest)
         == Some([x * 64 + y * 8 + z] + EscapeBytes(rest).value)
  {
    var s: seq<Byte> := [BACKSLASH, 48 + x, 48 + y, 48 + z] + rest;
    assert s[4..] == rest && s[0] == BACKSLASH && s[1] == 48 + x && s[2] == 48 + y && s[3] == 48 + z;
  }

  function HexOf(n: nat): Byte
    requires n < 16
  {
    if n < 10 then 48 + n else 87 + n
  }

  function Hexed(bs: seq<Byte>): seq<Byte> {
    if bs == [] then [] else [HexOf(bs[0] / 16), HexOf(bs[0] % 16)] + Hexed(bs[1..])
  }

  lemma {:induction false} HexRoundTrip(bs: seq<Byte>)
    ensures HexBytes(Hexed(bs)) == Some(bs)
  {
    if bs != [] {
      HexRoundTrip(bs[1..]);
      var s := Hexed(bs);
      assert s[2..] == Hexed(bs[1..]) && s[0] == HexOf(bs[0] / 16) && s[1] == HexOf(bs[0] % 16);
      assert bs[0] == 16 * (bs[0] / 16) + bs[0] % 16;
      assert bs == [bs[0]] + bs[1..];
    }
  }

  /** A text that spells bytes in either format is read as those bytes. */
  lemma FormatsReadBack(text: string, bs: seq<Byte>)
    ensures Encode(text) == [BACKSLASH, 120] + Hexed(bs) ==> Bytea(text) == Some(bs)
    ensures Encode(text) == Escaped(bs) ==> Bytea(text) == Some(bs)
  {
    hide Encode, HexBytes, EscapeBytes;
    HexRoundTrip(bs);
    EscapeRoundTrip(bs);
    assert ([BACKSLASH, 120] + Hexed(bs))[2..] == Hexed(bs);
    if bs != [] { EscapedIsNoHex(bs); }
  }

  lemma EscapedIsNoHex(bs: seq<Byte>)
    requires bs != []
    ensures var s := Escaped(bs); |s| >= 2 ==> !(s[0] == BACKSLASH && s[1] == 120)
  {
  }
}
