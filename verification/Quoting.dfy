/** strconv.Quote and its inverse on a prefix, byte for byte. The Unicode
    printability table above ASCII is a parameter: every result holds for
    every table. */
module Quoting {
  import opened GoText
  import opened Utf8

  type PrintTable = int -> bool

  const QUOTE: byte := 34
  const BACKSLASH: byte := 92
  const NEWLINE: byte := 10

  /** strconv.IsPrint */
  predicate IsPrint(table: PrintTable, r: int) {
    if r < 0x80 then 0x20 <= r < 0x7F else table(r)
  }

  // ---------------------------------------------------------------- hex

  function HexDigit(d: int): byte
    requires 0 <= d < 16
  {
    if d < 10 then 48 + d else 87 + d
  }

  /** The k low hexadecimal digits of n, most significant first. */
  function Hex(n: nat, k: nat): (s: GoString)
    ensures |s| == k
    ensures forall i :: 0 <= i < k ==> 48 <= s[i] <= 57 || 97 <= s[i] <= 102
  {
    if k == 0 then [] else Hex(n / 16, k - 1) + [HexDigit(n % 16)]
  }

  /** strconv's unhex; both letter cases are read. */
  function UnHex(b: byte): Option<int> {
    if 48 <= b <= 57 then Some(b - 48)
    else if 97 <= b <= 102 then Some(b - 87)
    else if 65 <= b <= 70 then Some(b - 55)
    else None
  }

  function HexValue(s: GoString): Option<nat> {
    if s == [] then Some(0)
    else
      match (HexValue(s[..|s| - 1]), UnHex(s[|s| - 1]))
      case (Some(high), Some(low)) => if low >= 0 then Some(16 * high + low) else None
      case _ => None
  }

  function Pow16(k: nat): nat {
    if k == 0 then 1 else 16 * Pow16(k - 1)
  }

  lemma {:induction false} HexValueHex(n: nat, k: nat)
    requires n < Pow16(k)
    ensures HexValue(Hex(n, k)) == Some(n)
  {
    if k > 0 {
      HexValueHex(n / 16, k - 1);
      var s := Hex(n, k);
      assert s[..k - 1] == Hex(n / 16, k - 1) && s[k - 1] == HexDigit(n % 16);
      assert UnHex(HexDigit(n % 16)) == Some(n % 16);
    }
  }

  // -------------------------------------------------------------- quoting

  function ShortEscape(r: int): Option<byte> {
    if r == 7 then Some(97)        // \a
    else if r == 8 then Some(98)   // \b
    else if r == 12 then Some(102) // \f
    else if r == 10 then Some(110) // \n
    else if r == 13 then Some(114) // \r
    else if r == 9 then Some(116)  // \t
    else if r == 11 then Some(118) // \v
    else None
  }

  /** strconv.appendEscapedRune for a double-quoted literal. */
  function EscapedRune(table: PrintTable, r: int): GoString
    requires ValidRune(r)
  {
    if r == QUOTE || r == BACKSLASH then [BACKSLASH, r]
    else if IsPrint(table, r) then Encode(r)
    else if ShortEscape(r).Some? then [BACKSLASH, ShortEscape(r).value]
    else if r < 0x20 || r == 0x7F then [BACKSLASH, 120] + Hex(r, 2)
    else if r < 0x10000 then [BACKSLASH, 117] + Hex(r, 4)
    else [BACKSLASH, 85] + Hex(r, 8)
  }

  /** What quoting emits for the first rune, or ill-formed byte, of s. */
  function HeadText(table: PrintTable, s: GoString): GoString
    requires s != []
  {
    if BadStart(s) then [BACKSLASH, 120] + Hex(s[0], 2) else EscapedRune(table, Decode(s).rune)
  }

  function QuotedBody(table: PrintTable, s: GoString): GoString
    decreases |s|
  {
    if s == [] then [] else HeadText(table, s) + QuotedBody(table, s[Decode(s).width..])
  }

  /** strconv.Quote */
  function Quote(table: PrintTable, s: GoString): GoString {
    [QUOTE] + QuotedBody(table, s) + [QUOTE]
  }

  // ------------------------------------------------------------ unquoting

  /** The bytes one character of a literal stands for, and the text behind it. */
  datatype Char = Char(bytes: GoString, tail: GoString)

  function HexEscape(s: GoString, digits: nat, single: bool): Option<Char> {
    if |s| < digits then None
    else
      match HexValue(s[..digits])
      case None => None
      case Some(v) =>
        if single then (if v < 256 then Some(Char([v], s[digits..])) else None)
        else if ValidRune(v) then Some(Char(Encode(v), s[digits..]))
        else None
  }

  predicate IsOctal(b: byte) { 48 <= b <= 55 }

  function OctalEscape(s: GoString): Option<Char> {
    if |s| < 3 || !IsOctal(s[0]) || !IsOctal(s[1]) || !IsOctal(s[2]) then None
    else
      var v: int := (s[0] as int - 48) * 64 + (s[1] as int - 48) * 8 + (s[2] - 48);
      if v > 255 then None else Some(Char([v], s[3..]))
  }

  function LongEscape(c: byte): Option<byte> {
    if c == 97 then Some(7)
    else if c == 98 then Some(8)
    else if c == 102 then Some(12)
    else if c == 110 then Some(10)
    else if c == 114 then Some(13)
    else if c == 116 then Some(9)
    else if c == 118 then Some(11)
    else if c == BACKSLASH || c == QUOTE then Some(c)
    else None
  }

  /** strconv.UnquoteChar with a double quote as the delimiter. */
  function UnquoteChar(s: GoString): (r: Option<Char>)
    requires s != []
    ensures r.Some? ==> |r.value.tail| < |s| && r.value.tail == s[|s| - |r.value.tail|..]
  {
    if s[0] == QUOTE then None
    else if s[0] >= 0x80 then Some(Char(Encode(Decode(s).rune), s[Decode(s).width..]))
    else if s[0] != BACKSLASH then Some(Char([s[0]], s[1..]))
    else if |s| <= 1 then None
    else if LongEscape(s[1]).Some? then Some(Char([LongEscape(s[1]).value], s[2..]))
    else if s[1] == 120 then HexEscape(s[2..], 2, true)
    else if s[1] == 117 then HexEscape(s[2..], 4, false)
    else if s[1] == 85 then HexEscape(s[2..], 8, false)
    else if IsOctal(s[1]) then OctalEscape(s[1..])
    else None
  }

  /** A literal's value once its opening quote is consumed, and the text behind
      its closing quote. */
  datatype Literal = Literal(value: GoString, rest: GoString)

  function ScanLiteral(s: GoString): (r: Option<Literal>)
    ensures r.Some? ==> |r.value.rest| < |s| && r.value.rest == s[|s| - |r.value.rest|..]
    decreases |s|
  {
    if s == [] || s[0] == NEWLINE then None
    else if s[0] == QUOTE then Some(Literal([], s[1..]))
    else
      match UnquoteChar(s)
      case None => None
      case Some(c) =>
        match ScanLiteral(c.tail)
        case None => None
        case Some(l) =>
          assert l.rest == c.tail[|c.tail| - |l.rest|..] == s[|s| - |l.rest|..];
          Some(Literal(c.bytes + l.value, l.rest))
  }

  /** cutQuoted: the canonical quoted text at the start of s. */
  function CutQuoted(table: PrintTable, s: GoString): Option<Literal> {
    if s == [] || s[0] != QUOTE then None
    else
      match ScanLiteral(s[1..])
      case None => None
      case Some(l) => if Quote(table, l.value) == s[..|s| - |l.rest|] then Some(l) else None
  }

  // --------------------------------------------------------------- proofs

  lemma ReadHexDigits(n: nat, digits: nat, single: bool, rest: GoString)
    requires n < Pow16(digits)
    requires if single then n < 256 else ValidRune(n)
    ensures HexEscape(Hex(n, digits) + rest, digits, single)
         == Some(Char(if single then [n] else Encode(n), rest))
  {
    HexValueHex(n, digits);
    var all := Hex(n, digits) + rest;
    assert all[..digits] == Hex(n, digits) && all[digits..] == rest;
  }

  function EscapeDigits(letter: byte): nat {
    if letter == 120 then 2 else if letter == 117 then 4 else 8
  }

  lemma NumericEscapeRule(s: GoString)
    requires |s| >= 2 && s[0] == BACKSLASH && (s[1] == 120 || s[1] == 117 || s[1] == 85)
    ensures UnquoteChar(s) == HexEscape(s[2..], EscapeDigits(s[1]), s[1] == 120)
  {
  }

  /** Unquoting reads a numeric escape back, whichever its letter. */
  lemma ReadHexEscape(letter: byte, n: nat, rest: GoString)
    requires letter == 120 || letter == 117 || letter == 85
    requires n < Pow16(EscapeDigits(letter)) && if letter == 120 then n < 256 else ValidRune(n)
    ensures UnquoteChar([BACKSLASH, letter] + Hex(n, EscapeDigits(letter)) + rest)
         == Some(Char(if letter == 120 then [n] else Encode(n), rest))
  {
    var digits := EscapeDigits(letter);
    ReadHexDigits(n, digits, letter == 120, rest);
    DropTwo(BACKSLASH, letter, Hex(n, digits), rest);
    NumericEscapeRule([BACKSLASH, letter] + Hex(n, digits) + rest);
  }

  lemma DropTwo(a: byte, b: byte, mid: GoString, rest: GoString)
    ensures var all := [a, b] + mid + rest; |all| >= 2 && all[0] == a && all[1] == b && all[2..] == mid + rest
  {
  }

  /** Quoting never emits a raw quote or newline at the start of a character,
      and unquoting reads that character back. */
  lemma ReadHead(table: PrintTable, s: GoString, rest: GoString)
    requires s != []
    ensures var text := HeadText(table, s);
            && text != [] && text[0] != QUOTE && text[0] != NEWLINE
            && UnquoteChar(text + rest) == Some(Char(s[..Decode(s).width], rest))
  {
    if BadStart(s) {
      HexWidths();
      assert s[..1] == [s[0]];
      ReadHexEscape(120, s[0], rest);
    } else {
      ReadRune(table, s, rest);
    }
  }

  lemma HexWidths()
    ensures Pow16(2) == 0x100 && Pow16(4) == 0x10000 && Pow16(8) == 0x1_0000_0000
  {
    assert Pow16(8) == 0x10000 * Pow16(4);
  }

  lemma ReadRune(table: PrintTable, s: GoString, rest: GoString)
    requires s != [] && !BadStart(s)
    ensures var text := EscapedRune(table, Decode(s).rune);
            && text != [] && text[0] != QUOTE && text[0] != NEWLINE
            && UnquoteChar(text + rest) == Some(Char(s[..Decode(s).width], rest))
  {
    var r := Decode(s).rune;
    var text := EscapedRune(table, r);
    EncodeDecode(s);
    assert (text + rest)[|text|..] == rest;
    if r != QUOTE && r != BACKSLASH {
      if IsPrint(table, r) {
        DecodeEncode(r, rest);
      } else if ShortEscape(r).None? {
        ReadNumericEscape(table, r, rest);
      }
    }
  }

  lemma ReadNumericEscape(table: PrintTable, r: int, rest: GoString)
    requires ValidRune(r) && r != QUOTE && r != BACKSLASH && !IsPrint(table, r) && ShortEscape(r).None?
    ensures var text := EscapedRune(table, r);
            && text != [] && text[0] == BACKSLASH
            && UnquoteChar(text + rest) == Some(Char(Encode(r), rest))
  {
    HexWidths();
    if r < 0x20 || r == 0x7F {
      ReadHexEscape(120, r, rest);
    } else if r < 0x10000 {
      ReadHexEscape(117, r, rest);
    } else {
      ReadHexEscape(85, r, rest);
    }
  }

  lemma ScanEnd(rest: GoString)
    ensures ScanLiteral([QUOTE] + rest) == Some(Literal([], rest))
  {
  }

  /** text is one escaped character, and reads back as head whatever follows. */
  ghost predicate ReadsAs(text: GoString, tail: GoString, head: GoString) {
    text != [] && text[0] != QUOTE && text[0] != NEWLINE && UnquoteChar(text + tail) == Some(Char(head, tail))
  }

  /** The text of a non-empty body: its first character, then the rest. */
  lemma HeadAndTail(table: PrintTable, s: GoString, rest: GoString) returns (text: GoString, tail: GoString)
    requires s != []
    ensures QuotedBody(table, s) + [QUOTE] + rest == text + tail
    ensures tail == QuotedBody(table, s[Decode(s).width..]) + [QUOTE] + rest
    ensures ReadsAs(text, tail, s[..Decode(s).width])
  {
    text, tail := HeadText(table, s), QuotedBody(table, s[Decode(s).width..]) + [QUOTE] + rest;
    BodyUnfolds(table, s, rest);
    ReadHead(table, s, tail);
  }

  lemma {:induction false} ScanQuotedBody(table: PrintTable, s: GoString, rest: GoString)
    ensures ScanLiteral(QuotedBody(table, s) + [QUOTE] + rest) == Some(Literal(s, rest))
    decreases |s|
  {
    if s == [] {
      assert QuotedBody(table, s) + [QUOTE] + rest == [QUOTE] + rest;
      ScanEnd(rest);
    } else {
      var w := Decode(s).width;
      ScanQuotedBody(table, s[w..], rest);
      var text, tail := HeadAndTail(table, s, rest);
      ScanJoins(text, tail, s, w, rest);
    }
  }

  lemma ScanJoins(text: GoString, tail: GoString, s: GoString, w: nat, rest: GoString)
    requires w <= |s| && ReadsAs(text, tail, s[..w]) && ScanLiteral(tail) == Some(Literal(s[w..], rest))
    ensures ScanLiteral(text + tail) == Some(Literal(s, rest))
  {
    Rejoin(s, w);
    ScanStep(text, tail, s[..w], Literal(s[w..], rest));
  }

  lemma Rejoin(s: GoString, w: nat)
    requires w <= |s|
    ensures s[..w] + s[w..] == s
  {
  }

  lemma BodyUnfolds(table: PrintTable, s: GoString, rest: GoString)
    requires s != []
    ensures QuotedBody(table, s) + [QUOTE] + rest
            == HeadText(table, s) + (QuotedBody(table, s[Decode(s).width..]) + [QUOTE] + rest)
  {
  }

  lemma ScanStep(text: GoString, tail: GoString, head: GoString, l: Literal)
    requires ReadsAs(text, tail, head) && ScanLiteral(tail) == Some(l)
    ensures ScanLiteral(text + tail) == Some(Literal(head + l.value, l.rest))
  {
    assert (text + tail)[0] == text[0];
  }

  /** Quoted text is a prefix code: whatever follows it, cutQuoted returns the
      original bytes and leaves exactly what follows. */
  lemma CutQuotedInverts(table: PrintTable, s: GoString, rest: GoString)
    ensures CutQuoted(table, Quote(table, s) + rest) == Some(Literal(s, rest))
  {
    var all := Quote(table, s) + rest;
    assert all[1..] == QuotedBody(table, s) + [QUOTE] + rest;
    ScanQuotedBody(table, s, rest);
    assert all[..|all| - |rest|] == Quote(table, s);
  }

  /** Conversely, cutQuoted accepts nothing but that rendering. */
  lemma CutQuotedIsCanonical(table: PrintTable, s: GoString)
    ensures CutQuoted(table, s).Some? ==>
              s == Quote(table, CutQuoted(table, s).value.value) + CutQuoted(table, s).value.rest
  {
    if CutQuoted(table, s).Some? {
      var l := CutQuoted(table, s).value;
      assert l.rest == s[1..][|s| - 1 - |l.rest|..] == s[|s| - |l.rest|..];
    }
  }

  /** No quoted text holds a zero byte, so a zero byte ends it unambiguously. */
  lemma {:induction false} QuotedHasNoNul(table: PrintTable, s: GoString)
    ensures 0 !in QuotedBody(table, s) && 0 !in Quote(table, s)
    decreases |s|
  {
    if s != [] {
      QuotedHasNoNul(table, s[Decode(s).width..]);
      if !BadStart(s) && Decode(s).rune < 0x80 && IsPrint(table, Decode(s).rune) {
        assert HeadText(table, s)[0] != 0;
      }
      assert 0 !in HeadText(table, s);
    }
  }
}
