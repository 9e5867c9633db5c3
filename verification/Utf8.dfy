/** UTF-8 as Go's unicode/utf8 reads and writes it. */
module Utf8 {
  import opened GoText

  const RUNE_ERROR: int := 0xFFFD

  predicate ValidRune(r: int) {
    0 <= r < 0xD800 || 0xE000 <= r <= 0x10FFFF
  }

  predicate Continuation(b: byte) { 0x80 <= b <= 0xBF }

  /** utf8.AppendRune for a valid rune. */
  function Encode(r: int): (s: GoString)
    requires ValidRune(r)
    ensures 1 <= |s| <= 4
    ensures r < 0x80 <==> s[0] < 0x80
    ensures r < 0x80 ==> s == [r]
    ensures r >= 0x80 ==> |s| >= 2 && forall i :: 0 <= i < |s| ==> s[i] >= 0x80
  {
    if r < 0x80 then [r]
    else if r < 0x800 then [0xC0 + r / 64, 0x80 + r % 64]
    else if r < 0x10000 then [0xE0 + r / 4096, 0x80 + r / 64 % 64, 0x80 + r % 64]
    else [0xF0 + r / 262144, 0x80 + r / 4096 % 64, 0x80 + r / 64 % 64, 0x80 + r % 64]
  }

  datatype Decoded = Decoded(rune: int, width: nat)

  /** The second byte of a three-byte sequence starting with b0. */
  predicate SecondOfThree(b0: byte, b1: byte) {
    Continuation(b1) && (b0 == 0xE0 ==> b1 >= 0xA0) && (b0 == 0xED ==> b1 <= 0x9F)
  }

  /** The second byte of a four-byte sequence starting with b0. */
  predicate SecondOfFour(b0: byte, b1: byte) {
    Continuation(b1) && (b0 == 0xF0 ==> b1 >= 0x90) && (b0 == 0xF4 ==> b1 <= 0x8F)
  }

  /** utf8.DecodeRuneInString: an ill-formed start consumes one byte and yields
      the replacement rune. */
  function Decode(s: GoString): (d: Decoded)
    requires s != []
    ensures 1 <= d.width <= |s|
    ensures ValidRune(d.rune)
  {
    var b0: int := s[0];
    var b1: int := if |s| >= 2 then s[1] else 0;
    var b2: int := if |s| >= 3 then s[2] else 0;
    var b3: int := if |s| >= 4 then s[3] else 0;
    if b0 < 0x80 then Decoded(b0, 1)
    else if 0xC2 <= b0 <= 0xDF && Continuation(b1) then
      Decoded((b0 - 0xC0) * 64 + (b1 - 0x80), 2)
    else if 0xE0 <= b0 <= 0xEF && SecondOfThree(b0, b1) && Continuation(b2) then
      Decoded((b0 - 0xE0) * 4096 + (b1 - 0x80) * 64 + (b2 - 0x80), 3)
    else if 0xF0 <= b0 <= 0xF4 && SecondOfFour(b0, b1) && Continuation(b2) && Continuation(b3) then
      Decoded((b0 - 0xF0) * 262144 + (b1 - 0x80) * 4096 + (b2 - 0x80) * 64 + (b3 - 0x80), 4)
    else Decoded(RUNE_ERROR, 1)
  }

  /** A byte no well-formed sequence starts with here. */
  predicate BadStart(s: GoString)
    requires s != []
  {
    Decode(s) == Decoded(RUNE_ERROR, 1)
  }

  /** A number is determined by, and determines, its base-64 digits. */
  lemma Base64Digits(r: int, a: int, b: int, c: int, d: int)
    requires 0 <= a && 0 <= b < 64 && 0 <= c < 64 && 0 <= d < 64
    ensures r == a * 262144 + b * 4096 + c * 64 + d
       <==> r / 262144 == a && r / 4096 % 64 == b && r / 64 % 64 == c && r % 64 == d
  {
    assert r == 64 * (r / 64) + r % 64;
    assert r / 64 == 64 * (r / 4096) + r / 64 % 64;
    assert r / 4096 == 64 * (r / 262144) + r / 4096 % 64;
  }

  lemma EncodeDecode(s: GoString)
    requires s != [] && !BadStart(s)
    ensures Encode(Decode(s).rune) == s[..Decode(s).width]
  {
    var d := Decode(s);
    if d.width == 1 {
    } else if d.width == 2 {
      Base64Digits(d.rune, 0, 0, s[0] - 0xC0, s[1] - 0x80);
    } else if d.width == 3 {
      Base64Digits(d.rune, 0, s[0] - 0xE0, s[1] - 0x80, s[2] - 0x80);
    } else {
      Base64Digits(d.rune, s[0] - 0xF0, s[1] - 0x80, s[2] - 0x80, s[3] - 0x80);
    }
  }

  lemma DecodeThreeBytes(s: GoString, r: int)
    requires 0x800 <= r < 0x10000 && ValidRune(r)
    requires |s| >= 3 && s[0] == 0xE0 + r / 4096 && s[1] == 0x80 + r / 64 % 64 && s[2] == 0x80 + r % 64
    ensures Decode(s) == Decoded(r, 3)
  {
    Base64Digits(r, 0, r / 4096, r / 64 % 64, r % 64);
  }

  lemma DecodeFourBytes(s: GoString, r: int)
    requires 0x10000 <= r && ValidRune(r)
    requires |s| >= 4 && s[0] == 0xF0 + r / 262144 && s[1] == 0x80 + r / 4096 % 64
    requires s[2] == 0x80 + r / 64 % 64 && s[3] == 0x80 + r % 64
    ensures Decode(s) == Decoded(r, 4)
  {
    Base64Digits(r, r / 262144, r / 4096 % 64, r / 64 % 64, r % 64);
  }

  lemma DecodeEncode(r: int, rest: GoString)
    requires ValidRune(r)
    ensures Decode(Encode(r) + rest) == Decoded(r, |Encode(r)|)
  {
    var s := Encode(r) + rest;
    if 0x800 <= r < 0x10000 {
      DecodeThreeBytes(s, r);
    } else if 0x10000 <= r {
      DecodeFourBytes(s, r);
    }
  }

  /** utf8.ValidString */
  predicate ValidString(s: GoString)
    decreases |s|
  {
    s == [] || (!BadStart(s) && ValidString(s[Decode(s).width..]))
  }

  /** The runes a `for range` over s visits. */
  function Runes(s: GoString): seq<int>
    decreases |s|
  {
    if s == [] then [] else [Decode(s).rune] + Runes(s[Decode(s).width..])
  }

  /** unicode.IsControl: category Cc. */
  predicate IsControl(r: int) { 0 <= r < 0x20 || 0x7F <= r < 0xA0 }

  /** unicode.IsSpace */
  predicate IsSpace(r: int) {
    r in {9, 10, 11, 12, 13, 0x20, 0x85, 0xA0, 0x1680, 0x2028, 0x2029, 0x202F, 0x205F, 0x3000} || 0x2000 <= r <= 0x200A
  }

  /** strings.TrimSpace(s) == s, for a valid UTF-8 string. */
  predicate Trimmed(s: GoString) {
    var rs := Runes(s);
    rs == [] || (!IsSpace(rs[0]) && !IsSpace(rs[|rs| - 1]))
  }
}
