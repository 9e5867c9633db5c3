/** Go values shared by every module: strings as byte sequences, unsigned
    64-bit numbers, and the few `strings` and `strconv` functions the
    repository builds its codecs from. */
module GoText {

  datatype Option<+T> = None | Some(value: T) {
    function UnwrapOr(default: T): T {
      if Some? then value else default
    }
  }

  type byte = b: int | 0 <= b < 256

  /** A Go string is an arbitrary sequence of bytes. */
  type GoString = seq<byte>

  const U64_LIMIT: int := 0x1_0000_0000_0000_0000

  type U64 = n: int | 0 <= n < U64_LIMIT

  /** The largest int of a 64-bit platform. */
  const MAX_INT: int := 0x7fff_ffff_ffff_ffff

  /** A uint64 converted to the platform's int. */
  function AsInt(n: U64): int {
    if n <= MAX_INT then n else n - U64_LIMIT
  }

  /** x as a 64-bit two's complement integer. */
  function Wrap(x: int): int {
    AsInt(x % U64_LIMIT)
  }

  /** The bytes of an ASCII literal. */
  function Ascii(s: string): (b: GoString)
    ensures |b| == |s|
    ensures forall i :: 0 <= i < |s| ==> b[i] == s[i] as int % 256
  {
    seq(|s|, i requires 0 <= i < |s| => s[i] as int % 256)
  }

  /** strings.CutPrefix */
  function CutPrefix(s: GoString, prefix: GoString): (rest: Option<GoString>)
    ensures rest.Some? ==> s == prefix + rest.value
    ensures rest.None? ==> !(prefix <= s)
  {
    if prefix <= s then Some(s[|prefix|..]) else None
  }

  lemma ConsCut(s: GoString, before: GoString, sep: GoString, after: GoString)
    requires s != [] && s[1..] == before + sep + after
    ensures s == ([s[0]] + before) + sep + after
  {
    assert s == [s[0]] + s[1..];
  }

  /** strings.Cut: split around the first occurrence of sep. */
  function Cut(s: GoString, sep: GoString): (r: Option<(GoString, GoString)>)
    ensures r.Some? ==> s == r.value.0 + sep + r.value.1
    decreases |s|
  {
    if sep <= s then
      assert s == [] + sep + s[|sep|..];
      Some(([], s[|sep|..]))
    else if s == [] then None
    else
      match Cut(s[1..], sep)
      case None => None
      case Some((before, after)) =>
        ConsCut(s, before, sep, after);
        Some(([s[0]] + before, after))
  }

  /** Cut finds the separator right behind a text that never contains the
      separator's first byte. */
  lemma {:induction false} CutAtFreshSeparator(before: GoString, sep: GoString, after: GoString)
    requires sep != [] && sep[0] !in before
    ensures Cut(before + sep + after, sep) == Some((before, after))
  {
    var s := before + sep + after;
    if before == [] {
      assert s == sep + after;
      assert s[..|sep|] == sep;
    } else {
      assert s[0] == before[0] != sep[0];
      assert s[1..] == before[1..] + sep + after;
      CutAtFreshSeparator(before[1..], sep, after);
      assert [before[0]] + before[1..] == before;
    }
  }

  predicate IsDigit(b: byte) { 48 <= b <= 57 }

  predicate AllDigits(s: GoString) {
    forall i :: 0 <= i < |s| ==> IsDigit(s[i])
  }

  /** strconv.FormatUint(n, 10) */
  function FormatUint(n: nat): (s: GoString)
    ensures s != [] && AllDigits(s)
  {
    if n < 10 then [48 + n] else FormatUint(n / 10) + [48 + n % 10]
  }

  /** The number a digit string denotes, leading zeros included. */
  function DigitsValue(s: GoString): nat
    requires AllDigits(s)
  {
    if s == [] then 0 else 10 * DigitsValue(s[..|s| - 1]) + (s[|s| - 1] - 48)
  }

  /** strconv.ParseUint(s, 10, 64): digits only, in range. */
  function ParseUint(s: GoString): (r: Option<U64>)
  {
    if s != [] && AllDigits(s) && DigitsValue(s) < U64_LIMIT then Some(DigitsValue(s)) else None
  }

  lemma {:induction false} ParseFormat(n: nat)
    ensures DigitsValue(FormatUint(n)) == n
    ensures n < U64_LIMIT ==> ParseUint(FormatUint(n)) == Some(n)
  {
    if n >= 10 {
      ParseFormat(n / 10);
      var s := FormatUint(n);
      assert s[..|s| - 1] == FormatUint(n / 10);
    } else {
      var s := FormatUint(n);
      assert s[..|s| - 1] == [];
    }
  }
}
