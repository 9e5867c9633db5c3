/** The legacy migration: a hand-written scan of protobuf fields for the embedded
    resulting state, and the choice of the latest one. The encoding follows the
    Protocol Buffers encoding specification, sections "Base 128 Varints" and
    "Message Structure". */
module LegacyScan {
  import opened GoText
  import opened Records

  // ---------------------------------------------------------------- varints

  function Pow128(i: nat): nat {
    if i == 0 then 1 else 128 * Pow128(i - 1)
  }

  /** Seven bits a byte, least significant first, continued by the high bit. */
  function EncodeVarint(n: nat): (b: seq<byte>)
    ensures |b| >= 1
  {
    if n < 128 then [n] else [n % 128 + 128] + EncodeVarint(n / 128)
  }

  /** A value and how many bytes it took. */
  datatype Varint = Varint(value: U64, size: nat)

  /** The low seven bits of c, shifted to weight p and or-ed into v. They never
      overlap the bits of v, so or-ing is adding; what the shift pushes past
      bit 63 is gone. */
  function AddBits(v: U64, c: byte, p: nat): U64 {
    (v + c as int % 128 * p) % U64_LIMIT
  }

  /** consumeVarint from byte i on, with the bits below gathered in v. */
  function Gather(b: seq<byte>, i: nat, v: U64): (r: Option<Varint>)
    requires i <= |b|
    ensures r.Some? ==> i < r.value.size <= |b| && r.value.size <= 10
    decreases |b| - i
  {
    if i == |b| || i >= 10 then None
    else
      var v' := AddBits(v, b[i], Pow128(i));
      if b[i] < 128 then Some(Varint(v', i + 1)) else Gather(b, i + 1, v')
  }

  function DecodeVarint(b: seq<byte>): (r: Option<Varint>)
    ensures r.Some? ==> 0 < r.value.size <= |b| && r.value.size <= 10
  {
    Gather(b, 0, 0)
  }

  method ConsumeVarint(b: seq<byte>) returns (r: Option<Varint>)
    ensures r == DecodeVarint(b)
  {
    var v: U64 := 0;
    var shift: nat := 1;
    for i := 0 to |b|
      invariant i <= 10 && shift == Pow128(i) && v < shift && DecodeVarint(b) == Gather(b, i, v)
    {
      if i >= 10 { return None; }
      AddBitsBelow(v, b[i], shift);
      v := AddBits(v, b[i], shift);
      if b[i] < 128 { return Some(Varint(v, i + 1)); }
      shift := shift * 128;
    }
    r := None;
  }

  /** The bits gathered so far stay below the weight of the next ones. */
  lemma AddBitsBelow(v: U64, c: byte, p: nat)
    requires v < p
    ensures AddBits(v, c, p) < 128 * p
  {
    var d: nat := c as int % 128;
    DigitBound(d, p);
    WrapsDown(v + d * p);
  }

  lemma DigitBound(d: nat, p: nat)
    requires d <= 127
    ensures 0 <= d * p <= 127 * p
  {
    assert 127 * p == d * p + (127 - d) * p;
  }

  lemma WrapsDown(x: nat)
    ensures x % U64_LIMIT <= x
  {
  }

  lemma {:induction false} Pow128Grows(i: nat)
    requires i >= 10
    ensures Pow128(i) >= U64_LIMIT
  {
    if i == 10 {
      assert Pow128(2) == 0x4000;
      assert Pow128(4) == 0x1000_0000;
      assert Pow128(6) == 0x400_0000_0000;
      assert Pow128(8) == 0x100_0000_0000_0000;
    } else {
      Pow128Grows(i - 1);
    }
  }

  lemma SplitDigit(m: nat, p: nat)
    ensures m * p == (m % 128) * p + (m / 128) * (128 * p)
    ensures (m % 128) * p >= 0 && (m / 128) * (128 * p) >= 0
  {
    assert m == m % 128 + 128 * (m / 128);
    assert (m % 128 + 128 * (m / 128)) * p == (m % 128) * p + (128 * (m / 128)) * p;
  }

  lemma AddBitsExact(v: U64, c: byte, p: nat, digit: nat)
    requires c as int % 128 == digit && v + digit * p < U64_LIMIT
    ensures digit * p >= 0 && AddBits(v, c, p) == v + digit * p
  {
  }

  lemma WithinTen(i: nat, m: nat)
    requires m * Pow128(i) < U64_LIMIT && (i > 0 ==> m >= 1)
    ensures i < 10
  {
    if i >= 10 {
      Pow128Grows(i);
      MultiplyGrows(m, Pow128(i));
      assert false;
    }
  }

  lemma MultiplyGrows(m: nat, p: nat)
    requires m >= 1
    ensures m * p >= p
  {
    assert (m - 1) * p >= 0;
  }

  lemma {:induction false} GatherInverts(pre: seq<byte>, m: nat, rest: seq<byte>, v: U64)
    requires v + m * Pow128(|pre|) < U64_LIMIT && (pre != [] ==> m >= 1)
    ensures Gather(pre + EncodeVarint(m) + rest, |pre|, v)
            == Some(Varint(v + m * Pow128(|pre|), |pre| + |EncodeVarint(m)|))
    ensures |pre| + |EncodeVarint(m)| <= 10
    decreases m
  {
    var i, p := |pre|, Pow128(|pre|);
    var b := pre + EncodeVarint(m) + rest;
    WithinTen(i, m);
    if m < 128 {
      assert b[i] == m;
      AddBitsExact(v, b[i], p, m);
    } else {
      var digit := m % 128;
      var c: byte := digit + 128;
      assert b[i] == c;
      SplitDigit(m, p);
      AddBitsExact(v, c, p, digit);
      Regroup(pre, c, EncodeVarint(m / 128), rest);
      GatherInverts(pre + [c], m / 128, rest, v + digit * p);
    }
  }

  lemma Regroup(pre: seq<byte>, c: byte, tail: seq<byte>, rest: seq<byte>)
    ensures pre + ([c] + tail) + rest == pre + [c] + tail + rest
  {
  }

  /** Decoding inverts encoding for every 64-bit value, whatever follows, within
      ten bytes. */
  lemma VarintRoundTrip(n: U64, rest: seq<byte>)
    ensures DecodeVarint(EncodeVarint(n) + rest) == Some(Varint(n, |EncodeVarint(n)|)) && |EncodeVarint(n)| <= 10
  {
    assert Pow128(0) == 1;
    GatherInverts([], n, rest, 0);
    assert [] + EncodeVarint(n) + rest == EncodeVarint(n) + rest;
  }

  // ----------------------------------------------------------------- fields

  datatype Field =
    | VarintField(number: nat, value: U64)
    | Fixed64Field(number: nat, bytes: seq<byte>)
    | BytesField(number: nat, payload: seq<byte>)
    | Fixed32Field(number: nat, bytes: seq<byte>)

  const LEGACY_FIELD := 5

  predicate WellFormed(f: Field) {
    && 0 < f.number < 0x2000_0000
    && match f
       case VarintField(_, _) => true
       case Fixed64Field(_, bytes) => |bytes| == 8
       case BytesField(_, payload) => |payload| < U64_LIMIT
       case Fixed32Field(_, bytes) => |bytes| == 4
  }

  function WireType(f: Field): nat {
    match f
    case VarintField(_, _) => 0
    case Fixed64Field(_, _) => 1
    case BytesField(_, _) => 2
    case Fixed32Field(_, _) => 5
  }

  function Body(f: Field): seq<byte> {
    match f
    case VarintField(_, value) => EncodeVarint(value)
    case Fixed64Field(_, bytes) => bytes
    case BytesField(_, payload) => EncodeVarint(|payload|) + payload
    case Fixed32Field(_, bytes) => bytes
  }

  function EncodeField(f: Field): seq<byte> {
    EncodeVarint(f.number * 8 + WireType(f)) + Body(f)
  }

  function EncodeFields(fs: seq<Field>): seq<byte> {
    if fs == [] then [] else EncodeField(fs[0]) + EncodeFields(fs[1..])
  }

  /** The payload of the first length-delimited field 5. */
  function FirstLegacy(fs: seq<Field>): Option<seq<byte>> {
    if fs == [] then None
    else if fs[0].BytesField? && fs[0].number == LEGACY_FIELD then Some(fs[0].payload)
    else FirstLegacy(fs[1..])
  }

  // --------------------------------------------------------------- the scan

  /** One field read off the front: its payload if it is the wanted one, and what
      is left; nothing when the bytes are malformed or the wire type unknown. */
  datatype Read = Stop | Found(payload: seq<byte>) | Skip(rest: seq<byte>)

  function ReadField(b: seq<byte>): (r: Read)
    ensures r.Skip? ==> |r.rest| < |b|
  {
    var tag := DecodeVarint(b);
    if tag.None? then Stop
    else
      var raw, number, wire := b[tag.value.size..], tag.value.value / 8 % 0x1_0000_0000, tag.value.value % 8;
      if wire == 2 then
        var length := DecodeVarint(raw);
        if length.None? || |raw| - length.value.size < length.value.value then Stop
        else
          var start := length.value.size;
          if number == LEGACY_FIELD then Found(raw[start..start + length.value.value])
            else Skip(raw[start + length.value.value..])
      else if wire == 0 then
        var skipped := DecodeVarint(raw);
        if skipped.None? then Stop else Skip(raw[skipped.value.size..])
      else if wire == 5 then if |raw| < 4 then Stop else Skip(raw[4..])
      else if wire == 1 then if |raw| < 8 then Stop else Skip(raw[8..])
      else Stop
  }

  function Scan(b: seq<byte>): Option<seq<byte>>
    decreases |b|
  {
    match ReadField(b)
    case Stop => None
    case Found(payload) => Some(payload)
    case Skip(rest) => Scan(rest)
  }

  method NextField(raw: seq<byte>) returns (r: Read)
    ensures r == ReadField(raw)
  {
    var tag := ConsumeVarint(raw);
    if tag.None? { return Stop; }
    var number, wire := tag.value.value / 8 % 0x1_0000_0000, tag.value.value % 8;
    var body := raw[tag.value.size..];
    if wire == 2 {
      var length := ConsumeVarint(body);
      if length.None? { return Stop; }
      var start, n := length.value.size, length.value.value;
      if |body| - start < n { return Stop; }
      if number == LEGACY_FIELD { return Found(body[start..start + n]); }
      r := Skip(body[start + n..]);
    } else if wire == 0 {
      var skipped := ConsumeVarint(body);
      if skipped.None? { return Stop; }
      r := Skip(body[skipped.value.size..]);
    } else if wire == 5 {
      if |body| < 4 { return Stop; }
      r := Skip(body[4..]);
    } else if wire == 1 {
      if |body| < 8 { return Stop; }
      r := Skip(body[8..]);
    } else {
      r := Stop;
    }
  }

  /** The selected payload's state, if it parses and has a type URL. */
  function Selected<S>(unknown: seq<byte>, parse: seq<byte> -> Option<S>, typeUrl: S -> GoString): Option<S> {
    match Scan(unknown)
    case None => None
    case Some(payload) =>
      if parse(payload).Some? && typeUrl(parse(payload).value) != [] then parse(payload) else None
  }

  // ------------------------------------------------------------ what it finds

  lemma DropPrefix(a: seq<byte>, b: seq<byte>)
    ensures (a + b)[|a|..] == b && (a + b)[..|a|] == a
  {
  }

  lemma ReadTag(f: Field, rest: seq<byte>)
    requires WellFormed(f)
    ensures var b := EncodeField(f) + rest;
            var tag := DecodeVarint(b);
            && tag.Some? && tag.value.value % 8 == WireType(f) && tag.value.value / 8 % 0x1_0000_0000 == f.number
            && b[tag.value.size..] == Body(f) + rest
  {
    var tag := f.number * 8 + WireType(f);
    VarintRoundTrip(tag, Body(f) + rest);
    assert EncodeField(f) + rest == EncodeVarint(tag) + (Body(f) + rest);
    DropPrefix(EncodeVarint(tag), Body(f) + rest);
  }

  /** Reading one well-formed field consumes exactly it. */
  lemma ReadsField(f: Field, rest: seq<byte>)
    requires WellFormed(f)
    ensures ReadField(EncodeField(f) + rest)
         == if f.BytesField? && f.number == LEGACY_FIELD then Found(f.payload) else Skip(rest)
  {
    ReadTag(f, rest);
    match f
    case VarintField(_, value) =>
      VarintRoundTrip(value, rest);
      DropPrefix(EncodeVarint(value), rest);
    case Fixed64Field(_, bytes) => DropPrefix(bytes, rest);
    case Fixed32Field(_, bytes) => DropPrefix(bytes, rest);
    case BytesField(_, payload) => ReadsPayload(payload, rest);
  }

  lemma ReadsPayload(payload: seq<byte>, rest: seq<byte>)
    requires |payload| < U64_LIMIT
    ensures var raw := EncodeVarint(|payload|) + payload + rest;
            var length := DecodeVarint(raw);
            && length == Some(Varint(|payload|, |EncodeVarint(|payload|)|))
            && |raw| - length.value.size >= |payload|
            && raw[length.value.size..length.value.size + |payload|] == payload
            && raw[length.value.size + |payload|..] == rest
  {
    VarintRoundTrip(|payload|, payload + rest);
    assert EncodeVarint(|payload|) + payload + rest == EncodeVarint(|payload|) + (payload + rest);
  }

  /** On every well-formed list of fields, whatever follows it, the scan selects the
      payload of the first length-delimited field 5, and goes on to what follows if
      there is none. */
  lemma {:induction false} ScanSelectsFirst(fs: seq<Field>, rest: seq<byte>)
    requires forall i :: 0 <= i < |fs| ==> WellFormed(fs[i])
    ensures Scan(EncodeFields(fs) + rest) == if FirstLegacy(fs).Some? then FirstLegacy(fs) else Scan(rest)
  {
    if fs == [] {
      assert EncodeFields(fs) + rest == rest;
    } else {
      var more := EncodeFields(fs[1..]) + rest;
      assert EncodeFields(fs) + rest == EncodeField(fs[0]) + more;
      ReadsField(fs[0], more);
      ScanSelectsFirst(fs[1..], rest);
    }
  }

  ghost predicate IsPiece(p: seq<byte>, b: seq<byte>) {
    exists i, j :: 0 <= i <= j <= |b| && p == b[i..j]
  }

  lemma PieceOfSuffix(p: seq<byte>, b: seq<byte>, n: nat)
    requires n <= |b| && IsPiece(p, b[n..])
    ensures IsPiece(p, b)
  {
    var i, j :| 0 <= i <= j <= |b[n..]| && p == b[n..][i..j];
    assert p == b[n + i..n + j];
  }

  /** On arbitrary bytes, whatever the scan selects is a piece of its input. */
  lemma {:induction false} ScanStaysInBounds(b: seq<byte>)
    ensures Scan(b).Some? ==> IsPiece(Scan(b).value, b)
    decreases |b|
  {
    match ReadField(b)
    case Stop =>
    case Found(payload) => FoundIsPiece(b);
    case Skip(rest) =>
      ScanStaysInBounds(rest);
      if Scan(rest).Some? {
        RestIsSuffix(b);
        PieceOfSuffix(Scan(rest).value, b, |b| - |rest|);
      }
  }

  lemma FoundIsPiece(b: seq<byte>)
    requires ReadField(b).Found?
    ensures IsPiece(ReadField(b).payload, b)
  {
    var tag := DecodeVarint(b).value;
    var length := DecodeVarint(b[tag.size..]).value;
    assert ReadField(b).payload == b[tag.size + length.size..tag.size + length.size + length.value];
  }

  lemma RestIsSuffix(b: seq<byte>)
    requires ReadField(b).Skip?
    ensures var rest := ReadField(b).rest; |rest| <= |b| && rest == b[|b| - |rest|..]
  {
    var raw := b[DecodeVarint(b).value.size..];
    assert forall n :: 0 <= n <= |raw| ==> raw[n..] == b[DecodeVarint(b).value.size + n..];
  }

  // ------------------------------------------------------ the extracted state

  ghost predicate AllWellFormed(fs: seq<Field>) {
    forall i :: 0 <= i < |fs| ==> WellFormed(fs[i])
  }

  predicate IsLegacy(f: Field) {
    f.BytesField? && f.number == 5
  }

  /** Field i is the first length-delimited field 5. */
  ghost predicate IsFirst(fs: seq<Field>, i: nat) {
    i < |fs| && IsLegacy(fs[i]) && forall k :: 0 <= k < i ==> !IsLegacy(fs[k])
  }

  /** The first length-delimited field 5 parses as s, and s has a type URL. */
  ghost predicate Carries<S>(fs: seq<Field>, parse: seq<byte> -> Option<S>, typeUrl: S -> GoString, s: S) {
    exists i: nat :: IsFirst(fs, i) && parse(fs[i].payload) == Some(s) && typeUrl(s) != []
  }

  lemma {:induction false} FirstLegacyAt(fs: seq<Field>, i: nat)
    requires IsFirst(fs, i)
    ensures FirstLegacy(fs) == Some(fs[i].payload)
    decreases |fs|
  {
    if i > 0 {
      assert !IsLegacy(fs[0]);
      FirstLegacyAt(fs[1..], i - 1);
    }
  }

  lemma {:induction false} FirstLegacyPlace(fs: seq<Field>) returns (i: nat)
    requires FirstLegacy(fs).Some?
    ensures IsFirst(fs, i) && fs[i].payload == FirstLegacy(fs).value
    decreases |fs|
  {
    if IsLegacy(fs[0]) {
      i := 0;
    } else {
      var k := FirstLegacyPlace(fs[1..]);
      i := k + 1;
      assert forall n :: 0 < n < |fs| ==> fs[n] == fs[1..][n - 1];
    }
  }

  /** On every well-formed list of fields the state is there exactly when the first
      length-delimited field 5 parses as it and it has a type URL. */
  lemma SelectedIff<S>(fs: seq<Field>, parse: seq<byte> -> Option<S>, typeUrl: S -> GoString, s: S)
    requires AllWellFormed(fs)
    ensures Selected(EncodeFields(fs), parse, typeUrl) == Some(s) <==> Carries(fs, parse, typeUrl, s)
  {
    ScanSelectsFirst(fs, []);
    assert EncodeFields(fs) + [] == EncodeFields(fs);
    if FirstLegacy(fs).Some? { var i := FirstLegacyPlace(fs); }
    if Carries(fs, parse, typeUrl, s) {
      var i: nat :| IsFirst(fs, i) && parse(fs[i].payload) == Some(s) && typeUrl(s) != [];
      FirstLegacyAt(fs, i);
    }
  }

  /** On arbitrary bytes a state has a type URL and is parsed from a piece of them. */
  lemma SelectedIsPiece<S>(unknown: seq<byte>, parse: seq<byte> -> Option<S>, typeUrl: S -> GoString)
    ensures var s := Selected(unknown, parse, typeUrl);
            s.Some? ==> typeUrl(s.value) != [] && exists p :: IsPiece(p, unknown) && parse(p) == s
  {
    ScanStaysInBounds(unknown);
  }

  /** extractLegacyResultingState. `parse` unmarshals a payload: nothing on an
      error, and otherwise the state, whose type URL may be empty. */
  method ExtractLegacyState<S(!new)>(unknown: seq<byte>, parse: seq<byte> -> Option<S>, typeUrl: S -> GoString)
    returns (state: Option<S>)
    ensures state == Selected(unknown, parse, typeUrl)
    ensures state.Some? ==> && typeUrl(state.value) != []
                            && exists p :: IsPiece(p, unknown) && parse(p) == state
    ensures forall fs, s :: AllWellFormed(fs) && unknown == EncodeFields(fs) ==>
              (state == Some(s) <==> Carries(fs, parse, typeUrl, s))
  {
    SelectedIsPiece(unknown, parse, typeUrl);
    forall fs, s | AllWellFormed(fs) && unknown == EncodeFields(fs)
      ensures Selected(unknown, parse, typeUrl) == Some(s) <==> Carries(fs, parse, typeUrl, s)
    {
      SelectedIff(fs, parse, typeUrl, s);
    }
    var raw := unknown;
    while |raw| > 0
      invariant Scan(unknown) == Scan(raw)
      decreases |raw|
    {
      var field := NextField(raw);
      match field {
        case Stop => return None;
        case Found(payload) =>
          var s := parse(payload);
          if s.Some? && typeUrl(s.value) != [] { return s; }
          return None;
        case Skip(rest) => raw := rest;
      }
    }
    state := None;
  }

  // ---------------------------------------------------------- the best state

  /** How events are read: the unknown fields of one, and the state in a payload. */
  datatype Reader<!S> = Reader(unknown: Record -> seq<byte>, parse: seq<byte> -> Option<S>, typeUrl: S -> GoString)

  function LegacyState<S>(reader: Reader<S>, e: Record): Option<S> {
    Selected(reader.unknown(e), reader.parse, reader.typeUrl)
  }

  /** Of the events that carry a legacy state, event i has the highest sequence
      number, and is the first of those with the highest. */
  ghost predicate IsLatest<S>(reader: Reader<S>, events: seq<Record>, i: nat) {
    && i < |events| && LegacyState(reader, events[i]).Some?
    && (forall k :: 0 <= k < |events| && LegacyState(reader, events[k]).Some? ==> events[k].pos <= events[i].pos)
    && (forall k :: 0 <= k < i && LegacyState(reader, events[k]).Some? ==> events[k].pos < events[i].pos)
  }

  /** What is chosen from the events, if anything. */
  ghost predicate IsChoice<S>(reader: Reader<S>, events: seq<Record>, best: Option<(Record, S)>) {
    && (best.None? <==> forall k :: 0 <= k < |events| ==> LegacyState(reader, events[k]).None?)
    && (best.Some? ==> exists i: nat :: IsLatest(reader, events, i)
                                        && best.value == (events[i], LegacyState(reader, events[i]).value))
  }

  /** migrateEntity's choice of an event and its state. */
  method LatestLegacy<S(!new)>(reader: Reader<S>, events: seq<Record>) returns (best: Option<(Record, S)>)
    ensures IsChoice(reader, events, best)
    ensures best.Some? ==> && best.value.0 in events && reader.typeUrl(best.value.1) != []
                           && exists p :: && IsPiece(p, reader.unknown(best.value.0))
                                          && reader.parse(p) == Some(best.value.1)
  {
    best := None;
    ghost var at := 0;
    for i := 0 to |events|
      invariant best.None? <==> forall k :: 0 <= k < i ==> LegacyState(reader, events[k]).None?
      invariant best.Some? ==> && IsLatest(reader, events[..i], at)
                               && best.value == (events[at], LegacyState(reader, events[at]).value)
    {
      var state := ExtractLegacyState(reader.unknown(events[i]), reader.parse, reader.typeUrl);
      assert state == LegacyState(reader, events[i]);
      assert events[..i + 1] == events[..i] + [events[i]];
      if state.Some? && (best.None? || events[i].pos > best.value.0.pos) {
        best := Some((events[i], state.value));
        at := i;
      }
    }
    assert events[..|events|] == events;
    if best.Some? { SelectedIsPiece(reader.unknown(best.value.0), reader.parse, reader.typeUrl); }
  }

  /** Event k of the list has exactly the unknown fields fields[k]. */
  ghost predicate HaveFields<S>(reader: Reader<S>, events: seq<Record>, fields: seq<seq<Field>>) {
    && |fields| == |events|
    && forall k :: 0 <= k < |events| ==>
         AllWellFormed(fields[k]) && reader.unknown(events[k]) == EncodeFields(fields[k])
  }

  ghost predicate SomeState<S(!new)>(reader: Reader<S>, fs: seq<Field>) {
    exists s: S :: Carries(fs, reader.parse, reader.typeUrl, s)
  }

  lemma StateIff<S(!new)>(reader: Reader<S>, e: Record, fs: seq<Field>)
    requires AllWellFormed(fs) && reader.unknown(e) == EncodeFields(fs)
    ensures LegacyState(reader, e).Some? <==> SomeState(reader, fs)
    ensures LegacyState(reader, e).Some? ==> Carries(fs, reader.parse, reader.typeUrl, LegacyState(reader, e).value)
  {
    if LegacyState(reader, e).Some? { SelectedIff(fs, reader.parse, reader.typeUrl, LegacyState(reader, e).value); }
    if SomeState(reader, fs) {
      var s: S :| Carries(fs, reader.parse, reader.typeUrl, s);
      SelectedIff(fs, reader.parse, reader.typeUrl, s);
    }
  }

  /** The choice in terms of the events' fields: nothing exactly when no event's first
      length-delimited field 5 is a state with a type URL; otherwise such an event and
      that state, with no such event after it in sequence, nor before it in the list at
      the same sequence. */
  lemma ChoiceInFields<S(!new)>(reader: Reader<S>, events: seq<Record>, fields: seq<seq<Field>>,
                                best: Option<(Record, S)>)
    requires HaveFields(reader, events, fields) && IsChoice(reader, events, best)
    ensures best.None? <==> forall k :: 0 <= k < |fields| ==> !SomeState(reader, fields[k])
    ensures best.Some? ==>
            exists i :: && 0 <= i < |events| && best.value.0 == events[i]
                        && Carries(fields[i], reader.parse, reader.typeUrl, best.value.1)
                        && (forall k :: 0 <= k < |events| && SomeState(reader, fields[k]) ==>
                            events[k].pos <= events[i].pos)
                        && (forall k :: 0 <= k < i && SomeState(reader, fields[k]) ==> events[k].pos < events[i].pos)
  {
    forall k | 0 <= k < |events|
      ensures LegacyState(reader, events[k]).Some? <==> SomeState(reader, fields[k])
      ensures LegacyState(reader, events[k]).Some? ==>
              Carries(fields[k], reader.parse, reader.typeUrl, LegacyState(reader, events[k]).value)
    {
      StateIff(reader, events[k], fields[k]);
    }
  }
}
