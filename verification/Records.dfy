/** The records an adoption moves, ordered by position, and the receipts it
    stamps on them. */
module Records {
  import opened GoText
  import opened Quoting
  import opened Conflict
  import Tenancy

  /** An event, snapshot or durable state: `pos` is its sequence or version
      number, `meta` its tenant_metadata, `body` every other field. */
  datatype Record = Record(pid: GoString, pos: U64, body: GoString, meta: Tenancy.Metadata)

  // -------------------------------------------------------------- ordering

  lemma {:induction false} MaxWitness(s: set<U64>) returns (m: U64)
    requires s != {}
    ensures m in s && forall x :: x in s ==> x <= m
  {
    m :| m in s;
    var rest := s - {m};
    assert s == rest + {m};
    if rest != {} {
      var n := MaxWitness(rest);
      m := if m < n then n else m;
    }
  }

  lemma HasMax(s: set<U64>)
    requires s != {}
    ensures exists m :: m in s && forall x :: x in s ==> x <= m
  {
    var m := MaxWitness(s);
  }

  function MaxOf(s: set<U64>): (m: U64)
    requires s != {}
    ensures m in s && forall x :: x in s ==> x <= m
  {
    HasMax(s);
    var m :| m in s && forall x :: x in s ==> x <= m;
    m
  }

  predicate StrictlyAscending(q: seq<U64>) {
    forall i, j :: 0 <= i < j < |q| ==> q[i] < q[j]
  }

  /** The positions of s in increasing order. */
  function Sorted(s: set<U64>): (q: seq<U64>)
    ensures StrictlyAscending(q) && |q| == |s|
    ensures forall x :: x in q <==> x in s
  {
    if s == {} then []
    else
      var m := MaxOf(s);
      Sorted(s - {m}) + [m]
  }

  function Below(s: set<U64>, p: U64): set<U64> {
    set x | x in s && x < p
  }

  /** The greatest element of s below p, or 0. */
  function Predecessor(s: set<U64>, p: U64): U64 {
    if Below(s, p) == {} then 0 else MaxOf(Below(s, p))
  }

  lemma PredecessorIs(s: set<U64>, p: U64, m: U64)
    requires m in s && m < p && forall x :: x in s && x < p ==> x <= m
    ensures Predecessor(s, p) == m
  {
    assert m in Below(s, p);
  }

  lemma PredecessorInOrder(s: set<U64>, i: nat)
    requires i < |s|
    ensures Predecessor(s, Sorted(s)[i]) == if i == 0 then 0 else Sorted(s)[i - 1]
  {
    var q := Sorted(s);
    forall x | x in s && x < q[i] ensures i > 0 && x <= q[i - 1] {
      assert x in q;
      BelowInOrder(q, i, x);
    }
    if i > 0 {
      assert q[i - 1] in q;
      PredecessorIs(s, q[i], q[i - 1]);
    }
  }

  /** What is below the i-th element is at most the one before. */
  lemma BelowInOrder(q: seq<U64>, i: nat, x: U64)
    requires StrictlyAscending(q) && i < |q| && x in q && x < q[i]
    ensures i > 0 && x <= q[i - 1]
  {
    var j :| 0 <= j < |q| && q[j] == x;
    assert j < i;
  }

  // -------------------------------------------------------------- receipts

  /** The digest and the deterministic record encoding, as parameters. */
  datatype Seal = Seal(table: PrintTable, encode: Record -> GoString, digest: GoString -> GoString)

  const COLON: byte := 58
  const VERSION := Ascii("v1:")
  const RECEIPT_KEY := Ascii("ego.adoption.receipt")

  /** Digests are hexadecimal text. */
  ghost predicate ColonFree(seal: Seal) {
    forall x :: COLON !in seal.digest(x)
  }

  /** An ideal seal never maps two inputs to one output. */
  ghost predicate Ideal(seal: Seal) {
    && ColonFree(seal)
    && (forall x, y :: seal.digest(x) == seal.digest(y) ==> x == y)
    && (forall a, b :: seal.encode(a) == seal.encode(b) ==> a == b)
  }

  function DigestInput(seal: Seal, scope: Scope, predecessor: Option<U64>, bare: Record): GoString {
    match predecessor
    case None => ScopeText(seal.table, scope) + [0] + seal.encode(bare)
    case Some(p) => ScopeText(seal.table, scope) + [0] + (FormatUint(p) + [0] + seal.encode(bare))
  }

  /** adoptionReceipt: `bare` carries no receipt itself. */
  function Receipt(seal: Seal, scope: Scope, predecessor: Option<U64>, bare: Record): GoString {
    var sum := seal.digest(DigestInput(seal, scope, predecessor, bare));
    match predecessor
    case None => VERSION + sum
    case Some(p) => VERSION + (FormatUint(p) + [COLON] + sum)
  }

  /** stampAdoptionReceipt */
  function Stamp(seal: Seal, scope: Scope, base: Tenancy.Metadata, predecessor: Option<U64>, r: Record): Record {
    r.(meta := base[RECEIPT_KEY := Receipt(seal, scope, predecessor, r.(meta := base))])
  }

  datatype Verdict = Unproven | Single | Chained(predecessor: U64)

  function Bare(r: Record): Record {
    r.(meta := r.meta - {RECEIPT_KEY})
  }

  /** verifyAdoptionReceipt */
  function VerifyReceipt(seal: Seal, scope: Scope, r: Record): Verdict {
    if RECEIPT_KEY !in r.meta then Unproven
    else
      match CutPrefix(r.meta[RECEIPT_KEY], VERSION)
      case None => Unproven
      case Some(text) =>
        match Cut(text, [COLON])
        case None =>
          if Receipt(seal, scope, None, Bare(r)) == r.meta[RECEIPT_KEY] then Single else Unproven
        case Some((recorded, _)) =>
          match ParseCanonicalUint(recorded)
          case None => Unproven
          case Some(p) =>
            if Receipt(seal, scope, Some(p), Bare(r)) == r.meta[RECEIPT_KEY] then Chained(p) else Unproven
  }

  lemma {:induction false} NoCut(s: GoString, b: byte)
    requires b !in s
    ensures Cut(s, [b]) == None
  {
    if s != [] {
      assert s[0] != b;
      assert !([b] <= s);
      NoCut(s[1..], b);
    }
  }

  lemma BareOfStamp(seal: Seal, scope: Scope, base: Tenancy.Metadata, predecessor: Option<U64>, r: Record)
    requires RECEIPT_KEY !in base
    ensures Bare(Stamp(seal, scope, base, predecessor, r)) == r.(meta := base)
  {
    assert base[RECEIPT_KEY := Receipt(seal, scope, predecessor, r.(meta := base))] - {RECEIPT_KEY} == base;
  }

  /** A stamped record proves itself, and names its predecessor. */
  lemma StampVerifies(seal: Seal, scope: Scope, base: Tenancy.Metadata, predecessor: Option<U64>, r: Record)
    requires ColonFree(seal) && RECEIPT_KEY !in base
    ensures VerifyReceipt(seal, scope, Stamp(seal, scope, base, predecessor, r))
         == if predecessor.None? then Single else Chained(predecessor.value)
  {
    var bare := r.(meta := base);
    BareOfStamp(seal, scope, base, predecessor, r);
    var sum := seal.digest(DigestInput(seal, scope, predecessor, bare));
    match predecessor
    case None =>
      CutPrefixOfConcat(VERSION, sum);
      NoCut(sum, COLON);
    case Some(p) =>
      CutPrefixOfConcat(VERSION, FormatUint(p) + [COLON] + sum);
      assert COLON !in FormatUint(p) by { assert forall b :: b in FormatUint(p) ==> IsDigit(b); }
      CutAtFreshSeparator(FormatUint(p), [COLON], sum);
      NumberTokens(p);
  }

  lemma ScopeTextInjective(table: PrintTable, a: Scope, b: Scope)
    requires ValidScope(a) && ValidScope(b) && ScopeText(table, a) == ScopeText(table, b)
    ensures a == b
  {
    CutScopeInverts(table, a, []);
    CutScopeInverts(table, b, []);
  }

  lemma ScopeTextHasNoNul(table: PrintTable, scope: Scope)
    ensures 0 !in ScopeText(table, scope)
  {
    match scope
    case Unspecified => assert 0 !in UNSPECIFIED_TOKEN;
    case Unscoped => assert 0 !in UNSCOPED_TOKEN;
    case Tenant(id) =>
      QuotedHasNoNul(table, id);
      assert 0 !in TENANT_TOKEN;
  }

  /** The digits of a predecessor end at the zero byte after them. */
  lemma NumberedInjective(p: U64, x: GoString, q: U64, y: GoString)
    requires FormatUint(p) + [0] + x == FormatUint(q) + [0] + y
    ensures p == q && x == y
  {
    assert forall b :: b in FormatUint(p) ==> IsDigit(b);
    assert forall b :: b in FormatUint(q) ==> IsDigit(b);
    CutAtFreshSeparator(FormatUint(p), [0], x);
    CutAtFreshSeparator(FormatUint(q), [0], y);
    ParseFormat(p);
    ParseFormat(q);
  }

  /** Scope, predecessor and record can be told apart from what is digested. */
  lemma DigestInputInjective(seal: Seal, scope: Scope, p: U64, a: Record, scope': Scope, p': U64, b: Record)
    requires Ideal(seal) && ValidScope(scope) && ValidScope(scope')
    requires DigestInput(seal, scope, Some(p), a) == DigestInput(seal, scope', Some(p'), b)
    ensures scope == scope' && p == p' && a == b
  {
    var x, y := FormatUint(p) + [0] + seal.encode(a), FormatUint(p') + [0] + seal.encode(b);
    ScopeTextHasNoNul(seal.table, scope);
    ScopeTextHasNoNul(seal.table, scope');
    assert DigestInput(seal, scope, Some(p), a) == ScopeText(seal.table, scope) + [0] + x;
    assert DigestInput(seal, scope', Some(p'), b) == ScopeText(seal.table, scope') + [0] + y;
    CutAtFreshSeparator(ScopeText(seal.table, scope), [0], x);
    CutAtFreshSeparator(ScopeText(seal.table, scope'), [0], y);
    ScopeTextInjective(seal.table, scope, scope');
    NumberedInjective(p, seal.encode(a), p', seal.encode(b));
  }

  lemma ChainedReceiptParts(p: U64, sum: GoString, q: U64, sum': GoString)
    requires VERSION + (FormatUint(p) + [COLON] + sum) == VERSION + (FormatUint(q) + [COLON] + sum')
    ensures p == q && sum == sum'
  {
    CutPrefixOfConcat(VERSION, FormatUint(p) + [COLON] + sum);
    CutPrefixOfConcat(VERSION, FormatUint(q) + [COLON] + sum');
    assert forall b :: b in FormatUint(p) ==> IsDigit(b);
    assert forall b :: b in FormatUint(q) ==> IsDigit(b);
    CutAtFreshSeparator(FormatUint(p), [COLON], sum);
    CutAtFreshSeparator(FormatUint(q), [COLON], sum');
    ParseFormat(p);
    ParseFormat(q);
  }

  /** Unforgeability: a record accepted for `scope` that bears a receipt issued
      to some event is that very stamped event, adopted from that very scope. */
  lemma ReceiptBindsRecord(seal: Seal, scope: Scope, r: Record, issuer: Scope, base: Tenancy.Metadata, p: U64,
                           s: Record)
    requires Ideal(seal) && ValidScope(scope) && ValidScope(issuer) && RECEIPT_KEY !in base
    requires VerifyReceipt(seal, scope, r).Chained?
    requires r.meta[RECEIPT_KEY] == Stamp(seal, issuer, base, Some(p), s).meta[RECEIPT_KEY]
    ensures issuer == scope && r == Stamp(seal, scope, base, Some(p), s) && VerifyReceipt(seal, scope, r) == Chained(p)
  {
    var q := VerifyReceipt(seal, scope, r).predecessor;
    var bare := s.(meta := base);
    ChainedReceiptParts(q, seal.digest(DigestInput(seal, scope, Some(q), Bare(r))),
                        p, seal.digest(DigestInput(seal, issuer, Some(p), bare)));
    DigestInputInjective(seal, scope, q, Bare(r), issuer, p, bare);
    assert r.meta == (r.meta - {RECEIPT_KEY})[RECEIPT_KEY := r.meta[RECEIPT_KEY]];
  }

  /** r bears a single receipt made out to it and this scope: the version, then the
      digest of the scope's text, a zero byte and the record without its receipt. */
  predicate BearsSingle(seal: Seal, scope: Scope, r: Record) {
    && RECEIPT_KEY in r.meta
    && var bare := r.(meta := r.meta - {RECEIPT_KEY});
       r.meta[RECEIPT_KEY] == Ascii("v1:") + seal.digest(ScopeText(seal.table, scope) + [0] + seal.encode(bare))
  }

  /** The same with a predecessor, before the digest and in what is digested. */
  predicate BearsChained(seal: Seal, scope: Scope, p: U64, r: Record) {
    && RECEIPT_KEY in r.meta
    && var bare := r.(meta := r.meta - {RECEIPT_KEY});
       var input := ScopeText(seal.table, scope) + [0] + (FormatUint(p) + [0] + seal.encode(bare));
       r.meta[RECEIPT_KEY] == Ascii("v1:") + (FormatUint(p) + Ascii(":") + seal.digest(input))
  }

  lemma Restamped(seal: Seal, scope: Scope, predecessor: Option<U64>, r: Record)
    requires RECEIPT_KEY in r.meta && r.meta[RECEIPT_KEY] == Receipt(seal, scope, predecessor, Bare(r))
    ensures r == Stamp(seal, scope, r.meta - {RECEIPT_KEY}, predecessor, r)
  {
    assert r.meta == (r.meta - {RECEIPT_KEY})[RECEIPT_KEY := r.meta[RECEIPT_KEY]];
  }

  /** A receipt is accepted exactly when it is made out to this record and scope. */
  lemma VerdictIff(seal: Seal, scope: Scope, r: Record)
    requires ColonFree(seal)
    ensures VerifyReceipt(seal, scope, r) == Single <==> BearsSingle(seal, scope, r)
    ensures forall p :: VerifyReceipt(seal, scope, r) == Chained(p) <==> BearsChained(seal, scope, p, r)
  {
    assert Ascii(":") == [COLON];
    if BearsSingle(seal, scope, r) {
      Restamped(seal, scope, None, r);
      StampVerifies(seal, scope, r.meta - {RECEIPT_KEY}, None, r);
    }
    forall p | BearsChained(seal, scope, p, r) ensures VerifyReceipt(seal, scope, r) == Chained(p) {
      Restamped(seal, scope, Some(p), r);
      StampVerifies(seal, scope, r.meta - {RECEIPT_KEY}, Some(p), r);
    }
  }

  lemma SingleInputInjective(seal: Seal, scope: Scope, a: Record, scope': Scope, b: Record)
    requires Ideal(seal) && ValidScope(scope) && ValidScope(scope')
    requires DigestInput(seal, scope, None, a) == DigestInput(seal, scope', None, b)
    ensures scope == scope' && a == b
  {
    ScopeTextHasNoNul(seal.table, scope);
    ScopeTextHasNoNul(seal.table, scope');
    CutAtFreshSeparator(ScopeText(seal.table, scope), [0], seal.encode(a));
    CutAtFreshSeparator(ScopeText(seal.table, scope'), [0], seal.encode(b));
    ScopeTextInjective(seal.table, scope, scope');
  }

  lemma SingleReceiptParts(sum: GoString, sum': GoString)
    requires VERSION + sum == VERSION + sum'
    ensures sum == sum'
  {
    CutPrefixOfConcat(VERSION, sum);
    CutPrefixOfConcat(VERSION, sum');
  }

  /** The receipt of a stamped snapshot or state is accepted on that very record from
      that very scope, and on no other: another body, position, id, metadata or scope
      proves nothing. */
  lemma SingleReceiptBinds(seal: Seal, scope: Scope, r: Record, issuer: Scope, base: Tenancy.Metadata, s: Record)
    requires Ideal(seal) && ValidScope(scope) && ValidScope(issuer) && RECEIPT_KEY !in base && RECEIPT_KEY in r.meta
    requires r.meta[RECEIPT_KEY] == Stamp(seal, issuer, base, None, s).meta[RECEIPT_KEY]
    ensures VerifyReceipt(seal, scope, r)
         == if issuer == scope && r == Stamp(seal, scope, base, None, s) then Single else Unproven
  {
    var bare := s.(meta := base);
    var sum := seal.digest(DigestInput(seal, issuer, None, bare));
    CutPrefixOfConcat(VERSION, sum);
    NoCut(sum, COLON);
    if Receipt(seal, scope, None, Bare(r)) == r.meta[RECEIPT_KEY] {
      SingleReceiptParts(seal.digest(DigestInput(seal, scope, None, Bare(r))), sum);
      SingleInputInjective(seal, scope, Bare(r), issuer, bare);
      Restamped(seal, scope, None, r);
    } else if issuer == scope && r == Stamp(seal, scope, base, None, s) {
      BareOfStamp(seal, scope, base, None, s);
    }
  }
}
