/** The scope a record belongs to, a write's precondition, and the text grammar
    of the conflict error that names both. */
module Conflict {
  import opened GoText
  import opened Quoting
  import Tenancy

  datatype Scope = Unspecified | Unscoped | Tenant(id: GoString)

  predicate ValidScope(s: Scope) {
    match s
    case Unspecified => false
    case Unscoped => true
    case Tenant(id) => Tenancy.ValidId(id)
  }

  /** A scope value Go code can hold: only NewTenantScope builds a tenant scope. */
  predicate Reachable(s: Scope) {
    s.Tenant? ==> Tenancy.ValidId(s.id)
  }

  /** The effective identity of a persisted aggregate. */
  datatype Key = Key(scope: Scope, pid: GoString)

  datatype Precondition = Undeclared | Unconditional | Genesis | Exact(revision: U64)

  datatype ConflictError = ConflictError(scope: Scope, pid: GoString, expected: Precondition, actual: Option<U64>)

  const PREFIX := Ascii("ego: concurrency conflict: grammar=v1, scope=")
  const TENANT_TOKEN := Ascii("tenant:")
  const UNSCOPED_TOKEN := Ascii("unscoped")
  const UNSPECIFIED_TOKEN := Ascii("unspecified")
  const PID_FIELD := Ascii(", persistence_id=")
  const EXPECTED_FIELD := Ascii(", expected=")
  const ACTUAL_FIELD := Ascii(", actual=")
  const UNKNOWN_TOKEN := Ascii("unknown")
  const UNCONDITIONAL_TOKEN := Ascii("unconditional")
  const GENESIS_TOKEN := Ascii("genesis")

  // ------------------------------------------------------------- printing

  function ScopeText(table: PrintTable, s: Scope): GoString {
    match s
    case Unspecified => UNSPECIFIED_TOKEN
    case Unscoped => UNSCOPED_TOKEN
    case Tenant(id) => TENANT_TOKEN + Quote(table, id)
  }

  function PreconditionText(p: Precondition): GoString {
    match p
    case Undeclared => UNSPECIFIED_TOKEN
    case Unconditional => UNCONDITIONAL_TOKEN
    case Genesis => GENESIS_TOKEN
    case Exact(revision) => FormatUint(revision)
  }

  function ActualText(actual: Option<U64>): GoString {
    match actual
    case None => UNKNOWN_TOKEN
    case Some(revision) => FormatUint(revision)
  }

  /** (*ConflictError).Error */
  function Print(table: PrintTable, e: ConflictError): GoString {
    PREFIX + (ScopeText(table, e.scope) + (PID_FIELD + (Quote(table, e.pid) +
      (EXPECTED_FIELD + (PreconditionText(e.expected) + ACTUAL_FIELD + ActualText(e.actual))))))
  }

  // -------------------------------------------------------------- parsing

  function ParseCanonicalUint(token: GoString): Option<U64> {
    match ParseUint(token)
    case None => None
    case Some(v) => if FormatUint(v) == token then Some(v) else None
  }

  function ParsePrecondition(token: GoString): Option<Precondition> {
    if token == UNCONDITIONAL_TOKEN then Some(Unconditional)
    else if token == GENESIS_TOKEN then Some(Genesis)
    else
      match ParseCanonicalUint(token)
      case None => None
      case Some(v) => Some(Exact(v))
  }

  function CutScope(table: PrintTable, s: GoString): Option<(Scope, GoString)> {
    match CutPrefix(s, UNSCOPED_TOKEN)
    case Some(rest) => Some((Unscoped, rest))
    case None =>
      match CutPrefix(s, TENANT_TOKEN)
      case None => None
      case Some(quoted) =>
        match CutQuoted(table, quoted)
        case None => None
        case Some(l) => if Tenancy.ValidId(l.value) then Some((Tenant(l.value), l.rest)) else None
  }

  /** The expected and actual fields behind the persistence id. */
  function ParseTail(scope: Scope, pid: GoString, s: GoString): Option<ConflictError> {
    match CutPrefix(s, EXPECTED_FIELD)
    case None => None
    case Some(fields) =>
      match Cut(fields, ACTUAL_FIELD)
      case None => None
      case Some((expectedPart, actualPart)) =>
        match ParsePrecondition(expectedPart)
        case None => None
        case Some(expected) =>
          if actualPart == UNKNOWN_TOKEN then Some(ConflictError(scope, pid, expected, None))
          else
            match ParseCanonicalUint(actualPart)
            case None => None
            case Some(actual) => Some(ConflictError(scope, pid, expected, Some(actual)))
  }

  /** ParseConflictError */
  function Parse(table: PrintTable, message: GoString): Option<ConflictError> {
    match CutPrefix(message, PREFIX)
    case None => None
    case Some(afterPrefix) =>
      match CutScope(table, afterPrefix)
      case None => None
      case Some((scope, afterScope)) =>
        match CutPrefix(afterScope, PID_FIELD)
        case None => None
        case Some(quotedPid) =>
          match CutQuoted(table, quotedPid)
          case None => None
          case Some(l) => ParseTail(scope, l.value, l.rest)
  }

  // --------------------------------------------------------------- proofs

  lemma CutPrefixOfConcat(prefix: GoString, rest: GoString)
    ensures CutPrefix(prefix + rest, prefix) == Some(rest)
  {
    assert (prefix + rest)[|prefix|..] == rest;
  }

  /** Words and numbers differ in their first byte. */
  lemma TokenHeads()
    ensures UNSCOPED_TOKEN[0] == UNSPECIFIED_TOKEN[0] == UNKNOWN_TOKEN[0] == UNCONDITIONAL_TOKEN[0] == 117
    ensures UNSCOPED_TOKEN[2] == 115 && UNSPECIFIED_TOKEN[2] == 115 && UNSPECIFIED_TOKEN[3] == 112
            && UNSCOPED_TOKEN[3] == 99
    ensures TENANT_TOKEN[0] == 116 && GENESIS_TOKEN[0] == 103
    ensures |UNSPECIFIED_TOKEN| == 11 && |UNCONDITIONAL_TOKEN| == 13 && |UNSCOPED_TOKEN| == 8 && |UNKNOWN_TOKEN| == 7
    ensures ACTUAL_FIELD != [] && ACTUAL_FIELD[0] == 44
  {
  }

  lemma NumberTokens(n: U64)
    ensures ParseCanonicalUint(FormatUint(n)) == Some(n)
    ensures FormatUint(n) != UNKNOWN_TOKEN && FormatUint(n) != UNCONDITIONAL_TOKEN && FormatUint(n) != GENESIS_TOKEN
  {
    TokenHeads();
    ParseFormat(n);
    assert IsDigit(FormatUint(n)[0]);
  }

  lemma CutScopeInverts(table: PrintTable, s: Scope, rest: GoString)
    requires ValidScope(s)
    ensures CutScope(table, ScopeText(table, s) + rest) == Some((s, rest))
  {
    TokenHeads();
    match s
    case Unscoped => CutPrefixOfConcat(UNSCOPED_TOKEN, rest);
    case Tenant(id) =>
      var text := ScopeText(table, s) + rest;
      assert text == TENANT_TOKEN + (Quote(table, id) + rest);
      assert text[0] == 116;
      CutPrefixOfConcat(TENANT_TOKEN, Quote(table, id) + rest);
      CutQuotedInverts(table, id, rest);
  }

  lemma NoCommaInPrecondition(p: Precondition)
    ensures 44 !in PreconditionText(p)
  {
    match p
    case Exact(n) =>
      assert forall i :: 0 <= i < |FormatUint(n)| ==> IsDigit(FormatUint(n)[i]);
    case _ =>
  }

  lemma ParseTailInverts(scope: Scope, pid: GoString, expected: Precondition, actual: Option<U64>)
    ensures ParseTail(scope, pid, EXPECTED_FIELD + (PreconditionText(expected) + ACTUAL_FIELD + ActualText(actual)))
         == if expected == Undeclared then None else Some(ConflictError(scope, pid, expected, actual))
  {
    TokenHeads();
    var fields := PreconditionText(expected) + ACTUAL_FIELD + ActualText(actual);
    CutPrefixOfConcat(EXPECTED_FIELD, fields);
    NoCommaInPrecondition(expected);
    CutAtFreshSeparator(PreconditionText(expected), ACTUAL_FIELD, ActualText(actual));
    if expected.Exact? { NumberTokens(expected.revision); }
    if actual.Some? { NumberTokens(actual.value); }
    if expected == Undeclared { assert !IsDigit(UNSPECIFIED_TOKEN[0]); }
  }

  /** Printing and parsing: the text is read back exactly when both the scope
      and the precondition were declared. */
  lemma ParsePrint(table: PrintTable, e: ConflictError)
    requires Reachable(e.scope)
    ensures Parse(table, Print(table, e)) == if e.scope == Unspecified || e.expected == Undeclared then None
            else Some(e)
  {
    var tail := EXPECTED_FIELD + (PreconditionText(e.expected) + ACTUAL_FIELD + ActualText(e.actual));
    var afterScope := PID_FIELD + (Quote(table, e.pid) + tail);
    CutPrefixOfConcat(PREFIX, ScopeText(table, e.scope) + afterScope);
    if e.scope == Unspecified {
      TokenHeads();
      var text := UNSPECIFIED_TOKEN + afterScope;
      assert text[0] == 117 && text[3] == 112;
      assert CutScope(table, text) == None;
    } else {
      CutScopeInverts(table, e.scope, afterScope);
      CutPrefixOfConcat(PID_FIELD, Quote(table, e.pid) + tail);
      CutQuotedInverts(table, e.pid, tail);
      ParseTailInverts(e.scope, e.pid, e.expected, e.actual);
    }
  }

  lemma CutScopeIsCanonical(table: PrintTable, s: GoString)
    ensures CutScope(table, s).Some? ==>
              var (scope, rest) := CutScope(table, s).value;
              ValidScope(scope) && s == ScopeText(table, scope) + rest
  {
    if CutScope(table, s).Some? && CutPrefix(s, UNSCOPED_TOKEN).None? {
      var quoted := CutPrefix(s, TENANT_TOKEN).value;
      CutQuotedIsCanonical(table, quoted);
      var l := CutQuoted(table, quoted).value;
      assert s == TENANT_TOKEN + (Quote(table, l.value) + l.rest) == (TENANT_TOKEN + Quote(table, l.value)) + l.rest;
    }
  }

  lemma ParseTailIsCanonical(scope: Scope, pid: GoString, s: GoString)
    ensures ParseTail(scope, pid, s).Some? ==>
              var e := ParseTail(scope, pid, s).value;
              && e.scope == scope && e.pid == pid && e.expected != Undeclared
              && s == EXPECTED_FIELD + (PreconditionText(e.expected) + ACTUAL_FIELD + ActualText(e.actual))
  {
  }

  /** Every accepted message is the one rendering of the error it yields, and
      that error always has a valid scope and a declared precondition. */
  lemma PrintParse(table: PrintTable, message: GoString)
    ensures Parse(table, message).Some? ==>
              var e := Parse(table, message).value;
              ValidScope(e.scope) && e.expected != Undeclared && Print(table, e) == message
  {
    if Parse(table, message).Some? {
      var afterPrefix := CutPrefix(message, PREFIX).value;
      var (scope, afterScope) := CutScope(table, afterPrefix).value;
      var quotedPid := CutPrefix(afterScope, PID_FIELD).value;
      var l := CutQuoted(table, quotedPid).value;
      CutScopeIsCanonical(table, afterPrefix);
      CutQuotedIsCanonical(table, quotedPid);
      ParseTailIsCanonical(scope, l.value, l.rest);
    }
  }
}
