/** Command metadata: its construction by options, and derivation of a child
    operation's metadata from its parent's. */
module Command {
  import opened GoText
  import opened Utf8
  import Tenancy

  type Instant = int

  datatype Principal = Principal(id: GoString, kind: Option<GoString>)

  datatype Metadata = Metadata(
    operation: GoString,
    correlation: GoString,
    causation: Option<GoString>,
    tenant: Option<Tenancy.TenantContext>,
    principal: Option<Principal>,
    custom: map<GoString, GoString>,
    timestamp: Instant,
    deadline: Option<Instant>,
    revision: Option<U64>)

  datatype Error =
    InvalidMetadata | InvalidPrincipal | ReservedKey | InvalidTenant | Denied | SameOperation | DeadlineExtension

  datatype Result<T> = Ok(value: T) | Err(error: Error)

  // ------------------------------------------------------- custom metadata

  const MAX_VALUE_BYTES := 1024

  const RESERVED_KEYS := {
    Ascii("operation_id"), Ascii("correlation_id"), Ascii("causation_id"), Ascii("timestamp"), Ascii("deadline"),
    Ascii("principal_id"), Ascii("principal_kind"), Ascii("tenant"), Ascii("expected_revision")}

  predicate ValidCustomKey(k: GoString) {
    !(Tenancy.RESERVED_PREFIX <= k) && k !in RESERVED_KEYS && Tenancy.ValidId(k)
  }

  predicate ValidCustomValue(v: GoString) {
    ValidString(v) && |v| <= MAX_VALUE_BYTES && forall i :: 0 <= i < |Runes(v)| ==> !IsControl(Runes(v)[i])
  }

  /** What WithCustom rejects a pair with. */
  function CustomError(k: GoString, v: GoString): Option<Error> {
    if !ValidCustomKey(k) then Some(ReservedKey)
    else if !ValidCustomValue(v) then Some(InvalidMetadata)
    else None
  }

  // ------------------------------------------------------------ construction

  datatype MetadataOption =
    | WithCorrelation(id: GoString)
    | WithTenant(tenant: Tenancy.TenantContext)
    | WithPrincipal(principal: Principal)
    | WithCustom(key: GoString, value: GoString)
    | WithTimestamp(at: Instant)
    | WithDeadline(at: Instant)
    | WithExpectedRevision(revision: U64)

  function Apply(m: Metadata, o: MetadataOption): Result<Metadata> {
    match o
    case WithCorrelation(id) => Ok(m.(correlation := id))
    case WithTenant(tenant) => Ok(m.(tenant := Some(tenant)))
    case WithPrincipal(p) => Ok(m.(principal := Some(p)))
    case WithCustom(k, v) =>
      if CustomError(k, v).Some? then Err(CustomError(k, v).value) else Ok(m.(custom := m.custom[k := v]))
    case WithTimestamp(at) => Ok(m.(timestamp := at))
    case WithDeadline(at) => Ok(m.(deadline := Some(at)))
    case WithExpectedRevision(r) => Ok(m.(revision := Some(r)))
  }

  /** Options in order; the first error is final. */
  function ApplyAll(m: Metadata, opts: seq<MetadataOption>): Result<Metadata>
    decreases |opts|
  {
    if opts == [] then Ok(m)
    else
      var r := Apply(m, opts[0]);
      if r.Err? then r else ApplyAll(r.value, opts[1..])
  }

  lemma {:induction false} ApplyAllConcat(m: Metadata, a: seq<MetadataOption>, b: seq<MetadataOption>)
    ensures ApplyAll(m, a + b) == var r := ApplyAll(m, a); if r.Err? then r else ApplyAll(r.value, b)
    decreases |a|
  {
    if a == [] {
      assert a + b == b;
    } else {
      var r := Apply(m, a[0]);
      assert (a + b)[1..] == a[1..] + b;
      if r.Ok? { ApplyAllConcat(r.value, a[1..], b); }
    }
  }

  /** One option at a time, in list order. */
  lemma ApplyOne(m: Metadata, a: seq<MetadataOption>, o: MetadataOption)
    requires ApplyAll(m, a).Ok?
    ensures ApplyAll(m, a + [o]) == Apply(ApplyAll(m, a).value, o)
  {
    ApplyAllConcat(m, a, [o]);
    assert [o][1..] == [];
  }

  function Root(op: GoString, now: Instant): Metadata {
    Metadata(op, op, None, None, None, map[], now, None, None)
  }

  method RunOptions(start: Metadata, opts: seq<MetadataOption>) returns (r: Result<Metadata>)
    ensures r == ApplyAll(start, opts)
  {
    var m := start;
    for i := 0 to |opts|
      invariant ApplyAll(start, opts) == ApplyAll(m, opts[i..])
    {
      var next := Apply(m, opts[i]);
      assert opts[i..][1..] == opts[i + 1..];
      if next.Err? { return next; }
      m := next.value;
    }
    r := Ok(m);
  }

  /** What the validating constructors guarantee: of an operation id parsed from
      text, a tenant context and a principal made by their constructors, and custom
      pairs given as options. */
  predicate WellConstructed(m: Metadata) {
    && Tenancy.ValidId(m.operation)
    && (m.tenant.Some? ==> Tenancy.Constructed(m.tenant.value))
    && (m.principal.Some? ==> m.principal.value.id != [])
    && (forall k :: k in m.custom ==> ValidCustomKey(k) && ValidCustomValue(m.custom[k]))
  }

  /** The custom pairs all pass WithCustom. */
  predicate GovernedCustom(m: Metadata) {
    forall k :: k in m.custom ==> CustomError(k, m.custom[k]) == None
  }

  /** What no option undoes. */
  predicate Keeps(m: Metadata, r: Metadata) {
    && r.operation == m.operation && r.causation == m.causation
    && (m.tenant.Some? ==> r.tenant.Some?) && (m.deadline.Some? ==> r.deadline.Some?)
    && (GovernedCustom(m) ==> GovernedCustom(r))
  }

  lemma OptionKeeps(m: Metadata, o: MetadataOption)
    requires Apply(m, o).Ok?
    ensures Keeps(m, Apply(m, o).value)
  {
  }

  /** The last tenant given. */
  function LastTenant(opts: seq<MetadataOption>): Option<Tenancy.TenantContext> {
    if opts == [] then None
    else
      var last := opts[|opts| - 1];
      if last.WithTenant? then Some(last.tenant) else LastTenant(opts[..|opts| - 1])
  }

  /** The last principal given. */
  function LastPrincipal(opts: seq<MetadataOption>): Option<Principal> {
    if opts == [] then None
    else
      var last := opts[|opts| - 1];
      if last.WithPrincipal? then Some(last.principal) else LastPrincipal(opts[..|opts| - 1])
  }

  predicate CustomPass(opts: seq<MetadataOption>) {
    forall i :: 0 <= i < |opts| && opts[i].WithCustom? ==> CustomError(opts[i].key, opts[i].value) == None
  }

  /** The options only fail on a custom pair, and the last tenant and the last
      principal stand. */
  predicate Decided(op: GoString, opts: seq<MetadataOption>, r: Result<Metadata>) {
    && (r.Ok? <==> CustomPass(opts))
    && (r.Ok? ==> && r.value.operation == op && GovernedCustom(r.value)
                  && r.value.tenant == LastTenant(opts) && r.value.principal == LastPrincipal(opts))
  }

  lemma CustomPassSplits(front: seq<MetadataOption>, last: MetadataOption)
    ensures CustomPass(front + [last]) <==>
            CustomPass(front) && (last.WithCustom? ==> CustomError(last.key, last.value) == None)
  {
    var opts := front + [last];
    assert opts[|front|] == last && forall i :: 0 <= i < |front| ==> opts[i] == front[i];
  }

  lemma OneMoreDecides(op: GoString, front: seq<MetadataOption>, last: MetadataOption, m: Metadata)
    requires Decided(op, front, Ok(m))
    ensures Decided(op, front + [last], Apply(m, last))
  {
    CustomPassSplits(front, last);
    assert (front + [last])[..|front|] == front;
    if Apply(m, last).Ok? { OptionKeeps(m, last); }
  }

  lemma {:induction false} OptionsDecide(op: GoString, now: Instant, opts: seq<MetadataOption>)
    ensures Decided(op, opts, ApplyAll(Root(op, now), opts))
    decreases |opts|
  {
    if opts != [] {
      var front, last := opts[..|opts| - 1], opts[|opts| - 1];
      assert opts == front + [last];
      OptionsDecide(op, now, front);
      var r := ApplyAll(Root(op, now), front);
      if r.Ok? {
        ApplyOne(Root(op, now), front, last);
        OneMoreDecides(op, front, last, r.value);
      } else {
        ApplyAllConcat(Root(op, now), front, [last]);
        CustomPassSplits(front, last);
      }
    }
  }

  /** NewMetadata checks custom pairs only: its value is well constructed exactly
      when the operation id is valid and the last tenant and the last principal
      given came from their constructors. */
  lemma WellConstructedIff(op: GoString, now: Instant, opts: seq<MetadataOption>)
    requires ApplyAll(Root(op, now), opts).Ok?
    ensures WellConstructed(ApplyAll(Root(op, now), opts).value) <==>
            && Tenancy.ValidId(op)
            && (LastTenant(opts).Some? ==> Tenancy.Constructed(LastTenant(opts).value))
            && (LastPrincipal(opts).Some? ==> LastPrincipal(opts).value.id != [])
  {
    OptionsDecide(op, now, opts);
    var m := ApplyAll(Root(op, now), opts).value;
    forall k | k in m.custom ensures ValidCustomKey(k) && ValidCustomValue(m.custom[k]) {
      assert CustomError(k, m.custom[k]) == None;
    }
  }

  // --------------------------------------------------------------- derivation

  function Child(m: Metadata, op: GoString, now: Instant): Metadata {
    Metadata(op, m.correlation, Some(m.operation), m.tenant, m.principal, map[], now, m.deadline, None)
  }

  /** Metadata.Derive */
  function Derive(m: Metadata, op: GoString, now: Instant, opts: seq<MetadataOption>): Result<Metadata> {
    if op == m.operation then Err(SameOperation)
    else
      var r := ApplyAll(Child(m, op, now), opts);
      if r.Err? then r
      else if r.value.tenant.Some? && m.tenant.Some? && r.value.tenant != m.tenant then Err(Denied)
      else if r.value.deadline.Some? && m.deadline.Some? && r.value.deadline.value > m.deadline.value then
        Err(DeadlineExtension)
      else r
  }

  /** Options touch neither operation nor causation, never take a tenant or a
      deadline away, and only add custom pairs that pass. */
  lemma {:induction false} OptionsKeep(m: Metadata, opts: seq<MetadataOption>)
    requires ApplyAll(m, opts).Ok?
    ensures Keeps(m, ApplyAll(m, opts).value)
    decreases |opts|
  {
    if opts != [] {
      OptionKeeps(m, opts[0]);
      OptionsKeep(Apply(m, opts[0]).value, opts[1..]);
    }
  }

  /** The last correlation given. */
  function LastCorrelation(opts: seq<MetadataOption>): Option<GoString> {
    if opts == [] then None
    else
      var last := opts[|opts| - 1];
      if last.WithCorrelation? then Some(last.id) else LastCorrelation(opts[..|opts| - 1])
  }

  /** The last correlation given stands, and without one the one before. */
  lemma {:induction false} CorrelationDecided(m: Metadata, opts: seq<MetadataOption>)
    requires ApplyAll(m, opts).Ok?
    ensures ApplyAll(m, opts).value.correlation == LastCorrelation(opts).UnwrapOr(m.correlation)
    decreases |opts|
  {
    if opts != [] {
      var front, last := opts[..|opts| - 1], opts[|opts| - 1];
      assert opts == front + [last];
      ApplyAllConcat(m, front, [last]);
      CorrelationDecided(m, front);
      ApplyOne(m, front, last);
    }
  }

  /** The last deadline given. */
  function LastDeadline(opts: seq<MetadataOption>): Option<Instant> {
    if opts == [] then None
    else
      var last := opts[|opts| - 1];
      if last.WithDeadline? then Some(last.at) else LastDeadline(opts[..|opts| - 1])
  }

  /** The last timestamp given. */
  function LastTimestamp(opts: seq<MetadataOption>): Option<Instant> {
    if opts == [] then None
    else
      var last := opts[|opts| - 1];
      if last.WithTimestamp? then Some(last.at) else LastTimestamp(opts[..|opts| - 1])
  }

  /** The last expected revision given. */
  function LastRevision(opts: seq<MetadataOption>): Option<U64> {
    if opts == [] then None
    else
      var last := opts[|opts| - 1];
      if last.WithExpectedRevision? then Some(last.revision) else LastRevision(opts[..|opts| - 1])
  }

  /** The custom pairs given, the last value of each key. */
  function CustomGiven(opts: seq<MetadataOption>): map<GoString, GoString> {
    if opts == [] then map[]
    else
      var before, last := CustomGiven(opts[..|opts| - 1]), opts[|opts| - 1];
      if last.WithCustom? then before[last.key := last.value] else before
  }

  function Or<T>(given: Option<T>, before: Option<T>): Option<T> {
    if given.Some? then given else before
  }

  /** r is m with the last value given of everything, and fails exactly on a custom
      pair that does not pass. */
  ghost predicate LastStand(m: Metadata, opts: seq<MetadataOption>, r: Result<Metadata>) {
    && (r.Ok? <==> CustomPass(opts))
    && (r.Ok? ==> r.value == Metadata(m.operation, LastCorrelation(opts).UnwrapOr(m.correlation), m.causation,
                                      Or(LastTenant(opts), m.tenant), Or(LastPrincipal(opts), m.principal),
                                      m.custom + CustomGiven(opts), LastTimestamp(opts).UnwrapOr(m.timestamp),
                                      Or(LastDeadline(opts), m.deadline), Or(LastRevision(opts), m.revision)))
  }

  lemma OneMoreStands(m: Metadata, front: seq<MetadataOption>, last: MetadataOption, r: Result<Metadata>)
    requires r.Ok? && LastStand(m, front, r)
    ensures LastStand(m, front + [last], Apply(r.value, last))
  {
    CustomPassSplits(front, last);
    assert (front + [last])[..|front|] == front;
    if last.WithCustom? {
      var c := CustomGiven(front);
      assert (m.custom + c)[last.key := last.value] == m.custom + c[last.key := last.value];
    }
  }

  /** What any list of options comes to, from any start. */
  lemma {:induction false} LastOptionsStand(m: Metadata, opts: seq<MetadataOption>)
    ensures LastStand(m, opts, ApplyAll(m, opts))
    decreases |opts|
  {
    if opts == [] {
      assert m.custom + map[] == m.custom;
    } else {
      var front, last := opts[..|opts| - 1], opts[|opts| - 1];
      assert opts == front + [last];
      LastOptionsStand(m, front);
      var r := ApplyAll(m, front);
      if r.Ok? {
        ApplyOne(m, front, last);
        OneMoreStands(m, front, last, r);
      } else {
        ApplyAllConcat(m, front, [last]);
        CustomPassSplits(front, last);
      }
    }
  }

  /** NewMetadata: the flow defaults to the operation and the timestamp to now; there is
      no causation, and everything else is only as given. */
  method NewMetadata(op: GoString, now: Instant, opts: seq<MetadataOption>) returns (r: Result<Metadata>)
    ensures r == ApplyAll(Root(op, now), opts)
    ensures r.Ok? <==> CustomPass(opts)
    ensures r.Ok? ==>
            r.value == Metadata(op, LastCorrelation(opts).UnwrapOr(op), None, LastTenant(opts), LastPrincipal(opts),
                                CustomGiven(opts), LastTimestamp(opts).UnwrapOr(now), LastDeadline(opts),
                                LastRevision(opts))
  {
    LastOptionsStand(Root(op, now), opts);
    assert map[] + CustomGiven(opts) == CustomGiven(opts);
    r := RunOptions(Root(op, now), opts);
  }

  /** Exactly when a derivation succeeds: another operation, custom pairs that pass, no
      tenant but the parent's, no deadline past the parent's. */
  lemma DeriveIff(m: Metadata, op: GoString, now: Instant, opts: seq<MetadataOption>)
    ensures Derive(m, op, now, opts).Ok? <==>
            && op != m.operation && CustomPass(opts)
            && (m.tenant.Some? && LastTenant(opts).Some? ==> LastTenant(opts) == m.tenant)
            && (m.deadline.Some? && LastDeadline(opts).Some? ==> LastDeadline(opts).value <= m.deadline.value)
    ensures op == m.operation <==> Derive(m, op, now, opts) == Err(SameOperation)
  {
    LastOptionsStand(Child(m, op, now), opts);
    OnlyCustomErrors(Child(m, op, now), opts);
  }

  lemma {:induction false} OnlyCustomErrors(m: Metadata, opts: seq<MetadataOption>)
    ensures ApplyAll(m, opts).Err? ==> ApplyAll(m, opts).error in {ReservedKey, InvalidMetadata}
    decreases |opts|
  {
    if opts != [] && Apply(m, opts[0]).Ok? { OnlyCustomErrors(Apply(m, opts[0]).value, opts[1..]); }
  }

  /** What a successful derivation yields, field by field: the operation asked for,
      caused by the parent's; flow, tenant, principal and deadline the last given or
      else the parent's; timestamp the last given or else now; revision and custom
      pairs only as given. */
  lemma DerivedFields(m: Metadata, op: GoString, now: Instant, opts: seq<MetadataOption>)
    requires Derive(m, op, now, opts).Ok?
    ensures Derive(m, op, now, opts).value
         == Metadata(op, LastCorrelation(opts).UnwrapOr(m.correlation), Some(m.operation),
                     Or(LastTenant(opts), m.tenant), Or(LastPrincipal(opts), m.principal), CustomGiven(opts),
                     LastTimestamp(opts).UnwrapOr(now), Or(LastDeadline(opts), m.deadline), LastRevision(opts))
  {
    LastOptionsStand(Child(m, op, now), opts);
    assert map[] + CustomGiven(opts) == CustomGiven(opts);
  }

  /** child is derived from parent with these options. */
  ghost predicate Derived(parent: Metadata, child: Metadata, opts: seq<MetadataOption>) {
    exists op: GoString, now: Instant :: Derive(parent, op, now, opts) == Ok(child)
  }

  /** Whatever the options, causation is the parent's operation, a tenant cannot be
      switched or dropped, a deadline cannot be extended or dropped, and custom pairs
      are not inherited unchecked; principal and deadline are the last given or else
      the parent's. The correlation is the parent's exactly when no
      correlation is given or the last one given is the parent's. */
  lemma DerivedKeeps(parent: Metadata, child: Metadata, opts: seq<MetadataOption>)
    requires Derived(parent, child, opts)
    ensures child.causation == Some(parent.operation) && child.operation != parent.operation
    ensures parent.tenant.Some? ==> child.tenant == parent.tenant
    ensures parent.deadline.Some? ==> child.deadline.Some? && child.deadline.value <= parent.deadline.value
    ensures GovernedCustom(child)
    ensures child.correlation == parent.correlation <==>
            LastCorrelation(opts).None? || LastCorrelation(opts).value == parent.correlation
    ensures child.principal == Or(LastPrincipal(opts), parent.principal)
    ensures child.deadline == Or(LastDeadline(opts), parent.deadline)
  {
    var op: GoString, now: Instant :| Derive(parent, op, now, opts) == Ok(child);
    OptionsKeep(Child(parent, op, now), opts);
    DerivedFields(parent, op, now, opts);
  }

  /** A derivation that leaves the parent's flow. */
  lemma CorrelationOverridden(parent: Metadata, op: GoString, now: Instant, id: GoString)
    requires op != parent.operation && id != parent.correlation
    ensures var r := Derive(parent, op, now, [WithCorrelation(id)]);
            r.Ok? && r.value.correlation == id != parent.correlation
  {
    ApplyOne(Child(parent, op, now), [], WithCorrelation(id));
    assert [] + [WithCorrelation(id)] == [WithCorrelation(id)];
  }

  /** A chain of derivations: link i + 1 is derived from link i with opts[i]. */
  ghost predicate Lineage(chain: seq<Metadata>, opts: seq<seq<MetadataOption>>) {
    && |chain| == |opts| + 1
    && forall i :: 0 <= i < |opts| ==> Derived(chain[i], chain[i + 1], opts[i])
  }

  /** The correlation after several derivations: the last one given in any of them. */
  function Flow(start: GoString, opts: seq<seq<MetadataOption>>): GoString {
    if opts == [] then start
    else LastCorrelation(opts[|opts| - 1]).UnwrapOr(Flow(start, opts[..|opts| - 1]))
  }

  lemma FlowExtends(start: GoString, opts: seq<seq<MetadataOption>>, i: nat, j: nat)
    requires i < j <= |opts|
    ensures Flow(start, opts[i..j]) == LastCorrelation(opts[j - 1]).UnwrapOr(Flow(start, opts[i..j - 1]))
  {
    assert opts[i..j][..j - i - 1] == opts[i..j - 1];
  }

  /** Along every lineage the tenant once bound never changes or disappears, the
      deadline never moves later, and the correlation is the last one given. */
  lemma {:induction false} LineageKeeps(chain: seq<Metadata>, opts: seq<seq<MetadataOption>>, i: nat, j: nat)
    requires Lineage(chain, opts) && i <= j < |chain|
    ensures chain[i].tenant.Some? ==> chain[j].tenant == chain[i].tenant
    ensures chain[i].deadline.Some? ==> chain[j].deadline.Some? && chain[j].deadline.value <= chain[i].deadline.value
    ensures chain[j].correlation == Flow(chain[i].correlation, opts[i..j])
  {
    if i < j {
      LineageKeeps(chain, opts, i, j - 1);
      assert Derived(chain[j - 1], chain[j], opts[j - 1]);
      DerivedKeeps(chain[j - 1], chain[j], opts[j - 1]);
      DerivedCorrelation(chain[j - 1], chain[j], opts[j - 1]);
      FlowExtends(chain[i].correlation, opts, i, j);
    }
  }

  lemma DerivedCorrelation(parent: Metadata, child: Metadata, opts: seq<MetadataOption>)
    requires Derived(parent, child, opts)
    ensures child.correlation == LastCorrelation(opts).UnwrapOr(parent.correlation)
  {
    var op: GoString, now: Instant :| Derive(parent, op, now, opts) == Ok(child);
    CorrelationDecided(Child(parent, op, now), opts);
  }
}
