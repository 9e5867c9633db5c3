/** The flat string map that carries command metadata across boundaries. Instants
    travel as text; their format and parser are parameters. */
module Carrier {
  import opened GoText
  import opened Command
  import Tenancy

  datatype TimeText = TimeText(format: Instant -> GoString, parse: GoString -> Option<Instant>)

  /** The instants of m are read back from their text. RFC 3339 text with
      nanoseconds does so for the years 0 to 9999 in UTC or under an offset of whole
      minutes. */
  predicate TimesSurvive(tt: TimeText, m: Metadata) {
    && tt.parse(tt.format(m.timestamp)) == Some(m.timestamp)
    && (m.deadline.Some? ==> tt.parse(tt.format(m.deadline.value)) == m.deadline)
  }

  type Pairs = map<GoString, GoString>

  const CMD_PREFIX := Tenancy.RESERVED_PREFIX + Ascii("cmd.")
  const KEY_OPERATION := CMD_PREFIX + Ascii("operation_id")
  const KEY_CORRELATION := CMD_PREFIX + Ascii("correlation_id")
  const KEY_CAUSATION := CMD_PREFIX + Ascii("causation_id")
  const KEY_TIMESTAMP := CMD_PREFIX + Ascii("timestamp")
  const KEY_DEADLINE := CMD_PREFIX + Ascii("deadline")
  const KEY_PRINCIPAL := CMD_PREFIX + Ascii("principal_id")
  const KEY_KIND := CMD_PREFIX + Ascii("principal_kind")
  const KEY_REVISION := CMD_PREFIX + Ascii("expected_revision")

  // -------------------------------------------------------------- marshalling

  /** c with a value under k, if there is one. */
  function With(c: Pairs, k: GoString, v: Option<GoString>): Pairs {
    if v.Some? then c[k := v.value] else c
  }

  function TimeOf(tt: TimeText, t: Option<Instant>): Option<GoString> {
    if t.Some? then Some(tt.format(t.value)) else None
  }

  function NumberOf(n: Option<U64>): Option<GoString> {
    if n.Some? then Some(FormatUint(n.value)) else None
  }

  function PrincipalId(p: Option<Principal>): Option<GoString> {
    if p.Some? then Some(p.value.id) else None
  }

  function PrincipalKind(p: Option<Principal>): Option<GoString> {
    if p.Some? then p.value.kind else None
  }

  /** The command's own fields. */
  function Fields(tt: TimeText, m: Metadata): Pairs {
    var c := map[KEY_OPERATION := m.operation, KEY_CORRELATION := m.correlation,
                 KEY_TIMESTAMP := tt.format(m.timestamp)];
    var c := With(c, KEY_CAUSATION, m.causation);
    var c := With(c, KEY_DEADLINE, TimeOf(tt, m.deadline));
    var c := With(c, KEY_REVISION, NumberOf(m.revision));
    With(With(c, KEY_PRINCIPAL, PrincipalId(m.principal)), KEY_KIND, PrincipalKind(m.principal))
  }

  function TenantPairs(m: Metadata): Pairs {
    if m.tenant.Some? then Tenancy.MarshalTenant(m.tenant.value) else map[]
  }

  function Marshal(tt: TimeText, m: Metadata): Pairs {
    Fields(tt, m) + TenantPairs(m) + m.custom
  }

  /** Adding the pairs of one map to another, in any order. */
  method AddPairs(c: Pairs, more: Pairs) returns (r: Pairs)
    ensures r == c + more
  {
    r := c;
    var left := more.Keys;
    while left != {}
      invariant left <= more.Keys && r == c + (map k | k in more && k !in left :: more[k])
      decreases |left|
    {
      var k :| k in left;
      r := r[k := more[k]];
      left := left - {k};
    }
    assert (map k | k in more && k !in left :: more[k]) == more;
  }

  method MarshalFields(tt: TimeText, m: Metadata) returns (c: Pairs)
    ensures c == Fields(tt, m)
  {
    c := map[KEY_OPERATION := m.operation, KEY_CORRELATION := m.correlation, KEY_TIMESTAMP := tt.format(m.timestamp)];
    if m.causation.Some? { c := c[KEY_CAUSATION := m.causation.value]; }
    if m.deadline.Some? { c := c[KEY_DEADLINE := tt.format(m.deadline.value)]; }
    if m.revision.Some? { c := c[KEY_REVISION := FormatUint(m.revision.value)]; }
    if m.principal.Some? {
      c := c[KEY_PRINCIPAL := m.principal.value.id];
      if m.principal.value.kind.Some? { c := c[KEY_KIND := m.principal.value.kind.value]; }
    }
  }

  /** MarshalMetadata */
  method MarshalMetadata(tt: TimeText, m: Metadata) returns (c: Pairs)
    ensures c == Marshal(tt, m)
  {
    c := MarshalFields(tt, m);
    if m.tenant.Some? {
      c := AddPairs(c, Tenancy.MarshalTenant(m.tenant.value));
    } else {
      assert c + map[] == c;
    }
    c := AddPairs(c, m.custom);
  }

  // ------------------------------------------------------------ unmarshalling

  function Get(c: Pairs, k: GoString): Option<GoString> {
    if k in c then Some(c[k]) else None
  }

  /** tenantSubset */
  function TenantSubset(c: Pairs): Pairs {
    map k | k in c && Tenancy.TENANT_PREFIX <= k :: c[k]
  }

  /** Keys outside the two carried namespaces are custom. */
  predicate IsCustom(k: GoString) {
    !(CMD_PREFIX <= k) && !(Tenancy.TENANT_PREFIX <= k)
  }

  function CustomPairs(c: Pairs): Pairs {
    map k | k in c && IsCustom(k) :: c[k]
  }

  function ReadTime(tt: TimeText, text: Option<GoString>): Option<Instant> {
    if text.Some? then tt.parse(text.value) else None
  }

  function ReadNumber(text: Option<GoString>): Option<U64> {
    if text.Some? then ParseUint(text.value) else None
  }

  function ReadPrincipal(c: Pairs): Option<Principal> {
    if KEY_PRINCIPAL in c then Some(Principal(c[KEY_PRINCIPAL], Get(c, KEY_KIND))) else None
  }

  function ReadTenant(c: Pairs): Option<Tenancy.TenantContext> {
    if TenantSubset(c) == map[] then None else Tenancy.UnmarshalTenant(TenantSubset(c))
  }

  /** The first check of the carried fields that fails, in their order. */
  function FieldError(tt: TimeText, c: Pairs): Option<Error> {
    if KEY_OPERATION !in c || !Tenancy.ValidId(c[KEY_OPERATION]) then Some(InvalidMetadata)
    else if KEY_CORRELATION !in c then Some(InvalidMetadata)
    else if KEY_TIMESTAMP !in c || tt.parse(c[KEY_TIMESTAMP]).None? then Some(InvalidMetadata)
    else if KEY_DEADLINE in c && tt.parse(c[KEY_DEADLINE]).None? then Some(InvalidMetadata)
    else if KEY_REVISION in c && ParseUint(c[KEY_REVISION]).None? then Some(InvalidMetadata)
    else if KEY_PRINCIPAL in c && c[KEY_PRINCIPAL] == [] then Some(InvalidPrincipal)
    else if TenantSubset(c) != map[] && ReadTenant(c).None? then Some(InvalidTenant)
    else None
  }

  predicate CustomAccepted(c: Pairs) {
    forall k :: k in CustomPairs(c) ==> CustomError(k, c[k]) == None
  }

  /** The metadata an acceptable carrier stands for. */
  function Unmarshalled(tt: TimeText, c: Pairs): Metadata
    requires FieldError(tt, c) == None
  {
    Metadata(c[KEY_OPERATION], c[KEY_CORRELATION], Get(c, KEY_CAUSATION), ReadTenant(c), ReadPrincipal(c),
             CustomPairs(c), tt.parse(c[KEY_TIMESTAMP]).value, ReadTime(tt, Get(c, KEY_DEADLINE)),
             ReadNumber(Get(c, KEY_REVISION)))
  }

  /** The options for the carried fields. */
  function FieldOptions(tt: TimeText, c: Pairs): seq<MetadataOption>
    requires FieldError(tt, c) == None
  {
    [WithCorrelation(c[KEY_CORRELATION]), WithTimestamp(tt.parse(c[KEY_TIMESTAMP]).value)]
    + (if KEY_DEADLINE in c then [WithDeadline(tt.parse(c[KEY_DEADLINE]).value)] else [])
    + (if KEY_REVISION in c then [WithExpectedRevision(ParseUint(c[KEY_REVISION]).value)] else [])
    + (if KEY_PRINCIPAL in c then [WithPrincipal(ReadPrincipal(c).value)] else [])
    + (if TenantSubset(c) != map[] then [WithTenant(ReadTenant(c).value)] else [])
  }

  lemma FieldOptionsApply(tt: TimeText, c: Pairs, now: Instant)
    requires FieldError(tt, c) == None
    ensures ApplyAll(Root(c[KEY_OPERATION], now), FieldOptions(tt, c))
         == Ok(Unmarshalled(tt, c).(causation := None, custom := map[]))
  {
    var root := Root(c[KEY_OPERATION], now);
    var o1 := [WithCorrelation(c[KEY_CORRELATION])];
    var o2 := [WithCorrelation(c[KEY_CORRELATION]), WithTimestamp(tt.parse(c[KEY_TIMESTAMP]).value)];
    var m2 := root.(correlation := c[KEY_CORRELATION], timestamp := tt.parse(c[KEY_TIMESTAMP]).value);
    ApplyOne(root, [], o1[0]);
    assert [] + [o1[0]] == o1 && o1 + [o2[1]] == o2;
    ApplyOne(root, o1, o2[1]);
    assert ApplyAll(root, o2) == Ok(m2);
    var o3 := o2 + if KEY_DEADLINE in c then [WithDeadline(tt.parse(c[KEY_DEADLINE]).value)] else [];
    var m3 := m2.(deadline := ReadTime(tt, Get(c, KEY_DEADLINE)));
    if KEY_DEADLINE in c {
      ApplyOne(root, o2, WithDeadline(tt.parse(c[KEY_DEADLINE]).value));
    } else {
      assert o3 == o2;
    }
    assert ApplyAll(root, o3) == Ok(m3);
    var o4 := o3 + if KEY_REVISION in c then [WithExpectedRevision(ParseUint(c[KEY_REVISION]).value)] else [];
    var m4 := m3.(revision := ReadNumber(Get(c, KEY_REVISION)));
    if KEY_REVISION in c {
      ApplyOne(root, o3, WithExpectedRevision(ParseUint(c[KEY_REVISION]).value));
    } else {
      assert o4 == o3;
    }
    assert ApplyAll(root, o4) == Ok(m4);
    FieldOptionsRest(tt, c, root, o4, m4);
  }

  lemma FieldOptionsRest(tt: TimeText, c: Pairs, root: Metadata, o4: seq<MetadataOption>, m4: Metadata)
    requires FieldError(tt, c) == None && ApplyAll(root, o4) == Ok(m4) && m4.principal == None && m4.tenant == None
    ensures ApplyAll(root, o4 + (if KEY_PRINCIPAL in c then [WithPrincipal(ReadPrincipal(c).value)] else [])
                              + (if TenantSubset(c) != map[] then [WithTenant(ReadTenant(c).value)] else []))
         == Ok(m4.(principal := ReadPrincipal(c), tenant := ReadTenant(c)))
  {
    var o5 := o4 + if KEY_PRINCIPAL in c then [WithPrincipal(ReadPrincipal(c).value)] else [];
    if KEY_PRINCIPAL in c { ApplyOne(root, o4, WithPrincipal(ReadPrincipal(c).value)); } else { assert o5 == o4; }
    var o6 := o5 + if TenantSubset(c) != map[] then [WithTenant(ReadTenant(c).value)] else [];
    if TenantSubset(c) != map[] { ApplyOne(root, o5, WithTenant(ReadTenant(c).value)); } else { assert o6 == o5; }
  }

  function CustomOptions(c: Pairs, order: seq<GoString>): seq<MetadataOption>
    requires forall i :: 0 <= i < |order| ==> order[i] in c
  {
    seq(|order|, i requires 0 <= i < |order| => WithCustom(order[i], c[order[i]]))
  }

  /** The pairs of c under the listed keys. */
  function Picked(c: Pairs, order: seq<GoString>): Pairs {
    map k | k in c && k in order :: c[k]
  }

  lemma NonePicked(m: Pairs, c: Pairs)
    ensures m + Picked(c, []) == m
  {
  }

  /** In whatever order the custom pairs come, they are all taken, or some pair's
      own error is reported. */
  lemma {:induction false} CustomInAnyOrder(m: Metadata, c: Pairs, order: seq<GoString>)
    requires forall i :: 0 <= i < |order| ==> order[i] in c
    decreases |order|
    ensures var r := ApplyAll(m, CustomOptions(c, order));
            if forall i :: 0 <= i < |order| ==> CustomError(order[i], c[order[i]]) == None
            then r == Ok(m.(custom := m.custom + Picked(c, order)))
            else r.Err? && exists i :: 0 <= i < |order| && CustomError(order[i], c[order[i]]) == Some(r.error)
  {
    if order == [] {
      NonePicked(m.custom, c);
    } else {
      var opts := CustomOptions(c, order);
      assert opts[1..] == CustomOptions(c, order[1..]);
      var r := Apply(m, opts[0]);
      if r.Ok? {
        CustomInAnyOrder(r.value, c, order[1..]);
        FoldCustom(m, c, order);
        CustomTail(c, order);
      }
    }
  }

  lemma FoldCustom(m: Metadata, c: Pairs, order: seq<GoString>)
    requires order != [] && forall i :: 0 <= i < |order| ==> order[i] in c
    ensures m.custom[order[0] := c[order[0]]] + Picked(c, order[1..]) == m.custom + Picked(c, order)
  {
    assert forall k :: k in order <==> k == order[0] || k in order[1..];
  }

  lemma CustomTail(c: Pairs, order: seq<GoString>)
    requires order != [] && (forall i :: 0 <= i < |order| ==> order[i] in c)
             && CustomError(order[0], c[order[0]]) == None
    ensures (forall i :: 0 <= i < |order| ==> CustomError(order[i], c[order[i]]) == None)
       <==> (forall i :: 0 <= i < |order[1..]| ==> CustomError(order[1..][i], c[order[1..][i]]) == None)
    ensures forall e ::
            (exists i :: 0 <= i < |order[1..]| && CustomError(order[1..][i], c[order[1..][i]]) == Some(e)) ==>
                        (exists i :: 0 <= i < |order| && CustomError(order[i], c[order[i]]) == Some(e))
  {
    assert forall i :: 0 <= i < |order[1..]| ==> order[1..][i] == order[i + 1];
  }

  /** A list of exactly the custom keys, in some order. */
  method CustomKeys(c: Pairs) returns (order: seq<GoString>)
    ensures forall k :: k in order <==> k in CustomPairs(c)
  {
    order := [];
    var left := c.Keys;
    while left != {}
      invariant left <= c.Keys
      invariant forall k :: k in order <==> k in c && k !in left && IsCustom(k)
      decreases |left|
    {
      var k :| k in left;
      left := left - {k};
      if !(CMD_PREFIX <= k || Tenancy.TENANT_PREFIX <= k) { order := order + [k]; }
    }
  }

  /** tenantSubset, whatever order the map is walked in. */
  method CollectTenant(c: Pairs) returns (r: Pairs)
    ensures r == TenantSubset(c)
  {
    r := map[];
    var left := c.Keys;
    while left != {}
      invariant left <= c.Keys && r == map k | k in c && k !in left && Tenancy.TENANT_PREFIX <= k :: c[k]
      decreases |left|
    {
      var k :| k in left;
      if Tenancy.TENANT_PREFIX <= k { r := r[k := c[k]]; }
      left := left - {k};
    }
  }

  /** The fields of m are what c says: under every key the value m has or the text
      it is read from, a deadline, revision, principal or tenant exactly when its
      keys are there, and a valid operation, principal and tenant. */
  ghost predicate Says(tt: TimeText, c: Pairs, m: Metadata) {
    && Get(c, KEY_OPERATION) == Some(m.operation) && Tenancy.ValidId(m.operation)
    && Get(c, KEY_CORRELATION) == Some(m.correlation)
    && Reads(tt.parse, Get(c, KEY_TIMESTAMP), Some(m.timestamp))
    && Reads(tt.parse, Get(c, KEY_DEADLINE), m.deadline)
    && Reads(ParseUint, Get(c, KEY_REVISION), m.revision)
    && PrincipalId(m.principal) == Get(c, KEY_PRINCIPAL) != Some([])
    && (m.principal.Some? ==> m.principal.value.kind == Get(c, KEY_KIND))
    && (m.tenant.Some? <==> exists k :: k in c && Tenancy.TENANT_PREFIX <= k)
    && (m.tenant.Some? ==> Tenancy.UnmarshalTenant(c) == m.tenant)
    && m.causation == None && m.custom == map[]
  }

  /** A valid operation, a correlation and a readable timestamp are there, and a
      deadline and a revision are readable where they are there. */
  ghost predicate TextsRead(tt: TimeText, c: Pairs) {
    && Get(c, KEY_OPERATION).Some? && Tenancy.ValidId(Get(c, KEY_OPERATION).value)
    && Get(c, KEY_CORRELATION).Some?
    && Get(c, KEY_TIMESTAMP).Some? && tt.parse(Get(c, KEY_TIMESTAMP).value).Some?
    && (Get(c, KEY_DEADLINE).Some? ==> tt.parse(Get(c, KEY_DEADLINE).value).Some?)
    && (Get(c, KEY_REVISION).Some? ==> ParseUint(Get(c, KEY_REVISION).value).Some?)
  }

  /** A value is there exactly when its text is, and the text reads as it. */
  ghost predicate Reads<T(!new)>(parse: GoString -> Option<T>, text: Option<GoString>, value: Option<T>) {
    (value.Some? <==> text.Some?) && (text.Some? ==> parse(text.value) == value)
  }

  lemma SubsetIsEnough(c: Pairs)
    ensures Tenancy.UnmarshalTenant(TenantSubset(c)) == Tenancy.UnmarshalTenant(c)
    ensures TenantSubset(c) != map[] <==> exists k :: k in c && Tenancy.TENANT_PREFIX <= k
  {
    assert Tenancy.TENANT_PREFIX <= Tenancy.KEY_SCOPE && Tenancy.TENANT_PREFIX <= Tenancy.KEY_ID;
    assert Tenancy.TENANT_PREFIX <= Tenancy.KEY_ACTOR && Tenancy.TENANT_PREFIX <= Tenancy.KEY_REASON;
    assert Tenancy.TENANT_PREFIX <= Tenancy.KEY_CORRELATION;
    if k :| k in c && Tenancy.TENANT_PREFIX <= k { assert k in TenantSubset(c); }
    if k :| k in TenantSubset(c) { assert k in c; }
  }

  /** A carrier passes the checks exactly when it says something, and it says one
      thing only. */
  lemma PassesIffSays(tt: TimeText, c: Pairs, m: Metadata)
    ensures Says(tt, c, m) <==>
            FieldError(tt, c) == None && m == Unmarshalled(tt, c).(causation := None, custom := map[])
  {
    SubsetIsEnough(c);
  }

  /** The checks of the carried fields, one after the other: the options build what
      the carrier says, whatever the clock, and there are none when it says nothing. */
  method ReadFields(tt: TimeText, c: Pairs) returns (r: Result<seq<MetadataOption>>)
    ensures r.Ok? <==> exists m :: Says(tt, c, m)
    ensures r.Ok? ==> forall m, now :: Says(tt, c, m) ==> ApplyAll(Root(m.operation, now), r.value) == Ok(m)
    ensures r.Err? ==> FieldError(tt, c) == Some(r.error)
    ensures r.Err? ==> r.error == InvalidMetadata || r.error == InvalidPrincipal || r.error == InvalidTenant
    ensures r == Err(InvalidMetadata) <==> !TextsRead(tt, c)
    ensures r == Err(InvalidPrincipal) <==> TextsRead(tt, c) && Get(c, KEY_PRINCIPAL) == Some([])
  {
    r := ReadOptions(tt, c);
    if r.Ok? {
      PassesIffSays(tt, c, Unmarshalled(tt, c).(causation := None, custom := map[]));
      forall m, now | Says(tt, c, m) ensures ApplyAll(Root(m.operation, now), r.value) == Ok(m) {
        PassesIffSays(tt, c, m);
        FieldOptionsApply(tt, c, now);
      }
    } else {
      forall m ensures !Says(tt, c, m) {
        PassesIffSays(tt, c, m);
      }
    }
  }

  method ReadOptions(tt: TimeText, c: Pairs) returns (r: Result<seq<MetadataOption>>)
    ensures r == if FieldError(tt, c).Some? then Err(FieldError(tt, c).value) else Ok(FieldOptions(tt, c))
  {
    if KEY_OPERATION !in c || !Tenancy.ValidId(c[KEY_OPERATION]) { return Err(InvalidMetadata); }
    if KEY_CORRELATION !in c || KEY_TIMESTAMP !in c { return Err(InvalidMetadata); }
    var timestamp := tt.parse(c[KEY_TIMESTAMP]);
    if timestamp.None? { return Err(InvalidMetadata); }
    var opts := [WithCorrelation(c[KEY_CORRELATION]), WithTimestamp(timestamp.value)];
    var deadline, revision, principal, tenant := [], [], [], [];
    if KEY_DEADLINE in c {
      var at := tt.parse(c[KEY_DEADLINE]);
      if at.None? { return Err(InvalidMetadata); }
      deadline := [WithDeadline(at.value)];
    }
    if KEY_REVISION in c {
      var n := ParseUint(c[KEY_REVISION]);
      if n.None? { return Err(InvalidMetadata); }
      revision := [WithExpectedRevision(n.value)];
    }
    if KEY_PRINCIPAL in c {
      if c[KEY_PRINCIPAL] == [] { return Err(InvalidPrincipal); }
      principal := [WithPrincipal(Principal(c[KEY_PRINCIPAL], Get(c, KEY_KIND)))];
    }
    var subset := CollectTenant(c);
    if |subset| > 0 {
      var tc := Tenancy.UnmarshalTenant(subset);
      if tc.None? { return Err(InvalidTenant); }
      tenant := [WithTenant(tc.value)];
    }
    r := Ok(opts + deadline + revision + principal + tenant);
  }

  /** UnmarshalMetadata: a carrier is accepted exactly when its fields and all its
      custom pairs pass, and its value does not depend on the order the map is
      walked in; neither does a field's error. */
  method UnmarshalMetadata(tt: TimeText, c: Pairs, now: Instant) returns (r: Result<Metadata>)
    ensures r.Ok? <==> FieldError(tt, c) == None && CustomAccepted(c)
    ensures r.Ok? ==> r.value == Unmarshalled(tt, c)
    ensures FieldError(tt, c).Some? ==> r == Err(FieldError(tt, c).value)
    ensures r.Err? && FieldError(tt, c) == None ==>
            exists k :: k in CustomPairs(c) && CustomError(k, c[k]) == Some(r.error)
  {
    var fields := ReadFields(tt, c);
    if fields.Err? { return Err(fields.error); }
    var order := CustomKeys(c);
    assert forall i :: 0 <= i < |order| ==> order[i] in order;
    SaysWhenPassed(tt, c);
    AllOptionsApply(tt, c, fields.value, order, now);
    r := NewMetadata(c[KEY_OPERATION], now, fields.value + CustomOptions(c, order));
    if r.Ok? && KEY_CAUSATION in c { r := Ok(r.value.(causation := Some(c[KEY_CAUSATION]))); }
  }

  lemma SaysWhenPassed(tt: TimeText, c: Pairs)
    requires FieldError(tt, c) == None
    ensures Says(tt, c, Unmarshalled(tt, c).(causation := None, custom := map[]))
  {
    PassesIffSays(tt, c, Unmarshalled(tt, c).(causation := None, custom := map[]));
  }

  lemma AllOptionsApply(tt: TimeText, c: Pairs, fields: seq<MetadataOption>, order: seq<GoString>, now: Instant)
    requires FieldError(tt, c) == None
    requires ApplyAll(Root(c[KEY_OPERATION], now), fields)
             == Ok(Unmarshalled(tt, c).(causation := None, custom := map[]))
    requires (forall k :: k in order <==> k in CustomPairs(c)) && forall i :: 0 <= i < |order| ==> order[i] in c
    ensures var r := ApplyAll(Root(c[KEY_OPERATION], now), fields + CustomOptions(c, order));
            if CustomAccepted(c) then r == Ok(Unmarshalled(tt, c).(causation := None))
            else r.Err? && exists k :: k in CustomPairs(c) && CustomError(k, c[k]) == Some(r.error)
  {
    ApplyAllConcat(Root(c[KEY_OPERATION], now), fields, CustomOptions(c, order));
    CustomApplied(Unmarshalled(tt, c).(causation := None, custom := map[]), c, order);
  }

  lemma CustomApplied(m: Metadata, c: Pairs, order: seq<GoString>)
    requires m.custom == map[] && (forall k :: k in order <==> k in CustomPairs(c))
    requires forall i :: 0 <= i < |order| ==> order[i] in c
    ensures var r := ApplyAll(m, CustomOptions(c, order));
            if CustomAccepted(c) then r == Ok(m.(custom := CustomPairs(c)))
            else r.Err? && exists k :: k in CustomPairs(c) && CustomError(k, c[k]) == Some(r.error)
  {
    CustomInAnyOrder(m, c, order);
    ListedIsAccepted(c, order);
    assert map[] + Picked(c, order) == CustomPairs(c);
  }

  lemma ListedIsAccepted(c: Pairs, order: seq<GoString>)
    requires (forall k :: k in order <==> k in CustomPairs(c)) && forall i :: 0 <= i < |order| ==> order[i] in c
    ensures CustomAccepted(c) <==> forall i :: 0 <= i < |order| ==> CustomError(order[i], c[order[i]]) == None
    ensures forall i :: 0 <= i < |order| ==> order[i] in CustomPairs(c)
  {
    assert forall i :: 0 <= i < |order| ==> order[i] in order;
    if forall i :: 0 <= i < |order| ==> CustomError(order[i], c[order[i]]) == None {
      forall k | k in CustomPairs(c) ensures CustomError(k, c[k]) == None {
        var i :| 0 <= i < |order| && order[i] == k;
      }
    }
  }

  // --------------------------------------------------------------- round trip

  predicate AllDiffer(k0: GoString, k1: GoString, k2: GoString, k3: GoString, k4: GoString, k5: GoString, k6: GoString,
                      k7: GoString)
  {
    && k0 !in {k1, k2, k3, k4, k5, k6, k7}
    && k1 !in {k2, k3, k4, k5, k6, k7}
    && k2 !in {k3, k4, k5, k6, k7}
    && k3 !in {k4, k5, k6, k7}
    && k4 !in {k5, k6, k7}
    && k5 !in {k6, k7}
    && k6 !in {k7}
  }

  lemma CmdKeysDistinct()
    ensures AllDiffer(KEY_OPERATION, KEY_CORRELATION, KEY_TIMESTAMP, KEY_CAUSATION, KEY_DEADLINE, KEY_REVISION,
                      KEY_PRINCIPAL, KEY_KIND)
  {
    assert |KEY_OPERATION| == |KEY_CAUSATION| == |KEY_PRINCIPAL| == 20 && |KEY_CORRELATION| == |KEY_KIND| == 22;
    assert |KEY_TIMESTAMP| == 17 && |KEY_DEADLINE| == 16 && |KEY_REVISION| == 25;
    assert KEY_OPERATION[8] == 111 && KEY_CAUSATION[8] == 99 && KEY_PRINCIPAL[8] == 112 && KEY_CORRELATION[8] == 99
           && KEY_KIND[8] == 112;
  }

  lemma PrefixesDiffer(k: GoString)
    ensures CMD_PREFIX <= k ==> !(Tenancy.TENANT_PREFIX <= k) && Tenancy.RESERVED_PREFIX <= k
    ensures Tenancy.TENANT_PREFIX <= k ==> Tenancy.RESERVED_PREFIX <= k
  {
    assert CMD_PREFIX[4] == 99 && Tenancy.TENANT_PREFIX[4] == 116;
  }

  lemma WithAt(c: Pairs, k: GoString, v: Option<GoString>)
    ensures forall x :: x != k ==> Get(With(c, k, v), x) == Get(c, x)
    ensures k !in c ==> Get(With(c, k, v), k) == v
    ensures forall x :: x in With(c, k, v) ==> x in c || x == k
  {
  }

  lemma WithThree(k0: GoString, k1: GoString, k2: GoString, k3: GoString, k4: GoString, k5: GoString,
                  c0: Pairs, v3: Option<GoString>, v4: Option<GoString>, v5: Option<GoString>)
    requires c0.Keys == {k0, k1, k2} && k3 !in {k0, k1, k2} && k4 !in {k0, k1, k2, k3} && k5 !in {k0, k1, k2, k3, k4}
    ensures var c := With(With(With(c0, k3, v3), k4, v4), k5, v5);
            && Get(c, k0) == Some(c0[k0]) && Get(c, k1) == Some(c0[k1]) && Get(c, k2) == Some(c0[k2])
            && Get(c, k3) == v3 && Get(c, k4) == v4 && Get(c, k5) == v5
            && c.Keys <= {k0, k1, k2, k3, k4, k5}
  {
    var c3 := With(c0, k3, v3);
    WithAt(c0, k3, v3);
    var c4 := With(c3, k4, v4);
    WithAt(c3, k4, v4);
    WithAt(c4, k5, v5);
  }

  lemma WithTwo(c: Pairs, k6: GoString, v6: Option<GoString>, k7: GoString, v7: Option<GoString>)
    requires k6 !in c && k7 !in c && k6 != k7
    ensures var d := With(With(c, k6, v6), k7, v7);
            && (forall x :: x != k6 && x != k7 ==> Get(d, x) == Get(c, x))
            && Get(d, k6) == v6 && Get(d, k7) == v7 && d.Keys <= c.Keys + {k6, k7}
  {
    WithAt(c, k6, v6);
    WithAt(With(c, k6, v6), k7, v7);
  }

  /** What stands under each of the command's own keys. */
  lemma FieldsAt(tt: TimeText, m: Metadata)
    ensures HoldsFields(tt, m, Fields(tt, m))
    ensures Fields(tt, m).Keys <= {KEY_OPERATION, KEY_CORRELATION, KEY_TIMESTAMP, KEY_CAUSATION, KEY_DEADLINE,
                                   KEY_REVISION, KEY_PRINCIPAL, KEY_KIND}
  {
    CmdKeysDistinct();
    var c0: Pairs := map[KEY_OPERATION := m.operation, KEY_CORRELATION := m.correlation,
                         KEY_TIMESTAMP := tt.format(m.timestamp)];
    WithThree(KEY_OPERATION, KEY_CORRELATION, KEY_TIMESTAMP, KEY_CAUSATION, KEY_DEADLINE, KEY_REVISION,
              c0, m.causation, TimeOf(tt, m.deadline), NumberOf(m.revision));
    var c := With(With(With(c0, KEY_CAUSATION, m.causation), KEY_DEADLINE, TimeOf(tt, m.deadline)), KEY_REVISION,
                  NumberOf(m.revision));
    WithTwo(c, KEY_PRINCIPAL, PrincipalId(m.principal), KEY_KIND, PrincipalKind(m.principal));
  }

  lemma TenantPairsAt(m: Metadata)
    ensures forall k :: k in TenantPairs(m) ==> Tenancy.TENANT_PREFIX <= k
    ensures m.tenant.Some? && m.tenant.value != Tenancy.NoContext ==> TenantPairs(m) != map[]
  {
    assert Tenancy.TENANT_PREFIX <= Tenancy.KEY_SCOPE && Tenancy.TENANT_PREFIX <= Tenancy.KEY_ID
           && Tenancy.TENANT_PREFIX <= Tenancy.KEY_ACTOR;
    assert Tenancy.TENANT_PREFIX <= Tenancy.KEY_REASON && Tenancy.TENANT_PREFIX <= Tenancy.KEY_CORRELATION;
    assert m.tenant.Some? && m.tenant.value != Tenancy.NoContext ==> Tenancy.KEY_SCOPE in TenantPairs(m);
  }

  /** Three maps in three namespaces come apart again. */
  lemma NamespacesSeparate(f: Pairs, t: Pairs, custom: Pairs)
    requires (forall k :: k in f ==> CMD_PREFIX <= k) && (forall k :: k in t ==> Tenancy.TENANT_PREFIX <= k)
    requires forall k :: k in custom ==> !(Tenancy.RESERVED_PREFIX <= k)
    ensures TenantSubset(f + t + custom) == t && CustomPairs(f + t + custom) == custom
    ensures forall k :: CMD_PREFIX <= k ==> Get(f + t + custom, k) == Get(f, k)
  {
    forall k ensures CMD_PREFIX <= k ==> k !in t && k !in custom
             ensures Tenancy.TENANT_PREFIX <= k ==> k !in f && k !in custom
             ensures IsCustom(k) ==> k !in f && k !in t
             ensures k in custom ==> IsCustom(k)
    {
      PrefixesDiffer(k);
    }
    PartsSeparate(f, t, custom);
  }

  lemma PartsSeparate(f: Pairs, t: Pairs, custom: Pairs)
    requires forall k :: k in f ==> !(Tenancy.TENANT_PREFIX <= k) && !IsCustom(k)
    requires forall k :: k in t ==> Tenancy.TENANT_PREFIX <= k && !IsCustom(k)
    requires forall k :: k in custom ==> !(Tenancy.TENANT_PREFIX <= k) && IsCustom(k)
    ensures TenantSubset(f + t + custom) == t && CustomPairs(f + t + custom) == custom
  {
  }

  lemma CmdKeysArePrefixed()
    ensures CMD_PREFIX <= KEY_OPERATION && CMD_PREFIX <= KEY_CORRELATION && CMD_PREFIX <= KEY_TIMESTAMP
            && CMD_PREFIX <= KEY_CAUSATION
    ensures CMD_PREFIX <= KEY_DEADLINE && CMD_PREFIX <= KEY_REVISION && CMD_PREFIX <= KEY_PRINCIPAL
            && CMD_PREFIX <= KEY_KIND
  {
  }

  /** What each key of a marshalled value holds. */
  ghost predicate HoldsFields(tt: TimeText, m: Metadata, c: Pairs) {
    && Get(c, KEY_OPERATION) == Some(m.operation) && Get(c, KEY_CORRELATION) == Some(m.correlation)
    && Get(c, KEY_TIMESTAMP) == Some(tt.format(m.timestamp)) && Get(c, KEY_CAUSATION) == m.causation
    && Get(c, KEY_DEADLINE) == TimeOf(tt, m.deadline) && Get(c, KEY_REVISION) == NumberOf(m.revision)
    && Get(c, KEY_PRINCIPAL) == PrincipalId(m.principal) && Get(c, KEY_KIND) == PrincipalKind(m.principal)
  }

  ghost predicate Holds(tt: TimeText, m: Metadata, c: Pairs) {
    HoldsFields(tt, m, c) && TenantSubset(c) == TenantPairs(m) && CustomPairs(c) == m.custom
  }

  lemma MarshalHolds(tt: TimeText, m: Metadata)
    requires forall k :: k in m.custom ==> ValidCustomKey(k)
    ensures Holds(tt, m, Marshal(tt, m))
  {
    FieldsAt(tt, m);
    TenantPairsAt(m);
    CmdKeysArePrefixed();
    assert forall k :: k in Fields(tt, m) ==> CMD_PREFIX <= k;
    NamespacesSeparate(Fields(tt, m), TenantPairs(m), m.custom);
  }

  lemma HoldsMeansAccepted(tt: TimeText, m: Metadata, c: Pairs)
    requires TimesSurvive(tt, m) && WellConstructed(m) && Holds(tt, m, c)
    ensures FieldError(tt, c) == None && Unmarshalled(tt, c) == m
  {
    if m.revision.Some? { ParseFormat(m.revision.value); }
    TenantPairsAt(m);
    if m.tenant.Some? {
      assert Tenancy.CarriesTenant(TenantPairs(m), m.tenant.value);
      Tenancy.TenantRoundTrip(m.tenant.value, TenantPairs(m));
    }
    assert ReadTenant(c) == m.tenant && ReadPrincipal(c) == m.principal;
  }

  /** The trust boundary: whatever a carrier is accepted as could have been
      constructed directly. */
  lemma AcceptedIsWellConstructed(tt: TimeText, c: Pairs)
    requires FieldError(tt, c) == None && CustomAccepted(c)
    ensures WellConstructed(Unmarshalled(tt, c))
  {
    forall k | k in CustomPairs(c) ensures ValidCustomKey(k) && ValidCustomValue(c[k]) {
      assert CustomError(k, c[k]) == None;
    }
  }

  /** A metadata value survives the carrier exactly when it is well constructed and
      its instants survive their text. */
  lemma CarrierRoundTrip(tt: TimeText, m: Metadata)
    ensures var c := Marshal(tt, m);
            WellConstructed(m) && TimesSurvive(tt, m) <==>
            FieldError(tt, c) == None && CustomAccepted(c) && Unmarshalled(tt, c) == m
  {
    var c := Marshal(tt, m);
    if WellConstructed(m) && TimesSurvive(tt, m) {
      MarshalHolds(tt, m);
      HoldsMeansAccepted(tt, m, c);
      forall k | k in CustomPairs(c) ensures CustomError(k, c[k]) == None {
        assert k in m.custom && c[k] == CustomPairs(c)[k];
      }
    }
    if FieldError(tt, c) == None && CustomAccepted(c) && Unmarshalled(tt, c) == m {
      AcceptedIsWellConstructed(tt, c);
      MarshalHolds(tt, m);
    }
  }

  /** A reserved key outside the two carried namespaces is never ignored: it makes
      the whole carrier unacceptable. */
  lemma StrayReservedKeyRejected(c: Pairs, k: GoString)
    requires k in c && Tenancy.RESERVED_PREFIX <= k && !(CMD_PREFIX <= k) && !(Tenancy.TENANT_PREFIX <= k)
    ensures !CustomAccepted(c)
  {
    assert k in CustomPairs(c) && CustomError(k, c[k]) == Some(ReservedKey);
  }

  /** Reading c' comes to what reading c comes to. */
  predicate ReadsAlike(tt: TimeText, c: Pairs, c': Pairs) {
    && FieldError(tt, c') == FieldError(tt, c) && (CustomAccepted(c') <==> CustomAccepted(c))
    && (FieldError(tt, c) == None ==> Unmarshalled(tt, c') == Unmarshalled(tt, c))
  }

  /** An unknown key within the command's namespace changes nothing. */
  lemma UnknownCommandKeyIgnored(tt: TimeText, c: Pairs, k: GoString, v: GoString)
    requires CMD_PREFIX <= k
    requires k !in {KEY_OPERATION, KEY_CORRELATION, KEY_CAUSATION, KEY_TIMESTAMP, KEY_DEADLINE, KEY_PRINCIPAL, KEY_KIND,
                    KEY_REVISION}
    ensures ReadsAlike(tt, c, c[k := v])
  {
    PrefixesDiffer(k);
    assert TenantSubset(c[k := v]) == TenantSubset(c) && CustomPairs(c[k := v]) == CustomPairs(c);
  }

  ghost predicate SameFields(c: Pairs, c': Pairs) {
    && Get(c, KEY_OPERATION) == Get(c', KEY_OPERATION) && Get(c, KEY_CORRELATION) == Get(c', KEY_CORRELATION)
    && Get(c, KEY_CAUSATION) == Get(c', KEY_CAUSATION) && Get(c, KEY_TIMESTAMP) == Get(c', KEY_TIMESTAMP)
    && Get(c, KEY_DEADLINE) == Get(c', KEY_DEADLINE) && Get(c, KEY_PRINCIPAL) == Get(c', KEY_PRINCIPAL)
    && Get(c, KEY_KIND) == Get(c', KEY_KIND) && Get(c, KEY_REVISION) == Get(c', KEY_REVISION)
  }

  /** Carriers with the same command fields and custom pairs read alike up to the
      tenant. */
  lemma OnlyTenantDiffers(tt: TimeText, c: Pairs, c': Pairs)
    requires SameFields(c, c') && CustomPairs(c) == CustomPairs(c')
    ensures FieldError(tt, c).Some? && FieldError(tt, c) != Some(InvalidTenant) ==>
            FieldError(tt, c') == FieldError(tt, c)
    ensures FieldError(tt, c) == None || FieldError(tt, c) == Some(InvalidTenant) ==>
            FieldError(tt, c') == if TenantSubset(c') == map[] || ReadTenant(c').Some? then None
                                  else Some(InvalidTenant)
    ensures FieldError(tt, c) == None && FieldError(tt, c') == None ==>
            Unmarshalled(tt, c') == Unmarshalled(tt, c).(tenant := ReadTenant(c'))
  {
  }

  lemma UnknownTenantKeyUnread(c: Pairs, k: GoString, v: GoString)
    requires Tenancy.TENANT_PREFIX <= k && k !in Tenancy.TENANT_KEYS
    ensures Tenancy.UnmarshalTenant(TenantSubset(c[k := v])) == Tenancy.UnmarshalTenant(TenantSubset(c))
    ensures TenantSubset(c[k := v]) != map[]
  {
    assert forall x :: x in Tenancy.TENANT_KEYS ==>
             Tenancy.Lookup(TenantSubset(c[k := v]), x) == Tenancy.Lookup(TenantSubset(c), x);
    assert {Tenancy.KEY_SCOPE, Tenancy.KEY_ID, Tenancy.KEY_ACTOR} <= Tenancy.TENANT_KEYS;
    assert {Tenancy.KEY_REASON, Tenancy.KEY_CORRELATION} <= Tenancy.TENANT_KEYS;
    assert k in TenantSubset(c[k := v]);
  }

  lemma UnknownTenantKeyKeepsFields(c: Pairs, k: GoString, v: GoString)
    requires Tenancy.TENANT_PREFIX <= k
    ensures CustomPairs(c[k := v]) == CustomPairs(c) && (CustomAccepted(c[k := v]) <==> CustomAccepted(c))
    ensures SameFields(c, c[k := v])
  {
    PrefixesDiffer(k);
    CmdKeysArePrefixed();
  }

  /** An unknown key within the tenant's namespace changes nothing exactly when the
      carrier has a tenant or is rejected anyway; an acceptable carrier without a
      tenant is rejected for it. */
  lemma UnknownTenantKeyIgnoredIff(tt: TimeText, c: Pairs, k: GoString, v: GoString)
    requires Tenancy.TENANT_PREFIX <= k && k !in Tenancy.TENANT_KEYS
    ensures ReadsAlike(tt, c, c[k := v]) <==> TenantSubset(c) != map[] || FieldError(tt, c).Some?
    ensures !ReadsAlike(tt, c, c[k := v]) ==> FieldError(tt, c[k := v]) == Some(InvalidTenant)
  {
    UnknownTenantKeyUnread(c, k, v);
    UnknownTenantKeyKeepsFields(c, k, v);
    OnlyTenantDiffers(tt, c, c[k := v]);
  }

  /** So a key of a newer writer turns the carrier of every value without a tenant
      from accepted to rejected. */
  lemma NewerTenantKeyRejected(tt: TimeText, m: Metadata, k: GoString, v: GoString)
    requires WellConstructed(m) && TimesSurvive(tt, m) && m.tenant == None
    requires Tenancy.TENANT_PREFIX <= k && k !in Tenancy.TENANT_KEYS
    ensures var c := Marshal(tt, m);
            && FieldError(tt, c) == None && CustomAccepted(c) && Unmarshalled(tt, c) == m
            && FieldError(tt, c[k := v]) == Some(InvalidTenant)
  {
    CarrierRoundTrip(tt, m);
    MarshalHolds(tt, m);
    UnknownTenantKeyIgnoredIff(tt, Marshal(tt, m), k, v);
  }

  /** One such carrier: the root metadata of operation "o", and the key ego.tenant.x. */
  lemma NewerTenantKeyExample() returns (tt: TimeText, c: Pairs, k: GoString)
    ensures FieldError(tt, c) == None && CustomAccepted(c) && Tenancy.TENANT_PREFIX <= k
    ensures FieldError(tt, c[k := []]) == Some(InvalidTenant)
  {
    tt := TimeText((t: Instant) => [], (s: GoString) => Some(0));
    var m := Root([111], 0);
    Tenancy.LetterIsId(111);
    k := Tenancy.TENANT_PREFIX + [120];
    c := Marshal(tt, m);
    Tenancy.TenantKeysDistinct();
    assert |k| == 12;
    NewerTenantKeyRejected(tt, m, k, []);
  }
}
