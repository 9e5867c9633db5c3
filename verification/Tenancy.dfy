/** Tenant identity: identifier validation, the tenant context, and the flat
    metadata map that carries it. */
module Tenancy {
  import opened GoText
  import opened Utf8

  const MAX_ID_BYTES := 128

  /** The rules NewTenantID and NewOperationID share. */
  predicate ValidId(s: GoString) {
    && s != []
    && ValidString(s)
    && |s| <= MAX_ID_BYTES
    && Trimmed(s)
    && forall i :: 0 <= i < |Runes(s)| ==> !IsControl(Runes(s)[i])
  }

  lemma LetterIsId(b: byte)
    requires 97 <= b <= 122
    ensures ValidId([b])
  {
    var s: GoString := [b];
    assert Decode(s) == Decoded(b, 1) && s[1..] == [];
    var rest: GoString := [];
    assert Runes(s) == [b as int] + Runes(rest) && Runes(rest) == [];
  }

  /** strings.TrimSpace(s) != "" */
  predicate NotBlank(s: GoString) {
    exists i :: 0 <= i < |Runes(s)| && !IsSpace(Runes(s)[i])
  }

  datatype TenantContext =
    | NoContext
    | TenantScoped(tenant: GoString)
    | Administrative(actor: GoString, reason: GoString, correlation: Option<GoString>)

  /** What the constructors can build. */
  predicate Constructed(tc: TenantContext) {
    match tc
    case NoContext => false
    case TenantScoped(id) => ValidId(id)
    case Administrative(actor, reason, correlation) =>
      NotBlank(actor) && NotBlank(reason) && (correlation.Some? ==> correlation.value != [])
  }

  type Metadata = map<GoString, GoString>

  const RESERVED_PREFIX := Ascii("ego.")
  const TENANT_PREFIX := RESERVED_PREFIX + Ascii("tenant.")
  const KEY_SCOPE := TENANT_PREFIX + Ascii("scope")
  const KEY_ID := TENANT_PREFIX + Ascii("id")
  const KEY_ACTOR := TENANT_PREFIX + Ascii("admin_actor")
  const KEY_REASON := TENANT_PREFIX + Ascii("admin_reason")
  const KEY_CORRELATION := TENANT_PREFIX + Ascii("admin_correlation_id")
  const SCOPE_TENANT := Ascii("tenant")
  const SCOPE_ADMIN := Ascii("administrative")

  const TENANT_KEYS := {KEY_SCOPE, KEY_ID, KEY_ACTOR, KEY_REASON, KEY_CORRELATION}

  function MarshalTenant(tc: TenantContext): Metadata {
    match tc
    case NoContext => map[]
    case TenantScoped(id) => map[KEY_SCOPE := SCOPE_TENANT, KEY_ID := id]
    case Administrative(actor, reason, correlation) =>
      var md := map[KEY_SCOPE := SCOPE_ADMIN, KEY_ACTOR := actor, KEY_REASON := reason];
      if correlation.Some? then md[KEY_CORRELATION := correlation.value] else md
  }

  /** A Go map read: the empty string stands for a missing key. */
  function Lookup(md: Metadata, key: GoString): GoString {
    if key in md then md[key] else []
  }

  function UnmarshalTenant(md: Metadata): (tc: Option<TenantContext>)
    ensures tc.Some? ==> Constructed(tc.value)
  {
    if Lookup(md, KEY_SCOPE) == SCOPE_TENANT then
      if ValidId(Lookup(md, KEY_ID)) then Some(TenantScoped(Lookup(md, KEY_ID))) else None
    else if Lookup(md, KEY_SCOPE) == SCOPE_ADMIN then
      var actor, reason := Lookup(md, KEY_ACTOR), Lookup(md, KEY_REASON);
      var correlation := Lookup(md, KEY_CORRELATION);
      if NotBlank(actor) && NotBlank(reason) then
        Some(Administrative(actor, reason, if correlation != [] then Some(correlation) else None))
      else None
    else None
  }

  /** md says about the tenant exactly what tc's own metadata says; other keys
      are free. */
  ghost predicate CarriesTenant(md: Metadata, tc: TenantContext) {
    forall k :: k in TENANT_KEYS ==>
      (k in md <==> k in MarshalTenant(tc)) && (k in md ==> md[k] == MarshalTenant(tc)[k])
  }

  lemma TenantKeysDistinct()
    ensures |KEY_SCOPE| == 16 && |KEY_ID| == 13 && |KEY_ACTOR| == 22 && |KEY_REASON| == 23 && |KEY_CORRELATION| == 31
    ensures |SCOPE_TENANT| == 6 && |SCOPE_ADMIN| == 14
  {
  }

  /** The tenant context survives any map that carries it among other keys,
      and is read from a map only when it could have been constructed. */
  lemma TenantRoundTrip(tc: TenantContext, md: Metadata)
    requires CarriesTenant(md, tc)
    ensures Constructed(tc) <==> UnmarshalTenant(md) == Some(tc)
  {
    TenantKeysDistinct();
    var own := MarshalTenant(tc);
    assert forall k :: k in TENANT_KEYS ==> Lookup(md, k) == Lookup(own, k);
    assert KEY_SCOPE in TENANT_KEYS && KEY_ID in TENANT_KEYS && KEY_ACTOR in TENANT_KEYS;
    assert KEY_REASON in TENANT_KEYS && KEY_CORRELATION in TENANT_KEYS;
    match tc
    case NoContext =>
    case TenantScoped(id) =>
    case Administrative(actor, reason, correlation) =>
      assert Lookup(own, KEY_SCOPE) == SCOPE_ADMIN != SCOPE_TENANT;
      assert Lookup(own, KEY_ACTOR) == actor && Lookup(own, KEY_REASON) == reason;
  }

  /** md reads as tc exactly when tc could have been constructed, md shows tc's own
      pairs, and no correlation where tc has none. Keys of the other kind of context
      and a missing pair of an empty value make no difference. */
  lemma TenantReadIff(tc: TenantContext, md: Metadata)
    ensures UnmarshalTenant(md) == Some(tc) <==>
            && Constructed(tc)
            && (forall k :: k in MarshalTenant(tc) ==> Lookup(md, k) == MarshalTenant(tc)[k])
            && (tc.Administrative? && tc.correlation.None? ==> Lookup(md, KEY_CORRELATION) == [])
  {
    TenantKeysDistinct();
    var own := MarshalTenant(tc);
    match tc
    case NoContext =>
    case TenantScoped(id) =>
      assert KEY_SCOPE in own && KEY_ID in own;
    case Administrative(actor, reason, correlation) =>
      assert KEY_SCOPE in own && KEY_ACTOR in own && KEY_REASON in own;
      assert own[KEY_SCOPE] == SCOPE_ADMIN != SCOPE_TENANT;
      assert own[KEY_ACTOR] == actor && own[KEY_REASON] == reason;
      assert correlation.Some? ==> KEY_CORRELATION in own;
  }
}
