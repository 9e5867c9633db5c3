/** The loops behind the adoption's checks, each proved to decide the predicate
    it stands for. */
module AdoptionChecks {
  import opened GoText
  import opened Conflict
  import opened Records
  import opened EventLog
  import opened Adoption
  import Tenancy

  lemma ByPosExtends(s: seq<Record>, i: nat)
    requires i < |s|
    ensures ByPos(s[..i + 1]) == ByPos(s[..i])[s[i].pos := s[i]]
  {
    assert s[..i + 1][..i] == s[..i];
  }

  method IndexByPosition(s: seq<Record>) returns (m: map<U64, Record>)
    ensures m == ByPos(s)
  {
    m := map[];
    for i := 0 to |s|
      invariant m == ByPos(s[..i])
    {
      ByPosExtends(s, i);
      m := m[s[i].pos := s[i]];
    }
    assert s[..|s|] == s;
  }

  lemma SameSizeSubset(a: map<U64, Record>, b: map<U64, Record>)
    requires |a| == |b| && a.Keys <= b.Keys && forall p :: p in a ==> a[p] == b[p]
    ensures a == b
  {
    var extra := b.Keys - a.Keys;
    assert b.Keys == a.Keys + extra;
    assert |b.Keys| == |a.Keys| + |extra|;
  }

  predicate SameContents(a: seq<Record>, b: seq<Record>) {
    (forall r :: r in a ==> r in b) && (forall r :: r in b ==> r in a)
  }

  lemma HeldBy(a: seq<Record>, b: seq<Record>)
    requires Distinct(b) && forall r :: r in a ==> r in b
    ensures forall p :: p in ByPos(a) ==> p in ByPos(b) && ByPos(b)[p] == ByPos(a)[p]
  {
    forall p | p in ByPos(a) ensures p in ByPos(b) && ByPos(b)[p] == ByPos(a)[p] {
      ByPosAt(a, p);
      var r := ByPos(a)[p];
      assert r in b;
      var k :| 0 <= k < |b| && b[k] == r;
      ByPosOfDistinct(b, k);
    }
  }

  lemma HoldsOf(a: seq<Record>, b: seq<Record>)
    requires Distinct(a) && ByPos(a) == ByPos(b)
    ensures forall r :: r in a ==> r in b
  {
    forall r | r in a ensures r in b {
      var k :| 0 <= k < |a| && a[k] == r;
      ByPosOfDistinct(a, k);
      ByPosAt(b, r.pos);
    }
  }

  /** Without repeats, equal position maps are the same records. */
  lemma SameMapIff(a: seq<Record>, b: seq<Record>)
    requires Distinct(a) && Distinct(b)
    ensures ByPos(a) == ByPos(b) <==> SameContents(a, b)
  {
    if ByPos(a) == ByPos(b) {
      HoldsOf(a, b);
      HoldsOf(b, a);
    }
    if SameContents(a, b) {
      HeldBy(a, b);
      HeldBy(b, a);
    }
  }

  /** The positions of s are pairwise different. */
  predicate NoTwoAlike(s: seq<Record>) {
    forall i, j :: 0 <= i < j < |s| ==> s[i].pos != s[j].pos
  }

  method VerifyEventsMatchBySequence(expected: seq<Record>, written: seq<Record>) returns (ok: bool)
    ensures ok <==> MatchBySequence(expected, written)
    ensures NoTwoAlike(expected) ==> (ok <==> NoTwoAlike(written) && SameContents(expected, written))
  {
    if Distinct(expected) && Distinct(written) { SameMapIff(expected, written); }
    var want := IndexByPosition(expected);
    var got := IndexByPosition(written);
    ByPosSize(written);
    if |got| != |written| || |got| != |want| { return false; }
    var left := want.Keys;
    while left != {}
      invariant left <= want.Keys
      invariant forall p :: p in want && p !in left ==> p in got && want[p] == got[p]
      decreases |left|
    {
      var p :| p in left;
      if p !in got || want[p] != got[p] { return false; }
      left := left - {p};
    }
    SameSizeSubset(want, got);
    return true;
  }

  method SameEventsBySequence(current: seq<Record>, verified: seq<Record>) returns (ok: bool)
    ensures ok <==> SameBySequence(current, verified)
    ensures ok <==> NoTwoAlike(current) && NoTwoAlike(verified) && SameContents(current, verified)
  {
    if Distinct(current) && Distinct(verified) {
      SameMapIff(current, verified);
      ByPosSize(current);
      ByPosSize(verified);
    }
    if |current| != |verified| { return false; }
    var byPos := IndexByPosition(verified);
    ByPosSize(verified);
    if |byPos| != |verified| { return false; }
    var seen: map<U64, Record> := map[];
    for i := 0 to |current|
      invariant seen == ByPos(current[..i]) && |seen| == i
      invariant seen.Keys <= byPos.Keys && forall p :: p in seen ==> seen[p] == byPos[p]
    {
      ByPosExtends(current, i);
      ByPosSize(current[..i + 1]);
      var e := current[i];
      if e.pos in seen { RepeatedPosition(current, i); return false; }
      if e.pos !in byPos || byPos[e.pos] != e {
        ByPosOfPrefix(current, i);
        return false;
      }
      seen := seen[e.pos := e];
    }
    assert current[..|current|] == current;
    ByPosSize(current);
    SameSizeSubset(seen, byPos);
    return true;
  }

  lemma RepeatedPosition(s: seq<Record>, i: nat)
    requires i < |s| && s[i].pos in ByPos(s[..i])
    ensures !Distinct(s)
  {
    ByPosAt(s[..i], s[i].pos);
    var k := LastIndex(s[..i], s[i].pos).value;
    assert s[k].pos == s[i].pos;
  }

  /** In a sequence without repeats every record is what its position holds. */
  lemma ByPosOfPrefix(s: seq<Record>, i: nat)
    requires i < |s|
    ensures Distinct(s) ==> s[i].pos in ByPos(s) && ByPos(s)[s[i].pos] == s[i]
  {
    if Distinct(s) { ByPosOfDistinct(s, i); }
  }

  /** The element before place k of q, or 0. */
  function BackFrom(q: seq<U64>, k: nat): U64
    requires k < |q|
  {
    if k == 0 then 0 else q[k - 1]
  }

  /** m maps each of the first i elements of q to the one before it. */
  ghost predicate StepsBack(q: seq<U64>, m: map<U64, U64>, i: nat)
    requires i <= |q|
  {
    && (forall k {:trigger BackFrom(q, k)} :: 0 <= k < i ==> q[k] in m && m[q[k]] == BackFrom(q, k))
    && forall p :: p in m ==> p in q
  }

  lemma StepsBackGrow(q: seq<U64>, m: map<U64, U64>, i: nat)
    requires StrictlyAscending(q) && i < |q| && StepsBack(q, m, i)
    ensures StepsBack(q, m[q[i] := BackFrom(q, i)], i + 1)
  {
    var m' := m[q[i] := BackFrom(q, i)];
    forall k | 0 <= k < i + 1 ensures q[k] in m' && m'[q[k]] == BackFrom(q, k) {
      var before := BackFrom(q, k);
      if k < i { assert q[k] < q[i]; }
    }
    assert q[i] in q;
  }

  lemma StepsBackComplete(positions: set<U64>, m: map<U64, U64>)
    requires StepsBack(Sorted(positions), m, |Sorted(positions)|)
    ensures m.Keys == positions && forall p :: p in positions ==> m[p] == Predecessor(positions, p)
  {
    forall p | p in positions ensures p in m && m[p] == Predecessor(positions, p) {
      assert p in Sorted(positions);
      var i :| 0 <= i < |Sorted(positions)| && Sorted(positions)[i] == p;
      StepBackIsPredecessor(positions, m, i);
    }
  }

  lemma StepBackIsPredecessor(positions: set<U64>, m: map<U64, U64>, i: nat)
    requires StepsBack(Sorted(positions), m, |Sorted(positions)|) && i < |Sorted(positions)|
    ensures var p := Sorted(positions)[i]; p in m && m[p] == Predecessor(positions, p)
  {
    var q := Sorted(positions);
    var before := BackFrom(q, i);
    assert q[i] in m && m[q[i]] == before;
    PredecessorInOrder(positions, i);
  }

  /** adoptedPredecessors */
  method AdoptedPredecessors(positions: set<U64>) returns (m: map<U64, U64>)
    ensures m.Keys == positions
    ensures forall p :: p in positions ==> m[p] == Predecessor(positions, p)
  {
    var q := Sorted(positions);
    m := map[];
    var previous: U64 := 0;
    for i := 0 to |q|
      invariant previous == if i == 0 then 0 else q[i - 1]
      invariant StepsBack(q, m, i)
    {
      StepsBackGrow(q, m, i);
      m := m[q[i] := previous];
      previous := q[i];
    }
    StepsBackComplete(positions, m);
  }

  // ----------------------------------------------------- the receipt walk

  /** The walk of verifyEventsEquivalent over the chain, once the source is gone. */
  method WalkReceipts(chain: seq<Link>) returns (ok: bool)
    ensures ok <==> ProvenByReceipts(chain)
  {
    var adopted: nat, previous: U64 := 0, 0;
    while adopted < |chain| && chain[adopted].bears
      invariant adopted <= |chain| && previous == Before(chain, adopted)
      invariant forall i :: 0 <= i < adopted ==> chain[i].bears && chain[i].verdict == Chained(Before(chain, i))
    {
      if chain[adopted].verdict != Chained(previous) { return false; }
      previous := chain[adopted].pos;
      adopted := adopted + 1;
    }
    if adopted == 0 { return false; }
    for k := adopted to |chain|
      invariant forall i :: adopted <= i < k ==> !chain[i].bears
    {
      if chain[k].bears { return false; }
    }
    assert AdoptedPrefix(chain, adopted);
    return true;
  }

  // -------------------------------------------------- verifyEventsEquivalent

  /** The index verifyEventsEquivalent builds: no repeats, no foreign records. */
  method IndexOwned(existing: seq<Record>, owned: Record -> bool) returns (ok: bool, bySeq: map<U64, Record>)
    ensures ok <==> Distinct(existing) && forall i :: 0 <= i < |existing| ==> owned(existing[i])
    ensures ok ==> bySeq == ByPos(existing)
  {
    bySeq := map[];
    for i := 0 to |existing|
      invariant bySeq == ByPos(existing[..i]) && Distinct(existing[..i])
      invariant forall k :: 0 <= k < i ==> owned(existing[k])
    {
      var e := existing[i];
      if e.pos in bySeq { RepeatedPosition(existing, i); return false, bySeq; }
      if !owned(e) { return false, bySeq; }
      ByPosExtends(existing, i);
      ByPosAt(existing[..i], e.pos);
      DistinctExtends(existing, i);
      bySeq := bySeq[e.pos := e];
    }
    assert existing[..|existing|] == existing;
    ok := true;
  }

  lemma DistinctExtends(s: seq<Record>, i: nat)
    requires i < |s| && Distinct(s[..i]) && LastIndex(s[..i], s[i].pos).None?
    ensures Distinct(s[..i + 1])
  {
    assert forall k :: 0 <= k < i ==> s[..i + 1][k] == s[..i][k];
  }

  /** While the source exists: sequences are distinct, every record is the tenant's,
      every expected record is there, and any record at another sequence comes after
      all expected ones. */
  ghost predicate HoldsAdoption(tenant: Tenancy.TenantContext, expected: seq<Record>, existing: seq<Record>) {
    && (forall i, j :: 0 <= i < j < |existing| ==> existing[i].pos != existing[j].pos)
    && (forall r :: r in existing ==> Tenancy.UnmarshalTenant(r.meta) == Some(tenant))
    && (forall e :: e in expected ==> e in existing)
    && (forall r, e :: r in existing && e in expected && IsExtra(r, expected) ==> r.pos > e.pos)
  }

  /** No expected record has r's sequence. */
  ghost predicate IsExtra(r: Record, expected: seq<Record>) {
    forall e :: e in expected ==> e.pos != r.pos
  }

  lemma ExtraIff(r: Record, expected: seq<Record>)
    ensures IsExtra(r, expected) <==> r.pos !in Positions(expected)
  {
    if r.pos !in Positions(expected) {
      forall e | e in expected ensures e.pos != r.pos {
        var k :| 0 <= k < |expected| && expected[k] == e;
      }
    }
    if IsExtra(r, expected) {
      forall k | 0 <= k < |expected| ensures expected[k].pos != r.pos {
        assert expected[k] in expected;
      }
    }
  }

  lemma AllHeldIff(expected: seq<Record>, existing: seq<Record>)
    requires Distinct(existing)
    ensures (forall i :: 0 <= i < |expected| ==>
               expected[i].pos in ByPos(existing) && ByPos(existing)[expected[i].pos] == expected[i])
       <==> (forall e :: e in expected ==> e in existing)
  {
    forall e ensures e in existing <==> e.pos in ByPos(existing) && ByPos(existing)[e.pos] == e {
      ByPosAt(existing, e.pos);
      if e in existing {
        var k :| 0 <= k < |existing| && existing[k] == e;
        ByPosOfDistinct(existing, k);
      }
    }
    assert forall i :: 0 <= i < |expected| ==> expected[i] in expected;
  }

  lemma ExtrasLaterIff(expected: seq<Record>, existing: seq<Record>)
    requires expected != []
    ensures (forall p :: p in ByPos(existing) && p !in Positions(expected) ==> p > MaxPos(expected, 0))
       <==> (forall r, e :: r in existing && e in expected && IsExtra(r, expected) ==> r.pos > e.pos)
  {
    ByPosKeysOf(existing);
    if forall p :: p in ByPos(existing) && p !in Positions(expected) ==> p > MaxPos(expected, 0) {
      forall r, e | r in existing && e in expected && IsExtra(r, expected) ensures r.pos > e.pos {
        ExtraIff(r, expected);
        MaxPosIsUpperBound(expected, e);
      }
    }
    if forall r, e :: r in existing && e in expected && IsExtra(r, expected) ==> r.pos > e.pos {
      forall p | p in ByPos(existing) && p !in Positions(expected) ensures p > MaxPos(expected, 0) {
        var r :| r in existing && r.pos == p;
        ExtraIff(r, expected);
        MaxPosIsMember(expected);
        var k :| 0 <= k < |expected| && expected[k].pos == MaxPos(expected, 0);
        assert expected[k] in expected;
      }
    }
  }

  /** What it takes to be accepted while the source exists. */
  lemma EquivalentIff(seal: Seal, scope: Scope, tenant: Tenancy.TenantContext, expected: seq<Record>,
                      existing: seq<Record>)
    requires expected != []
    ensures EventsEquivalent(seal, scope, tenant, expected, existing) <==> HoldsAdoption(tenant, expected, existing)
  {
    ExtrasLaterIff(expected, existing);
    if Distinct(existing) { AllHeldIff(expected, existing); }
    AllOwnedIff(tenant, existing);
  }

  lemma AllOwnedIff(tenant: Tenancy.TenantContext, existing: seq<Record>)
    ensures (forall i :: 0 <= i < |existing| ==> OwnedBy(existing[i], tenant))
       <==> (forall r :: r in existing ==> Tenancy.UnmarshalTenant(r.meta) == Some(tenant))
  {
    assert forall i :: 0 <= i < |existing| ==> existing[i] in existing;
  }

  /** So for the copies of a source stream: each of them is in the target, and any
      other record lies above every source event. */
  lemma AcceptedIff(c: Config, t: Intent, all: seq<Record>, existing: seq<Record>)
    requires all != []
    ensures EventsEquivalent(c.seal, c.source, t.tenant, EventCopies(c, t, all), existing) <==>
            && NoTwoAlike(existing)
            && (forall r :: r in existing ==> Tenancy.UnmarshalTenant(r.meta) == Some(t.tenant))
            && (forall e :: e in all ==> EventCopy(c, t, all, e) in existing)
            && (forall r, e :: r in existing && e in all && IsExtra(r, all) ==> r.pos > e.pos)
  {
    var copies := EventCopies(c, t, all);
    EquivalentIff(c.seal, c.source, t.tenant, copies, existing);
    CopiesOf(c, t, all);
  }

  lemma CopiesOf(c: Config, t: Intent, all: seq<Record>)
    ensures var copies := EventCopies(c, t, all);
            && (forall e :: e in all ==> EventCopy(c, t, all, e) in copies)
            && (forall x :: x in copies ==> exists e :: e in all && x == EventCopy(c, t, all, e))
            && (forall r :: IsExtra(r, copies) <==> IsExtra(r, all))
  {
    var copies := EventCopies(c, t, all);
    forall e | e in all ensures EventCopy(c, t, all, e) in copies {
      var i :| 0 <= i < |all| && all[i] == e;
      assert copies[i] in copies;
    }
    forall x | x in copies ensures exists e :: e in all && x == EventCopy(c, t, all, e) {
      var i :| 0 <= i < |copies| && copies[i] == x;
      assert all[i] in all;
    }
    forall r ensures IsExtra(r, copies) <==> IsExtra(r, all) {
      if IsExtra(r, copies) {
        forall e | e in all ensures e.pos != r.pos { assert EventCopy(c, t, all, e) in copies; }
      }
      if IsExtra(r, all) {
        forall x | x in copies ensures x.pos != r.pos {
          var e :| e in all && x == EventCopy(c, t, all, e);
        }
      }
    }
  }

  /** One record of the target below some source event, at a sequence the source does
      not have: the adoption fails and touches nothing, whatever the calls do. */
  lemma EarlierExtraFails(c: Config, t: Intent, start: Pair<Option<Log>>, f: EventFaults, r: Record, e: Record)
    requires r in Replay(start.target) && e in Replay(start.source)
    requires IsExtra(r, Replay(start.source)) && r.pos < e.pos
    ensures AdoptEvents(c, t, start, f) == Adopted(FAILED, [])
  {
    AcceptedIff(c, t, Replay(start.source), Replay(start.target));
  }

  method VerifyEventsEquivalent(seal: Seal, scope: Scope, tenant: Tenancy.TenantContext, expected: seq<Record>,
                                existing: seq<Record>)
    returns (ok: bool)
    ensures ok <==> EventsEquivalent(seal, scope, tenant, expected, existing)
    ensures expected != [] ==> (ok <==> HoldsAdoption(tenant, expected, existing))
  {
    if expected != [] { EquivalentIff(seal, scope, tenant, expected, existing); }
    var indexed, bySeq := IndexOwned(existing, r => OwnedBy(r, tenant));
    if !indexed { return false; }
    if expected == [] {
      ok := WalkReceipts(Chain(seal, scope, InOrder(bySeq)));
    } else {
      ok := ContainsSource(expected, bySeq);
    }
  }

  /** The comparison half of verifyEventsEquivalent, while the source exists. */
  method ContainsSource(expected: seq<Record>, m: map<U64, Record>) returns (ok: bool)
    requires expected != []
    ensures ok <==> ContainsExactly(expected, m)
    ensures ok <==> && (forall e :: e in expected ==> e.pos in m && m[e.pos] == e)
                    && (forall p, e :: p in m && e in expected && p !in Positions(expected) ==> p > e.pos)
  {
    ContainsExactlyIff(expected, m);
    var maxExpected: U64, adopted: set<U64> := 0, {};
    for i := 0 to |expected|
      invariant maxExpected == MaxPos(expected[..i], 0) && adopted == Positions(expected[..i])
      invariant forall k :: 0 <= k < i ==> expected[k].pos in m && m[expected[k].pos] == expected[k]
    {
      var want := expected[i];
      if want.pos !in m || m[want.pos] != want { return false; }
      assert expected[..i + 1][..i] == expected[..i];
      PositionsExtend(expected, i);
      adopted := adopted + {want.pos};
      maxExpected := if want.pos > maxExpected then want.pos else maxExpected;
    }
    assert expected[..|expected|] == expected;
    MaxPosIsMember(expected);
    ok := NoneBefore(m.Keys, adopted, maxExpected);
  }

  lemma ContainsExactlyIff(expected: seq<Record>, m: map<U64, Record>)
    requires expected != []
    ensures ContainsExactly(expected, m) <==>
            && (forall e :: e in expected ==> e.pos in m && m[e.pos] == e)
            && (forall p, e :: p in m && e in expected && p !in Positions(expected) ==> p > e.pos)
  {
    assert forall i :: 0 <= i < |expected| ==> expected[i] in expected;
    MaxPosIsMember(expected);
    var k :| 0 <= k < |expected| && expected[k].pos == MaxPos(expected, 0);
    forall e | e in expected ensures e.pos <= MaxPos(expected, 0) {
      MaxPosIsUpperBound(expected, e);
    }
    if forall p, e :: p in m && e in expected && p !in Positions(expected) ==> p > e.pos {
      forall p | p in m && p !in Positions(expected) ensures p > MaxPos(expected, 0) {
        assert expected[k] in expected;
      }
    }
  }

  method NoneBefore(positions: set<U64>, adopted: set<U64>, maxExpected: U64) returns (ok: bool)
    requires maxExpected in adopted
    ensures ok <==> forall p :: p in positions && p !in adopted ==> p > maxExpected
  {
    var left := positions;
    while left != {}
      invariant left <= positions
      invariant forall p :: p in positions && p !in left && p !in adopted ==> p > maxExpected
      decreases |left|
    {
      var p :| p in left;
      if p !in adopted && p < maxExpected { return false; }
      left := left - {p};
    }
    return true;
  }

  lemma PositionsExtend(s: seq<Record>, i: nat)
    requires i < |s|
    ensures Positions(s[..i + 1]) == Positions(s[..i]) + {s[i].pos}
  {
    assert forall k :: 0 <= k < i ==> s[..i + 1][k] == s[..i][k];
    forall p | p in Positions(s[..i]) ensures p in Positions(s[..i + 1]) {
      var k :| 0 <= k < i && s[..i][k].pos == p;
      assert s[..i + 1][k].pos == p;
    }
    assert s[..i + 1][i].pos == s[i].pos;
  }

  /** The greatest position is held, unless it is the floor. */
  lemma {:induction false} MaxPosIsMember(s: seq<Record>)
    ensures MaxPos(s, 0) == 0 || MaxPos(s, 0) in Positions(s)
    ensures s != [] ==> MaxPos(s, 0) in Positions(s)
  {
    if s != [] {
      var front := s[..|s| - 1];
      MaxPosIsMember(front);
      assert s[..|s| - 1 + 1] == s;
      PositionsExtend(s, |s| - 1);
    }
  }
}
