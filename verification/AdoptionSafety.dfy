/** What an adoption can never do to one aggregate, whatever its store calls do:
    lose a source record, or take a foreign or incomplete stream for its own. */
module AdoptionSafety {
  import opened GoText
  import opened Conflict
  import opened Records
  import opened EventLog
  import opened Adoption
  import Tenancy

  // ------------------------------------------------------- nothing is lost

  /** Every event the adoption set out with is still in the source, or its
      stamped copy is in the target. */
  ghost predicate EventsKept(c: Config, t: Intent, all: seq<Record>, now: Pair<Option<Log>>) {
    forall e :: e in all ==> e in Replay(now.source) || EventCopy(c, t, all, e) in Replay(now.target)
  }

  /** In words of the records alone: every event is in the source, or the target has
      it under the tenant's metadata and a receipt. */
  ghost predicate EventsPreserved(tenant: Tenancy.TenantContext, all: seq<Record>, now: Pair<Option<Log>>) {
    forall e :: e in all ==>
      e in Replay(now.source) || exists r :: r in Replay(now.target) && IsCopy(tenant, e, r)
  }

  lemma KeptIsPreserved(c: Config, t: Intent, all: seq<Record>, now: Pair<Option<Log>>)
    requires EventsKept(c, t, all, now)
    ensures EventsPreserved(t.tenant, all, now)
  {
    forall e | e in all && e !in Replay(now.source)
      ensures exists r :: r in Replay(now.target) && IsCopy(t.tenant, e, r)
    {
      CopiesAreCopies(c, t, all, e);
      assert EventCopy(c, t, all, e) in Replay(now.target);
    }
  }

  ghost predicate AllCopied(c: Config, t: Intent, all: seq<Record>, target: seq<Record>) {
    forall e :: e in all ==> EventCopy(c, t, all, e) in target
  }

  lemma CopiesKeepPositions(c: Config, t: Intent, all: seq<Record>)
    ensures Positions(EventCopies(c, t, all)) == Positions(all)
    ensures Distinct(all) ==> Distinct(EventCopies(c, t, all))
    ensures MaxPos(EventCopies(c, t, all), 0) == MaxPos(all, 0)
  {
    var copies := EventCopies(c, t, all);
    assert forall i :: 0 <= i < |all| ==> copies[i].pos == all[i].pos;
    forall p | p in Positions(all) ensures p in Positions(copies) {
      var i :| 0 <= i < |all| && all[i].pos == p;
      assert copies[i].pos == p;
    }
    MaxPosSame(copies, all);
  }

  lemma {:induction false} MaxPosSame(a: seq<Record>, b: seq<Record>)
    requires |a| == |b| && forall i :: 0 <= i < |a| ==> a[i].pos == b[i].pos
    ensures MaxPos(a, 0) == MaxPos(b, 0)
  {
    if a != [] { MaxPosSame(a[..|a| - 1], b[..|b| - 1]); }
  }

  lemma MatchedMeansCopied(c: Config, t: Intent, all: seq<Record>, written: seq<Record>)
    requires Distinct(all) && MatchBySequence(EventCopies(c, t, all), written)
    ensures AllCopied(c, t, all, written)
  {
    var copies := EventCopies(c, t, all);
    CopiesKeepPositions(c, t, all);
    forall e | e in all ensures EventCopy(c, t, all, e) in written {
      var i :| 0 <= i < |all| && all[i] == e;
      ByPosOfDistinct(copies, i);
      ByPosAt(written, copies[i].pos);
    }
  }

  lemma EquivalentMeansCopied(c: Config, t: Intent, all: seq<Record>, existing: seq<Record>)
    requires all != [] && EventsEquivalent(c.seal, c.source, t.tenant, EventCopies(c, t, all), existing)
    ensures AllCopied(c, t, all, existing)
  {
    var copies := EventCopies(c, t, all);
    forall e | e in all ensures EventCopy(c, t, all, e) in existing {
      var i :| 0 <= i < |all| && all[i] == e;
      assert copies[i].pos in ByPos(existing);
      ByPosAt(existing, copies[i].pos);
    }
  }

  /** After every mutating call each event of `all` is in the source or copied,
      and source_deleted is reported only when every copy is in the target and
      the source log is empty. */
  ghost predicate Lossless(c: Config, t: Intent, all: seq<Record>, start: Pair<Option<Log>>, a: Adopted<Option<Log>>) {
    && (forall k :: 0 <= k < |a.trail| ==> EventsKept(c, t, all, a.trail[k]))
    && (a.outcome.status == SourceDeleted ==>
          && (Final(start, a).source.Some? ==> Final(start, a).source.value.events == [])
          && AllCopied(c, t, all, Replay(Final(start, a).target)))
  }

  /** With every copy in place, no effect of the delete can lose an event. */
  lemma DeletionLossless(c: Config, t: Intent, all: seq<Record>, now: Pair<Option<Log>>, wrote: bool, f: EventFaults)
    requires Distinct(all) ==> AllCopied(c, t, all, Replay(now.target))
    ensures Lossless(c, t, all, now, DeleteEvents(now, all, wrote, f))
  {
  }

  lemma PresentLossless(c: Config, t: Intent, start: Pair<Option<Log>>, f: EventFaults)
    ensures var all, existing := Replay(start.source), Replay(start.target);
            var equivalent := EventsEquivalent(c.seal, c.source, t.tenant, EventCopies(c, t, all), existing);
            Lossless(c, t, all, start, AfterVerified(c, start, all, equivalent, f))
  {
    var all, existing := Replay(start.source), Replay(start.target);
    if all != [] && EventsEquivalent(c.seal, c.source, t.tenant, EventCopies(c, t, all), existing) {
      EquivalentMeansCopied(c, t, all, existing);
      DeletionLossless(c, t, all, start, false, f);
    }
  }

  lemma WrittenLossless(c: Config, t: Intent, all: seq<Record>, now: Pair<Option<Log>>, f: EventFaults)
    ensures Lossless(c, t, all, now, AfterEventWrite(c, now, all, EventCopies(c, t, all), f))
  {
    if MatchBySequence(EventCopies(c, t, all), Replay(now.target)) {
      if Distinct(all) { MatchedMeansCopied(c, t, all, Replay(now.target)); }
      DeletionLossless(c, t, all, now, true, f);
    }
  }

  /** Nor does it matter what the write reports: a conflict that leads to the
      deletion has found every copy in the target. */
  lemma ReplyLossless(c: Config, t: Intent, now: Pair<Option<Log>>, f: EventFaults)
    ensures var all := Replay(now.source);
            Lossless(c, t, all, now, AfterEventReply(c, t, now, all, EventCopies(c, t, all), f))
  {
    match ReplyOf(f.write)
    case ReportsError =>
    case ReportsConflict => PresentLossless(c, t, now, f);
    case Acknowledged => WrittenLossless(c, t, Replay(now.source), now, f);
  }

  lemma PrependLossless(c: Config, t: Intent, all: seq<Record>, start: Pair<Option<Log>>, now: Pair<Option<Log>>,
                        a: Adopted<Option<Log>>)
    requires EventsKept(c, t, all, now) && Lossless(c, t, all, now, a)
    ensures Lossless(c, t, all, start, Adopted(a.outcome, [now] + a.trail))
  {
  }

  /** No loss, whatever each store call really did. */
  lemma EventsNeverLost(c: Config, t: Intent, start: Pair<Option<Log>>, f: EventFaults)
    ensures Lossless(c, t, Replay(start.source), start, AdoptEvents(c, t, start, f))
    ensures var trail := AdoptEvents(c, t, start, f).trail;
            forall k :: 0 <= k < |trail| ==> EventsPreserved(t.tenant, Replay(start.source), trail[k])
  {
    EventsLossless(c, t, start, f);
    var trail := AdoptEvents(c, t, start, f).trail;
    forall k | 0 <= k < |trail| ensures EventsPreserved(t.tenant, Replay(start.source), trail[k]) {
      KeptIsPreserved(c, t, Replay(start.source), trail[k]);
    }
  }

  lemma EventsLossless(c: Config, t: Intent, start: Pair<Option<Log>>, f: EventFaults)
    ensures Lossless(c, t, Replay(start.source), start, AdoptEvents(c, t, start, f))
  {
    var all := Replay(start.source);
    var expected := EventCopies(c, t, all);
    if Replay(start.target) != [] || (f.write.Honest? && start.target.Some?) {
      PresentLossless(c, t, start, f);
    } else {
      var now := start.(target := if f.write.Honest? then Some(Merge(None, expected)) else f.write.after);
      assert EventsKept(c, t, all, now);
      ReplyLossless(c, t, now, f);
      PrependLossless(c, t, all, start, now, AfterEventReply(c, t, now, all, expected, f));
    }
  }

  /** copy is r but for its metadata, which reads as the tenant and bears a receipt. */
  predicate IsCopy(tenant: Tenancy.TenantContext, r: Record, copy: Record) {
    && copy.pid == r.pid && copy.pos == r.pos && copy.body == r.body
    && RECEIPT_KEY in copy.meta
    && (Tenancy.Constructed(tenant) ==> Tenancy.UnmarshalTenant(copy.meta) == Some(tenant))
  }

  lemma StampIsCopy(c: Config, t: Intent, predecessor: Option<U64>, r: Record)
    ensures IsCopy(t.tenant, r, Stamp(c.seal, c.source, Tenancy.MarshalTenant(t.tenant), predecessor, r))
  {
    ReceiptKeyIsForeign(t.tenant);
    var stamped := Stamp(c.seal, c.source, Tenancy.MarshalTenant(t.tenant), predecessor, r);
    assert Tenancy.CarriesTenant(stamped.meta, t.tenant);
    Tenancy.TenantRoundTrip(t.tenant, stamped.meta);
  }

  /** The event, snapshot and state copies differ from their originals in the metadata
      only, are the tenant's own and bear a receipt. */
  lemma CopiesAreCopies(c: Config, t: Intent, all: seq<Record>, r: Record)
    ensures IsCopy(t.tenant, r, EventCopy(c, t, all, r)) && IsCopy(t.tenant, r, RecordCopy(c, t, r))
  {
    StampIsCopy(c, t, Some(Predecessor(Positions(all), r.pos)), r);
    StampIsCopy(c, t, None, r);
  }

  /** The latest source snapshot is still held, or the target's latest one is its
      copy. */
  ghost predicate SnapshotKept(c: Config, t: Intent, snapshot: Option<Record>, now: Pair<Snapshots>) {
    snapshot.Some? ==> snapshot.value in now.source.Values || SnapshotCopied(c, t, snapshot.value, now.target)
  }

  ghost predicate SnapshotCopied(c: Config, t: Intent, snapshot: Record, target: Snapshots) {
    && Latest(target) == Some(RecordCopy(c, t, snapshot))
    && IsCopy(t.tenant, snapshot, Latest(target).value)
  }

  lemma SnapshotNeverLost(c: Config, t: Intent, start: Pair<Snapshots>, f: SnapshotFaults)
    ensures var snapshot, a := Latest(start.source), AdoptSnapshot(c, t, start, f);
            && (forall k :: 0 <= k < |a.trail| ==> SnapshotKept(c, t, snapshot, a.trail[k]))
            && (a.outcome.status == SourceDeleted ==>
                  && snapshot.Some? && var last := Final(start, a);
                  last.source == map[] && SnapshotCopied(c, t, snapshot.value, last.target))
            && (a.outcome.status == Copied && c.write ==>
                  snapshot.Some? && SnapshotCopied(c, t, snapshot.value, Final(start, a).target))
            && (a.outcome.status == AlreadyPresent && snapshot.Some? ==>
                  SnapshotCopied(c, t, snapshot.value, Final(start, a).target))
  {
    var snapshot := Latest(start.source);
    if snapshot.Some? {
      CopiesAreCopies(c, t, [], snapshot.value);
      assert MaxOf(start.source.Keys) in start.source;
      assert snapshot.value in start.source.Values;
    }
  }

  lemma StateNeverLost(c: Config, t: Intent, start: Pair<Option<Record>>, f: StateFaults)
    ensures forall k :: 0 <= k < |AdoptState(c, t, start, f).trail| ==>
            AdoptState(c, t, start, f).trail[k].source == start.source
    ensures var a := AdoptState(c, t, start, f);
            (a.outcome.status == Copied && c.write) || (a.outcome.status == AlreadyPresent && start.source.Some?) ==>
              && start.source.Some? && Final(start, a).target == Some(RecordCopy(c, t, start.source.value))
              && IsCopy(t.tenant, start.source.value, Final(start, a).target.value)
  {
    if start.source.Some? { CopiesAreCopies(c, t, [], start.source.value); }
  }

  // ----------------------------------------------------- receipt soundness

  /** A receipt-bearing record either proves nothing, or bears a receipt that was
      issued to an event of the stream `all`, adopted from scope c.source. */
  ghost predicate IssuedFor(c: Config, t: Intent, all: seq<Record>, r: Record) {
    VerifyReceipt(c.seal, c.source, r).Chained? ==>
      exists e :: e in all && r.meta[RECEIPT_KEY] == EventCopy(c, t, all, e).meta[RECEIPT_KEY]
  }

  lemma ReceiptKeyIsForeign(tenant: Tenancy.TenantContext)
    ensures RECEIPT_KEY !in Tenancy.TENANT_KEYS && RECEIPT_KEY !in Tenancy.MarshalTenant(tenant)
  {
    Tenancy.TenantKeysDistinct();
    assert |RECEIPT_KEY| == 20;
  }

  /** Such a record is the stamped copy of one event of the stream. */
  lemma IssuedIsCopy(c: Config, t: Intent, all: seq<Record>, r: Record) returns (e: Record)
    requires Ideal(c.seal) && ValidScope(c.source) && IssuedFor(c, t, all, r)
    requires VerifyReceipt(c.seal, c.source, r).Chained?
    ensures e in all && r == EventCopy(c, t, all, e)
    ensures VerifyReceipt(c.seal, c.source, r) == Chained(Predecessor(Positions(all), e.pos))
  {
    ReceiptKeyIsForeign(t.tenant);
    e :| e in all && r.meta[RECEIPT_KEY] == EventCopy(c, t, all, e).meta[RECEIPT_KEY];
    ReceiptBindsRecord(c.seal, c.source, r, c.source, Tenancy.MarshalTenant(t.tenant),
                       Predecessor(Positions(all), e.pos), e);
  }

  /** `s` lists the events of `all` once each, by increasing position. */
  ghost predicate Ordering(all: seq<Record>, s: seq<Record>) {
    && |s| == |all|
    && (forall e :: e in all <==> e in s)
    && (forall i, j :: 0 <= i < j < |s| ==> s[i].pos < s[j].pos)
  }

  lemma ByPosKeys(all: seq<Record>)
    ensures ByPos(all).Keys == Positions(all)
    ensures forall p :: p in ByPos(all) ==> ByPos(all)[p] in all && ByPos(all)[p].pos == p
  {
    forall p: U64 ensures p in ByPos(all) <==> p in Positions(all)
                  ensures p in ByPos(all) ==> ByPos(all)[p] in all && ByPos(all)[p].pos == p
    {
      ByPosAt(all, p);
    }
  }

  lemma InOrderHolds(all: seq<Record>, e: Record)
    requires Distinct(all) && e in all
    ensures e in InOrder(ByPos(all))
  {
    var m := ByPos(all);
    var i :| 0 <= i < |all| && all[i] == e;
    ByPosOfDistinct(all, i);
    assert e.pos in Sorted(m.Keys);
    var k :| 0 <= k < |m| && Sorted(m.Keys)[k] == e.pos;
    assert InOrder(m)[k] == e;
  }

  lemma InOrderIsOrdering(all: seq<Record>)
    requires Distinct(all)
    ensures Ordering(all, InOrder(ByPos(all)))
  {
    ByPosSize(all);
    ByPosKeys(all);
    forall e | e in all ensures e in InOrder(ByPos(all)) {
      InOrderHolds(all, e);
    }
  }

  lemma PredecessorInStream(all: seq<Record>, k: nat)
    requires Distinct(all) && k < |all|
    ensures |InOrder(ByPos(all))| == |all|
    ensures Predecessor(Positions(all), InOrder(ByPos(all))[k].pos) == if k == 0 then 0
            else InOrder(ByPos(all))[k - 1].pos
  {
    ByPosSize(all);
    ByPosKeys(all);
    PredecessorInOrder(ByPos(all).Keys, k);
  }

  /** r is the copy of the k-th event of the ordered stream, and its receipt names
      the event before that one. */
  ghost predicate AtPlace(c: Config, t: Intent, all: seq<Record>, r: Record, k: nat) {
    var s := InOrder(ByPos(all));
    && k < |s|
    && r == EventCopy(c, t, all, s[k])
    && VerifyReceipt(c.seal, c.source, r) == Chained(if k == 0 then 0 else s[k - 1].pos)
  }

  /** r bears a valid chained receipt. */
  ghost predicate Proven(c: Config, r: Record) {
    VerifyReceipt(c.seal, c.source, r).Chained?
  }

  lemma PlaceOf(c: Config, t: Intent, all: seq<Record>, r: Record) returns (k: nat)
    requires Ideal(c.seal) && ValidScope(c.source) && Distinct(all) && IssuedFor(c, t, all, r)
    requires Proven(c, r)
    ensures AtPlace(c, t, all, r, k)
  {
    var e := IssuedIsCopy(c, t, all, r);
    InOrderIsOrdering(all);
    k :| 0 <= k < |all| && InOrder(ByPos(all))[k] == e;
    PredecessorInStream(all, k);
  }

  /** In a strictly increasing stream only place a + 1 has place a before it. */
  lemma NextPlace(s: seq<Record>, a: nat, b: nat)
    requires a < |s| && b < |s| && Rising(s)
    requires s[a].pos == if b == 0 then 0 else s[b - 1].pos
    ensures b == a + 1
  {
    assert b - 1 < a || b - 1 == a || a < b - 1;
  }

  ghost predicate LinkAt(s: seq<Record>, chain: seq<Link>, i: nat, k: nat) {
    && i < |chain| && k < |s| && chain[i].pos == s[k].pos
    && Before(chain, i) == if k == 0 then 0 else s[k - 1].pos
  }

  predicate Rising(s: seq<Record>) {
    (forall a, b :: 0 <= a < b < |s| ==> s[a].pos < s[b].pos) && (forall a :: 0 <= a < |s| ==> s[a].pos > 0)
  }

  ghost predicate Linked(s: seq<Record>, chain: seq<Link>, i: nat) {
    exists k :: LinkAt(s, chain, i, k)
  }

  /** Links that each name the position before their own place of a strictly
      increasing stream start at its first place and skip none. */
  lemma {:induction false} LinksAreConsecutive(s: seq<Record>, chain: seq<Link>, i: nat, k: nat)
    requires Rising(s) && (forall j :: 0 <= j < i ==> Linked(s, chain, j)) && LinkAt(s, chain, i, k)
    ensures k == i
  {
    if i > 0 {
      assert Linked(s, chain, i - 1);
      var k' :| LinkAt(s, chain, i - 1, k');
      LinksAreConsecutive(s, chain, i - 1, k');
      NextPlace(s, i - 1, k);
    }
  }

  lemma PlaceInChain(c: Config, t: Intent, all: seq<Record>, target: seq<Record>, n: nat, i: nat) returns (k: nat)
    requires Ideal(c.seal) && ValidScope(c.source) && Distinct(all)
             && (forall r :: r in target ==> IssuedFor(c, t, all, r))
    requires AdoptedPrefix(Chain(c.seal, c.source, target), n) && i < n
    ensures AtPlace(c, t, all, target[i], k) && LinkAt(InOrder(ByPos(all)), Chain(c.seal, c.source, target), i, k)
  {
    var chain := Chain(c.seal, c.source, target);
    assert chain[i] == LinkOf(c.seal, c.source, target[i]) && target[i] in target;
    k := PlaceOf(c, t, all, target[i]);
  }

  lemma PrefixLinked(c: Config, t: Intent, all: seq<Record>, target: seq<Record>, n: nat)
    requires Ideal(c.seal) && ValidScope(c.source) && Distinct(all)
             && (forall r :: r in target ==> IssuedFor(c, t, all, r))
    requires AdoptedPrefix(Chain(c.seal, c.source, target), n)
    ensures forall j :: 0 <= j < n ==> Linked(InOrder(ByPos(all)), Chain(c.seal, c.source, target), j)
  {
    forall j | 0 <= j < n ensures Linked(InOrder(ByPos(all)), Chain(c.seal, c.source, target), j) {
      var k := PlaceInChain(c, t, all, target, n, j);
    }
  }

  lemma PlaceIsIndex(all: seq<Record>, chain: seq<Link>, n: nat, i: nat, k: nat)
    requires Distinct(all) && (forall e :: e in all ==> e.pos > 0) && i < n
    requires forall j :: 0 <= j < n ==> Linked(InOrder(ByPos(all)), chain, j)
    requires LinkAt(InOrder(ByPos(all)), chain, i, k)
    ensures k == i
  {
    StreamRises(all);
    assert forall j :: 0 <= j < i ==> Linked(InOrder(ByPos(all)), chain, j);
    LinksAreConsecutive(InOrder(ByPos(all)), chain, i, k);
  }

  lemma OrderingRises(all: seq<Record>, s: seq<Record>)
    requires Ordering(all, s) && (forall e :: e in all ==> e.pos > 0)
    ensures Rising(s)
  {
    assert forall a :: 0 <= a < |s| ==> s[a] in s;
  }

  lemma StreamRises(all: seq<Record>)
    requires Distinct(all) && (forall e :: e in all ==> e.pos > 0)
    ensures Rising(InOrder(ByPos(all)))
  {
    InOrderIsOrdering(all);
    OrderingRises(all, InOrder(ByPos(all)));
  }

  /** Receipt chain soundness: once the source is gone, a target is accepted only
      when its receipt-bearing events are an initial segment, in position order,
      of the adopted stream, followed only by events that bear none. A missing
      first or middle event is therefore always rejected. */
  lemma AcceptedTargetIsInitialSegment(c: Config, t: Intent, all: seq<Record>, existing: seq<Record>) returns (n: nat)
    requires Ideal(c.seal) && ValidScope(c.source)
    requires Distinct(all) && forall e :: e in all ==> e.pos > 0
    requires forall r :: r in existing ==> IssuedFor(c, t, all, r)
    requires EventsEquivalent(c.seal, c.source, t.tenant, [], existing)
    ensures 0 < n <= |all| && n <= |existing|
    ensures Ordering(all, InOrder(ByPos(all))) && Ordering(existing, InOrder(ByPos(existing)))
    ensures forall i :: 0 <= i < n ==> InOrder(ByPos(existing))[i] == EventCopy(c, t, all, InOrder(ByPos(all))[i])
    ensures forall i :: n <= i < |existing| ==> RECEIPT_KEY !in InOrder(ByPos(existing))[i].meta
  {
    InOrderIsOrdering(existing);
    InOrderIsOrdering(all);
    n := SegmentOf(c, t, all, InOrder(ByPos(existing)));
  }

  lemma SegmentOf(c: Config, t: Intent, all: seq<Record>, target: seq<Record>) returns (n: nat)
    requires Ideal(c.seal) && ValidScope(c.source)
    requires Distinct(all) && forall e :: e in all ==> e.pos > 0
    requires forall r :: r in target ==> IssuedFor(c, t, all, r)
    requires ProvenByReceipts(Chain(c.seal, c.source, target))
    ensures |InOrder(ByPos(all))| == |all|
    ensures 0 < n <= |all| && n <= |target|
    ensures forall i :: 0 <= i < n ==> target[i] == EventCopy(c, t, all, InOrder(ByPos(all))[i])
    ensures forall i :: n <= i < |target| ==> RECEIPT_KEY !in target[i].meta
  {
    var chain := Chain(c.seal, c.source, target);
    n :| 0 <= n <= |chain| && AdoptedPrefix(chain, n);
    InOrderIsOrdering(all);
    PrefixLinked(c, t, all, target, n);
    forall i | 0 <= i < n ensures AtPlace(c, t, all, target[i], i) {
      var k := PlaceInChain(c, t, all, target, n, i);
      PlaceIsIndex(all, chain, n, i, k);
    }
    assert AtPlace(c, t, all, target[n - 1], n - 1);
    forall i | n <= i < |target| ensures RECEIPT_KEY !in target[i].meta {
      assert chain[i] == LinkOf(c.seal, c.source, target[i]);
    }
  }
}
