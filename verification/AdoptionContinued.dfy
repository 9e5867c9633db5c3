/** Re-running an adoption after the tenant has moved on: events appended to an
    adopted stream do not disturb a re-run, a rewritten snapshot or state makes it
    fail without touching anything. */
module AdoptionContinued {
  import opened GoText
  import opened Conflict
  import opened Records
  import opened EventLog
  import opened Adoption
  import opened AdoptionSafety
  import opened AdoptionFaithful
  import Tenancy

  // ---------------------------------------------------------------- events

  lemma {:induction false} AscendingUnique(a: seq<U64>, b: seq<U64>)
    requires StrictlyAscending(a) && StrictlyAscending(b) && |a| == |b| && forall x :: x in a ==> x in b
    ensures a == b
  {
    if a != [] {
      var last := a[|a| - 1];
      LastIsLast(a, b);
      var front, rest := a[..|a| - 1], b[..|b| - 1];
      forall x | x in front ensures x in rest {
        var i :| 0 <= i < |front| && front[i] == x;
        assert x in a && x < last;
        var j :| 0 <= j < |b| && b[j] == x;
        assert rest[j] == x;
      }
      AscendingUnique(front, rest);
      assert a == front + [last] && b == rest + [last];
    }
  }

  /** Counting from below, each element of a is at least the one of b at its place. */
  lemma {:induction false} AtLeast(a: seq<U64>, b: seq<U64>, i: nat)
    requires StrictlyAscending(a) && StrictlyAscending(b) && i < |a| && i < |b| && forall x :: x in a ==> x in b
    ensures a[i] >= b[i]
  {
    assert a[i] in a;
    var j :| 0 <= j < |b| && b[j] == a[i];
    if i > 0 {
      AtLeast(a, b, i - 1);
      assert b[i - 1] <= a[i - 1] < a[i];
    }
  }

  lemma LastIsLast(a: seq<U64>, b: seq<U64>)
    requires StrictlyAscending(a) && StrictlyAscending(b) && |a| == |b| > 0 && forall x :: x in a ==> x in b
    ensures a[|a| - 1] == b[|b| - 1]
  {
    AtLeast(a, b, |a| - 1);
    assert a[|a| - 1] in a;
    var j :| 0 <= j < |b| && b[j] == a[|a| - 1];
  }

  function PositionList(s: seq<Record>): (q: seq<U64>)
    ensures |q| == |s| && forall i :: 0 <= i < |s| ==> q[i] == s[i].pos
  {
    seq(|s|, i requires 0 <= i < |s| => s[i].pos)
  }

  /** A stream is already in position order. */
  lemma StreamInOrder(s: seq<Record>)
    requires Stream(s)
    ensures InOrder(ByPos(s)) == s
  {
    var q, sorted := PositionList(s), Sorted(ByPos(s).Keys);
    ByPosSize(s);
    forall x | x in q ensures x in sorted {
      var i :| 0 <= i < |q| && q[i] == x;
      ByPosOfDistinct(s, i);
    }
    AscendingUnique(q, sorted);
    forall i | 0 <= i < |s| ensures InOrder(ByPos(s))[i] == s[i] {
      ByPosOfDistinct(s, i);
    }
  }

  /** What the receipt walk sees of the i-th copy. */
  lemma CopyLinkAt(c: Config, t: Intent, all: seq<Record>, i: nat)
    requires Stream(all) && i < |all|
    requires Sound(c, t)
    ensures LinkOf(c.seal, c.source, EventCopies(c, t, all)[i])
         == Link(all[i].pos, true, Chained(if i == 0 then 0 else all[i - 1].pos))
  {
    PredecessorAt(all, i);
    ReceiptKeyIsForeign(t.tenant);
    var predecessor := Some(Predecessor(Positions(all), all[i].pos));
    StampVerifies(c.seal, c.source, Tenancy.MarshalTenant(t.tenant), predecessor, all[i]);
  }

  lemma PredecessorAt(all: seq<Record>, i: nat)
    requires Stream(all) && i < |all|
    ensures Predecessor(Positions(all), all[i].pos) == if i == 0 then 0 else all[i - 1].pos
  {
    forall x | x in Positions(all) && x < all[i].pos ensures i > 0 && x <= all[i - 1].pos {
      var j :| 0 <= j < |all| && all[j].pos == x;
    }
    if i > 0 {
      assert all[i - 1].pos in Positions(all) && all[i - 1].pos < all[i].pos;
      PredecessorIs(Positions(all), all[i].pos, all[i - 1].pos);
    }
  }

  predicate AllOwned(more: seq<Record>, tenant: Tenancy.TenantContext) {
    forall i :: 0 <= i < |more| ==> OwnedBy(more[i], tenant)
  }

  predicate NoReceipts(more: seq<Record>) {
    forall i :: 0 <= i < |more| ==> RECEIPT_KEY !in more[i].meta
  }

  lemma OwnedTogether(c: Config, t: Intent, all: seq<Record>, more: seq<Record>)
    requires Sound(c, t)
    ensures AllOwned(EventCopies(c, t, all) + more, t.tenant) <==> AllOwned(more, t.tenant)
  {
    var copies := EventCopies(c, t, all);
    var existing := copies + more;
    forall i | 0 <= i < |copies| ensures OwnedBy(existing[i], t.tenant) {
      StampOwned(c, t, Some(Predecessor(Positions(all), all[i].pos)), all[i]);
    }
    forall i | 0 <= i < |more| ensures existing[|copies| + i] == more[i] {}
    if AllOwned(existing, t.tenant) {
      forall i | 0 <= i < |more| ensures OwnedBy(more[i], t.tenant) {
        assert OwnedBy(existing[|copies| + i], t.tenant);
      }
    }
  }

  /** A stream holds any part it begins with, and the rest comes later. */
  lemma HeldWithMore(copies: seq<Record>, more: seq<Record>)
    requires Stream(copies + more)
    ensures ContainsExactly(copies, ByPos(copies + more))
  {
    var existing := copies + more;
    forall i | 0 <= i < |copies|
      ensures copies[i].pos in ByPos(existing) && ByPos(existing)[copies[i].pos] == copies[i]
    {
      assert existing[i] == copies[i];
      ByPosOfDistinct(existing, i);
    }
    forall p | p in ByPos(existing) && p !in Positions(copies) ensures p > MaxPos(copies, 0) {
      LaterThan(copies, more, p);
    }
  }

  lemma LaterThan(copies: seq<Record>, more: seq<Record>, p: U64)
    requires Stream(copies + more) && p in ByPos(copies + more) && p !in Positions(copies)
    ensures p > MaxPos(copies, 0)
  {
    var existing := copies + more;
    ByPosKeysOf(existing);
    var x :| x in existing && x.pos == p;
    var k :| 0 <= k < |existing| && existing[k] == x;
    assert forall n :: 0 <= n < |copies| ==> existing[n].pos in Positions(copies);
    BelowLater(existing, |copies|, k);
    assert existing[..|copies|] == copies;
  }

  lemma {:induction false} BelowLater(s: seq<Record>, n: nat, k: nat)
    requires Stream(s) && n <= k < |s|
    ensures MaxPos(s[..n], 0) < s[k].pos
  {
    if n > 0 {
      BelowLater(s, n - 1, k);
      assert s[..n][..n - 1] == s[..n - 1];
      assert s[n - 1].pos < s[k].pos;
    }
  }

  /** While the source exists, an adopted stream with more events behind it is
      accepted exactly when the tenant owns them all. */
  lemma ContinuedWithSource(c: Config, t: Intent, all: seq<Record>, more: seq<Record>)
    requires all != [] && Sound(c, t) && Stream(EventCopies(c, t, all) + more)
    ensures EventsEquivalent(c.seal, c.source, t.tenant, EventCopies(c, t, all), EventCopies(c, t, all) + more)
       <==> AllOwned(more, t.tenant)
  {
    OwnedTogether(c, t, all, more);
    HeldWithMore(EventCopies(c, t, all), more);
  }

  lemma PrefixChain(chain: seq<Link>, q: seq<U64>)
    requires 0 < |q| <= |chain| && forall i :: |q| <= i < |chain| ==> !chain[i].bears
    requires forall i {:trigger chain[i]} :: 0 <= i < |q| ==>
             chain[i] == Link(q[i], true, Chained(if i == 0 then 0 else q[i - 1]))
    ensures ProvenByReceipts(chain)
  {
    assert AdoptedPrefix(chain, |q|);
  }

  lemma ContinuedChain(c: Config, t: Intent, all: seq<Record>, more: seq<Record>)
    requires all != [] && Sound(c, t) && Stream(all) && Stream(EventCopies(c, t, all) + more) && NoReceipts(more)
    ensures ProvenByReceipts(Chain(c.seal, c.source, EventCopies(c, t, all) + more))
  {
    var existing, q := EventCopies(c, t, all) + more, PositionList(all);
    var chain := Chain(c.seal, c.source, existing);
    forall i | 0 <= i < |q| ensures chain[i] == Link(q[i], true, Chained(if i == 0 then 0 else q[i - 1])) {
      assert existing[i] == EventCopies(c, t, all)[i];
      CopyLinkAt(c, t, all, i);
    }
    forall i | |all| <= i < |chain| ensures !chain[i].bears {
      assert existing[i] == more[i - |all|];
    }
    PrefixChain(chain, q);
  }

  /** Once the source is gone, an adopted stream with receipt-free events behind it
      is accepted exactly when the tenant owns them all. */
  lemma ContinuedWithoutSource(c: Config, t: Intent, all: seq<Record>, more: seq<Record>)
    requires all != [] && Sound(c, t) && Stream(all) && Stream(EventCopies(c, t, all) + more) && NoReceipts(more)
    ensures EventsEquivalent(c.seal, c.source, t.tenant, [], EventCopies(c, t, all) + more)
       <==> AllOwned(more, t.tenant)
  {
    OwnedTogether(c, t, all, more);
    StreamInOrder(EventCopies(c, t, all) + more);
    ContinuedChain(c, t, all, more);
  }

  /** The target holds the copies of src, and more events behind them. */
  ghost predicate ContinuedTarget(c: Config, t: Intent, src: Option<Log>, target: Log, more: seq<Record>) {
    && Replay(src) != [] && (src.Some? ==> Distinct(src.value.events)) && Distinct(target.events)
    && Replay(Some(target)) == EventCopies(c, t, Replay(src)) + more
  }

  /** A re-run over a stream the tenant went on appending to: with the source still
      there it deletes that, if it is to, and changes nothing else; it fails exactly
      when an event behind the copies is not the tenant's own. */
  lemma ContinuedRun(c: Config, t: Intent, src: Option<Log>, target: Log, more: seq<Record>)
    requires c.write && Sound(c, t) && ContinuedTarget(c, t, src, target, more)
    ensures AdoptEvents(c, t, Pair(src, Some(target)), HONEST_EVENTS)
         == if !AllOwned(more, t.tenant) then Adopted(FAILED, [])
            else if c.deleteSource then Adopted(Outcome(SourceDeleted, false), [Pair(Emptied(src), Some(target))])
            else Adopted(Outcome(AlreadyPresent, false), [])
  {
    ReplayIsStream(src);
    ReplayIsStream(Some(target));
    ContinuedWithSource(c, t, Replay(src), more);
    HonestDeletion(src, Some(target), false);
  }

  /** With the source emptied it changes nothing at all. */
  lemma ContinuedRerun(c: Config, t: Intent, src: Option<Log>, target: Log, more: seq<Record>)
    requires c.write && Sound(c, t) && ContinuedTarget(c, t, src, target, more) && NoReceipts(more)
    ensures AdoptEvents(c, t, Pair(Emptied(src), Some(target)), HONEST_EVENTS)
         == Adopted(if AllOwned(more, t.tenant) then Outcome(AlreadyPresent, false) else FAILED, [])
  {
    ReplayIsStream(src);
    ReplayIsStream(Some(target));
    EmptiedHoldsNothing(src);
    ContinuedWithoutSource(c, t, Replay(src), more);
    assert EventCopies(c, t, []) == [];
  }

  // ------------------------------------------------- snapshots and states

  /** A copy is accepted as itself; any other record in its place is not. */
  lemma OnlyTheCopyPasses(c: Config, t: Intent, r: Record, existing: Record)
    requires Sound(c, t)
    ensures RecordEquivalent(c.seal, c.source, t.tenant, Some(RecordCopy(c, t, r)), existing) <==>
            existing == RecordCopy(c, t, r)
  {
    StampOwned(c, t, None, r);
  }

  /** A re-run over a target that has a snapshot changes nothing in the target. It
      fails, changing nothing at all, exactly when the latest one there is not the
      copy of the source's latest or, without a source, is not the tenant's or does
      not bear a receipt made out to it; one the tenant wrote since bears none. */
  lemma SnapshotFailsClosedIff(c: Config, t: Intent, p: Pair<Snapshots>)
    requires c.write && Sound(c, t) && p.target != map[] && KeyedByPosition(p.source)
    ensures var a, latest := AdoptSnapshot(c, t, p, HONEST_SNAPSHOT), Latest(p.target).value;
            && (a.outcome.status == Failed <==>
                if p.source != map[] then latest != RecordCopy(c, t, Latest(p.source).value)
                else || Tenancy.UnmarshalTenant(latest.meta) != Some(t.tenant)
                     || !BearsSingle(c.seal, c.source, latest))
            && (a.outcome.status == Failed ==> a.trail == [])
            && Final(p, a).target == p.target
  {
    VerdictIff(c.seal, c.source, Latest(p.target).value);
    if p.source != map[] {
      OnlyTheCopyPasses(c, t, Latest(p.source).value, Latest(p.target).value);
      NothingAboveLatest(p.source);
    }
  }

  /** The same for the durable state, whose source is never deleted. */
  lemma StateFailsClosedIff(c: Config, t: Intent, p: Pair<Option<Record>>)
    requires c.write && Sound(c, t) && p.target.Some?
    ensures var a, state := AdoptState(c, t, p, HONEST_STATE), p.target.value;
            && (a.outcome.status == Failed <==>
                if p.source.Some? then state != RecordCopy(c, t, p.source.value)
                else || Tenancy.UnmarshalTenant(state.meta) != Some(t.tenant)
                     || !BearsSingle(c.seal, c.source, state))
            && a.trail == []
  {
    VerdictIff(c.seal, c.source, p.target.value);
    if p.source.Some? { OnlyTheCopyPasses(c, t, p.source.value, p.target.value); }
  }

  /** A record with the receipt of another one, or of another scope: `r` bears the
      receipt that `s` was stamped with for `issuer`, and is not that record. */
  ghost predicate Borrowed(c: Config, issuer: Scope, base: Tenancy.Metadata, s: Record, r: Record) {
    && ValidScope(c.source) && ValidScope(issuer) && RECEIPT_KEY !in base && RECEIPT_KEY in r.meta
    && r.meta[RECEIPT_KEY] == Stamp(c.seal, issuer, base, None, s).meta[RECEIPT_KEY]
    && (issuer != c.source || r != Stamp(c.seal, c.source, base, None, s))
  }

  /** Without a source a re-run fails on it and touches nothing, whatever the calls do. */
  lemma BorrowedReceiptFails(c: Config, t: Intent, issuer: Scope, base: Tenancy.Metadata, s: Record, r: Record,
                             snapshots: Snapshots, f: SnapshotFaults, g: StateFaults)
    requires Ideal(c.seal) && Borrowed(c, issuer, base, s, r)
    requires snapshots != map[] && Latest(snapshots) == Some(r)
    ensures AdoptSnapshot(c, t, Pair(map[], snapshots), f) == Adopted(FAILED, [])
    ensures AdoptState(c, t, Pair(None, Some(r)), g) == Adopted(FAILED, [])
  {
    SingleReceiptBinds(c.seal, c.source, r, issuer, base, s);
  }
}
