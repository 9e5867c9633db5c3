/** One aggregate over faithful stores: the stages an adoption passes through, and
    why a re-run completes it from any of them. */
module AdoptionFaithful {
  import opened GoText
  import opened Records
  import opened EventLog
  import opened Adoption
  import opened AdoptionSafety
  import Tenancy

  const HONEST_EVENTS := EventFaults(false, false, Honest, false, false, false, Honest, false)
  const HONEST_SNAPSHOT := SnapshotFaults(false, false, Honest, false, false, Honest, false)
  const HONEST_STATE := StateFaults(false, false, Honest, false, false)

  /** The intent names a real tenant, and digests are well-formed text. */
  ghost predicate Sound(c: Config, t: Intent) {
    Tenancy.Constructed(t.tenant) && ColonFree(c.seal)
  }

  lemma StampOwned(c: Config, t: Intent, predecessor: Option<U64>, r: Record)
    requires Tenancy.Constructed(t.tenant)
    ensures OwnedBy(Stamp(c.seal, c.source, Tenancy.MarshalTenant(t.tenant), predecessor, r), t.tenant)
  {
    ReceiptKeyIsForeign(t.tenant);
    var stamped := Stamp(c.seal, c.source, Tenancy.MarshalTenant(t.tenant), predecessor, r);
    assert Tenancy.CarriesTenant(stamped.meta, t.tenant);
    Tenancy.TenantRoundTrip(t.tenant, stamped.meta);
  }

  // ---------------------------------------------------------------- events

  /** What a full replay of the source yields. */
  predicate Stream(all: seq<Record>) {
    Distinct(all) && Ascending(all) && forall i :: 0 <= i < |all| ==> all[i].pos > 0
  }

  lemma ReplayIsStream(log: Option<Log>)
    requires log.Some? ==> Distinct(log.value.events)
    ensures Stream(Replay(log))
  {
    if log.Some? {
      ReplayOfDistinct(log.value);
      ReplayHolds(log.value);
    }
  }

  lemma CopiesHeldExactly(c: Config, t: Intent, all: seq<Record>)
    requires Stream(all) && all != [] && Sound(c, t)
    ensures EventsEquivalent(c.seal, c.source, t.tenant, EventCopies(c, t, all), EventCopies(c, t, all))
  {
    var copies := EventCopies(c, t, all);
    CopiesKeepPositions(c, t, all);
    forall i | 0 <= i < |copies|
      ensures OwnedBy(copies[i], t.tenant)
      ensures copies[i].pos in ByPos(copies) && ByPos(copies)[copies[i].pos] == copies[i]
    {
      StampOwned(c, t, Some(Predecessor(Positions(all), all[i].pos)), all[i]);
      ByPosOfDistinct(copies, i);
    }
    ByPosKeys(copies);
  }

  /** Place by place, the ordered copies are a valid chain. */
  lemma CopyLinks(c: Config, t: Intent, all: seq<Record>, i: nat)
    requires Stream(all) && i < |all| && Sound(c, t)
    ensures var copies := EventCopies(c, t, all);
            && |InOrder(ByPos(copies))| == |all|
            && LinkOf(c.seal, c.source, InOrder(ByPos(copies))[i])
               == Link(Sorted(ByPos(copies).Keys)[i], true,
                       Chained(if i == 0 then 0 else Sorted(ByPos(copies).Keys)[i - 1]))
  {
    var copies := EventCopies(c, t, all);
    CopiesKeepPositions(c, t, all);
    ByPosKeys(copies);
    ByPosSize(copies);
    var r := InOrder(ByPos(copies))[i];
    assert r in copies;
    CopyLink(c, t, all, r);
    PredecessorInOrder(Positions(all), i);
  }

  /** A copy bears a receipt that names its predecessor in the stream. */
  lemma CopyLink(c: Config, t: Intent, all: seq<Record>, r: Record)
    requires r in EventCopies(c, t, all) && Sound(c, t)
    ensures LinkOf(c.seal, c.source, r) == Link(r.pos, true, Chained(Predecessor(Positions(all), r.pos)))
  {
    var copies := EventCopies(c, t, all);
    var k :| 0 <= k < |copies| && copies[k] == r;
    ReceiptKeyIsForeign(t.tenant);
    StampVerifies(c.seal, c.source, Tenancy.MarshalTenant(t.tenant), Some(Predecessor(Positions(all), r.pos)), all[k]);
  }

  lemma FullChain(chain: seq<Link>, q: seq<U64>)
    requires chain != [] && |q| == |chain|
    requires forall i {:trigger chain[i]} :: 0 <= i < |chain| ==>
             chain[i] == Link(q[i], true, Chained(if i == 0 then 0 else q[i - 1]))
    ensures ProvenByReceipts(chain)
  {
    assert AdoptedPrefix(chain, |chain|);
  }

  lemma CopiesProveThemselves(c: Config, t: Intent, all: seq<Record>)
    requires Stream(all) && all != [] && Sound(c, t)
    ensures EventsEquivalent(c.seal, c.source, t.tenant, [], EventCopies(c, t, all))
  {
    CopiesHeldExactly(c, t, all);
    CopiesFormChain(c, t, all, Chain(c.seal, c.source, InOrder(ByPos(EventCopies(c, t, all)))));
  }

  lemma CopiesFormChain(c: Config, t: Intent, all: seq<Record>, chain: seq<Link>)
    requires Stream(all) && all != [] && Sound(c, t)
    requires chain == Chain(c.seal, c.source, InOrder(ByPos(EventCopies(c, t, all))))
    ensures ProvenByReceipts(chain)
  {
    var q := Sorted(ByPos(EventCopies(c, t, all)).Keys);
    CopyLinks(c, t, all, 0);
    forall i | 0 <= i < |chain| ensures chain[i] == Link(q[i], true, Chained(if i == 0 then 0 else q[i - 1])) {
      CopyLinks(c, t, all, i);
    }
    FullChain(chain, q);
  }

  /** The log a faithful copy leaves in a fresh target. */
  function CopyLog(c: Config, t: Intent, src: Option<Log>): Log {
    Merge(None, EventCopies(c, t, Replay(src)))
  }

  /** The source log once its verified events are deleted. */
  function Emptied(src: Option<Log>): Option<Log> {
    HonestDelete(src, MaxPos(Replay(src), 0))
  }

  lemma EmptiedHoldsNothing(src: Option<Log>)
    ensures Emptied(src).Some? ==> Emptied(src).value.events == []
    ensures Replay(Emptied(src)) == []
  {
    if src.Some? {
      ReplayHolds(src.value);
      var left := Emptied(src).value.events;
      if left != [] {
        var r := left[0];
        assert r in left && r in src.value.events && r.pos > 0;
        MaxPosIsUpperBound(Replay(src), r);
      }
    }
  }

  lemma CopyLogReplays(c: Config, t: Intent, src: Option<Log>)
    requires src.Some? ==> Distinct(src.value.events)
    ensures Replay(Some(CopyLog(c, t, src))) == EventCopies(c, t, Replay(src))
  {
    ReplayIsStream(src);
    CopiesKeepPositions(c, t, Replay(src));
    FreshLogReplays(EventCopies(c, t, Replay(src)));
  }

  lemma FreshLogReplays(s: seq<Record>)
    requires Stream(s)
    ensures Replay(Some(Merge(None, s))) == s
  {
    MergeFresh(s);
    AboveKeepsDistinct(s, 0);
    ReplayKeepsOrder(s);
  }

  /** The stages of a write run over source log src and a fresh target: nothing
      done, copied, and, when it deletes, source emptied. */
  ghost predicate EventsStage(c: Config, t: Intent, src: Option<Log>, p: Pair<Option<Log>>) {
    || p == Pair(src, None)
    || (Replay(src) != [] && p == Pair(src, Some(CopyLog(c, t, src))))
    || (Replay(src) != [] && c.deleteSource && p == Pair(Emptied(src), Some(CopyLog(c, t, src))))
  }

  function EventsSettled(c: Config, t: Intent, src: Option<Log>): Pair<Option<Log>> {
    if Replay(src) == [] then Pair(src, None)
    else Pair(if c.deleteSource then Emptied(src) else src, Some(CopyLog(c, t, src)))
  }

  /** Every mutating call takes its full effect or none, whatever it reports: a
      crash anywhere, or a failure reported after the fact. */
  ghost predicate AtomicEvents(c: Config, t: Intent, p: Pair<Option<Log>>, f: EventFaults) {
    && (f.write.Broken? ==> f.write.after == p.target || f.write.after == Some(CopyLog(c, t, p.source)))
    && (f.delete.Broken? ==> f.delete.after == p.source || f.delete.after == Emptied(p.source))
  }

  /** Same records, same check: the re-read of an untouched source passes. */
  lemma RereadPasses(all: seq<Record>)
    requires Stream(all)
    ensures SameBySequence(all, all) && MatchBySequence(all, all)
  {
  }

  ghost predicate AllStages(c: Config, t: Intent, src: Option<Log>, trail: seq<Pair<Option<Log>>>) {
    forall i :: 0 <= i < |trail| ==> EventsStage(c, t, src, trail[i])
  }

  /** What the source is left as by a deletion. */
  function LeftBy(now: Pair<Option<Log>>, verified: seq<Record>, f: EventFaults): Option<Log> {
    if f.delete.Honest? then HonestDelete(now.source, MaxPos(verified, 0)) else f.delete.after
  }

  lemma DeleteTrail(now: Pair<Option<Log>>, verified: seq<Record>, wrote: bool, f: EventFaults)
    ensures var trail := DeleteEvents(now, verified, wrote, f).trail;
            trail == [] || trail == [now.(source := LeftBy(now, verified, f))]
  {
  }

  lemma DeleteInterrupted(c: Config, t: Intent, src: Option<Log>, wrote: bool, f: EventFaults)
    requires Replay(src) != [] && c.deleteSource
    requires f.delete.Broken? ==> f.delete.after == src || f.delete.after == Emptied(src)
    ensures AllStages(c, t, src, DeleteEvents(Pair(src, Some(CopyLog(c, t, src))), Replay(src), wrote, f).trail)
  {
    var now := Pair(src, Some(CopyLog(c, t, src)));
    DeleteTrail(now, Replay(src), wrote, f);
    var left := LeftBy(now, Replay(src), f);
    assert left == src || left == Emptied(src);
    assert EventsStage(c, t, src, now.(source := left));
  }

  lemma NothingDoesNotMatch(c: Config, t: Intent, all: seq<Record>)
    requires all != []
    ensures !MatchBySequence(EventCopies(c, t, all), [])
  {
    var copies := EventCopies(c, t, all);
    ByPosAt(copies, copies[|copies| - 1].pos);
  }

  lemma WriteInterrupted(c: Config, t: Intent, src: Option<Log>, target: Option<Log>, f: EventFaults)
    requires Replay(src) != [] && (target == None || target == Some(CopyLog(c, t, src)))
    requires f.delete.Broken? ==> f.delete.after == src || f.delete.after == Emptied(src)
    ensures AllStages(c, t, src, AfterEventWrite(c, Pair(src, target), Replay(src), EventCopies(c, t, Replay(src)),
                                                 f).trail)
  {
    if target == None { NothingDoesNotMatch(c, t, Replay(src)); }
    else if c.deleteSource { DeleteInterrupted(c, t, src, true, f); }
  }

  lemma PresentInterrupted(c: Config, t: Intent, src: Option<Log>, p: Pair<Option<Log>>, equivalent: bool,
                           f: EventFaults)
    requires EventsStage(c, t, src, p) && AtomicEvents(c, t, p, f) && p.target.Some?
    ensures AllStages(c, t, src, AfterVerified(c, p, Replay(p.source), equivalent, f).trail)
  {
    EmptiedHoldsNothing(src);
    if p.source == src && c.deleteSource { DeleteInterrupted(c, t, src, false, f); }
  }

  /** adoptEvents once it gets to write the target. */
  lemma WriteRule(c: Config, t: Intent, p: Pair<Option<Log>>, f: EventFaults)
    requires c.write && !f.readSource && !f.readTarget && Replay(p.source) != [] && Replay(p.target) == []
    requires f.write.Broken? || p.target.None?
    ensures var now := p.(target := if f.write.Honest? then Some(CopyLog(c, t, p.source)) else f.write.after);
            var rest := AfterEventReply(c, t, now, Replay(p.source), EventCopies(c, t, Replay(p.source)), f);
            AdoptEvents(c, t, p, f) == Adopted(rest.outcome, [now] + rest.trail)
  {
  }

  /** adoptEvents when it never gets to write the target. */
  lemma NoWriteRule(c: Config, t: Intent, p: Pair<Option<Log>>, f: EventFaults)
    requires !c.write || f.readSource || f.readTarget || Replay(p.source) == [] || Replay(p.target) != []
             || (f.write.Honest? && p.target.Some?)
    ensures var equivalent := EventsEquivalent(c.seal, c.source, t.tenant, EventCopies(c, t, Replay(p.source)),
                                               Replay(p.target));
            AdoptEvents(c, t, p, f).trail == []
              || AdoptEvents(c, t, p, f) == AfterVerified(c, p, Replay(p.source), equivalent, f)
  {
  }

  /** Interrupted anywhere, a run leaves the aggregate in one of its stages. */
  lemma EventsInterrupted(c: Config, t: Intent, src: Option<Log>, p: Pair<Option<Log>>, f: EventFaults)
    requires EventsStage(c, t, src, p) && AtomicEvents(c, t, p, f)
    ensures AllStages(c, t, src, AdoptEvents(c, t, p, f).trail)
  {
    if c.write && !f.readSource && !f.readTarget && Replay(p.source) != [] && Replay(p.target) == []
      && (f.write.Broken? || p.target.None?) {
      EmptiedHoldsNothing(src);
      CopyInterrupted(c, t, src, p, f);
    } else {
      NoWriteRule(c, t, p, f);
      var equivalent := EventsEquivalent(c.seal, c.source, t.tenant, EventCopies(c, t, Replay(p.source)),
                                         Replay(p.target));
      if p.target.Some? { PresentInterrupted(c, t, src, p, equivalent, f); }
    }
  }

  lemma CopyInterrupted(c: Config, t: Intent, src: Option<Log>, p: Pair<Option<Log>>, f: EventFaults)
    requires EventsStage(c, t, src, p) && AtomicEvents(c, t, p, f) && p.source == src
    requires c.write && !f.readSource && !f.readTarget && Replay(p.source) != [] && Replay(p.target) == []
             && (f.write.Broken? || p.target.None?)
    ensures AllStages(c, t, src, AdoptEvents(c, t, p, f).trail)
  {
    WriteRule(c, t, p, f);
    var now := p.(target := if f.write.Honest? then Some(CopyLog(c, t, src)) else f.write.after);
    ReplyInterrupted(c, t, src, now, f);
  }

  lemma ReplyInterrupted(c: Config, t: Intent, src: Option<Log>, now: Pair<Option<Log>>, f: EventFaults)
    requires Replay(src) != [] && now.source == src && (now.target == None || now.target == Some(CopyLog(c, t, src)))
    requires f.delete.Broken? ==> f.delete.after == src || f.delete.after == Emptied(src)
    ensures AllStages(c, t, src, AfterEventReply(c, t, now, Replay(src), EventCopies(c, t, Replay(src)), f).trail)
  {
    match ReplyOf(f.write)
    case ReportsError =>
    case Acknowledged => WriteInterrupted(c, t, src, now.target, f);
    case ReportsConflict =>
      var copies := EventCopies(c, t, Replay(src));
      var equivalent := EventsEquivalent(c.seal, c.source, t.tenant, copies, Replay(now.target));
      if now.target == None { NothingIsNotEquivalent(c, t, Replay(src)); }
      ConflictInterrupted(c, t, src, now, equivalent, f);
  }

  lemma ConflictInterrupted(c: Config, t: Intent, src: Option<Log>, now: Pair<Option<Log>>, equivalent: bool,
                            f: EventFaults)
    requires Replay(src) != [] && now.source == src && (now.target == None || now.target == Some(CopyLog(c, t, src)))
    requires f.delete.Broken? ==> f.delete.after == src || f.delete.after == Emptied(src)
    requires equivalent ==> now.target.Some?
    ensures AllStages(c, t, src, AfterVerified(c, now, Replay(src), equivalent, f).trail)
  {
    if equivalent && c.deleteSource { DeleteInterrupted(c, t, src, false, f); }
  }

  lemma NothingIsNotEquivalent(c: Config, t: Intent, all: seq<Record>)
    requires all != []
    ensures !EventsEquivalent(c.seal, c.source, t.tenant, EventCopies(c, t, all), [])
  {
    var copies := EventCopies(c, t, all);
    assert copies[0].pos !in ByPos([]);
  }

  lemma HonestDeletion(src: Option<Log>, target: Option<Log>, wrote: bool)
    requires Stream(Replay(src))
    ensures DeleteEvents(Pair(src, target), Replay(src), wrote, HONEST_EVENTS)
         == Adopted(Outcome(SourceDeleted, wrote), [Pair(Emptied(src), target)])
  {
    EmptiedHoldsNothing(src);
    RereadPasses(Replay(src));
  }

  /** What adopting src into a fresh target comes to, given the copy it writes. */
  function FreshRun(c: Config, src: Option<Log>, copy: Log): Adopted<Option<Log>> {
    var copied := Pair(src, Some(copy));
    if c.deleteSource then Adopted(Outcome(SourceDeleted, true), [copied, copied.(source := Emptied(src))])
    else Adopted(Outcome(Copied, true), [copied])
  }

  /** The rest of that run, once the copy is written. */
  function FreshRest(c: Config, src: Option<Log>, copy: Log): Adopted<Option<Log>> {
    if c.deleteSource then Adopted(Outcome(SourceDeleted, true), [Pair(Emptied(src), Some(copy))])
      else Adopted(Outcome(Copied, true), [])
  }

  lemma FreshWriteChecksOut(c: Config, t: Intent, src: Option<Log>)
    requires Sound(c, t) && (src.Some? ==> Distinct(src.value.events)) && Replay(src) != []
    ensures AfterEventWrite(c, Pair(src, Some(CopyLog(c, t, src))), Replay(src), EventCopies(c, t, Replay(src)),
                            HONEST_EVENTS)
         == FreshRest(c, src, CopyLog(c, t, src))
  {
    ReplayIsStream(src);
    CopyLogReplays(c, t, src);
    CopiesKeepPositions(c, t, Replay(src));
    HonestDeletion(src, Some(CopyLog(c, t, src)), true);
  }

  lemma FreshWrite(c: Config, t: Intent, src: Option<Log>, expected: seq<Record>, copy: Log)
    requires c.write && Replay(src) != [] && expected == EventCopies(c, t, Replay(src)) && copy == Merge(None, expected)
    requires AfterEventWrite(c, Pair(src, Some(copy)), Replay(src), expected, HONEST_EVENTS) == FreshRest(c, src, copy)
    ensures AdoptEvents(c, t, Pair(src, None), HONEST_EVENTS) == FreshRun(c, src, copy)
  {
    var now := Pair(src, Some(copy));
    assert FreshRun(c, src, copy) == Adopted(FreshRest(c, src, copy).outcome, [now] + FreshRest(c, src, copy).trail);
  }

  lemma EventsFromFresh(c: Config, t: Intent, src: Option<Log>)
    requires c.write && Sound(c, t) && (src.Some? ==> Distinct(src.value.events)) && Replay(src) != []
    ensures AdoptEvents(c, t, Pair(src, None), HONEST_EVENTS) == FreshRun(c, src, CopyLog(c, t, src))
  {
    FreshWriteChecksOut(c, t, src);
    FreshWrite(c, t, src, EventCopies(c, t, Replay(src)), CopyLog(c, t, src));
  }

  lemma EventsFromCopied(c: Config, t: Intent, src: Option<Log>)
    requires c.write && Sound(c, t) && (src.Some? ==> Distinct(src.value.events)) && Replay(src) != []
    ensures AdoptEvents(c, t, Pair(src, Some(CopyLog(c, t, src))), HONEST_EVENTS)
         == if c.deleteSource then
           Adopted(Outcome(SourceDeleted, false), [Pair(Emptied(src), Some(CopyLog(c, t, src)))])
            else Adopted(Outcome(AlreadyPresent, false), [])
  {
    ReplayIsStream(src);
    CopyLogReplays(c, t, src);
    CopiesHeldExactly(c, t, Replay(src));
    HonestDeletion(src, Some(CopyLog(c, t, src)), false);
  }

  lemma EventsFromEmptied(c: Config, t: Intent, src: Option<Log>)
    requires c.write && Sound(c, t) && (src.Some? ==> Distinct(src.value.events)) && Replay(src) != []
    ensures AdoptEvents(c, t, Pair(Emptied(src), Some(CopyLog(c, t, src))), HONEST_EVENTS)
            == Adopted(Outcome(AlreadyPresent, false), [])
  {
    ReplayIsStream(src);
    CopyLogReplays(c, t, src);
    EmptiedHoldsNothing(src);
    CopiesProveThemselves(c, t, Replay(src));
    assert EventCopies(c, t, []) == [];
  }

  /** From every stage, a faithful run ends in the settled stage without failure;
      from the settled stage it mutates nothing. */
  lemma EventsComplete(c: Config, t: Intent, src: Option<Log>, p: Pair<Option<Log>>)
    requires c.write && Sound(c, t) && (src.Some? ==> Distinct(src.value.events)) && EventsStage(c, t, src, p)
    ensures var a := AdoptEvents(c, t, p, HONEST_EVENTS);
            && a.outcome.status != Failed && (a.outcome.status == Nothing <==> Replay(src) == [])
            && Final(p, a) == EventsSettled(c, t, src)
            && (p == EventsSettled(c, t, src) ==> a.trail == [])
  {
    if Replay(src) == [] {
    } else if p == Pair(src, None) {
      EventsFromFresh(c, t, src);
    } else if p == Pair(src, Some(CopyLog(c, t, src))) {
      EventsFromCopied(c, t, src);
      EmptiedHoldsNothing(src);
    } else {
      EventsFromEmptied(c, t, src);
    }
  }

  // -------------------------------------------------------------- snapshots

  /** A snapshot store keys each snapshot by its own sequence number. */
  predicate KeyedByPosition(m: Snapshots) {
    forall p :: p in m ==> m[p].pos == p
  }

  /** The target a faithful snapshot copy leaves. */
  function CopySnapshots(c: Config, t: Intent, src: Snapshots): Snapshots
    requires src != map[]
  {
    map[RecordCopy(c, t, Latest(src).value).pos := RecordCopy(c, t, Latest(src).value)]
  }

  ghost predicate SnapshotStage(c: Config, t: Intent, src: Snapshots, p: Pair<Snapshots>) {
    || p == Pair(src, map[])
    || (src != map[] && p == Pair(src, CopySnapshots(c, t, src)))
    || (src != map[] && c.deleteSource && p == Pair(map[], CopySnapshots(c, t, src)))
  }

  function SnapshotSettled(c: Config, t: Intent, src: Snapshots): Pair<Snapshots> {
    if src == map[] then Pair(src, map[])
    else Pair(if c.deleteSource then map[] else src, CopySnapshots(c, t, src))
  }

  ghost predicate AtomicSnapshot(c: Config, t: Intent, p: Pair<Snapshots>, f: SnapshotFaults) {
    && (f.write.Broken? ==>
        f.write.after == p.target || (p.source != map[] && f.write.after == CopySnapshots(c, t, p.source)))
    && (f.delete.Broken? ==> f.delete.after == p.source || f.delete.after == map[])
  }

  lemma LatestOfCopy(c: Config, t: Intent, src: Snapshots)
    requires src != map[]
    ensures CopySnapshots(c, t, src) != map[]
    ensures Latest(CopySnapshots(c, t, src)) == Some(RecordCopy(c, t, Latest(src).value))
  {
    var copy := RecordCopy(c, t, Latest(src).value);
    assert CopySnapshots(c, t, src).Keys == {copy.pos};
    assert MaxOf({copy.pos}) == copy.pos;
    assert copy.pos in CopySnapshots(c, t, src);
  }

  /** Deleting through the latest snapshot deletes them all. */
  lemma NothingAboveLatest(src: Snapshots)
    requires src != map[] && KeyedByPosition(src)
    ensures (map p | p in src && p > Latest(src).value.pos :: src[p]) == map[]
  {
    var m := map p | p in src && p > Latest(src).value.pos :: src[p];
    assert Latest(src).value.pos == MaxOf(src.Keys);
    assert forall p :: p in src ==> p in src.Keys;
    assert m.Keys == {};
  }

  lemma HonestSnapshotDeletion(src: Snapshots, target: Snapshots, wrote: bool)
    requires src != map[] && KeyedByPosition(src)
    ensures DeleteSnapshot(Pair(src, target), Latest(src).value, wrote, HONEST_SNAPSHOT)
         == Adopted(Outcome(SourceDeleted, wrote), [Pair(map[], target)])
  {
    NothingAboveLatest(src);
  }

  lemma SnapshotDeleteInterrupted(c: Config, t: Intent, src: Snapshots, wrote: bool, f: SnapshotFaults)
    requires src != map[] && KeyedByPosition(src) && c.deleteSource
    requires f.delete.Broken? ==> f.delete.after == src || f.delete.after == map[]
    ensures var trail := DeleteSnapshot(Pair(src, CopySnapshots(c, t, src)), Latest(src).value, wrote, f).trail;
            forall i :: 0 <= i < |trail| ==> SnapshotStage(c, t, src, trail[i])
  {
    NothingAboveLatest(src);
  }

  lemma SnapshotInterrupted(c: Config, t: Intent, src: Snapshots, p: Pair<Snapshots>, f: SnapshotFaults)
    requires KeyedByPosition(src) && SnapshotStage(c, t, src, p) && AtomicSnapshot(c, t, p, f)
    ensures forall i :: 0 <= i < |AdoptSnapshot(c, t, p, f).trail| ==>
            SnapshotStage(c, t, src, AdoptSnapshot(c, t, p, f).trail[i])
  {
    if src != map[] {
      LatestOfCopy(c, t, src);
      if c.deleteSource {
        SnapshotDeleteInterrupted(c, t, src, true, f);
        SnapshotDeleteInterrupted(c, t, src, false, f);
      }
    }
  }

  lemma SnapshotComplete(c: Config, t: Intent, src: Snapshots, p: Pair<Snapshots>)
    requires c.write && Sound(c, t) && KeyedByPosition(src) && SnapshotStage(c, t, src, p)
    ensures var a := AdoptSnapshot(c, t, p, HONEST_SNAPSHOT);
            && a.outcome.status != Failed && (a.outcome.status == Nothing <==> src == map[])
            && Final(p, a) == SnapshotSettled(c, t, src)
            && (p == SnapshotSettled(c, t, src) ==> a.trail == [])
            && (src != map[] ==> SnapshotCopied(c, t, Latest(src).value, Final(p, a).target))
  {
    if src != map[] {
      LatestOfCopy(c, t, src);
      CopiesAreCopies(c, t, [], Latest(src).value);
      HonestSnapshotDeletion(src, CopySnapshots(c, t, src), true);
      HonestSnapshotDeletion(src, CopySnapshots(c, t, src), false);
      StampOwned(c, t, None, Latest(src).value);
      ReceiptKeyIsForeign(t.tenant);
      StampVerifies(c.seal, c.source, Tenancy.MarshalTenant(t.tenant), None, Latest(src).value);
    }
  }

  // ---------------------------------------------------------- durable state

  ghost predicate StateStage(c: Config, t: Intent, src: Option<Record>, p: Pair<Option<Record>>) {
    p == Pair(src, None) || p == Pair(src, RecordCopyOf(c, t, src))
  }

  ghost predicate AtomicState(c: Config, t: Intent, p: Pair<Option<Record>>, f: StateFaults) {
    f.write.Broken? ==> f.write.after == p.target || f.write.after == RecordCopyOf(c, t, p.source)
  }

  lemma StateInterrupted(c: Config, t: Intent, src: Option<Record>, p: Pair<Option<Record>>, f: StateFaults)
    requires StateStage(c, t, src, p) && AtomicState(c, t, p, f)
    ensures forall i :: 0 <= i < |AdoptState(c, t, p, f).trail| ==>
            StateStage(c, t, src, AdoptState(c, t, p, f).trail[i])
  {
  }

  lemma StateComplete(c: Config, t: Intent, src: Option<Record>, p: Pair<Option<Record>>)
    requires c.write && Sound(c, t) && StateStage(c, t, src, p)
    ensures var a := AdoptState(c, t, p, HONEST_STATE);
            && a.outcome.status != Failed && (a.outcome.status == Nothing <==> src == None)
            && Final(p, a) == Pair(src, RecordCopyOf(c, t, src))
            && (p == Pair(src, RecordCopyOf(c, t, src)) ==> a.trail == [])
            && (src.Some? ==> Final(p, a).target.Some? && IsCopy(t.tenant, src.value, Final(p, a).target.value))
  {
    if src.Some? {
      StampOwned(c, t, None, src.value);
      CopiesAreCopies(c, t, [], src.value);
    }
  }

  // ------------------------------------------- two promises with conditions

  /** A dry run's verdict on events, in the report's terms. */
  predicate SameTally(dry: Outcome, wet: Outcome) {
    && (dry.status == Failed <==> wet.status == Failed)
    && (dry.status == Nothing <==> wet.status == Nothing)
    && dry.wroteTarget == wet.wroteTarget
  }

  /** The same adoption, only planned. */
  function Dry(c: Config): Config { c.(write := false) }

  lemma DryVerdict(c: Config, t: Intent, start: Pair<Option<Log>>)
    ensures var all, existing := Replay(start.source), Replay(start.target);
            AdoptEvents(Dry(c), t, start, HONEST_EVENTS).outcome
            == if existing != [] then
              Classify(EventsEquivalent(c.seal, c.source, t.tenant, EventCopies(c, t, all), existing))
               else if all == [] then Outcome(Nothing, false) else Outcome(Copied, true)
  {
    assert EventCopies(Dry(c), t, Replay(start.source)) == EventCopies(c, t, Replay(start.source));
  }

  lemma PresentVerdict(c: Config, t: Intent, start: Pair<Option<Log>>)
    requires c.write && Stream(Replay(start.source)) && Replay(start.target) != []
    ensures SameTally(Classify(EventsEquivalent(c.seal, c.source, t.tenant, EventCopies(c, t, Replay(start.source)),
                                                Replay(start.target))),
                      AdoptEvents(c, t, start, HONEST_EVENTS).outcome)
  {
    HonestDeletion(start.source, start.target, false);
  }

  /** An emptied target log refuses the genesis write, and what is there instead
      is never equivalent. */
  lemma EmptiedTargetFails(c: Config, t: Intent, start: Pair<Option<Log>>)
    requires c.write && Replay(start.source) != [] && start.target.Some? && Replay(start.target) == []
    ensures AdoptEvents(c, t, start, HONEST_EVENTS) == Adopted(FAILED, [])
  {
    var expected := EventCopies(c, t, Replay(start.source));
    assert expected[0].pos !in ByPos([]);
    assert !ContainsExactly(expected, ByPos([]));
  }

  /** The dry run predicts the real run's events outcome exactly when the target
      log is not an emptied one: a log deleted down to nothing still exists, so
      the real genesis write conflicts and fails where the dry run says copied. */
  lemma DryRunPrediction(c: Config, t: Intent, start: Pair<Option<Log>>)
    requires c.write && Sound(c, t) && (start.source.Some? ==> Distinct(start.source.value.events))
    ensures SameTally(AdoptEvents(Dry(c), t, start, HONEST_EVENTS).outcome,
                      AdoptEvents(c, t, start, HONEST_EVENTS).outcome)
       <==> !(Replay(start.source) != [] && start.target.Some? && Replay(start.target) == [])
  {
    DryVerdict(c, t, start);
    ReplayIsStream(start.source);
    if Replay(start.target) != [] {
      PresentVerdict(c, t, start);
    } else if Replay(start.source) != [] && start.target.Some? {
      EmptiedTargetFails(c, t, start);
    } else if Replay(start.source) != [] {
      EventsFromFresh(c, t, start.source);
    }
  }

  lemma DrySnapshotPrediction(c: Config, t: Intent, start: Pair<Snapshots>)
    requires c.write && KeyedByPosition(start.source)
    ensures SameTally(AdoptSnapshot(Dry(c), t, start, HONEST_SNAPSHOT).outcome,
                      AdoptSnapshot(c, t, start, HONEST_SNAPSHOT).outcome)
  {
    if start.source != map[] {
      LatestOfCopy(c, t, start.source);
      HonestSnapshotDeletion(start.source, start.target, false);
      HonestSnapshotDeletion(start.source, CopySnapshots(c, t, start.source), true);
    }
  }

  lemma DryStatePrediction(c: Config, t: Intent, start: Pair<Option<Record>>)
    ensures SameTally(AdoptState(Dry(c), t, start, HONEST_STATE).outcome, AdoptState(c, t, start, HONEST_STATE).outcome)
  {
  }

  /** A record of the source has its copy, up to tenant metadata, in the target. */
  ghost predicate HasCopy(r: Record, target: seq<Record>) {
    exists k :: 0 <= k < |target| && target[k].(meta := r.meta) == r
  }

  lemma CopiedUnlessZero(c: Config, t: Intent, log: Log, r: Record)
    requires Distinct(log.events) && r in log.events
    ensures HasCopy(r, CopyLog(c, t, Some(log)).events) <==> r.pos != 0
  {
    var src := Some(log);
    ReplayIsStream(src);
    ReplayHolds(log);
    CopiesKeepPositions(c, t, Replay(src));
    MergeFresh(EventCopies(c, t, Replay(src)));
    CopiedIfReplayed(c, t, Replay(src), r);
  }

  lemma CopiedIfReplayed(c: Config, t: Intent, all: seq<Record>, r: Record)
    requires Stream(all) && (r.pos > 0 ==> r in all)
    ensures HasCopy(r, EventCopies(c, t, all)) <==> r.pos != 0
  {
    var copies := EventCopies(c, t, all);
    if r.pos != 0 {
      var k :| 0 <= k < |all| && all[k] == r;
      assert copies[k].(meta := r.meta) == r;
    }
  }

  /** No loss down to the raw log holds exactly when no event sits at sequence 0:
      a replay starts at 1 and never sees such an event, while the deletion
      through the last sequence removes it. */
  lemma SequenceZeroIsLost(c: Config, t: Intent, log: Log)
    requires c.write && c.deleteSource && Sound(c, t) && Distinct(log.events) && Replay(Some(log)) != []
    ensures var a := AdoptEvents(c, t, Pair(Some(log), None), HONEST_EVENTS);
            && a.outcome.status == SourceDeleted && |a.trail| == 2
            && a.trail[1].source == Some(Log(log.revision, []))
            && a.trail[1].target == Some(CopyLog(c, t, Some(log)))
    ensures (forall r :: r in log.events ==> HasCopy(r, CopyLog(c, t, Some(log)).events))
       <==> (forall r :: r in log.events ==> r.pos != 0)
  {
    forall r | r in log.events ensures HasCopy(r, CopyLog(c, t, Some(log)).events) <==> r.pos != 0 {
      CopiedUnlessZero(c, t, log, r);
    }
    EventsFromFresh(c, t, Some(log));
    EmptiedHoldsNothing(Some(log));
  }
}
