/** TenantAdopter on one aggregate: copying one record kind from the source
    scope to the target scope, verifying the copy and deleting the source. Every
    store call may fail, and every write or delete may take any effect, as its
    call site's fault says; reads are honest and no other writer interferes
    (the adoption fence). */
module Adoption {
  import opened GoText
  import opened Conflict
  import opened Records
  import opened EventLog
  import Tenancy

  datatype Assignment = AssignError | Skip | Assign(tenant: GoString)

  datatype Config = Config(
    seal: Seal,
    source: Scope,
    write: bool,
    deleteSource: bool,
    failFast: bool,
    events: bool,
    snapshots: bool,
    states: bool,
    assign: GoString -> Assignment)

  /** The target scope and the tenant stamped on every copy. */
  datatype Intent = Intent(target: Scope, tenant: Tenancy.TenantContext)

  datatype Status = Nothing | Copied | AlreadyPresent | SourceDeleted | Failed

  datatype Outcome = Outcome(status: Status, wroteTarget: bool)

  const FAILED := Outcome(Failed, false)

  /** What a mutating call reports to its caller. */
  datatype Reply = Acknowledged | ReportsConflict | ReportsError

  /** What one mutating call does: what it should, or leave `after` behind while
      reporting anything. */
  datatype Effect<T> = Honest | Broken(after: T, reply: Reply)

  function ReplyOf<T>(e: Effect<T>): Reply {
    if e.Honest? then Acknowledged else e.reply
  }

  /** What the source and the target hold. */
  datatype Pair<T> = Pair(source: T, target: T)

  /** The outcome of one record kind, and what the stores held after each
      mutating call. */
  datatype Adopted<T> = Adopted(outcome: Outcome, trail: seq<Pair<T>>)

  function Final<T>(start: Pair<T>, a: Adopted<T>): Pair<T> {
    if a.trail == [] then start else a.trail[|a.trail| - 1]
  }

  // ------------------------------------------------------------ the checks

  predicate OwnedBy(r: Record, tenant: Tenancy.TenantContext) {
    Tenancy.UnmarshalTenant(r.meta) == Some(tenant)
  }

  function Positions(s: seq<Record>): set<U64> {
    set i | 0 <= i < |s| :: s[i].pos
  }

  /** What the receipt walk sees of one record. */
  datatype Link = Link(pos: U64, bears: bool, verdict: Verdict)

  function LinkOf(seal: Seal, scope: Scope, r: Record): (l: Link)
    ensures !l.bears ==> l.verdict == Unproven
  {
    Link(r.pos, RECEIPT_KEY in r.meta, VerifyReceipt(seal, scope, r))
  }

  /** The records at the listed positions. */
  function RecordsAt(m: map<U64, Record>, q: seq<U64>): (s: seq<Record>)
    requires forall p :: p in q ==> p in m
    ensures |s| == |q| && forall i :: 0 <= i < |q| ==> q[i] in m && s[i] == m[q[i]]
  {
    seq(|q|, i requires 0 <= i < |q| => assert q[i] in q; m[q[i]])
  }

  /** The records of a position map in position order. */
  function InOrder(m: map<U64, Record>): (s: seq<Record>)
    ensures |s| == |m|
    ensures forall i :: 0 <= i < |s| ==> Sorted(m.Keys)[i] in m && s[i] == m[Sorted(m.Keys)[i]]
  {
    RecordsAt(m, Sorted(m.Keys))
  }

  function Chain(seal: Seal, scope: Scope, s: seq<Record>): (chain: seq<Link>)
    ensures |chain| == |s|
    ensures forall i :: 0 <= i < |s| ==> chain[i] == LinkOf(seal, scope, s[i])
  {
    seq(|s|, i requires 0 <= i < |s| => LinkOf(seal, scope, s[i]))
  }

  /** The predecessor the receipt at place i of a chain must name. */
  function Before(chain: seq<Link>, i: nat): U64
    requires i <= |chain|
  {
    if i == 0 then 0 else chain[i - 1].pos
  }

  /** The first n records form the adopted chain: each receipt is valid and names
      the record before it, and no later record bears one. */
  predicate AdoptedPrefix(chain: seq<Link>, n: int) {
    && 0 < n <= |chain|
    && (forall i {:trigger chain[i].bears} :: 0 <= i < n ==>
        chain[i].bears && chain[i].verdict == Chained(Before(chain, i)))
    && (forall i :: n <= i < |chain| ==> !chain[i].bears)
  }

  predicate ProvenByReceipts(chain: seq<Link>) {
    exists n :: 0 <= n <= |chain| && AdoptedPrefix(chain, n)
  }

  /** While the source exists: every expected record is held exactly, and any
      other record comes after all of them. */
  predicate ContainsExactly(expected: seq<Record>, m: map<U64, Record>) {
    && (forall i :: 0 <= i < |expected| ==> expected[i].pos in m && m[expected[i].pos] == expected[i])
    && (forall p :: p in m && p !in Positions(expected) ==> p > MaxPos(expected, 0))
  }

  /** verifyEventsEquivalent */
  predicate EventsEquivalent(seal: Seal, scope: Scope, tenant: Tenancy.TenantContext, expected: seq<Record>,
                             existing: seq<Record>)
  {
    && Distinct(existing)
    && (forall i :: 0 <= i < |existing| ==> OwnedBy(existing[i], tenant))
    && if expected != [] then ContainsExactly(expected, ByPos(existing))
       else ProvenByReceipts(Chain(seal, scope, InOrder(ByPos(existing))))
  }

  /** verifyEventsMatchBySequence */
  predicate MatchBySequence(expected: seq<Record>, written: seq<Record>) {
    Distinct(written) && ByPos(written) == ByPos(expected)
  }

  /** sameEventsBySequence */
  predicate SameBySequence(current: seq<Record>, verified: seq<Record>) {
    |current| == |verified| && Distinct(verified) && Distinct(current) && ByPos(current) == ByPos(verified)
  }

  /** verifyRecordEquivalent */
  predicate RecordEquivalent(seal: Seal, scope: Scope, tenant: Tenancy.TenantContext, expected: Option<Record>,
                             existing: Record)
  {
    && OwnedBy(existing, tenant)
    && match expected
       case None => VerifyReceipt(seal, scope, existing) == Single
       case Some(want) => existing.pos == want.pos && existing == want
  }

  function Classify(equivalent: bool): Outcome {
    if equivalent then Outcome(AlreadyPresent, false) else FAILED
  }

  // ---------------------------------------------------------------- events

  /** Which of adoptEvents' store calls misbehave. */
  datatype EventFaults = EventFaults(
    readSource: bool, readTarget: bool, write: Effect<Option<Log>>, readRaced: bool,
    readBack: bool, reread: bool, delete: Effect<Option<Log>>, readLatest: bool)

  /** The stamped copy of one source event; its receipt names the event before
      it in the source. */
  function EventCopy(c: Config, t: Intent, all: seq<Record>, e: Record): Record {
    Stamp(c.seal, c.source, Tenancy.MarshalTenant(t.tenant), Some(Predecessor(Positions(all), e.pos)), e)
  }

  function EventCopies(c: Config, t: Intent, all: seq<Record>): (copies: seq<Record>)
    ensures |copies| == |all|
    ensures forall i :: 0 <= i < |all| ==> copies[i] == EventCopy(c, t, all, all[i])
  {
    seq(|all|, i requires 0 <= i < |all| => EventCopy(c, t, all, all[i]))
  }

  function HonestDelete(log: Option<Log>, to: U64): Option<Log> {
    match log
    case None => None
    case Some(l) => Some(Truncate(l, to))
  }

  /** deleteVerifiedSourceEvents */
  function DeleteEvents(now: Pair<Option<Log>>, verified: seq<Record>, wrote: bool,
                        f: EventFaults): Adopted<Option<Log>>
  {
    if f.reread || !SameBySequence(Replay(now.source), verified) then Adopted(FAILED, [])
    else
      var left := if f.delete.Honest? then HonestDelete(now.source, MaxPos(verified, 0)) else f.delete.after;
      var trail := [now.(source := left)];
      if ReplyOf(f.delete) != Acknowledged then Adopted(FAILED, trail)
      else if f.readLatest || (left.Some? && left.value.events != []) then Adopted(FAILED, trail)
      else Adopted(Outcome(SourceDeleted, wrote), trail)
  }

  /** afterVerifiedEvents */
  function AfterVerified(c: Config, now: Pair<Option<Log>>, verified: seq<Record>, equivalent: bool,
                         f: EventFaults): Adopted<Option<Log>>
  {
    if equivalent && verified != [] && c.write && c.deleteSource then DeleteEvents(now, verified, false, f)
    else Adopted(Classify(equivalent), [])
  }

  /** The rest of adoptEvents once the target write took effect. */
  function AfterEventWrite(c: Config, now: Pair<Option<Log>>, verified: seq<Record>, expected: seq<Record>,
                           f: EventFaults): Adopted<Option<Log>>
  {
    if f.readBack || !MatchBySequence(expected, Replay(now.target)) then Adopted(FAILED, [])
    else if c.deleteSource then DeleteEvents(now, verified, true, f)
    else Adopted(Outcome(Copied, true), [])
  }

  /** A conflict means someone else wrote the target: what is there is classified
      like a target found at the start, and may lead to the deletion. */
  function AfterEventReply(c: Config, t: Intent, now: Pair<Option<Log>>, verified: seq<Record>, expected: seq<Record>,
                           f: EventFaults): Adopted<Option<Log>>
  {
    match ReplyOf(f.write)
    case ReportsError => Adopted(FAILED, [])
    case ReportsConflict =>
      if f.readRaced then Adopted(FAILED, [])
      else AfterVerified(c, now, verified, EventsEquivalent(c.seal, c.source, t.tenant, expected, Replay(now.target)),
                         f)
    case Acknowledged => AfterEventWrite(c, now, verified, expected, f)
  }

  /** adoptEvents */
  function AdoptEvents(c: Config, t: Intent, start: Pair<Option<Log>>, f: EventFaults): Adopted<Option<Log>> {
    var events := Replay(start.source);
    var expected := EventCopies(c, t, events);
    var existing := Replay(start.target);
    var equivalent := EventsEquivalent(c.seal, c.source, t.tenant, expected, existing);
    if f.readSource || f.readTarget then Adopted(FAILED, [])
    else if existing != [] then AfterVerified(c, start, events, equivalent, f)
    else if events == [] then Adopted(Outcome(Nothing, false), [])
    else if !c.write then Adopted(Outcome(Copied, true), [])
    else if f.write.Honest? && start.target.Some? then
      // the target log exists but replays empty: the genesis write conflicts
      if f.readRaced then Adopted(FAILED, []) else AfterVerified(c, start, events, equivalent, f)
    else
      var now := start.(target := if f.write.Honest? then Some(Merge(None, expected)) else f.write.after);
      var rest := AfterEventReply(c, t, now, events, expected, f);
      Adopted(rest.outcome, [now] + rest.trail)
  }

  // -------------------------------------------------------------- snapshots

  type Snapshots = map<U64, Record>

  function Latest(m: Snapshots): Option<Record> {
    if m == map[] then None else Some(m[MaxOf(m.Keys)])
  }

  /** The snapshot at the highest sequence. */
  lemma LatestIsHighest(m: Snapshots, p: U64)
    requires p in m && forall q :: q in m ==> q <= p
    ensures Latest(m) == Some(m[p])
  {
  }

  datatype SnapshotFaults = SnapshotFaults(
    readSource: bool, readTarget: bool, write: Effect<Snapshots>,
    readBack: bool, reread: bool, delete: Effect<Snapshots>, readLatest: bool)

  /** The stamped copy of a snapshot or durable state. */
  function RecordCopy(c: Config, t: Intent, r: Record): Record {
    Stamp(c.seal, c.source, Tenancy.MarshalTenant(t.tenant), None, r)
  }

  function RecordCopyOf(c: Config, t: Intent, r: Option<Record>): Option<Record> {
    if r.None? then None else Some(RecordCopy(c, t, r.value))
  }

  /** deleteVerifiedSourceSnapshot */
  function DeleteSnapshot(now: Pair<Snapshots>, verified: Record, wrote: bool, f: SnapshotFaults): Adopted<Snapshots> {
    if f.reread || Latest(now.source) != Some(verified) then Adopted(FAILED, [])
    else
      var left := if f.delete.Honest? then map p | p in now.source && p > verified.pos :: now.source[p]
          else f.delete.after;
      var trail := [now.(source := left)];
      if ReplyOf(f.delete) != Acknowledged then Adopted(FAILED, trail)
      else if f.readLatest || left != map[] then Adopted(FAILED, trail)
      else Adopted(Outcome(SourceDeleted, wrote), trail)
  }

  /** adoptSnapshot */
  function AdoptSnapshot(c: Config, t: Intent, start: Pair<Snapshots>, f: SnapshotFaults): Adopted<Snapshots> {
    var snapshot, existing := Latest(start.source), Latest(start.target);
    var copy := RecordCopyOf(c, t, snapshot);
    if f.readSource || f.readTarget then Adopted(FAILED, [])
    else if existing.Some? then
      var equivalent := RecordEquivalent(c.seal, c.source, t.tenant, copy, existing.value);
      if equivalent && snapshot.Some? && c.write && c.deleteSource then DeleteSnapshot(start, snapshot.value, false, f)
      else Adopted(Classify(equivalent), [])
    else if snapshot.None? then Adopted(Outcome(Nothing, false), [])
    else if !c.write then Adopted(Outcome(Copied, true), [])
    else
      var now := start.(target := if f.write.Honest? then start.target[copy.value.pos := copy.value]
                        else f.write.after);
      if ReplyOf(f.write) != Acknowledged then Adopted(FAILED, [now])
      else if f.readBack || Latest(now.target) != copy then Adopted(FAILED, [now])
      else if c.deleteSource then
        var rest := DeleteSnapshot(now, snapshot.value, true, f);
        Adopted(rest.outcome, [now] + rest.trail)
      else Adopted(Outcome(Copied, true), [now])
  }

  // ---------------------------------------------------------- durable state

  datatype StateFaults = StateFaults(
    readSource: bool, readTarget: bool, write: Effect<Option<Record>>, readRaced: bool, readBack: bool)

  /** A conflict is answered by classifying what the target holds now. */
  function AfterStateReply(c: Config, t: Intent, now: Pair<Option<Record>>, copy: Option<Record>,
                           f: StateFaults): Outcome
  {
    match ReplyOf(f.write)
    case ReportsError => FAILED
    case ReportsConflict =>
      if f.readRaced || now.target.None? then FAILED
      else Classify(RecordEquivalent(c.seal, c.source, t.tenant, copy, now.target.value))
    case Acknowledged => if f.readBack || now.target != copy then FAILED else Outcome(Copied, true)
  }

  /** adoptState: there is no delete in the state store. */
  function AdoptState(c: Config, t: Intent, start: Pair<Option<Record>>, f: StateFaults): Adopted<Option<Record>> {
    var copy := RecordCopyOf(c, t, start.source);
    if f.readSource || f.readTarget then Adopted(FAILED, [])
    else if start.target.Some? then
      Adopted(Classify(RecordEquivalent(c.seal, c.source, t.tenant, copy, start.target.value)), [])
    else if start.source.None? then Adopted(Outcome(Nothing, false), [])
    else if !c.write then Adopted(Outcome(Copied, true), [])
    else
      var now := start.(target := if f.write.Honest? then copy else f.write.after);
      Adopted(AfterStateReply(c, t, now, copy, f), [now])
  }
}
