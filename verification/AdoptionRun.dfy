/** A whole TenantAdopter run: the three stores, one aggregate after another, and
    the report. */
module AdoptionRun {
  import opened GoText
  import opened Conflict
  import opened Records
  import opened EventLog
  import opened Adoption
  import Tenancy

  /** The stores, keyed structurally by (scope, persistence id). Every store keys
      a record by its own persistence id, so a copy lands under its id. */
  datatype World = World(events: map<Key, Log>, snapshots: map<Key, Snapshots>, states: map<Key, Record>)

  function EventsAt(w: World, k: Key): Option<Log> {
    if k in w.events then Some(w.events[k]) else None
  }

  function SnapshotsAt(w: World, k: Key): Snapshots {
    if k in w.snapshots then w.snapshots[k] else map[]
  }

  function StateAt(w: World, k: Key): Option<Record> {
    if k in w.states then Some(w.states[k]) else None
  }

  function Put<V>(m: map<Key, V>, k: Key, v: Option<V>): map<Key, V> {
    if v.None? then m - {k} else m[k := v.value]
  }

  /** The two keys an aggregate's adoption works on. */
  function SourceKey(c: Config, id: GoString): Key { Key(c.source, id) }
  function TargetKey(t: Intent, id: GoString): Key { Key(t.target, id) }

  function WithEvents(w: World, s: Key, t: Key, p: Pair<Option<Log>>): World {
    w.(events := Put(Put(w.events, s, p.source), t, p.target))
  }

  function WithSnapshots(w: World, s: Key, t: Key, p: Pair<Snapshots>): World {
    w.(snapshots := w.snapshots[s := p.source][t := p.target])
  }

  function WithState(w: World, s: Key, t: Key, p: Pair<Option<Record>>): World {
    w.(states := Put(Put(w.states, s, p.source), t, p.target))
  }

  function EventsPair(c: Config, t: Intent, w: World, id: GoString): Pair<Option<Log>> {
    Pair(EventsAt(w, SourceKey(c, id)), EventsAt(w, TargetKey(t, id)))
  }

  function SnapshotsPair(c: Config, t: Intent, w: World, id: GoString): Pair<Snapshots> {
    Pair(SnapshotsAt(w, SourceKey(c, id)), SnapshotsAt(w, TargetKey(t, id)))
  }

  function StatePair(c: Config, t: Intent, w: World, id: GoString): Pair<Option<Record>> {
    Pair(StateAt(w, SourceKey(c, id)), StateAt(w, TargetKey(t, id)))
  }

  // ------------------------------------------------------- one aggregate

  datatype Faults = Faults(fence: bool, events: EventFaults, snapshot: SnapshotFaults, state: StateFaults)

  /** What became of one record kind of one aggregate, and the stores after each
      mutating call. */
  datatype KindRun = KindRun(outcome: Outcome, trail: seq<World>)

  const SKIPPED := Outcome(Nothing, false)

  function LastWorld(w: World, trail: seq<World>): World {
    if trail == [] then w else trail[|trail| - 1]
  }

  function LiftEvents(c: Config, t: Intent, w: World, id: GoString, a: Adopted<Option<Log>>): KindRun {
    KindRun(a.outcome,
            seq(|a.trail|, i requires 0 <= i < |a.trail| => WithEvents(w, SourceKey(c, id), TargetKey(t, id),
                                                                       a.trail[i])))
  }

  function RunEvents(c: Config, t: Intent, w: World, id: GoString, f: EventFaults): KindRun {
    if !c.events then KindRun(SKIPPED, []) else LiftEvents(c, t, w, id, AdoptEvents(c, t, EventsPair(c, t, w, id), f))
  }

  function LiftSnapshot(c: Config, t: Intent, w: World, id: GoString, a: Adopted<Snapshots>): KindRun {
    KindRun(a.outcome,
            seq(|a.trail|, i requires 0 <= i < |a.trail| => WithSnapshots(w, SourceKey(c, id), TargetKey(t, id),
                                                                          a.trail[i])))
  }

  function RunSnapshot(c: Config, t: Intent, w: World, id: GoString, f: SnapshotFaults): KindRun {
    if !c.snapshots then KindRun(SKIPPED, [])
      else LiftSnapshot(c, t, w, id, AdoptSnapshot(c, t, SnapshotsPair(c, t, w, id), f))
  }

  function LiftState(c: Config, t: Intent, w: World, id: GoString, a: Adopted<Option<Record>>): KindRun {
    KindRun(a.outcome,
            seq(|a.trail|, i requires 0 <= i < |a.trail| => WithState(w, SourceKey(c, id), TargetKey(t, id),
                                                                      a.trail[i])))
  }

  function RunState(c: Config, t: Intent, w: World, id: GoString, f: StateFaults): KindRun {
    if !c.states then KindRun(SKIPPED, []) else LiftState(c, t, w, id, AdoptState(c, t, StatePair(c, t, w, id), f))
  }

  /** Why an aggregate was not adopted, or the outcome of its three kinds. */
  datatype AggregateVerdict =
    | AssignmentFailed
    | SkippedByAssignment
    | Refused
    | Processed(events: Outcome, snapshot: Outcome, state: Outcome)

  datatype AggregateRun = AggregateRun(verdict: AggregateVerdict, trail: seq<World>)

  function IntentFor(tenant: GoString): Intent {
    Intent(Tenant(tenant), Tenancy.TenantScoped(tenant))
  }

  /** A failed kind ends the aggregate: later kinds never start. */
  function InSequence(e: KindRun, s: KindRun, d: KindRun): AggregateRun {
    if e.outcome.status == Failed then AggregateRun(Processed(e.outcome, SKIPPED, SKIPPED), e.trail)
    else if s.outcome.status == Failed then AggregateRun(Processed(e.outcome, s.outcome, SKIPPED), e.trail + s.trail)
    else AggregateRun(Processed(e.outcome, s.outcome, d.outcome), e.trail + s.trail + d.trail)
  }

  /** Events, then the snapshot, then the durable state. */
  function RunKinds(c: Config, t: Intent, w: World, id: GoString, f: Faults): AggregateRun {
    var e := RunEvents(c, t, w, id, f.events);
    var w1 := LastWorld(w, e.trail);
    var s := RunSnapshot(c, t, w1, id, f.snapshot);
    var d := RunState(c, t, LastWorld(w1, s.trail), id, f.state);
    InSequence(e, s, d)
  }

  /** processAggregate, without its report. */
  function RunAggregate(c: Config, w: World, id: GoString, f: Faults): AggregateRun {
    match c.assign(id)
    case AssignError => AggregateRun(AssignmentFailed, [])
    case Skip => AggregateRun(SkippedByAssignment, [])
    case Assign(tenant) =>
      if !Tenancy.ValidId(tenant) || Tenant(tenant) == c.source || (c.write && f.fence) then AggregateRun(Refused, [])
      else RunKinds(c, IntentFor(tenant), w, id, f)
  }

  // ------------------------------------------------------------- the report

  datatype Report = Report(
    scanned: nat, assignedIds: nat, skipped: nat, copied: nat,
    alreadyPresent: nat, verified: nat, sourceDeleted: nat, failed: nat)

  const EMPTY_REPORT := Report(0, 0, 0, 0, 0, 0, 0, 0)

  predicate KindFailed(v: AggregateVerdict)
    requires v.Processed?
  {
    v.events.status == Failed || v.snapshot.status == Failed || v.state.status == Failed
  }

  predicate Found(v: AggregateVerdict)
    requires v.Processed?
  {
    v.events.status != Nothing || v.snapshot.status != Nothing || v.state.status != Nothing
  }

  predicate Wrote(v: AggregateVerdict)
    requires v.Processed?
  {
    v.events.wroteTarget || v.snapshot.wroteTarget || v.state.wroteTarget
  }

  predicate Deleted(v: AggregateVerdict)
    requires v.Processed?
  {
    v.events.status == SourceDeleted || v.snapshot.status == SourceDeleted || v.state.status == SourceDeleted
  }

  /** The aggregate counts as failed. */
  predicate IsFailure(v: AggregateVerdict) {
    v.AssignmentFailed? || v.Refused? || (v.Processed? && (KindFailed(v) || !Found(v)))
  }

  function One(b: bool): nat { if b then 1 else 0 }

  /** What processAggregate adds to the report. */
  function Tally(c: Config, v: AggregateVerdict): Report {
    var processed := v.Processed?;
    var failed := IsFailure(v);
    var wrote := processed && Wrote(v) && (KindFailed(v) || Found(v));
    var deleted := processed && Deleted(v);
    Report(0, One(processed || v.Refused?), One(v.SkippedByAssignment?), One(wrote),
           One(processed && !failed && !Wrote(v)), One(processed && !failed && Wrote(v) && c.write),
           One(deleted), One(failed))
  }

  function Plus(a: Report, b: Report): Report {
    Report(a.scanned + b.scanned, a.assignedIds + b.assignedIds, a.skipped + b.skipped, a.copied + b.copied,
           a.alreadyPresent + b.alreadyPresent, a.verified + b.verified, a.sourceDeleted + b.sourceDeleted, a.failed
             + b.failed)
  }

  // ---------------------------------------------------------- the whole run

  datatype Progress = Progress(world: World, report: Report, trail: seq<World>, stopped: bool)

  function Advance(c: Config, p: Progress, id: GoString, f: Faults): Progress {
    var a := RunAggregate(c, p.world, id, f);
    Progress(LastWorld(p.world, a.trail), Plus(p.report.(scanned := p.report.scanned + 1), Tally(c, a.verdict)),
             p.trail + a.trail, c.failFast && IsFailure(a.verdict))
  }

  /** Run over the collected ids, in order, until done or stopped by fail-fast. */
  function RunAll(c: Config, w: World, ids: seq<GoString>, faults: GoString -> Faults): Progress {
    if ids == [] then Progress(w, EMPTY_REPORT, [], false)
    else
      var p := RunAll(c, w, ids[..|ids| - 1], faults);
      if p.stopped then p else Advance(c, p, ids[|ids| - 1], faults(ids[|ids| - 1]))
  }

  /** The adopter itself: it holds the stores and fills the report in place. */
  class TenantAdopter {
    const config: Config
    var world: World
    var report: Report
    ghost var trail: seq<World>

    constructor (c: Config, w: World)
      ensures config == c && world == w && report == EMPTY_REPORT && trail == []
    {
      config, world, report, trail := c, w, EMPTY_REPORT, [];
    }

    /** The bookkeeping of processAggregate. */
    method Count(v: AggregateVerdict) returns (stop: bool)
      requires !config.write && v.Processed? ==> !Deleted(v)
      modifies this`report
      ensures report == Plus(old(report), Tally(config, v))
      ensures stop == (config.failFast && IsFailure(v))
    {
      match v {
        case AssignmentFailed =>
          report := report.(failed := report.failed + 1);
          return config.failFast;
        case SkippedByAssignment =>
          report := report.(skipped := report.skipped + 1);
          return false;
        case Refused =>
          report := report.(assignedIds := report.assignedIds + 1, failed := report.failed + 1);
          return config.failFast;
        case Processed(events, snapshot, state) =>
          report := report.(assignedIds := report.assignedIds + 1);
          var copied, deleted := Wrote(v), Deleted(v);
          if KindFailed(v) {
            report := report.(failed := report.failed + 1);
            if copied { report := report.(copied := report.copied + 1); }
            if deleted { report := report.(sourceDeleted := report.sourceDeleted + 1); }
            return config.failFast;
          } else if !Found(v) {
            report := report.(failed := report.failed + 1);
            return config.failFast;
          } else if copied {
            report := report.(copied := report.copied + 1);
            if !config.write { return false; }
            report := report.(verified := report.verified + 1);
            if deleted { report := report.(sourceDeleted := report.sourceDeleted + 1); }
            return false;
          } else {
            report := report.(alreadyPresent := report.alreadyPresent + 1);
            if deleted { report := report.(sourceDeleted := report.sourceDeleted + 1); }
            return false;
          }
      }
    }

    /** processAggregate: a failed aggregate stops the run only under fail-fast. */
    method ProcessAggregate(id: GoString, f: Faults) returns (stop: bool)
      modifies this
      ensures Progress(world, report, trail, stop)
              == Advance(config, Progress(old(world), old(report), old(trail), false), id, f)
    {
      report := report.(scanned := report.scanned + 1);
      var a := RunAggregate(config, world, id, f);
      if !config.write { DryRunDeletesNothing(config, world, id, f); }
      trail := trail + a.trail;
      world := LastWorld(world, a.trail);
      stop := Count(a.verdict);
    }

    /** Run over the collected ids. */
    method Run(ids: seq<GoString>, faults: GoString -> Faults)
      requires report == EMPTY_REPORT && trail == []
      modifies this
      ensures Progress(world, report, trail, RunAll(config, old(world), ids, faults).stopped)
              == RunAll(config, old(world), ids, faults)
    {
      for i := 0 to |ids|
        invariant Progress(world, report, trail, false) == RunAll(config, old(world), ids[..i], faults)
      {
        var stop := ProcessAggregate(ids[i], faults(ids[i]));
        RunAllStep(config, old(world), ids, faults, i, Progress(world, report, trail, stop));
        if stop {
          StoppedStays(config, old(world), ids, faults, i + 1);
          return;
        }
      }
      assert ids[..|ids|] == ids;
    }
  }

  lemma RunAllStep(c: Config, w: World, ids: seq<GoString>, faults: GoString -> Faults, i: nat, next: Progress)
    requires i < |ids| && !RunAll(c, w, ids[..i], faults).stopped
    requires next == Advance(c, RunAll(c, w, ids[..i], faults), ids[i], faults(ids[i]))
    ensures RunAll(c, w, ids[..i + 1], faults) == next
  {
    assert ids[..i + 1][..i] == ids[..i];
  }

  lemma {:induction false} StoppedStays(c: Config, w: World, ids: seq<GoString>, faults: GoString -> Faults, i: nat)
    requires i <= |ids| && RunAll(c, w, ids[..i], faults).stopped
    ensures RunAll(c, w, ids, faults) == RunAll(c, w, ids[..i], faults)
  {
    if i == |ids| {
      assert ids[..i] == ids;
    } else {
      var front := ids[..|ids| - 1];
      assert front[..i] == ids[..i];
      StoppedStays(c, w, front, faults, i);
    }
  }

  lemma DryKinds(c: Config, t: Intent, w: World, id: GoString, f: Faults)
    requires !c.write
    ensures RunEvents(c, t, w, id, f.events).trail == []
            && RunEvents(c, t, w, id, f.events).outcome.status != SourceDeleted
    ensures RunSnapshot(c, t, w, id, f.snapshot).trail == []
            && RunSnapshot(c, t, w, id, f.snapshot).outcome.status != SourceDeleted
    ensures RunState(c, t, w, id, f.state).trail == [] && RunState(c, t, w, id, f.state).outcome.status != SourceDeleted
  {
  }

  /** A dry run mutates no store, so no source is reported deleted. */
  lemma DryRunDeletesNothing(c: Config, w: World, id: GoString, f: Faults)
    requires !c.write
    ensures RunAggregate(c, w, id, f).trail == []
    ensures var v := RunAggregate(c, w, id, f).verdict; v.Processed? ==> !Deleted(v)
  {
    if c.assign(id).Assign? {
      DryKinds(c, IntentFor(c.assign(id).tenant), w, id, f);
    }
  }
}
