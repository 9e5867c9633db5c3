/** What the report of a run counts, in words of the assignments and of the outcomes
    of the three record kinds. */
module AdoptionReport {
  import opened GoText
  import opened Conflict
  import opened Records
  import opened EventLog
  import opened Adoption
  import opened AdoptionRun
  import Tenancy

  function CountOf<T>(s: seq<T>, p: T -> bool): nat {
    if s == [] then 0 else CountOf(s[..|s| - 1], p) + if p(s[|s| - 1]) then 1 else 0
  }

  lemma CountOneMore<T>(s: seq<T>, x: T, p: T -> bool)
    ensures CountOf(s + [x], p) == CountOf(s, p) + if p(x) then 1 else 0
  {
    assert (s + [x])[..|s|] == s;
  }

  /** The verdicts of the ids a run gets to, in order. */
  function Verdicts(c: Config, w: World, ids: seq<GoString>, faults: GoString -> Faults): seq<AggregateVerdict> {
    if ids == [] then []
    else
      var front, id := ids[..|ids| - 1], ids[|ids| - 1];
      var p := RunAll(c, w, front, faults);
      if p.stopped then Verdicts(c, w, front, faults)
      else Verdicts(c, w, front, faults) + [RunAggregate(c, p.world, id, faults(id)).verdict]
  }

  // -------------------------------------------------------- what is counted

  function IsAssigned(c: Config): GoString -> bool {
    id => c.assign(id).Assign?
  }

  function IsSkipped(c: Config): GoString -> bool {
    id => c.assign(id).Skip?
  }

  predicate SomeStatus(v: AggregateVerdict, status: Status) {
    v.Processed? && (v.events.status == status || v.snapshot.status == status || v.state.status == status)
  }

  /** The source of some kind was deleted. */
  predicate SomeDeleted(v: AggregateVerdict) {
    SomeStatus(v, SourceDeleted)
  }

  /** Some kind wrote the target, or would have. */
  predicate SomeWritten(v: AggregateVerdict) {
    v.Processed? && (v.events.wroteTarget || v.snapshot.wroteTarget || v.state.wroteTarget)
  }

  /** No assignment, no valid target, no fence, a failed kind, or nothing anywhere. */
  predicate SomeFailure(v: AggregateVerdict) {
    || v.AssignmentFailed? || v.Refused? || SomeStatus(v, Failed)
    || (v.Processed? && v.events.status == v.snapshot.status == v.state.status == Nothing)
  }

  predicate CleanWrite(v: AggregateVerdict) {
    v.Processed? && !SomeFailure(v) && SomeWritten(v)
  }

  predicate CleanPresent(v: AggregateVerdict) {
    v.Processed? && !SomeFailure(v) && !SomeWritten(v)
  }

  /** What one id's verdict says about its assignment. */
  lemma VerdictOf(c: Config, w: World, id: GoString, f: Faults)
    ensures var v := RunAggregate(c, w, id, f).verdict;
            && (v.AssignmentFailed? <==> c.assign(id).AssignError?)
            && (v.SkippedByAssignment? <==> c.assign(id).Skip?)
            && (v.Refused? <==> && c.assign(id).Assign?
                                && (|| !Tenancy.ValidId(c.assign(id).tenant)
                                    || c.source == Tenant(c.assign(id).tenant)
                                    || (c.write && f.fence)))
            && (!v.Processed? ==> RunAggregate(c, w, id, f).trail == [])
  {
    if c.assign(id).Assign? { KindsAreProcessed(c, IntentFor(c.assign(id).tenant), w, id, f); }
  }

  lemma KindsAreProcessed(c: Config, t: Intent, w: World, id: GoString, f: Faults)
    ensures RunKinds(c, t, w, id, f).verdict.Processed?
  {
  }

  lemma WrittenMeansFound(c: Config, w: World, id: GoString, f: Faults)
    ensures var v := RunAggregate(c, w, id, f).verdict; SomeWritten(v) ==> Found(v)
  {
    if c.assign(id).Assign? && RunAggregate(c, w, id, f).verdict.Processed? {
      var t := IntentFor(c.assign(id).tenant);
      var e := RunEvents(c, t, w, id, f.events);
      var w1 := LastWorld(w, e.trail);
      var s := RunSnapshot(c, t, w1, id, f.snapshot);
      EventsWriteSomething(c, t, w, id, f.events);
      SnapshotWritesSomething(c, t, w1, id, f.snapshot);
      StateWritesSomething(c, t, LastWorld(w1, s.trail), id, f.state);
    }
  }

  lemma EventsWriteSomething(c: Config, t: Intent, w: World, id: GoString, f: EventFaults)
    ensures var o := RunEvents(c, t, w, id, f).outcome; o.wroteTarget ==> o.status != Nothing
  {
    if c.events { EventsOutcome(c, t, EventsPair(c, t, w, id), f); }
  }

  predicate Consistent(o: Outcome) {
    o.wroteTarget ==> o.status != Nothing
  }

  lemma AfterVerifiedOutcome(c: Config, now: Pair<Option<Log>>, all: seq<Record>, equivalent: bool, f: EventFaults)
    ensures Consistent(AfterVerified(c, now, all, equivalent, f).outcome)
  {
  }

  lemma AfterReplyOutcome(c: Config, t: Intent, now: Pair<Option<Log>>, all: seq<Record>, expected: seq<Record>,
                          f: EventFaults)
    ensures Consistent(AfterEventReply(c, t, now, all, expected, f).outcome)
  {
    var equivalent := EventsEquivalent(c.seal, c.source, t.tenant, expected, Replay(now.target));
    AfterVerifiedOutcome(c, now, all, equivalent, f);
  }

  lemma EventsOutcome(c: Config, t: Intent, p: Pair<Option<Log>>, f: EventFaults)
    ensures Consistent(AdoptEvents(c, t, p, f).outcome)
  {
    var all := Replay(p.source);
    var expected := EventCopies(c, t, all);
    var equivalent := EventsEquivalent(c.seal, c.source, t.tenant, expected, Replay(p.target));
    AfterVerifiedOutcome(c, p, all, equivalent, f);
    var now := p.(target := if f.write.Honest? then Some(Merge(None, expected)) else f.write.after);
    AfterReplyOutcome(c, t, now, all, expected, f);
  }

  lemma SnapshotWritesSomething(c: Config, t: Intent, w: World, id: GoString, f: SnapshotFaults)
    ensures var o := RunSnapshot(c, t, w, id, f).outcome; o.wroteTarget ==> o.status != Nothing
  {
  }

  lemma StateWritesSomething(c: Config, t: Intent, w: World, id: GoString, f: StateFaults)
    ensures var o := RunState(c, t, w, id, f).outcome; o.wroteTarget ==> o.status != Nothing
  {
  }

  // ------------------------------------------------------- the whole report

  /** The counters of the assignments, over the ids the run got to. */
  ghost predicate CountsIds(c: Config, r: Report, ids: seq<GoString>) {
    && r.scanned == |ids|
    && r.assignedIds == CountOf(ids, IsAssigned(c)) && r.skipped == CountOf(ids, IsSkipped(c))
  }

  /** The counters of what came of them. */
  ghost predicate CountsVerdicts(c: Config, r: Report, vs: seq<AggregateVerdict>) {
    && r.copied == CountOf(vs, SomeWritten) && r.sourceDeleted == CountOf(vs, SomeDeleted)
    && r.failed == CountOf(vs, SomeFailure) && r.alreadyPresent == CountOf(vs, CleanPresent)
    && r.verified == if c.write then CountOf(vs, CleanWrite) else 0
  }

  /** The report once one more id was processed. */
  function OneMore(c: Config, r: Report, v: AggregateVerdict): Report {
    Plus(r.(scanned := r.scanned + 1), Tally(c, v))
  }

  lemma TallyCounts(c: Config, w: World, id: GoString, f: Faults)
    ensures var v := RunAggregate(c, w, id, f).verdict; var r := Tally(c, v);
            && r.scanned == 0 && r.assignedIds == One(c.assign(id).Assign?) && r.skipped == One(c.assign(id).Skip?)
            && r.copied == One(SomeWritten(v)) && r.sourceDeleted == One(SomeDeleted(v))
            && r.failed == One(SomeFailure(v)) && r.alreadyPresent == One(CleanPresent(v))
            && r.verified == One(c.write && CleanWrite(v))
            && (IsFailure(v) <==> SomeFailure(v))
  {
    VerdictOf(c, w, id, f);
    WrittenMeansFound(c, w, id, f);
  }

  lemma IdsOneMore(c: Config, r: Report, ids: seq<GoString>, w: World, id: GoString, f: Faults)
    requires CountsIds(c, r, ids)
    ensures CountsIds(c, OneMore(c, r, RunAggregate(c, w, id, f).verdict), ids + [id])
  {
    TallyCounts(c, w, id, f);
    CountOneMore(ids, id, IsAssigned(c));
    CountOneMore(ids, id, IsSkipped(c));
  }

  lemma VerdictsOneMore(c: Config, r: Report, vs: seq<AggregateVerdict>, w: World, id: GoString, f: Faults)
    requires CountsVerdicts(c, r, vs)
    ensures var v := RunAggregate(c, w, id, f).verdict; CountsVerdicts(c, OneMore(c, r, v), vs + [v])
  {
    var v := RunAggregate(c, w, id, f).verdict;
    TallyCounts(c, w, id, f);
    CountOneMore(vs, v, SomeWritten);
    CountOneMore(vs, v, SomeDeleted);
    CountOneMore(vs, v, SomeFailure);
    CountOneMore(vs, v, CleanPresent);
    CountOneMore(vs, v, CleanWrite);
  }

  /** The run stops at the first failure under fail-fast, and at no other place. */
  ghost predicate StopsRight(c: Config, ids: seq<GoString>, vs: seq<AggregateVerdict>, stopped: bool) {
    && |vs| <= |ids| && (stopped <==> c.failFast && vs != [] && SomeFailure(vs[|vs| - 1]))
    && (!stopped ==> |vs| == |ids|)
    && (c.failFast ==> forall i :: 0 <= i < |vs| - 1 ==> !SomeFailure(vs[i]))
  }

  /** A run over ids, with these verdicts, stops where it should and counts each of
      them once. */
  ghost predicate Reported(c: Config, ids: seq<GoString>, vs: seq<AggregateVerdict>, p: Progress) {
    StopsRight(c, ids, vs, p.stopped) && CountsIds(c, p.report, ids[..|vs|]) && CountsVerdicts(c, p.report, vs)
  }

  lemma {:induction false} ReportCounts(c: Config, w: World, ids: seq<GoString>, faults: GoString -> Faults)
    ensures Reported(c, ids, Verdicts(c, w, ids, faults), RunAll(c, w, ids, faults))
  {
    if ids != [] {
      var front := ids[..|ids| - 1];
      ReportCounts(c, w, front, faults);
      ReportedStep(c, w, ids, faults, RunAll(c, w, front, faults), Verdicts(c, w, front, faults));
    }
  }

  lemma ReportedStep(c: Config, w: World, ids: seq<GoString>, faults: GoString -> Faults, p: Progress,
                     before: seq<AggregateVerdict>)
    requires ids != [] && p == RunAll(c, w, ids[..|ids| - 1], faults)
    requires before == Verdicts(c, w, ids[..|ids| - 1], faults) && Reported(c, ids[..|ids| - 1], before, p)
    ensures Reported(c, ids, Verdicts(c, w, ids, faults), RunAll(c, w, ids, faults))
  {
    var id := ids[|ids| - 1];
    if p.stopped {
      ReportedStays(c, ids, before, p);
    } else {
      Advanced(c, w, ids, faults, p, RunAggregate(c, p.world, id, faults(id)).verdict);
      ReportedNext(c, ids, before, p, faults(id), Verdicts(c, w, ids, faults), RunAll(c, w, ids, faults));
    }
  }

  lemma ReportedStays(c: Config, ids: seq<GoString>, before: seq<AggregateVerdict>, p: Progress)
    requires ids != [] && Reported(c, ids[..|ids| - 1], before, p) && p.stopped
    ensures Reported(c, ids, before, p)
  {
    assert ids[..|ids| - 1][..|before|] == ids[..|before|];
  }

  lemma ReportedNext(c: Config, ids: seq<GoString>, before: seq<AggregateVerdict>, p: Progress, f: Faults,
                     vs: seq<AggregateVerdict>, next: Progress)
    requires ids != [] && Reported(c, ids[..|ids| - 1], before, p) && !p.stopped
    requires var v := RunAggregate(c, p.world, ids[|ids| - 1], f).verdict;
             && vs == before + [v] && next.report == OneMore(c, p.report, v)
             && next.stopped == (c.failFast && IsFailure(v))
    ensures Reported(c, ids, vs, next)
  {
    var front, id := ids[..|ids| - 1], ids[|ids| - 1];
    var v := RunAggregate(c, p.world, id, f).verdict;
    assert front[..|before|] == front && ids == front + [id];
    IdsOneMore(c, p.report, front, p.world, id, f);
    VerdictsOneMore(c, p.report, before, p.world, id, f);
    TallyCounts(c, p.world, id, f);
    StopsOneMore(c, front, id, before, v);
    Whole(ids);
  }

  lemma Whole(ids: seq<GoString>)
    ensures ids[..|ids|] == ids
  {
  }

  lemma StopsOneMore(c: Config, ids: seq<GoString>, id: GoString, vs: seq<AggregateVerdict>, v: AggregateVerdict)
    requires StopsRight(c, ids, vs, false)
    ensures StopsRight(c, ids + [id], vs + [v], c.failFast && SomeFailure(v))
  {
  }

  lemma Advanced(c: Config, w: World, ids: seq<GoString>, faults: GoString -> Faults, p: Progress, v: AggregateVerdict)
    requires ids != [] && p == RunAll(c, w, ids[..|ids| - 1], faults) && !p.stopped
    requires v == RunAggregate(c, p.world, ids[|ids| - 1], faults(ids[|ids| - 1])).verdict
    ensures RunAll(c, w, ids, faults).report == OneMore(c, p.report, v)
    ensures RunAll(c, w, ids, faults).stopped == (c.failFast && IsFailure(v))
    ensures Verdicts(c, w, ids, faults) == Verdicts(c, w, ids[..|ids| - 1], faults) + [v]
  {
  }

  // ------------------------------------------------------ kinds in sequence

  /** A failed kind ends the aggregate: the stores of the later kinds are never
      touched. Nor are those of a kind that is not adopted at all. */
  lemma LaterKindsWait(c: Config, t: Intent, w: World, id: GoString, f: Faults, k: nat)
    requires k < |RunKinds(c, t, w, id, f).trail|
    ensures var a := RunKinds(c, t, w, id, f);
            && a.verdict.Processed?
            && (a.verdict.events.status == Failed ==>
                && a.trail[k].snapshots == w.snapshots && a.trail[k].states == w.states
                && a.verdict.snapshot.status == a.verdict.state.status == Nothing)
            && (a.verdict.snapshot.status == Failed ==>
                a.trail[k].states == w.states && a.verdict.state.status == Nothing)
            && (!c.events ==> a.trail[k].events == w.events)
            && (!c.snapshots ==> a.trail[k].snapshots == w.snapshots)
            && (!c.states ==> a.trail[k].states == w.states)
  {
    var e := RunEvents(c, t, w, id, f.events);
    var w1 := LastWorld(w, e.trail);
    var s := RunSnapshot(c, t, w1, id, f.snapshot);
    var d := RunState(c, t, LastWorld(w1, s.trail), id, f.state);
    EventsTouchEvents(c, t, w, id, f.events);
    SnapshotTouchesSnapshots(c, t, w1, id, f.snapshot);
    StateTouchesStates(c, t, LastWorld(w1, s.trail), id, f.state);
    SequenceWaits(w, e, s, d, k);
  }

  /** The snapshot's stores follow from where the events left them, and so on. */
  ghost predicate OneAfterAnother(w: World, e: KindRun, s: KindRun, d: KindRun) {
    var w1 := LastWorld(w, e.trail);
    var w2 := LastWorld(w1, s.trail);
    && (forall k :: 0 <= k < |e.trail| ==> e.trail[k].snapshots == w.snapshots && e.trail[k].states == w.states)
    && (forall k :: 0 <= k < |s.trail| ==> s.trail[k].events == w1.events && s.trail[k].states == w1.states)
    && (forall k :: 0 <= k < |d.trail| ==> d.trail[k].events == w2.events && d.trail[k].snapshots == w2.snapshots)
  }

  lemma SequenceWaits(w: World, e: KindRun, s: KindRun, d: KindRun, k: nat)
    requires OneAfterAnother(w, e, s, d) && k < |InSequence(e, s, d).trail|
    ensures var a := InSequence(e, s, d);
            && (e.outcome.status == Failed ==> a.trail[k].snapshots == w.snapshots && a.trail[k].states == w.states)
            && (e.outcome.status != Failed && s.outcome.status == Failed ==> a.trail[k].states == w.states)
            && (e.trail == [] ==> a.trail[k].events == w.events)
            && (s.trail == [] ==> a.trail[k].snapshots == w.snapshots)
            && (d.trail == [] ==> a.trail[k].states == w.states)
  {
  }

  lemma EventsTouchEvents(c: Config, t: Intent, w: World, id: GoString, f: EventFaults)
    ensures var e := RunEvents(c, t, w, id, f);
            && (forall k :: 0 <= k < |e.trail| ==> e.trail[k].snapshots == w.snapshots && e.trail[k].states == w.states)
            && (!c.events ==> e.trail == [])
  {
  }

  lemma SnapshotTouchesSnapshots(c: Config, t: Intent, w: World, id: GoString, f: SnapshotFaults)
    ensures var s := RunSnapshot(c, t, w, id, f);
            && (forall k :: 0 <= k < |s.trail| ==> s.trail[k].events == w.events && s.trail[k].states == w.states)
            && (!c.snapshots ==> s.trail == [])
  {
  }

  lemma StateTouchesStates(c: Config, t: Intent, w: World, id: GoString, f: StateFaults)
    ensures var d := RunState(c, t, w, id, f);
            && (forall k :: 0 <= k < |d.trail| ==> d.trail[k].events == w.events && d.trail[k].snapshots == w.snapshots)
            && (!c.states ==> d.trail == [])
  {
  }
}
