/** A dry run's report against the real run's, over faithful stores. */
module AdoptionPrediction {
  import opened GoText
  import opened EventLog
  import opened Adoption
  import opened AdoptionRun
  import opened AdoptionWholeRun
  import opened AdoptionFaithful
  import opened AdoptionResume
  import opened AdoptionResumeRun
  import Pagination

  /** Well-kept stores for id. */
  ghost predicate WellKept(c: Config, t: Intent, w: World, id: GoString) {
    && Sound(c, t)
    && (EventsPair(c, t, w, id).source.Some? ==> Distinct(EventsPair(c, t, w, id).source.value.events))
    && KeyedByPosition(SnapshotsPair(c, t, w, id).source)
  }

  /** There are events to adopt, and an emptied log where they would go. */
  ghost predicate MeetsEmptied(c: Config, t: Intent, w: World, id: GoString) {
    var p := EventsPair(c, t, w, id);
    c.events && Replay(p.source) != [] && p.target.Some? && Replay(p.target) == []
  }

  ghost predicate Predictable(c: Config, t: Intent, w: World, id: GoString) {
    WellKept(c, t, w, id) && !MeetsEmptied(c, t, w, id)
  }

  lemma EventsLeaveOthers(c: Config, t: Intent, w: World, id: GoString, f: EventFaults)
    requires t.target != c.source
    ensures var w' := LastWorld(w, RunEvents(c, t, w, id, f).trail);
            SnapshotsPair(c, t, w', id) == SnapshotsPair(c, t, w, id)
              && StatePair(c, t, w', id) == StatePair(c, t, w, id)
  {
    if c.events {
      var p := EventsPair(c, t, w, id);
      EventsTouch(c, t, w, id, Final(p, AdoptEvents(c, t, p, f)));
    }
  }

  lemma SnapshotLeavesState(c: Config, t: Intent, w: World, id: GoString, f: SnapshotFaults)
    requires t.target != c.source
    ensures StatePair(c, t, LastWorld(w, RunSnapshot(c, t, w, id, f).trail), id) == StatePair(c, t, w, id)
  {
    if c.snapshots {
      var p := SnapshotsPair(c, t, w, id);
      SnapshotsTouch(c, t, w, id, Final(p, AdoptSnapshot(c, t, p, f)));
    }
  }

  /** The planned and the real verdict count alike. */
  predicate SameCounts(v: AggregateVerdict, v': AggregateVerdict) {
    && v.Processed? && v'.Processed?
    && SameTally(v.events, v'.events) && SameTally(v.snapshot, v'.snapshot) && SameTally(v.state, v'.state)
  }

  lemma SequenceSameCounts(e: KindRun, s: KindRun, d: KindRun, e': KindRun, s': KindRun, d': KindRun)
    requires SameTally(e.outcome, e'.outcome) && SameTally(s.outcome, s'.outcome) && SameTally(d.outcome, d'.outcome)
    ensures SameCounts(InSequence(e, s, d).verdict, InSequence(e', s', d').verdict)
  {
  }

  lemma EventsPredicted(c: Config, t: Intent, w: World, w': World, id: GoString)
    requires c.write && Predictable(c, t, w, id) && EventsPair(c, t, w', id) == EventsPair(c, t, w, id)
    ensures SameTally(RunEvents(Dry(c), t, w, id, HONEST_EVENTS).outcome,
                      RunEvents(c, t, w', id, HONEST_EVENTS).outcome)
  {
    DryRunPrediction(c, t, EventsPair(c, t, w, id));
  }

  lemma SnapshotPredicted(c: Config, t: Intent, w: World, w': World, id: GoString)
    requires c.write && Predictable(c, t, w, id) && SnapshotsPair(c, t, w', id) == SnapshotsPair(c, t, w, id)
    ensures SameTally(RunSnapshot(Dry(c), t, w, id, HONEST_SNAPSHOT).outcome,
                      RunSnapshot(c, t, w', id, HONEST_SNAPSHOT).outcome)
  {
    DrySnapshotPrediction(c, t, SnapshotsPair(c, t, w, id));
  }

  lemma StatePredicted(c: Config, t: Intent, w: World, w': World, id: GoString)
    requires c.write && StatePair(c, t, w', id) == StatePair(c, t, w, id)
    ensures SameTally(RunState(Dry(c), t, w, id, HONEST_STATE).outcome, RunState(c, t, w', id, HONEST_STATE).outcome)
  {
    DryStatePrediction(c, t, StatePair(c, t, w, id));
  }

  lemma KindsPredicted(c: Config, t: Intent, w: World, w': World, id: GoString)
    requires t.target != c.source && c.write && Predictable(c, t, w, id) && SameFor(w, w', id)
    ensures SameCounts(RunKinds(Dry(c), t, w, id, HONEST).verdict, RunKinds(c, t, w', id, HONEST).verdict)
  {
    assert SameAt(w, w', SourceKey(c, id)) && SameAt(w, w', TargetKey(t, id));
    var e, e' := RunEvents(Dry(c), t, w, id, HONEST_EVENTS), RunEvents(c, t, w', id, HONEST_EVENTS);
    EventsPredicted(c, t, w, w', id);
    DryKinds(Dry(c), t, w, id, HONEST);
    EventsLeaveOthers(c, t, w', id, HONEST_EVENTS);
    LaterKindsPredicted(c, t, w, LastWorld(w', e'.trail), id, e, e');
  }

  lemma LaterKindsPredicted(c: Config, t: Intent, w: World, w1: World, id: GoString, e: KindRun, e': KindRun)
    requires t.target != c.source && c.write && Predictable(c, t, w, id) && SameTally(e.outcome, e'.outcome)
    requires SnapshotsPair(c, t, w1, id) == SnapshotsPair(c, t, w, id)
             && StatePair(c, t, w1, id) == StatePair(c, t, w, id)
    ensures var s, s' := RunSnapshot(Dry(c), t, w, id, HONEST_SNAPSHOT), RunSnapshot(c, t, w1, id, HONEST_SNAPSHOT);
            var d, d' := RunState(Dry(c), t, w, id, HONEST_STATE),
                RunState(c, t, LastWorld(w1, s'.trail), id, HONEST_STATE);
            SameCounts(InSequence(e, s, d).verdict, InSequence(e', s', d').verdict)
  {
    var s, s' := RunSnapshot(Dry(c), t, w, id, HONEST_SNAPSHOT), RunSnapshot(c, t, w1, id, HONEST_SNAPSHOT);
    SnapshotPredicted(c, t, w, w1, id);
    SnapshotLeavesState(c, t, w1, id, HONEST_SNAPSHOT);
    var w2 := LastWorld(w1, s'.trail);
    StatePredicted(c, t, w, w2, id);
    SequenceSameCounts(e, s, RunState(Dry(c), t, w, id, HONEST_STATE), e', s', RunState(c, t, w2, id, HONEST_STATE));
  }

  /** Two reports agree on everything a dry run may claim. */
  predicate Agree(dry: Report, wet: Report) {
    && dry.scanned == wet.scanned && dry.assignedIds == wet.assignedIds && dry.skipped == wet.skipped
    && dry.copied == wet.copied && dry.alreadyPresent == wet.alreadyPresent && dry.failed == wet.failed
  }

  /** Verdicts that count alike, or that never got to the stores and are equal. */
  predicate Alike(v: AggregateVerdict, v': AggregateVerdict) {
    SameCounts(v, v') || (!v.Processed? && v == v')
  }

  lemma AlikeTallies(c: Config, v: AggregateVerdict, v': AggregateVerdict)
    requires c.write && Alike(v, v')
    ensures Agree(Tally(Dry(c), v), Tally(c, v')) && (IsFailure(v) <==> IsFailure(v'))
  {
  }

  lemma AggregatePredicted(c: Config, w: World, w': World, id: GoString)
    requires c.write && SameFor(w, w', id)
    requires forall t :: AdoptedTo(c, id, t) ==> Predictable(c, t, w, id)
    ensures Alike(RunAggregate(Dry(c), w, id, HONEST).verdict, RunAggregate(c, w', id, HONEST).verdict)
  {
    if c.assign(id).Assign? {
      var t := IntentFor(c.assign(id).tenant);
      if AdoptedTo(c, id, t) { KindsPredicted(c, t, w, w', id); }
    }
  }

  lemma StepPredicted(c: Config, dry: Progress, wet: Progress, id: GoString)
    requires c.write && SameFor(dry.world, wet.world, id) && Agree(dry.report, wet.report)
    requires forall t :: AdoptedTo(c, id, t) ==> Predictable(c, t, dry.world, id)
    ensures var dry', wet' := Advance(Dry(c), dry, id, HONEST), Advance(c, wet, id, HONEST);
            Agree(dry'.report, wet'.report) && dry'.stopped == wet'.stopped
  {
    AggregatePredicted(c, dry.world, wet.world, id);
    AlikeTallies(c, RunAggregate(Dry(c), dry.world, id, HONEST).verdict,
                 RunAggregate(c, wet.world, id, HONEST).verdict);
  }

  // -------------------------------------------------- exactly when it predicts

  /** The run takes id on and finds an emptied log where its events would go. */
  ghost predicate Misleads(c: Config, w: World, id: GoString) {
    exists t :: AdoptedTo(c, id, t) && MeetsEmptied(c, t, w, id)
  }

  /** Then the plan counts a copy, and the real run fails without one. */
  lemma EmptiedAggregate(c: Config, w: World, w': World, id: GoString)
    requires c.write && SameFor(w, w', id) && Misleads(c, w, id)
    ensures Tally(Dry(c), RunAggregate(Dry(c), w, id, HONEST).verdict).copied == 1
    ensures var v := RunAggregate(c, w', id, HONEST).verdict; Tally(c, v).copied == 0 && IsFailure(v)
  {
    var t :| AdoptedTo(c, id, t) && MeetsEmptied(c, t, w, id);
    assert SameAt(w, w', SourceKey(c, id)) && SameAt(w, w', TargetKey(t, id));
    var p := EventsPair(c, t, w, id);
    DryVerdict(c, t, p);
    EmptiedTargetFails(c, t, p);
    EmptiedTallies(c, t, w, w', id);
  }

  lemma EmptiedTallies(c: Config, t: Intent, w: World, w': World, id: GoString)
    requires c.write && AdoptedTo(c, id, t)
    requires RunEvents(Dry(c), t, w, id, HONEST_EVENTS).outcome == Outcome(Copied, true)
    requires RunEvents(c, t, w', id, HONEST_EVENTS).outcome == FAILED
    ensures Tally(Dry(c), RunAggregate(Dry(c), w, id, HONEST).verdict).copied == 1
    ensures var v := RunAggregate(c, w', id, HONEST).verdict; Tally(c, v).copied == 0 && IsFailure(v)
  {
    CopiedEventsTally(Dry(c), t, w, id);
    FailedEventsTally(c, t, w', id);
  }

  lemma CopiedEventsTally(c: Config, t: Intent, w: World, id: GoString)
    requires AdoptedTo(c, id, t) && RunEvents(c, t, w, id, HONEST_EVENTS).outcome == Outcome(Copied, true)
    ensures Tally(c, RunAggregate(c, w, id, HONEST).verdict).copied == 1
  {
    assert RunAggregate(c, w, id, HONEST) == RunKinds(c, t, w, id, HONEST);
  }

  lemma FailedEventsTally(c: Config, t: Intent, w: World, id: GoString)
    requires AdoptedTo(c, id, t) && RunEvents(c, t, w, id, HONEST_EVENTS).outcome == FAILED
    ensures var v := RunAggregate(c, w, id, HONEST).verdict; Tally(c, v).copied == 0 && IsFailure(v)
  {
    assert RunAggregate(c, w, id, HONEST) == RunKinds(c, t, w, id, HONEST);
  }

  /** The dry run gets to one of the first n ids, and is misled by it. */
  ghost predicate MisledWithin(c: Config, w: World, ids: seq<GoString>, n: nat)
    requires n <= |ids|
  {
    exists i :: 0 <= i < n && Misleads(c, w, ids[i]) && !RunAll(Dry(c), w, ids[..i], ALWAYS_HONEST).stopped
  }

  /** Until it is misled the two runs agree; from then on the plan has counted a
      copy too many. */
  ghost predicate Predicts(c: Config, misled: bool, dry: Progress, wet: Progress) {
    if misled then dry.report.copied > wet.report.copied && (c.failFast ==> wet.stopped)
    else Agree(dry.report, wet.report) && dry.stopped == wet.stopped
  }

  lemma MisledStep(c: Config, w: World, dry: Progress, wet: Progress, id: GoString)
    requires c.write && dry.world == w && SameFor(w, wet.world, id) && dry.report.copied >= wet.report.copied
    requires (forall t :: AdoptedTo(c, id, t) ==> WellKept(c, t, w, id))
    requires dry.report.copied > wet.report.copied || Misleads(c, w, id)
    ensures var dry', wet' := Advance(Dry(c), dry, id, HONEST), Advance(c, wet, id, HONEST);
            dry'.report.copied > wet'.report.copied && (Misleads(c, w, id) && c.failFast ==> wet'.stopped)
  {
    if Misleads(c, w, id) {
      EmptiedAggregate(c, w, wet.world, id);
    } else {
      forall t | AdoptedTo(c, id, t) ensures Predictable(c, t, w, id) {}
      AggregatePredicted(c, w, wet.world, id);
      AlikeTallies(c, RunAggregate(Dry(c), w, id, HONEST).verdict, RunAggregate(c, wet.world, id, HONEST).verdict);
    }
  }

  lemma {:induction false} NeverStopsSlow(c: Config, w: World, ids: seq<GoString>)
    requires !c.failFast
    ensures !RunAll(c, w, ids, ALWAYS_HONEST).stopped
  {
    if ids != [] { NeverStopsSlow(c, w, ids[..|ids| - 1]); }
  }

  lemma CopiedNeverFalls(c: Config, p: Progress, id: GoString, f: Faults)
    ensures Advance(c, p, id, f).report.copied >= p.report.copied
  {
  }

  lemma {:induction false} PredictsSoFar(c: Config, w: World, ids: seq<GoString>, n: nat)
    requires c.write && Pagination.NoRepeats(ids) && n <= |ids|
    requires forall id, t :: id in ids && AdoptedTo(c, id, t) ==> WellKept(c, t, w, id)
    ensures Predicts(c, MisledWithin(c, w, ids, n), RunAll(Dry(c), w, ids[..n], ALWAYS_HONEST),
                     RunAll(c, w, ids[..n], ALWAYS_HONEST))
  {
    if n > 0 {
      PredictsSoFar(c, w, ids, n - 1);
      var front, id := ids[..n - 1], ids[n - 1];
      assert ids[..n][..n - 1] == front && id !in front && ids[..n][n - 1] == id;
      var dry, wet := RunAll(Dry(c), w, front, ALWAYS_HONEST), RunAll(c, w, front, ALWAYS_HONEST);
      DryRunIsInert(Dry(c), w, front, ALWAYS_HONEST);
      RunNeverLoses(c, w, front, ALWAYS_HONEST);
      if !c.failFast {
        NeverStopsSlow(c, w, front);
        NeverStopsSlow(Dry(c), w, front);
      }
      MisledGrows(c, w, ids, n);
      PredictsNext(c, w, dry, wet, id, MisledWithin(c, w, ids, n - 1));
    }
  }

  lemma MisledGrows(c: Config, w: World, ids: seq<GoString>, n: nat)
    requires 0 < n <= |ids|
    ensures MisledWithin(c, w, ids, n) <==>
            || MisledWithin(c, w, ids, n - 1)
            || (Misleads(c, w, ids[n - 1]) && !RunAll(Dry(c), w, ids[..n - 1], ALWAYS_HONEST).stopped)
  {
  }

  lemma PredictsNext(c: Config, w: World, dry: Progress, wet: Progress, id: GoString, misled: bool)
    requires c.write && dry.world == w && SameFor(w, wet.world, id) && Predicts(c, misled, dry, wet)
    requires forall t :: AdoptedTo(c, id, t) ==> WellKept(c, t, w, id)
    requires !c.failFast ==> !dry.stopped && !wet.stopped
    ensures var dry' := if dry.stopped then dry else Advance(Dry(c), dry, id, HONEST);
            var wet' := if wet.stopped then wet else Advance(c, wet, id, HONEST);
            Predicts(c, misled || (Misleads(c, w, id) && !dry.stopped), dry', wet')
  {
    if !dry.stopped { CopiedNeverFalls(Dry(c), dry, id, HONEST); }
    if misled {
      if !c.failFast { MisledStep(c, w, dry, wet, id); }
    } else if !dry.stopped {
      if Misleads(c, w, id) {
        MisledStep(c, w, dry, wet, id);
      } else {
        forall t | AdoptedTo(c, id, t) ensures Predictable(c, t, w, id) {}
        StepPredicted(c, dry, wet, id);
      }
    }
  }

  /** Over well-kept, faithful stores a dry run reports the scanned, assigned,
      skipped, copied, already present and failed counts of the real run, and
      stops where it stops, if and only if it gets to no id whose events meet
      an emptied log. */
  lemma DryRunPredictsReport(c: Config, w: World, ids: seq<GoString>)
    requires c.write && Pagination.NoRepeats(ids)
    requires forall id, t :: id in ids && AdoptedTo(c, id, t) ==> WellKept(c, t, w, id)
    ensures var dry, wet := RunAll(Dry(c), w, ids, ALWAYS_HONEST), RunAll(c, w, ids, ALWAYS_HONEST);
            Agree(dry.report, wet.report) && dry.stopped == wet.stopped <==> !MisledWithin(c, w, ids, |ids|)
  {
    assert ids[..|ids|] == ids;
    PredictsSoFar(c, w, ids, |ids|);
  }
}
