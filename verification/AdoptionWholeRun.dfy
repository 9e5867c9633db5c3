/** Whole-run results: no aggregate of a run ever loses a record, aggregates do
    not touch each other, and the report adds up. */
module AdoptionWholeRun {
  import opened GoText
  import opened Conflict
  import opened Records
  import opened EventLog
  import opened Adoption
  import opened AdoptionSafety
  import opened AdoptionRun
  import Pagination
  import Tenancy

  // -------------------------------------------------------------- framing

  /** w and w' hold the same under one key. */
  predicate SameAt(w: World, w': World, k: Key) {
    EventsAt(w, k) == EventsAt(w', k) && SnapshotsAt(w, k) == SnapshotsAt(w', k) && StateAt(w, k) == StateAt(w', k)
  }

  /** Nothing but aggregate id's own records differ. */
  ghost predicate OnlyTouches(w: World, w': World, id: GoString) {
    forall k: Key :: k.pid != id ==> SameAt(w, w', k)
  }

  lemma EventsTouch(c: Config, t: Intent, w: World, id: GoString, p: Pair<Option<Log>>)
    requires t.target != c.source
    ensures var w' := WithEvents(w, SourceKey(c, id), TargetKey(t, id), p);
            && OnlyTouches(w, w', id) && EventsPair(c, t, w', id) == p
            && SnapshotsPair(c, t, w', id) == SnapshotsPair(c, t, w, id)
            && StatePair(c, t, w', id) == StatePair(c, t, w, id)
  {
  }

  lemma SnapshotsTouch(c: Config, t: Intent, w: World, id: GoString, p: Pair<Snapshots>)
    requires t.target != c.source
    ensures var w' := WithSnapshots(w, SourceKey(c, id), TargetKey(t, id), p);
            && OnlyTouches(w, w', id) && SnapshotsPair(c, t, w', id) == p
            && EventsPair(c, t, w', id) == EventsPair(c, t, w, id) && StatePair(c, t, w', id) == StatePair(c, t, w, id)
  {
  }

  lemma StateTouch(c: Config, t: Intent, w: World, id: GoString, p: Pair<Option<Record>>)
    requires t.target != c.source
    ensures var w' := WithState(w, SourceKey(c, id), TargetKey(t, id), p);
            && OnlyTouches(w, w', id) && StatePair(c, t, w', id) == p
            && EventsPair(c, t, w', id) == EventsPair(c, t, w, id)
            && SnapshotsPair(c, t, w', id) == SnapshotsPair(c, t, w, id)
  {
  }

  // -------------------------------------------------------- nothing is lost

  /** From w0 to w, aggregate id kept every record: each event and the latest
      snapshot is in the source or copied, and its durable state stayed. */
  ghost predicate Kept(c: Config, t: Intent, w0: World, w: World, id: GoString) {
    && EventsKept(c, t, Replay(EventsPair(c, t, w0, id).source), EventsPair(c, t, w, id))
    && SnapshotKept(c, t, Latest(SnapshotsPair(c, t, w0, id).source), SnapshotsPair(c, t, w, id))
    && StatePair(c, t, w, id).source == StatePair(c, t, w0, id).source
  }

  lemma KeptFromStart(c: Config, t: Intent, w: World, id: GoString)
    ensures Kept(c, t, w, w, id)
  {
    var m := SnapshotsPair(c, t, w, id).source;
    if m != map[] { assert MaxOf(m.Keys) in m && Latest(m).value in m.Values; }
  }

  /** Every world of a trail keeps id's records and touches nothing else. */
  ghost predicate GoodTrail(c: Config, t: Intent, w0: World, id: GoString, trail: seq<World>) {
    forall i :: 0 <= i < |trail| ==> Kept(c, t, w0, trail[i], id) && OnlyTouches(w0, trail[i], id)
  }

  lemma EventsPhase(c: Config, t: Intent, w: World, id: GoString, f: EventFaults)
    requires t.target != c.source
    ensures GoodTrail(c, t, w, id, RunEvents(c, t, w, id, f).trail)
    ensures SnapshotsPair(c, t, LastWorld(w, RunEvents(c, t, w, id, f).trail), id) == SnapshotsPair(c, t, w, id)
  {
    if c.events {
      var a := AdoptEvents(c, t, EventsPair(c, t, w, id), f);
      EventsNeverLost(c, t, EventsPair(c, t, w, id), f);
      KeptFromStart(c, t, w, id);
      forall i | 0 <= i < |a.trail|
        ensures var w' := WithEvents(w, SourceKey(c, id), TargetKey(t, id), a.trail[i]);
                Kept(c, t, w, w', id) && OnlyTouches(w, w', id)
                  && SnapshotsPair(c, t, w', id) == SnapshotsPair(c, t, w, id)
      {
        EventsTouch(c, t, w, id, a.trail[i]);
        assert EventsKept(c, t, Replay(EventsPair(c, t, w, id).source), a.trail[i]);
      }
    }
  }

  lemma SnapshotPhase(c: Config, t: Intent, w0: World, w: World, id: GoString, f: SnapshotFaults)
    requires t.target != c.source && Kept(c, t, w0, w, id) && OnlyTouches(w0, w, id)
    requires SnapshotsPair(c, t, w, id) == SnapshotsPair(c, t, w0, id)
    ensures GoodTrail(c, t, w0, id, RunSnapshot(c, t, w, id, f).trail)
  {
    if c.snapshots {
      var a := AdoptSnapshot(c, t, SnapshotsPair(c, t, w, id), f);
      SnapshotNeverLost(c, t, SnapshotsPair(c, t, w, id), f);
      forall i | 0 <= i < |a.trail|
        ensures var w' := WithSnapshots(w, SourceKey(c, id), TargetKey(t, id), a.trail[i]);
                Kept(c, t, w0, w', id) && OnlyTouches(w0, w', id)
      {
        SnapshotsTouch(c, t, w, id, a.trail[i]);
        assert SnapshotKept(c, t, Latest(SnapshotsPair(c, t, w, id).source), a.trail[i]);
      }
    }
  }

  lemma StatePhase(c: Config, t: Intent, w0: World, w: World, id: GoString, f: StateFaults)
    requires t.target != c.source && Kept(c, t, w0, w, id) && OnlyTouches(w0, w, id)
    ensures GoodTrail(c, t, w0, id, RunState(c, t, w, id, f).trail)
  {
    if c.states {
      var a := AdoptState(c, t, StatePair(c, t, w, id), f);
      StateNeverLost(c, t, StatePair(c, t, w, id), f);
      forall i | 0 <= i < |a.trail|
        ensures var w' := WithState(w, SourceKey(c, id), TargetKey(t, id), a.trail[i]);
                Kept(c, t, w0, w', id) && OnlyTouches(w0, w', id)
      {
        StateTouch(c, t, w, id, a.trail[i]);
      }
    }
  }

  lemma LastOfGood(c: Config, t: Intent, w0: World, w: World, id: GoString, trail: seq<World>)
    requires Kept(c, t, w0, w, id) && OnlyTouches(w0, w, id) && GoodTrail(c, t, w0, id, trail)
    ensures Kept(c, t, w0, LastWorld(w, trail), id) && OnlyTouches(w0, LastWorld(w, trail), id)
  {
  }

  lemma SequenceGood(c: Config, t: Intent, w: World, id: GoString, e: KindRun, s: KindRun, d: KindRun)
    requires GoodTrail(c, t, w, id, e.trail) && GoodTrail(c, t, w, id, s.trail) && GoodTrail(c, t, w, id, d.trail)
    ensures GoodTrail(c, t, w, id, InSequence(e, s, d).trail)
  {
  }

  lemma AggregateKeeps(c: Config, t: Intent, w: World, id: GoString, f: Faults)
    requires t.target != c.source
    ensures GoodTrail(c, t, w, id, RunKinds(c, t, w, id, f).trail)
  {
    KeptFromStart(c, t, w, id);
    var e := RunEvents(c, t, w, id, f.events);
    EventsPhase(c, t, w, id, f.events);
    LaterKindsKeep(c, t, w, id, f, e);
  }

  lemma LaterKindsKeep(c: Config, t: Intent, w: World, id: GoString, f: Faults, e: KindRun)
    requires t.target != c.source && GoodTrail(c, t, w, id, e.trail) && Kept(c, t, w, w, id)
    requires SnapshotsPair(c, t, LastWorld(w, e.trail), id) == SnapshotsPair(c, t, w, id)
    ensures var w1 := LastWorld(w, e.trail);
            var s := RunSnapshot(c, t, w1, id, f.snapshot);
            var d := RunState(c, t, LastWorld(w1, s.trail), id, f.state);
            GoodTrail(c, t, w, id, InSequence(e, s, d).trail)
  {
    var w1 := LastWorld(w, e.trail);
    LastOfGood(c, t, w, w, id, e.trail);
    SnapshotPhase(c, t, w, w1, id, f.snapshot);
    StateComesLast(c, t, w, w1, id, f, e, RunSnapshot(c, t, w1, id, f.snapshot));
  }

  lemma StateComesLast(c: Config, t: Intent, w: World, w1: World, id: GoString, f: Faults, e: KindRun, s: KindRun)
    requires t.target != c.source && GoodTrail(c, t, w, id, e.trail) && GoodTrail(c, t, w, id, s.trail)
    requires Kept(c, t, w, w1, id) && OnlyTouches(w, w1, id)
    ensures GoodTrail(c, t, w, id, InSequence(e, s, RunState(c, t, LastWorld(w1, s.trail), id, f.state)).trail)
  {
    var w2 := LastWorld(w1, s.trail);
    LastOfGood(c, t, w, w1, id, s.trail);
    StatePhase(c, t, w, w2, id, f.state);
    SequenceGood(c, t, w, id, e, s, RunState(c, t, w2, id, f.state));
  }

  /** Where id's records go, when the assignment sends them anywhere. */
  predicate AdoptedTo(c: Config, id: GoString, t: Intent) {
    && c.assign(id).Assign?
    && Tenancy.ValidId(c.assign(id).tenant)
    && Tenant(c.assign(id).tenant) != c.source
    && t == IntentFor(c.assign(id).tenant)
  }

  lemma AggregateTrail(c: Config, w: World, id: GoString, f: Faults)
    ensures forall t :: AdoptedTo(c, id, t) ==> GoodTrail(c, t, w, id, RunAggregate(c, w, id, f).trail)
    ensures (forall t :: !AdoptedTo(c, id, t)) ==> RunAggregate(c, w, id, f).trail == []
  {
    if c.assign(id).Assign? {
      var t := IntentFor(c.assign(id).tenant);
      if AdoptedTo(c, id, t) { AggregateKeeps(c, t, w, id, f); }
    }
  }

  // ------------------------------------------------------- over a whole run


  /** w and w' agree on everything aggregate id owns, in any scope. */
  ghost predicate SameFor(w: World, w': World, id: GoString) {
    forall k: Key :: k.pid == id ==> SameAt(w, w', k)
  }

  /** Aggregate id is safe in w: adopted without loss, or untouched. */
  ghost predicate Safe(c: Config, w0: World, w: World, id: GoString) {
    && (forall t :: AdoptedTo(c, id, t) ==> Kept(c, t, w0, w, id))
    && ((forall t :: !AdoptedTo(c, id, t)) ==> SameFor(w0, w, id))
  }

  lemma SafeTransfers(c: Config, w0: World, w0': World, w: World, w': World, id: GoString)
    requires Safe(c, w0, w, id) && SameFor(w0, w0', id) && SameFor(w, w', id)
    ensures Safe(c, w0', w', id)
  {
    forall t | AdoptedTo(c, id, t) ensures Kept(c, t, w0', w', id) {
      assert Kept(c, t, w0, w, id);
      assert SameAt(w0, w0', SourceKey(c, id)) && SameAt(w, w', SourceKey(c, id)) && SameAt(w, w', TargetKey(t, id));
    }
    if forall t :: !AdoptedTo(c, id, t) {
      forall k: Key | k.pid == id ensures SameAt(w0', w', k) {
        assert SameAt(w0, w, k) && SameAt(w0, w0', k) && SameAt(w, w', k);
      }
    }
  }

  lemma SafeAtStart(c: Config, w: World, id: GoString)
    ensures Safe(c, w, w, id) && SameFor(w, w, id)
  {
    forall t | AdoptedTo(c, id, t) ensures Kept(c, t, w, w, id) {
      KeptFromStart(c, t, w, id);
    }
  }

  /** Every aggregate is safe in w. */
  ghost predicate AllSafe(c: Config, w0: World, w: World) {
    forall id :: Safe(c, w0, w, id)
  }

  /** One more aggregate, not processed before, keeps everyone safe. */
  lemma StepSafe(c: Config, w0: World, w: World, id: GoString, f: Faults, i: nat)
    requires AllSafe(c, w0, w) && SameFor(w0, w, id) && i < |RunAggregate(c, w, id, f).trail|
    ensures AllSafe(c, w0, RunAggregate(c, w, id, f).trail[i])
    ensures OnlyTouches(w, RunAggregate(c, w, id, f).trail[i], id)
  {
    AggregateTrail(c, w, id, f);
    assert RunAggregate(c, w, id, f).trail != [];
    var t :| AdoptedTo(c, id, t);
    AdoptionStepSafe(c, t, w0, w, RunAggregate(c, w, id, f).trail, id, i);
  }

  lemma AdoptionStepSafe(c: Config, t: Intent, w0: World, w: World, trail: seq<World>, id: GoString, i: nat)
    requires AllSafe(c, w0, w) && SameFor(w0, w, id) && i < |trail| && AdoptedTo(c, id, t)
             && GoodTrail(c, t, w, id, trail)
    ensures AllSafe(c, w0, trail[i]) && OnlyTouches(w, trail[i], id)
  {
    var w' := trail[i];
    forall other ensures Safe(c, w0, w', other) {
      if other == id {
        assert Safe(c, w, w', id);
        assert SameFor(w, w0, id);
        SafeAtStart(c, w', id);
        SafeTransfers(c, w, w0, w', w', id);
      } else {
        assert Safe(c, w0, w, other) && SameFor(w, w', other);
        SafeAtStart(c, w0, other);
        SafeTransfers(c, w0, w0, w, w', other);
      }
    }
  }

  /** In w, reached from w0, every aggregate is safe, and those outside `reached`
      are as they were in every scope. */
  ghost predicate SafeWorld(c: Config, w0: World, w: World, reached: set<GoString>) {
    AllSafe(c, w0, w) && forall id :: id !in reached ==> SameFor(w0, w, id)
  }

  /** So is the last world of a run and every world on its way. */
  ghost predicate SafeRun(c: Config, w0: World, p: Progress, reached: set<GoString>) {
    SafeWorld(c, w0, p.world, reached) && forall i :: 0 <= i < |p.trail| ==> SafeWorld(c, w0, p.trail[i], reached)
  }

  lemma SafeWorldGrows(c: Config, w0: World, w: World, a: set<GoString>, b: set<GoString>)
    requires SafeWorld(c, w0, w, a) && a <= b
    ensures SafeWorld(c, w0, w, b)
  {
  }

  /** No loss over a whole run: in every state the stores pass through, every
      record of every aggregate is still in the source or its verified copy is
      in the assigned tenant's scope, whatever each store call really did, and
      ids outside the run keep all their records in every scope. */
  lemma {:induction false} RunNeverLoses(c: Config, w: World, ids: seq<GoString>, faults: GoString -> Faults)
    requires Pagination.NoRepeats(ids)
    ensures SafeRun(c, w, RunAll(c, w, ids, faults), set x | x in ids)
  {
    if ids == [] {
      forall id ensures Safe(c, w, w, id) && SameFor(w, w, id) { SafeAtStart(c, w, id); }
    } else {
      var front, id := ids[..|ids| - 1], ids[|ids| - 1];
      RunNeverLoses(c, w, front, faults);
      assert ids == front + [id] && id !in front;
      StepKeepsAll(c, w, RunAll(c, w, front, faults), id, faults(id), set x | x in front);
      assert (set x | x in ids) == (set x | x in front) + {id};
    }
  }

  /** The same in words of the records alone. */
  ghost predicate Preserved(c: Config, t: Intent, w0: World, w: World, id: GoString) {
    var snapshot, now := Latest(SnapshotsPair(c, t, w0, id).source), SnapshotsPair(c, t, w, id);
    && EventsPreserved(t.tenant, Replay(EventsPair(c, t, w0, id).source), EventsPair(c, t, w, id))
    && (snapshot.Some? ==>
        || snapshot.value in now.source.Values
        || (Latest(now.target).Some? && IsCopy(t.tenant, snapshot.value, Latest(now.target).value)))
    && StateAt(w, SourceKey(c, id)) == StateAt(w0, SourceKey(c, id))
  }

  /** In every state of a whole run, every event and the latest snapshot of every
      assigned aggregate is in the source, or in the target with the same id, sequence
      and payload under the tenant's metadata and a receipt. */
  lemma RunPreserves(c: Config, w0: World, ids: seq<GoString>, faults: GoString -> Faults, w: World, id: GoString,
                     t: Intent)
    requires Pagination.NoRepeats(ids) && AdoptedTo(c, id, t)
    requires w == RunAll(c, w0, ids, faults).world || w in RunAll(c, w0, ids, faults).trail
    ensures Preserved(c, t, w0, w, id)
  {
    RunNeverLoses(c, w0, ids, faults);
    assert SafeWorld(c, w0, w, set x | x in ids);
    assert Safe(c, w0, w, id) && Kept(c, t, w0, w, id);
    KeptIsPreserved(c, t, Replay(EventsPair(c, t, w0, id).source), EventsPair(c, t, w, id));
  }

  lemma StepKeepsAll(c: Config, w: World, p: Progress, id: GoString, f: Faults, before: set<GoString>)
    requires SafeRun(c, w, p, before) && id !in before
    ensures SafeRun(c, w, p, before + {id}) && SafeRun(c, w, Advance(c, p, id, f), before + {id})
  {
    SafeWorldGrows(c, w, p.world, before, before + {id});
    forall i | 0 <= i < |p.trail| ensures SafeWorld(c, w, p.trail[i], before + {id}) {
      SafeWorldGrows(c, w, p.trail[i], before, before + {id});
    }
    var trail := RunAggregate(c, p.world, id, f).trail;
    forall i | 0 <= i < |trail| ensures SafeWorld(c, w, trail[i], before + {id}) {
      StepSafe(c, w, p.world, id, f, i);
      MovedOnly(w, p.world, trail[i], id, before);
    }
  }

  lemma MovedOnly(w0: World, w: World, w': World, id: GoString, before: set<GoString>)
    requires (forall x :: x !in before ==> SameFor(w0, w, x)) && OnlyTouches(w, w', id)
    ensures forall x :: x !in before + {id} ==> SameFor(w0, w', x)
  {
    forall x | x !in before + {id} ensures SameFor(w0, w', x) {
      assert SameFor(w0, w, x);
    }
  }

  // ---------------------------------------------------------------- the report

  /** Report conservation: every scanned id is counted exactly once among the
      skipped, failed, verified and already present, under fail-fast too. */
  lemma {:induction false} ReportAddsUp(c: Config, w: World, ids: seq<GoString>, faults: GoString -> Faults)
    ensures var r := RunAll(c, w, ids, faults).report;
            && (c.write ==> r.scanned == r.skipped + r.failed + r.verified + r.alreadyPresent)
            && (c.write ==> r.verified <= r.copied)
            && r.scanned <= |ids| && (!RunAll(c, w, ids, faults).stopped ==> r.scanned == |ids|)
  {
    if ids != [] {
      ReportAddsUp(c, w, ids[..|ids| - 1], faults);
    }
  }

  /** A dry run changes no store and claims no side effect. */
  lemma {:induction false} DryRunIsInert(c: Config, w: World, ids: seq<GoString>, faults: GoString -> Faults)
    requires !c.write
    ensures var p := RunAll(c, w, ids, faults);
            p.world == w && p.trail == [] && p.report.verified == 0 && p.report.sourceDeleted == 0
  {
    if ids != [] {
      var front, id := ids[..|ids| - 1], ids[|ids| - 1];
      DryRunIsInert(c, w, front, faults);
      DryRunDeletesNothing(c, w, id, faults(id));
    }
  }
}
