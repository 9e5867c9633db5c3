/** Resumability: runs interrupted anywhere, any number of times, followed by one
    faithful run, leave the stores an uninterrupted run leaves. */
module AdoptionResume {
  import opened GoText
  import opened Conflict
  import opened Records
  import opened EventLog
  import opened Adoption
  import opened AdoptionRun
  import opened AdoptionWholeRun
  import opened AdoptionFaithful

  const HONEST := Faults(false, HONEST_EVENTS, HONEST_SNAPSHOT, HONEST_STATE)

  // ------------------------------------------------------- one aggregate

  /** Before any adoption: the assigned target was never written, the stores keep
      their own invariants, and the source holds something to adopt. */
  ghost predicate Fresh(c: Config, t: Intent, w: World, id: GoString) {
    && (c.events ==> EventsPair(c, t, w, id).target == None)
    && (c.snapshots ==> SnapshotsPair(c, t, w, id).target == map[])
    && (c.states ==> StatePair(c, t, w, id).target == None)
    && (EventsPair(c, t, w, id).source.Some? ==> Distinct(EventsPair(c, t, w, id).source.value.events))
    && KeyedByPosition(SnapshotsPair(c, t, w, id).source)
    && ((c.events && Replay(EventsPair(c, t, w, id).source) != []) ||
        (c.snapshots && SnapshotsPair(c, t, w, id).source != map[]) ||
        (c.states && StatePair(c, t, w, id).source.Some?))
  }

  /** In w, aggregate id is in one of the stages of its adoption from w0. */
  ghost predicate InStage(c: Config, t: Intent, w0: World, w: World, id: GoString) {
    && (if c.events then EventsStage(c, t, EventsPair(c, t, w0, id).source, EventsPair(c, t, w, id))
        else EventsPair(c, t, w, id) == EventsPair(c, t, w0, id))
    && (if c.snapshots then SnapshotStage(c, t, SnapshotsPair(c, t, w0, id).source, SnapshotsPair(c, t, w, id))
        else SnapshotsPair(c, t, w, id) == SnapshotsPair(c, t, w0, id))
    && (if c.states then StateStage(c, t, StatePair(c, t, w0, id).source, StatePair(c, t, w, id))
        else StatePair(c, t, w, id) == StatePair(c, t, w0, id))
  }

  /** In w, the adoption of aggregate id is complete. */
  ghost predicate Settled(c: Config, t: Intent, w0: World, w: World, id: GoString) {
    && EventsPair(c, t, w, id) == EventsGoal(c, t, w0, id)
    && SnapshotsPair(c, t, w, id) == SnapshotsGoal(c, t, w0, id)
    && StatePair(c, t, w, id) == StateGoal(c, t, w0, id)
  }

  /** Id's records outside its source and target scopes are as they were. */
  ghost predicate OtherScopesSame(c: Config, t: Intent, w0: World, w: World, id: GoString) {
    forall k: Key :: k.pid == id && k.scope != c.source && k.scope != t.target ==> SameAt(w0, w, k)
  }

  ghost predicate Atomic(c: Config, t: Intent, w: World, id: GoString, f: Faults) {
    && AtomicEvents(c, t, EventsPair(c, t, w, id), f.events)
    && AtomicSnapshot(c, t, SnapshotsPair(c, t, w, id), f.snapshot)
    && AtomicState(c, t, StatePair(c, t, w, id), f.state)
  }

  /** Every world of a trail is a stage, and only id's two scopes moved. */
  ghost predicate StagedTrail(c: Config, t: Intent, w0: World, w: World, id: GoString, trail: seq<World>) {
    forall i :: 0 <= i < |trail| ==> StagedFrom(c, t, w0, w, trail[i], id)
  }

  /** w' is a stage of id's adoption, reached from w by moving id alone. */
  ghost predicate StagedFrom(c: Config, t: Intent, w0: World, w: World, w': World, id: GoString) {
    InStage(c, t, w0, w', id) && OnlyTouches(w, w', id) && OtherScopesSame(c, t, w, w', id)
  }

  lemma EventsMove(c: Config, t: Intent, w0: World, w: World, id: GoString, p: Pair<Option<Log>>)
    requires t.target != c.source && c.events && InStage(c, t, w0, w, id)
             && EventsStage(c, t, EventsPair(c, t, w0, id).source, p)
    ensures var w' := WithEvents(w, SourceKey(c, id), TargetKey(t, id), p);
            && StagedFrom(c, t, w0, w, w', id)
            && SnapshotsPair(c, t, w', id) == SnapshotsPair(c, t, w, id)
            && StatePair(c, t, w', id) == StatePair(c, t, w, id)
  {
    EventsTouch(c, t, w, id, p);
  }

  lemma SnapshotsMove(c: Config, t: Intent, w0: World, w: World, id: GoString, p: Pair<Snapshots>)
    requires t.target != c.source && c.snapshots && InStage(c, t, w0, w, id)
             && SnapshotStage(c, t, SnapshotsPair(c, t, w0, id).source, p)
    ensures var w' := WithSnapshots(w, SourceKey(c, id), TargetKey(t, id), p);
            StagedFrom(c, t, w0, w, w', id) && StatePair(c, t, w', id) == StatePair(c, t, w, id)
  {
    SnapshotsTouch(c, t, w, id, p);
  }

  lemma StateMove(c: Config, t: Intent, w0: World, w: World, id: GoString, p: Pair<Option<Record>>)
    requires t.target != c.source && c.states && InStage(c, t, w0, w, id)
             && StateStage(c, t, StatePair(c, t, w0, id).source, p)
    ensures StagedFrom(c, t, w0, w, WithState(w, SourceKey(c, id), TargetKey(t, id), p), id)
  {
    StateTouch(c, t, w, id, p);
  }

  lemma EventsStaged(c: Config, t: Intent, w0: World, w: World, id: GoString, f: EventFaults)
    requires t.target != c.source && InStage(c, t, w0, w, id) && AtomicEvents(c, t, EventsPair(c, t, w, id), f)
    ensures StagedTrail(c, t, w0, w, id, RunEvents(c, t, w, id, f).trail)
    ensures var w' := LastWorld(w, RunEvents(c, t, w, id, f).trail);
            SnapshotsPair(c, t, w', id) == SnapshotsPair(c, t, w, id)
              && StatePair(c, t, w', id) == StatePair(c, t, w, id)
  {
    if c.events {
      var src, p := EventsPair(c, t, w0, id).source, EventsPair(c, t, w, id);
      EventsInterrupted(c, t, src, p, f);
      var trail := AdoptEvents(c, t, p, f).trail;
      forall i | 0 <= i < |trail|
        ensures var w' := WithEvents(w, SourceKey(c, id), TargetKey(t, id), trail[i]);
                && StagedFrom(c, t, w0, w, w', id)
                && SnapshotsPair(c, t, w', id) == SnapshotsPair(c, t, w, id)
                && StatePair(c, t, w', id) == StatePair(c, t, w, id)
      {
        assert EventsStage(c, t, src, trail[i]);
        EventsMove(c, t, w0, w, id, trail[i]);
      }
    }
  }

  lemma SnapshotStaged(c: Config, t: Intent, w0: World, w: World, id: GoString, f: SnapshotFaults)
    requires t.target != c.source && InStage(c, t, w0, w, id) && AtomicSnapshot(c, t, SnapshotsPair(c, t, w, id), f)
    requires KeyedByPosition(SnapshotsPair(c, t, w0, id).source)
    ensures StagedTrail(c, t, w0, w, id, RunSnapshot(c, t, w, id, f).trail)
    ensures StatePair(c, t, LastWorld(w, RunSnapshot(c, t, w, id, f).trail), id) == StatePair(c, t, w, id)
  {
    if c.snapshots {
      var src, p := SnapshotsPair(c, t, w0, id).source, SnapshotsPair(c, t, w, id);
      SnapshotInterrupted(c, t, src, p, f);
      var trail := AdoptSnapshot(c, t, p, f).trail;
      forall i | 0 <= i < |trail|
        ensures var w' := WithSnapshots(w, SourceKey(c, id), TargetKey(t, id), trail[i]);
                StagedFrom(c, t, w0, w, w', id) && StatePair(c, t, w', id) == StatePair(c, t, w, id)
      {
        assert SnapshotStage(c, t, src, trail[i]);
        SnapshotsMove(c, t, w0, w, id, trail[i]);
      }
    }
  }

  lemma StateStaged(c: Config, t: Intent, w0: World, w: World, id: GoString, f: StateFaults)
    requires t.target != c.source && InStage(c, t, w0, w, id) && AtomicState(c, t, StatePair(c, t, w, id), f)
    ensures StagedTrail(c, t, w0, w, id, RunState(c, t, w, id, f).trail)
  {
    if c.states {
      var src, p := StatePair(c, t, w0, id).source, StatePair(c, t, w, id);
      StateInterrupted(c, t, src, p, f);
      var trail := AdoptState(c, t, p, f).trail;
      forall i | 0 <= i < |trail|
        ensures StagedFrom(c, t, w0, w, WithState(w, SourceKey(c, id), TargetKey(t, id), trail[i]), id)
      {
        assert StateStage(c, t, src, trail[i]);
        StateMove(c, t, w0, w, id, trail[i]);
      }
    }
  }

  /** A trail staged from a world that was itself reached from w by id's own
      mutations is staged from w. */
  lemma StagedFromEarlier(c: Config, t: Intent, w0: World, w: World, w1: World, id: GoString, trail: seq<World>)
    requires OnlyTouches(w, w1, id) && OtherScopesSame(c, t, w, w1, id) && StagedTrail(c, t, w0, w1, id, trail)
    ensures StagedTrail(c, t, w0, w, id, trail)
  {
    forall i | 0 <= i < |trail| ensures OnlyTouches(w, trail[i], id) && OtherScopesSame(c, t, w, trail[i], id) {
      forall k: Key | k.pid != id || (k.scope != c.source && k.scope != t.target) ensures SameAt(w, trail[i], k) {
        assert SameAt(w, w1, k) && SameAt(w1, trail[i], k);
      }
    }
  }

  lemma SequenceStaged(c: Config, t: Intent, w0: World, w: World, id: GoString, e: KindRun, s: KindRun, d: KindRun)
    requires StagedTrail(c, t, w0, w, id, e.trail) && StagedTrail(c, t, w0, w, id, s.trail)
             && StagedTrail(c, t, w0, w, id, d.trail)
    ensures StagedTrail(c, t, w0, w, id, InSequence(e, s, d).trail)
  {
  }

  lemma LastStaged(c: Config, t: Intent, w0: World, w: World, w1: World, id: GoString, trail: seq<World>)
    requires InStage(c, t, w0, w1, id) && OnlyTouches(w, w1, id) && OtherScopesSame(c, t, w, w1, id)
    requires StagedTrail(c, t, w0, w, id, trail)
    ensures var w2 := LastWorld(w1, trail);
            InStage(c, t, w0, w2, id) && OnlyTouches(w, w2, id) && OtherScopesSame(c, t, w, w2, id)
  {
  }

  lemma KindsStaged(c: Config, t: Intent, w0: World, w: World, id: GoString, f: Faults)
    requires t.target != c.source && Fresh(c, t, w0, id) && InStage(c, t, w0, w, id) && Atomic(c, t, w, id, f)
    ensures StagedTrail(c, t, w0, w, id, RunKinds(c, t, w, id, f).trail)
  {
    EventsStaged(c, t, w0, w, id, f.events);
    LaterKindsStaged(c, t, w0, w, id, f, RunEvents(c, t, w, id, f.events));
  }

  lemma LaterKindsStaged(c: Config, t: Intent, w0: World, w: World, id: GoString, f: Faults, e: KindRun)
    requires t.target != c.source && KeyedByPosition(SnapshotsPair(c, t, w0, id).source) && InStage(c, t, w0, w, id)
    requires Atomic(c, t, w, id, f) && StagedTrail(c, t, w0, w, id, e.trail)
    requires SnapshotsPair(c, t, LastWorld(w, e.trail), id) == SnapshotsPair(c, t, w, id)
    requires StatePair(c, t, LastWorld(w, e.trail), id) == StatePair(c, t, w, id)
    ensures var w1 := LastWorld(w, e.trail);
            var s := RunSnapshot(c, t, w1, id, f.snapshot);
            var d := RunState(c, t, LastWorld(w1, s.trail), id, f.state);
            StagedTrail(c, t, w0, w, id, InSequence(e, s, d).trail)
  {
    var w1 := LastWorld(w, e.trail);
    LastStaged(c, t, w0, w, w, id, e.trail);
    SnapshotStaged(c, t, w0, w1, id, f.snapshot);
    var s := RunSnapshot(c, t, w1, id, f.snapshot);
    StagedFromEarlier(c, t, w0, w, w1, id, s.trail);
    LastKindStaged(c, t, w0, w, w1, id, f, e, s);
  }

  lemma LastKindStaged(c: Config, t: Intent, w0: World, w: World, w1: World, id: GoString, f: Faults, e: KindRun,
                       s: KindRun)
    requires t.target != c.source && InStage(c, t, w0, w1, id) && OnlyTouches(w, w1, id)
             && OtherScopesSame(c, t, w, w1, id)
    requires StagedTrail(c, t, w0, w, id, e.trail) && StagedTrail(c, t, w0, w, id, s.trail)
    requires AtomicState(c, t, StatePair(c, t, LastWorld(w1, s.trail), id), f.state)
    ensures StagedTrail(c, t, w0, w, id, InSequence(e, s, RunState(c, t, LastWorld(w1, s.trail), id, f.state)).trail)
  {
    var w2 := LastWorld(w1, s.trail);
    LastStaged(c, t, w0, w, w1, id, s.trail);
    StateStaged(c, t, w0, w2, id, f.state);
    var d := RunState(c, t, w2, id, f.state);
    StagedFromEarlier(c, t, w0, w, w2, id, d.trail);
    SequenceStaged(c, t, w0, w, id, e, s, d);
  }

  // ----------------------------------------------------- completing one aggregate

  /** What events, snapshots and state come to when their adoption is complete. */
  function EventsGoal(c: Config, t: Intent, w0: World, id: GoString): Pair<Option<Log>> {
    if c.events then EventsSettled(c, t, EventsPair(c, t, w0, id).source) else EventsPair(c, t, w0, id)
  }

  function SnapshotsGoal(c: Config, t: Intent, w0: World, id: GoString): Pair<Snapshots> {
    if c.snapshots then SnapshotSettled(c, t, SnapshotsPair(c, t, w0, id).source) else SnapshotsPair(c, t, w0, id)
  }

  function StateGoal(c: Config, t: Intent, w0: World, id: GoString): Pair<Option<Record>> {
    var p := StatePair(c, t, w0, id);
    if c.states then Pair(p.source, RecordCopyOf(c, t, p.source)) else p
  }

  ghost predicate EventsDone(c: Config, t: Intent, w0: World, w: World, id: GoString, r: KindRun) {
    && r.outcome.status != Failed
    && (r.outcome.status == Nothing <==> !c.events || Replay(EventsPair(c, t, w0, id).source) == [])
    && EventsPair(c, t, LastWorld(w, r.trail), id) == EventsGoal(c, t, w0, id)
    && SnapshotsPair(c, t, LastWorld(w, r.trail), id) == SnapshotsPair(c, t, w, id)
    && StatePair(c, t, LastWorld(w, r.trail), id) == StatePair(c, t, w, id)
    && (EventsPair(c, t, w, id) == EventsGoal(c, t, w0, id) ==> r.trail == [])
  }

  /** What a faithful events adoption from p comes to. */
  ghost predicate EventsCompleted(c: Config, t: Intent, src: Option<Log>, p: Pair<Option<Log>>, a: Adopted<Option<Log>>)
  {
    && a.outcome.status != Failed && (a.outcome.status == Nothing <==> Replay(src) == [])
    && Final(p, a) == EventsSettled(c, t, src)
    && (p == EventsSettled(c, t, src) ==> a.trail == [])
  }

  lemma EventsLiftedPairs(c: Config, t: Intent, w: World, id: GoString, a: Adopted<Option<Log>>)
    requires t.target != c.source
    ensures var w' := LastWorld(w, LiftEvents(c, t, w, id, a).trail);
            && EventsPair(c, t, w', id) == Final(EventsPair(c, t, w, id), a)
            && SnapshotsPair(c, t, w', id) == SnapshotsPair(c, t, w, id)
            && StatePair(c, t, w', id) == StatePair(c, t, w, id)
  {
    EventsTouch(c, t, w, id, Final(EventsPair(c, t, w, id), a));
  }

  lemma EventsLifted(c: Config, t: Intent, w0: World, w: World, id: GoString, a: Adopted<Option<Log>>)
    requires t.target != c.source && c.events
             && EventsCompleted(c, t, EventsPair(c, t, w0, id).source, EventsPair(c, t, w, id), a)
    ensures EventsDone(c, t, w0, w, id, LiftEvents(c, t, w, id, a))
  {
    EventsLiftedPairs(c, t, w, id, a);
  }

  lemma EventsFinish(c: Config, t: Intent, w0: World, w: World, id: GoString)
    requires t.target != c.source && c.write && Sound(c, t) && Fresh(c, t, w0, id) && InStage(c, t, w0, w, id)
    ensures EventsDone(c, t, w0, w, id, RunEvents(c, t, w, id, HONEST_EVENTS))
  {
    if c.events {
      var p := EventsPair(c, t, w, id);
      EventsComplete(c, t, EventsPair(c, t, w0, id).source, p);
      EventsLifted(c, t, w0, w, id, AdoptEvents(c, t, p, HONEST_EVENTS));
    }
  }

  ghost predicate SnapshotDone(c: Config, t: Intent, w0: World, w: World, id: GoString, r: KindRun) {
    && r.outcome.status != Failed
    && (r.outcome.status == Nothing <==> !c.snapshots || SnapshotsPair(c, t, w0, id).source == map[])
    && SnapshotsPair(c, t, LastWorld(w, r.trail), id) == SnapshotsGoal(c, t, w0, id)
    && EventsPair(c, t, LastWorld(w, r.trail), id) == EventsPair(c, t, w, id)
    && StatePair(c, t, LastWorld(w, r.trail), id) == StatePair(c, t, w, id)
    && (SnapshotsPair(c, t, w, id) == SnapshotsGoal(c, t, w0, id) ==> r.trail == [])
  }

  lemma SnapshotLiftedPairs(c: Config, t: Intent, w: World, id: GoString, a: Adopted<Snapshots>)
    requires t.target != c.source
    ensures var w' := LastWorld(w, LiftSnapshot(c, t, w, id, a).trail);
            && SnapshotsPair(c, t, w', id) == Final(SnapshotsPair(c, t, w, id), a)
            && EventsPair(c, t, w', id) == EventsPair(c, t, w, id) && StatePair(c, t, w', id) == StatePair(c, t, w, id)
  {
    SnapshotsTouch(c, t, w, id, Final(SnapshotsPair(c, t, w, id), a));
  }

  lemma SnapshotFinish(c: Config, t: Intent, w0: World, w: World, id: GoString)
    requires t.target != c.source && c.write && Sound(c, t) && Fresh(c, t, w0, id) && InStage(c, t, w0, w, id)
    ensures SnapshotDone(c, t, w0, w, id, RunSnapshot(c, t, w, id, HONEST_SNAPSHOT))
  {
    if c.snapshots {
      var p := SnapshotsPair(c, t, w, id);
      SnapshotComplete(c, t, SnapshotsPair(c, t, w0, id).source, p);
      SnapshotLiftedPairs(c, t, w, id, AdoptSnapshot(c, t, p, HONEST_SNAPSHOT));
    }
  }

  ghost predicate StateDone(c: Config, t: Intent, w0: World, w: World, id: GoString, r: KindRun) {
    && r.outcome.status != Failed
    && (r.outcome.status == Nothing <==> !c.states || StatePair(c, t, w0, id).source == None)
    && StatePair(c, t, LastWorld(w, r.trail), id) == StateGoal(c, t, w0, id)
    && EventsPair(c, t, LastWorld(w, r.trail), id) == EventsPair(c, t, w, id)
    && SnapshotsPair(c, t, LastWorld(w, r.trail), id) == SnapshotsPair(c, t, w, id)
    && (StatePair(c, t, w, id) == StateGoal(c, t, w0, id) ==> r.trail == [])
  }

  lemma StateFinish(c: Config, t: Intent, w0: World, w: World, id: GoString)
    requires t.target != c.source && c.write && Sound(c, t) && InStage(c, t, w0, w, id)
    ensures StateDone(c, t, w0, w, id, RunState(c, t, w, id, HONEST_STATE))
  {
    if c.states {
      var p := StatePair(c, t, w, id);
      StateComplete(c, t, StatePair(c, t, w0, id).source, p);
      StateTouch(c, t, w, id, Final(p, AdoptState(c, t, p, HONEST_STATE)));
    }
  }

  /** Three finished kinds in sequence finish the aggregate. */
  lemma SequenceDone(c: Config, t: Intent, w0: World, w: World, id: GoString, e: KindRun, s: KindRun, d: KindRun)
    requires Fresh(c, t, w0, id)
    requires EventsDone(c, t, w0, w, id, e) && SnapshotDone(c, t, w0, LastWorld(w, e.trail), id, s)
    requires StateDone(c, t, w0, LastWorld(LastWorld(w, e.trail), s.trail), id, d)
    ensures var a := InSequence(e, s, d);
            && !IsFailure(a.verdict)
            && LastWorld(w, a.trail) == LastWorld(LastWorld(LastWorld(w, e.trail), s.trail), d.trail)
            && Settled(c, t, w0, LastWorld(w, a.trail), id)
            && (Settled(c, t, w0, w, id) ==> a.trail == [])
  {
    assert LastWorld(w, e.trail + s.trail + d.trail) == LastWorld(LastWorld(LastWorld(w, e.trail), s.trail), d.trail);
  }

  /** From any stage, one faithful pass completes the aggregate, and from its
      completion mutates nothing. */
  lemma KindsComplete(c: Config, t: Intent, w0: World, w: World, id: GoString)
    requires t.target != c.source && c.write && Sound(c, t) && Fresh(c, t, w0, id) && InStage(c, t, w0, w, id)
    ensures var a := RunKinds(c, t, w, id, HONEST);
            && !IsFailure(a.verdict) && Settled(c, t, w0, LastWorld(w, a.trail), id)
            && (Settled(c, t, w0, w, id) ==> a.trail == [])
  {
    EventsFinish(c, t, w0, w, id);
    EventsStaged(c, t, w0, w, id, HONEST_EVENTS);
    LaterKindsComplete(c, t, w0, w, id, RunEvents(c, t, w, id, HONEST_EVENTS));
  }

  lemma LaterKindsComplete(c: Config, t: Intent, w0: World, w: World, id: GoString, e: KindRun)
    requires t.target != c.source && c.write && Sound(c, t) && Fresh(c, t, w0, id) && InStage(c, t, w0, w, id)
    requires EventsDone(c, t, w0, w, id, e) && StagedTrail(c, t, w0, w, id, e.trail)
    ensures var w1 := LastWorld(w, e.trail);
            var s := RunSnapshot(c, t, w1, id, HONEST_SNAPSHOT);
            var d := RunState(c, t, LastWorld(w1, s.trail), id, HONEST_STATE);
            var a := InSequence(e, s, d);
            && !IsFailure(a.verdict) && Settled(c, t, w0, LastWorld(w, a.trail), id)
            && (Settled(c, t, w0, w, id) ==> a.trail == [])
  {
    var w1 := LastWorld(w, e.trail);
    LastStaged(c, t, w0, w, w, id, e.trail);
    SnapshotFinish(c, t, w0, w1, id);
    SnapshotStaged(c, t, w0, w1, id, HONEST_SNAPSHOT);
    LastKindCompletes(c, t, w0, w, w1, id, e, RunSnapshot(c, t, w1, id, HONEST_SNAPSHOT));
  }

  lemma LastKindCompletes(c: Config, t: Intent, w0: World, w: World, w1: World, id: GoString, e: KindRun, s: KindRun)
    requires t.target != c.source && c.write && Sound(c, t) && Fresh(c, t, w0, id) && InStage(c, t, w0, w1, id)
    requires w1 == LastWorld(w, e.trail) && EventsDone(c, t, w0, w, id, e) && SnapshotDone(c, t, w0, w1, id, s)
    requires StagedTrail(c, t, w0, w1, id, s.trail)
    ensures var a := InSequence(e, s, RunState(c, t, LastWorld(w1, s.trail), id, HONEST_STATE));
            && !IsFailure(a.verdict) && Settled(c, t, w0, LastWorld(w, a.trail), id)
            && (Settled(c, t, w0, w, id) ==> a.trail == [])
  {
    var w2 := LastWorld(w1, s.trail);
    LastStaged(c, t, w0, w1, w1, id, s.trail);
    StateFinish(c, t, w0, w2, id);
    SequenceDone(c, t, w0, w, id, e, s, RunState(c, t, w2, id, HONEST_STATE));
  }
}
