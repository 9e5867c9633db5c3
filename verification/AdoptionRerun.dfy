/** Re-runs that enumerate the source again: what an adoption leaves in the
    source scope decides which ids the next run sees. */
module AdoptionRerun {
  import opened GoText
  import opened Conflict
  import opened EventLog
  import opened Adoption
  import opened AdoptionRun
  import opened AdoptionWholeRun
  import opened AdoptionFaithful
  import opened AdoptionResume
  import opened AdoptionResumeRun
  import opened Pagination
  import opened Records
  import Tenancy

  // ------------------------------------------------------------ enumerating

  /** The ids a store that never forgets a log lists in the source scope. */
  function SourceIds(c: Config, w: World): set<GoString> {
    set k | k in w.events && k.scope == c.source :: k.pid
  }

  /** The ids of a store that lists only logs with events. */
  function LiveIds(c: Config, w: World): set<GoString> {
    set k | k in w.events && k.scope == c.source && w.events[k].events != [] :: k.pid
  }

  /** The source does not change while it is being enumerated. */
  ghost function Still(s: set<GoString>): nat -> set<GoString> {
    n => s
  }

  /** What collectPersistenceIDs yields when the store lists `listed`. */
  ghost function Enumerated(c: Config, listed: set<GoString>, size: nat, explicit: seq<GoString>): seq<GoString>
    requires size > 0
  {
    if c.events then AddAll([], Follow(Still(listed), listed, 0, size, []) + explicit) else AddAll([], explicit)
  }

  /** Pages of one id stop after an empty id. */
  predicate Enumerable(listed: set<GoString>, size: nat) {
    size > 0 && !(size == 1 && [] in listed && |listed| > 1)
  }

  lemma EnumeratedIds(c: Config, listed: set<GoString>, size: nat, explicit: seq<GoString>)
    requires Enumerable(listed, size)
    ensures var ids := Enumerated(c, listed, size, explicit);
            NoRepeats(ids) && forall x :: x in ids <==> (c.events && x in listed) || x in explicit
  {
    if c.events {
      CollectedIds(Still(listed), listed, size, explicit);
    } else {
      AddAllHolds([], explicit);
    }
  }

  // --------------------------------------------- stores that keep every log

  lemma SourceIdAt(c: Config, w: World, id: GoString)
    ensures id in SourceIds(c, w) <==> EventsAt(w, SourceKey(c, id)).Some?
    ensures id in LiveIds(c, w) <==>
            EventsAt(w, SourceKey(c, id)).Some? && EventsAt(w, SourceKey(c, id)).value.events != []
  {
    if EventsAt(w, SourceKey(c, id)).Some? { assert SourceKey(c, id) in w.events; }
  }

  lemma UnderwaySource(c: Config, ids: seq<GoString>, w0: World, w: World, id: GoString)
    requires Ready(c, ids, w0) && Underway(c, ids, w0, w, id)
    ensures var src, now := EventsAt(w0, SourceKey(c, id)), EventsAt(w, SourceKey(c, id));
            && (now.Some? <==> src.Some?)
            && (now == src || (Moves(c, ids, id) && c.events && c.deleteSource && Replay(src) != []
                               && now == Emptied(src)))
  {
    if Moves(c, ids, id) {
      assert InStage(c, TargetOf(c, id), w0, w, id);
    } else {
      assert SameAt(w0, w, SourceKey(c, id));
    }
  }

  /** No interruption changes which logs the source scope holds. */
  lemma UnderwayKeepsIds(c: Config, ids: seq<GoString>, w0: World, w: World)
    requires Ready(c, ids, w0) && AllUnderway(c, ids, w0, w)
    ensures SourceIds(c, w) == SourceIds(c, w0)
  {
    forall id ensures id in SourceIds(c, w) <==> id in SourceIds(c, w0) {
      assert Underway(c, ids, w0, w, id);
      UnderwaySource(c, ids, w0, w, id);
      SourceIdAt(c, w, id);
      SourceIdAt(c, w0, id);
    }
  }

  /** Resumability as it is run: every run enumerates the source itself. Let the
      adoption of what w0 lists be interrupted any number of times, and let a
      run that enumerates w stop in w'. A faithful run that enumerates w' ends
      without failure in the stores of an uninterrupted run from w0, and a run
      that enumerates what it left mutates nothing. */
  lemma ResumableByEnumeration(c: Config, w0: World, w: World, size: nat, explicit: seq<GoString>,
                               faults: GoString -> Faults, w': World)
    requires size > 0
    requires var ids := Enumerated(c, SourceIds(c, w0), size, explicit);
             Ready(c, ids, w0) && AllUnderway(c, ids, w0, w) && AtomicRun(c, ids, w, faults)
    requires var stopped := RunAll(c, w, Enumerated(c, SourceIds(c, w), size, explicit), faults);
             w' == stopped.world || w' in stopped.trail
    ensures var again := RunAll(c, w', Enumerated(c, SourceIds(c, w'), size, explicit), ALWAYS_HONEST);
            var straight := RunAll(c, w0, Enumerated(c, SourceIds(c, w0), size, explicit), ALWAYS_HONEST);
            var more := RunAll(c, again.world, Enumerated(c, SourceIds(c, again.world), size, explicit), ALWAYS_HONEST);
            && again.report.failed == 0 && SameStores(again.world, straight.world)
            && more.trail == [] && more.report.failed == 0
  {
    var ids := Enumerated(c, SourceIds(c, w0), size, explicit);
    UnderwayKeepsIds(c, ids, w0, w);
    Resumable(c, ids, w0, w, faults, w');
    UnderwayKeepsIds(c, ids, w0, w');
    RunCompletes(c, ids, w0, w');
    var again := RunAll(c, w', ids, ALWAYS_HONEST);
    CompleteIsUnderway(c, ids, w0, again.world);
    UnderwayKeepsIds(c, ids, w0, again.world);
  }

  // ------------------------------------------ stores that drop emptied logs

  lemma LiveIdsShrink(c: Config, ids: seq<GoString>, w0: World, w: World)
    requires Ready(c, ids, w0) && AllUnderway(c, ids, w0, w)
    ensures LiveIds(c, w) <= LiveIds(c, w0)
  {
    forall id | id in LiveIds(c, w) ensures id in LiveIds(c, w0) {
      assert Underway(c, ids, w0, w, id);
      UnderwaySource(c, ids, w0, w, id);
      EmptiedHoldsNothing(EventsAt(w0, SourceKey(c, id)));
      SourceIdAt(c, w, id);
      SourceIdAt(c, w0, id);
    }
  }

  lemma LivePart(c: Config, w0: World, w: World, size: nat, explicit: seq<GoString>)
    requires Enumerable(LiveIds(c, w0), size)
    requires var ids := Enumerated(c, LiveIds(c, w0), size, explicit); Ready(c, ids, w0) && AllUnderway(c, ids, w0, w)
    ensures Enumerable(LiveIds(c, w), size)
    ensures Part(Enumerated(c, LiveIds(c, w), size, explicit), Enumerated(c, LiveIds(c, w0), size, explicit))
  {
    var ids := Enumerated(c, LiveIds(c, w0), size, explicit);
    LiveIdsShrink(c, ids, w0, w);
    SubsetSize(LiveIds(c, w), LiveIds(c, w0));
    EnumeratedIds(c, LiveIds(c, w0), size, explicit);
    EnumeratedIds(c, LiveIds(c, w), size, explicit);
  }

  lemma SubsetSize(a: set<GoString>, b: set<GoString>)
    requires a <= b
    ensures |a| <= |b|
  {
    assert b == a + (b - a);
  }

  lemma CompleteTransfers(c: Config, ids: seq<GoString>, w0: World, w: World, w': World, id: GoString)
    requires SameStores(w, w') && Complete(c, ids, w0, w, id)
    ensures Complete(c, ids, w0, w', id)
  {
    assert SameFor(w, w', id) by {
      forall k: Key | k.pid == id ensures SameAt(w, w', k) {}
    }
    UnderwayTransfers(c, ids, w0, w, w', id);
  }

  /** A re-run over part of the ids ends where an uninterrupted run ends if and
      only if every aggregate it was not given was complete already. */
  lemma PartialRerun(c: Config, ids: seq<GoString>, run: seq<GoString>, w0: World, w: World)
    requires Ready(c, ids, w0) && Part(run, ids) && AllUnderway(c, ids, w0, w)
    ensures var again, straight := RunAll(c, w, run, ALWAYS_HONEST), RunAll(c, w0, ids, ALWAYS_HONEST);
            && again.report.failed == 0
            && (SameStores(again.world, straight.world) <==>
                forall id :: Moves(c, ids, id) && id !in run ==> Complete(c, ids, w0, w, id))
  {
    var again, straight := RunAll(c, w, run, ALWAYS_HONEST), RunAll(c, w0, ids, ALWAYS_HONEST);
    PartCompletes(c, ids, run, w0, w);
    StartIsUnderway(c, ids, w0);
    RunCompletes(c, ids, w0, w0);
    if SameStores(again.world, straight.world) {
      forall id | Moves(c, ids, id) && id !in run ensures Complete(c, ids, w0, w, id) {
        assert Complete(c, ids, w0, straight.world, id);
        SameStoresSwap(again.world, straight.world);
        CompleteTransfers(c, ids, w0, straight.world, again.world, id);
        UnderwayTransfers(c, ids, w0, again.world, w, id);
      }
    }
    if forall id :: Moves(c, ids, id) && id !in run ==> Complete(c, ids, w0, w, id) {
      forall id ensures Complete(c, ids, w0, again.world, id) {
        assert Underway(c, ids, w0, w, id);
        if id !in run { UnderwayTransfers(c, ids, w0, w, again.world, id); }
      }
      CompletionIsUnique(c, ids, w0, again.world, straight.world);
    }
  }

  lemma SameStoresSwap(w: World, w': World)
    requires SameStores(w, w')
    ensures SameStores(w', w)
  {
    forall k: Key ensures SameAt(w', w, k) { assert SameAt(w, w', k); }
  }

  /** An aggregate whose source log was emptied and is no longer listed: its events
      are settled, so it is complete exactly when its snapshot and its state are. */
  lemma DroppedIsComplete(c: Config, ids: seq<GoString>, w0: World, w: World, id: GoString)
    requires Ready(c, ids, w0) && Moves(c, ids, id) && Underway(c, ids, w0, w, id)
    requires id in LiveIds(c, w0) && id !in LiveIds(c, w)
    ensures var t := TargetOf(c, id);
            Complete(c, ids, w0, w, id) <==>
            && SnapshotsPair(c, t, w, id) == SnapshotsGoal(c, t, w0, id)
            && StatePair(c, t, w, id) == StateGoal(c, t, w0, id)
  {
    var t := TargetOf(c, id);
    UnderwaySource(c, ids, w0, w, id);
    SourceIdAt(c, w, id);
    SourceIdAt(c, w0, id);
    assert InStage(c, t, w0, w, id);
    EmptiedEventsAreSettled(c, t, EventsPair(c, t, w0, id).source, EventsPair(c, t, w, id));
  }

  lemma EmptiedEventsAreSettled(c: Config, t: Intent, src: Option<Log>, p: Pair<Option<Log>>)
    requires EventsStage(c, t, src, p) && p.source != src
    ensures c.deleteSource && p == EventsSettled(c, t, src)
  {
  }

  /** With a store that stops listing emptied logs, a re-run that enumerates again
      reaches the stores of an uninterrupted run if and only if every aggregate
      it no longer sees has its snapshot and its durable state adopted: a stop
      between the deletion of the events and the copy of the snapshot is not
      resumed unless the id is supplied explicitly. */
  lemma DroppedIdsResumeIff(c: Config, w0: World, w: World, size: nat, explicit: seq<GoString>)
    requires Enumerable(LiveIds(c, w0), size)
    requires var ids := Enumerated(c, LiveIds(c, w0), size, explicit); Ready(c, ids, w0) && AllUnderway(c, ids, w0, w)
    ensures var ids := Enumerated(c, LiveIds(c, w0), size, explicit);
            var again := RunAll(c, w, Enumerated(c, LiveIds(c, w), size, explicit), ALWAYS_HONEST);
            var straight := RunAll(c, w0, ids, ALWAYS_HONEST);
            && again.report.failed == 0
            && (SameStores(again.world, straight.world) <==>
                forall id :: Moves(c, ids, id) && c.events && id !in LiveIds(c, w) && id !in explicit ==>
                  var t := TargetOf(c, id);
                  SnapshotsPair(c, t, w, id) == SnapshotsGoal(c, t, w0, id)
                    && StatePair(c, t, w, id) == StateGoal(c, t, w0, id))
  {
    var ids := Enumerated(c, LiveIds(c, w0), size, explicit);
    var run := Enumerated(c, LiveIds(c, w), size, explicit);
    LivePart(c, w0, w, size, explicit);
    EnumeratedIds(c, LiveIds(c, w0), size, explicit);
    EnumeratedIds(c, LiveIds(c, w), size, explicit);
    PartialRerun(c, ids, run, w0, w);
    forall id | Moves(c, ids, id) && id !in run
      ensures c.events && id !in LiveIds(c, w) && id !in explicit && id in LiveIds(c, w0)
      ensures var t := TargetOf(c, id);
              Complete(c, ids, w0, w, id) <==>
              && SnapshotsPair(c, t, w, id) == SnapshotsGoal(c, t, w0, id)
              && StatePair(c, t, w, id) == StateGoal(c, t, w0, id)
    {
      assert Underway(c, ids, w0, w, id);
      DroppedIsComplete(c, ids, w0, w, id);
    }
  }

  lemma OneListed(c: Config, listed: set<GoString>, size: nat, id: GoString)
    requires size > 0 && c.events && listed == {id}
    ensures Enumerated(c, listed, size, []) == [id]
  {
    EnumeratedIds(c, listed, size, []);
    var ids := Enumerated(c, listed, size, []);
    assert id in ids;
    forall i | 0 <= i < |ids| ensures ids[i] == id {
      assert ids[i] in ids;
    }
    if |ids| > 1 { Repeats(ids, id); }
  }

  lemma Repeats(ids: seq<GoString>, id: GoString)
    requires |ids| > 1 && forall i :: 0 <= i < |ids| ==> ids[i] == id
    ensures !NoRepeats(ids)
  {
    assert ids[0] == ids[1];
  }

  lemma NoneListed(c: Config, size: nat)
    requires size > 0
    ensures Enumerated(c, {}, size, []) == []
  {
    EnumeratedIds(c, {}, size, []);
    var ids := Enumerated(c, {}, size, []);
    assert forall i :: 0 <= i < |ids| ==> ids[i] in ids;
  }

  /** Where a faithful run stands once it has emptied the source events of its one
      aggregate: the snapshot is still where it was. */
  lemma AfterEventsDeletion(c: Config, w0: World, id: GoString) returns (w: World)
    requires Ready(c, [id], w0) && Moves(c, [id], id) && c.events && c.deleteSource
    requires Replay(EventsPair(c, TargetOf(c, id), w0, id).source) != []
    ensures w in RunAggregate(c, w0, id, HONEST).trail && AllUnderway(c, [id], w0, w)
    ensures var t := TargetOf(c, id);
            && EventsPair(c, t, w, id).source == Emptied(EventsPair(c, t, w0, id).source)
            && SnapshotsPair(c, t, w, id) == SnapshotsPair(c, t, w0, id)
  {
    var t := TargetOf(c, id);
    ReadyFor(c, [id], w0, id);
    StartIsUnderway(c, [id], w0);
    assert Underway(c, [id], w0, w0, id);
    var src := EventsPair(c, t, w0, id).source;
    w := WithEvents(w0, SourceKey(c, id), TargetKey(t, id), Pair(Emptied(src), Some(CopyLog(c, t, src))));
    EventsTouch(c, t, w0, id, Pair(Emptied(src), Some(CopyLog(c, t, src))));
    EventsDeletedSecond(c, t, w0, id);
    assert RunAggregate(c, w0, id, HONEST).trail == RunKinds(c, t, w0, id, HONEST).trail;
    StepUnderway(c, [id], w0, w0, id, HONEST, 1);
  }

  /** The second mutating call of a faithful run empties the source events. */
  lemma EventsDeletedSecond(c: Config, t: Intent, w0: World, id: GoString)
    requires c.write && Sound(c, t) && Fresh(c, t, w0, id) && c.events && c.deleteSource
    requires Replay(EventsPair(c, t, w0, id).source) != []
    ensures var src, trail := EventsPair(c, t, w0, id).source, RunKinds(c, t, w0, id, HONEST).trail;
            && |trail| > 1
            && trail[1] == WithEvents(w0, SourceKey(c, id), TargetKey(t, id),
                                      Pair(Emptied(src), Some(CopyLog(c, t, src))))
  {
    EventsFromFresh(c, t, EventsPair(c, t, w0, id).source);
    KindsBeginWithEvents(c, t, w0, id, RunEvents(c, t, w0, id, HONEST_EVENTS).trail);
  }

  lemma KindsBeginWithEvents(c: Config, t: Intent, w: World, id: GoString, trail: seq<World>)
    requires trail == RunEvents(c, t, w, id, HONEST_EVENTS).trail
    ensures trail <= RunKinds(c, t, w, id, HONEST).trail
  {
  }

  lemma NotListedAnyMore(c: Config, w0: World, w: World, id: GoString)
    requires Ready(c, [id], w0) && AllUnderway(c, [id], w0, w) && LiveIds(c, w0) == {id} && c.assign(id).Assign?
    requires EventsPair(c, TargetOf(c, id), w, id).source == Emptied(EventsPair(c, TargetOf(c, id), w0, id).source)
    ensures LiveIds(c, w) == {}
  {
    LiveIdsShrink(c, [id], w0, w);
    EmptiedHoldsNothing(EventsPair(c, TargetOf(c, id), w0, id).source);
    SourceIdAt(c, w, id);
  }

  /** What goes wrong otherwise: a run over one aggregate, faithful throughout, that
      stops between the deletion of the source events and the copy of the snapshot.
      A store that lists only logs with events no longer lists the aggregate, so the
      re-run does nothing, reports no failure, and never adopts the snapshot. */
  lemma DroppedIdMisses(c: Config, w0: World, id: GoString, size: nat) returns (w: World)
    requires size > 0 && c.events && c.snapshots && c.deleteSource && LiveIds(c, w0) == {id}
    requires Ready(c, [id], w0) && c.assign(id).Assign?
    requires Replay(EventsPair(c, TargetOf(c, id), w0, id).source) != []
    requires SnapshotsPair(c, TargetOf(c, id), w0, id).source != map[]
    ensures Enumerated(c, LiveIds(c, w0), size, []) == [id] && Enumerated(c, LiveIds(c, w), size, []) == []
    ensures w in RunAll(c, w0, [id], ALWAYS_HONEST).trail && AllUnderway(c, [id], w0, w)
    ensures var again, straight := RunAll(c, w, [], ALWAYS_HONEST), RunAll(c, w0, [id], ALWAYS_HONEST);
            again.report.failed == 0 && !SameStores(again.world, straight.world)
  {
    assert Moves(c, [id], id);
    w := AfterEventsDeletion(c, w0, id);
    OneListed(c, LiveIds(c, w0), size, id);
    NotListedAnyMore(c, w0, w, id);
    NoneListed(c, size);
    OneAggregate(c, w0, id);
    ReadyFor(c, [id], w0, id);
    DroppedIdsResumeIff(c, w0, w, size, []);
    assert SnapshotsPair(c, TargetOf(c, id), w, id) != SnapshotsGoal(c, TargetOf(c, id), w0, id);
  }

  /** One such store: the aggregate "e", with one event and one snapshot, assigned to
      the tenant "t". */
  lemma DroppedIdExample() returns (c: Config, w0: World, w: World)
    ensures Enumerated(c, LiveIds(c, w0), 1, []) == [[101]] && Enumerated(c, LiveIds(c, w), 1, []) == []
    ensures w in RunAll(c, w0, [[101]], ALWAYS_HONEST).trail
    ensures var again, straight := RunAll(c, w, [], ALWAYS_HONEST), RunAll(c, w0, [[101]], ALWAYS_HONEST);
            again.report.failed == 0 && !SameStores(again.world, straight.world)
  {
    var id: GoString := [101];
    c := ExampleConfig();
    w0 := ExampleWorld(id);
    ExampleIsReady(id);
    ExampleIsListed(id);
    w := DroppedIdMisses(c, w0, id, 1);
  }

  function ExampleConfig(): Config {
    var seal := Seal((r: int) => true, (r: Record) => [], (s: GoString) => []);
    Config(seal, Unscoped, true, true, false, true, true, false, (id: GoString) => Assign([116]))
  }

  function ExampleWorld(id: GoString): World {
    var r := Record(id, 1, [], map[]);
    World(map[Key(Unscoped, id) := Log(1, [r])], map[Key(Unscoped, id) := map[1 := r]], map[])
  }

  lemma ExampleIsListed(id: GoString)
    ensures LiveIds(ExampleConfig(), ExampleWorld(id)) == {id}
  {
    var c, w0 := ExampleConfig(), ExampleWorld(id);
    assert Key(Unscoped, id) in w0.events && w0.events[Key(Unscoped, id)].events != [];
    forall x ensures x in LiveIds(c, w0) <==> x == id {
      SourceIdAt(c, w0, x);
    }
  }

  lemma ExampleIsReady(id: GoString)
    ensures var c, w0 := ExampleConfig(), ExampleWorld(id);
            && Ready(c, [id], w0)
            && Replay(EventsPair(c, TargetOf(c, id), w0, id).source) != []
            && SnapshotsPair(c, TargetOf(c, id), w0, id).source != map[]
  {
    var c, w0 := ExampleConfig(), ExampleWorld(id);
    var t := IntentFor([116]);
    Tenancy.LetterIsId(116);
    ExampleIsFresh(id);
    assert ColonFree(c.seal);
    assert TargetOf(c, id) == t && AdoptedTo(c, id, t);
  }

  lemma ExampleIsFresh(id: GoString)
    ensures var c, w0, t := ExampleConfig(), ExampleWorld(id), IntentFor([116]);
            && Fresh(c, t, w0, id)
            && Replay(EventsPair(c, t, w0, id).source) != [] && SnapshotsPair(c, t, w0, id).source != map[]
  {
    var c, w0, t, r := ExampleConfig(), ExampleWorld(id), IntentFor([116]), Record(id, 1, [], map[]);
    ReplayHolds(Log(1, [r]));
    assert r in Replay(Some(Log(1, [r])));
    assert EventsPair(c, t, w0, id) == Pair(Some(Log(1, [r])), None);
    assert SnapshotsPair(c, t, w0, id) == Pair(map[1 := r], map[]);
    assert 1 in SnapshotsPair(c, t, w0, id).source;
  }

  lemma OneAggregate(c: Config, w0: World, id: GoString)
    ensures RunAll(c, w0, [id], ALWAYS_HONEST).trail == RunAggregate(c, w0, id, HONEST).trail
  {
    assert [id][..0] == [];
    assert RunAll(c, w0, [], ALWAYS_HONEST).trail == [];
  }
}
