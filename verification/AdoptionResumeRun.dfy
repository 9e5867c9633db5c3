/** Resumability of whole runs. */
module AdoptionResumeRun {
  import opened GoText
  import opened Conflict
  import opened Records
  import opened Adoption
  import opened AdoptionRun
  import opened AdoptionWholeRun
  import opened AdoptionFaithful
  import opened AdoptionResume
  import Pagination

  const ALWAYS_HONEST: GoString -> Faults := id => HONEST

  /** A write run that can succeed: every id is left alone or assigned to a valid
      tenant scope that is not the source and was never written. */
  ghost predicate Ready(c: Config, ids: seq<GoString>, w0: World) {
    && c.write && ColonFree(c.seal) && Pagination.NoRepeats(ids)
    && forall id :: id in ids ==> c.assign(id).Skip? || exists t :: AdoptedTo(c, id, t) && Fresh(c, t, w0, id)
  }

  /** The run moves id's records. */
  predicate Moves(c: Config, ids: seq<GoString>, id: GoString) {
    id in ids && c.assign(id).Assign?
  }

  function TargetOf(c: Config, id: GoString): Intent
    requires c.assign(id).Assign?
  {
    IntentFor(c.assign(id).tenant)
  }

  lemma ReadyFor(c: Config, ids: seq<GoString>, w0: World, id: GoString)
    requires Ready(c, ids, w0) && Moves(c, ids, id)
    ensures AdoptedTo(c, id, TargetOf(c, id)) && Fresh(c, TargetOf(c, id), w0, id) && Sound(c, TargetOf(c, id))
    ensures TargetOf(c, id).target != c.source
  {
    var t :| AdoptedTo(c, id, t) && Fresh(c, t, w0, id);
  }

  /** Where aggregate id stands in w, relative to the initial stores w0. */
  ghost predicate Underway(c: Config, ids: seq<GoString>, w0: World, w: World, id: GoString) {
    if Moves(c, ids, id) then InStage(c, TargetOf(c, id), w0, w, id) && OtherScopesSame(c, TargetOf(c, id), w0, w, id)
    else SameFor(w0, w, id)
  }

  ghost predicate Complete(c: Config, ids: seq<GoString>, w0: World, w: World, id: GoString) {
    if Moves(c, ids, id) then Settled(c, TargetOf(c, id), w0, w, id) && OtherScopesSame(c, TargetOf(c, id), w0, w, id)
    else SameFor(w0, w, id)
  }

  ghost predicate AllUnderway(c: Config, ids: seq<GoString>, w0: World, w: World) {
    forall id :: Underway(c, ids, w0, w, id)
  }

  ghost predicate AllComplete(c: Config, ids: seq<GoString>, w0: World, w: World) {
    forall id :: Complete(c, ids, w0, w, id)
  }

  lemma StartIsUnderway(c: Config, ids: seq<GoString>, w0: World)
    requires Ready(c, ids, w0)
    ensures AllUnderway(c, ids, w0, w0)
  {
    forall id ensures Underway(c, ids, w0, w0, id) {
      if Moves(c, ids, id) { ReadyFor(c, ids, w0, id); }
    }
  }

  lemma CompleteIsUnderway(c: Config, ids: seq<GoString>, w0: World, w: World)
    requires AllComplete(c, ids, w0, w)
    ensures AllUnderway(c, ids, w0, w)
  {
    forall id ensures Underway(c, ids, w0, w, id) {
      assert Complete(c, ids, w0, w, id);
      if Moves(c, ids, id) { SettledIsStage(c, TargetOf(c, id), w0, w, id); }
    }
  }

  lemma SettledIsStage(c: Config, t: Intent, w0: World, w: World, id: GoString)
    requires Settled(c, t, w0, w, id)
    ensures InStage(c, t, w0, w, id)
  {
  }

  lemma UnderwayTransfers(c: Config, ids: seq<GoString>, w0: World, w: World, w': World, id: GoString)
    requires SameFor(w, w', id)
    ensures Underway(c, ids, w0, w, id) ==> Underway(c, ids, w0, w', id)
    ensures Complete(c, ids, w0, w, id) ==> Complete(c, ids, w0, w', id)
  {
    if Moves(c, ids, id) {
      var t := TargetOf(c, id);
      assert SameAt(w, w', SourceKey(c, id)) && SameAt(w, w', TargetKey(t, id));
    }
  }

  lemma OtherScopesCompose(c: Config, t: Intent, w0: World, w: World, w': World, id: GoString)
    requires OtherScopesSame(c, t, w0, w, id) && OtherScopesSame(c, t, w, w', id)
    ensures OtherScopesSame(c, t, w0, w', id)
  {
    forall k: Key | k.pid == id && k.scope != c.source && k.scope != t.target ensures SameAt(w0, w', k) {
      assert SameAt(w0, w, k) && SameAt(w, w', k);
    }
  }

  // ------------------------------------------------------ interrupted runs

  /** One aggregate's pass from an underway world, atomic calls only. */
  lemma StepUnderway(c: Config, ids: seq<GoString>, w0: World, w: World, id: GoString, f: Faults, i: nat)
    requires Ready(c, ids, w0) && AllUnderway(c, ids, w0, w) && id in ids
    requires c.assign(id).Assign? ==> Atomic(c, TargetOf(c, id), w, id, f)
    requires i < |RunAggregate(c, w, id, f).trail|
    ensures AllUnderway(c, ids, w0, RunAggregate(c, w, id, f).trail[i])
            && OnlyTouches(w, RunAggregate(c, w, id, f).trail[i], id)
  {
    var trail := RunAggregate(c, w, id, f).trail;
    assert Moves(c, ids, id);
    ReadyFor(c, ids, w0, id);
    assert Underway(c, ids, w0, w, id);
    KindsStaged(c, TargetOf(c, id), w0, w, id, f);
    assert trail == RunKinds(c, TargetOf(c, id), w, id, f).trail;
    StagedIsUnderway(c, ids, w0, w, trail[i], id);
  }

  lemma StagedIsUnderway(c: Config, ids: seq<GoString>, w0: World, w: World, w': World, id: GoString)
    requires AllUnderway(c, ids, w0, w) && Moves(c, ids, id) && StagedFrom(c, TargetOf(c, id), w0, w, w', id)
    ensures AllUnderway(c, ids, w0, w')
  {
    forall x ensures Underway(c, ids, w0, w', x) {
      assert Underway(c, ids, w0, w, x);
      if x == id {
        OtherScopesCompose(c, TargetOf(c, id), w0, w, w', id);
      } else {
        assert SameFor(w, w', x);
        UnderwayTransfers(c, ids, w0, w, w', x);
      }
    }
  }

  /** Every store call of the run is all-or-nothing. */
  ghost predicate AtomicRun(c: Config, ids: seq<GoString>, w: World, faults: GoString -> Faults) {
    forall id :: Moves(c, ids, id) ==> Atomic(c, TargetOf(c, id), w, id, faults(id))
  }

  lemma AtomicTransfers(c: Config, t: Intent, w: World, w': World, id: GoString, f: Faults)
    requires Atomic(c, t, w, id, f) && SameFor(w, w', id)
    ensures Atomic(c, t, w', id, f)
  {
    assert SameAt(w, w', SourceKey(c, id)) && SameAt(w, w', TargetKey(t, id));
  }

  /** `run` lists some of the ids, each once: what an enumeration yields when a
      store no longer lists the others. */
  predicate Part(run: seq<GoString>, ids: seq<GoString>) {
    Pagination.NoRepeats(run) && forall id :: id in run ==> id in ids
  }

  /** An interrupted run over the first n ids of its list: every aggregate is in
      one of its stages, now and after each mutation, and the others did not
      move. */
  ghost predicate Interrupted(c: Config, ids: seq<GoString>, run: seq<GoString>, w0: World, w: World, n: nat,
                              p: Progress)
    requires n <= |run|
  {
    && AllUnderway(c, ids, w0, p.world)
    && (forall i :: 0 <= i < |p.trail| ==> AllUnderway(c, ids, w0, p.trail[i]))
    && (forall id :: id !in run[..n] ==> SameFor(w, p.world, id))
  }

  /** Wherever an interrupted run stops, every aggregate is in one of its stages. */
  lemma {:induction false} InterruptedRun(c: Config, ids: seq<GoString>, run: seq<GoString>, w0: World, w: World,
                                          faults: GoString -> Faults, n: nat)
    requires Ready(c, ids, w0) && Part(run, ids) && AllUnderway(c, ids, w0, w) && AtomicRun(c, ids, w, faults)
             && n <= |run|
    ensures Interrupted(c, ids, run, w0, w, n, RunAll(c, w, run[..n], faults))
  {
    if n > 0 {
      InterruptedRun(c, ids, run, w0, w, faults, n - 1);
      assert run[..n][..n - 1] == run[..n - 1];
      var p := RunAll(c, w, run[..n - 1], faults);
      if !p.stopped {
        InterruptedStep(c, ids, run, w0, w, n, p, faults);
      } else {
        assert forall id :: id !in run[..n] ==> id !in run[..n - 1];
      }
    }
  }

  lemma InterruptedStep(c: Config, ids: seq<GoString>, run: seq<GoString>, w0: World, w: World, n: nat, p: Progress,
                        faults: GoString -> Faults)
    requires Ready(c, ids, w0) && Part(run, ids) && AtomicRun(c, ids, w, faults)
    requires 0 < n <= |run| && Interrupted(c, ids, run, w0, w, n - 1, p)
    ensures Interrupted(c, ids, run, w0, w, n, Advance(c, p, run[n - 1], faults(run[n - 1])))
  {
    var id := run[n - 1];
    assert run[..n] == run[..n - 1] + [id] && id !in run[..n - 1] && id in run;
    assert SameFor(w, p.world, id);
    if Moves(c, ids, id) { AtomicTransfers(c, TargetOf(c, id), w, p.world, id, faults(id)); }
    var a := RunAggregate(c, p.world, id, faults(id));
    forall i | 0 <= i < |a.trail| ensures AllUnderway(c, ids, w0, a.trail[i]) && OnlyTouches(p.world, a.trail[i], id) {
      StepUnderway(c, ids, w0, p.world, id, faults(id), i);
    }
    InterruptedExtends(c, ids, run, w0, w, n, p, a.trail);
  }

  lemma InterruptedExtends(c: Config, ids: seq<GoString>, run: seq<GoString>, w0: World, w: World, n: nat, p: Progress,
                           trail: seq<World>)
    requires 0 < n <= |run| && Interrupted(c, ids, run, w0, w, n - 1, p)
    requires forall i :: 0 <= i < |trail| ==>
             AllUnderway(c, ids, w0, trail[i]) && OnlyTouches(p.world, trail[i], run[n - 1])
    ensures AllUnderway(c, ids, w0, LastWorld(p.world, trail))
    ensures forall i :: 0 <= i < |p.trail + trail| ==> AllUnderway(c, ids, w0, (p.trail + trail)[i])
    ensures forall x :: x !in run[..n] ==> SameFor(w, LastWorld(p.world, trail), x)
  {
    assert run[..n] == run[..n - 1] + [run[n - 1]];
    forall x | x !in run[..n] ensures SameFor(w, LastWorld(p.world, trail), x) {
      assert SameFor(w, p.world, x);
    }
  }

  // -------------------------------------------------------- faithful runs

  /** A faithful pass over id comes to this: no failure, id complete, nothing
      else touched, and nothing at all if id was complete before. */
  ghost predicate Completes(c: Config, ids: seq<GoString>, w0: World, w: World, id: GoString, a: AggregateRun) {
    && !IsFailure(a.verdict)
    && Complete(c, ids, w0, LastWorld(w, a.trail), id)
    && OnlyTouches(w, LastWorld(w, a.trail), id)
    && (Complete(c, ids, w0, w, id) ==> a.trail == [])
  }

  lemma StepCompletes(c: Config, ids: seq<GoString>, w0: World, w: World, id: GoString)
    requires Ready(c, ids, w0) && Underway(c, ids, w0, w, id) && id in ids
    ensures Completes(c, ids, w0, w, id, RunAggregate(c, w, id, HONEST))
  {
    if Moves(c, ids, id) {
      ReadyFor(c, ids, w0, id);
      MovedCompletes(c, ids, w0, w, id);
    } else {
      assert c.assign(id).Skip?;
    }
  }

  lemma HonestStaged(c: Config, t: Intent, w0: World, w: World, id: GoString)
    requires t.target != c.source && Fresh(c, t, w0, id) && InStage(c, t, w0, w, id)
    ensures StagedTrail(c, t, w0, w, id, RunKinds(c, t, w, id, HONEST).trail)
  {
    KindsStaged(c, t, w0, w, id, HONEST);
  }

  lemma MovedCompletes(c: Config, ids: seq<GoString>, w0: World, w: World, id: GoString)
    requires Ready(c, ids, w0) && Underway(c, ids, w0, w, id) && Moves(c, ids, id)
    ensures Completes(c, ids, w0, w, id, RunKinds(c, TargetOf(c, id), w, id, HONEST))
  {
    ReadyFor(c, ids, w0, id);
    var t := TargetOf(c, id);
    KindsComplete(c, t, w0, w, id);
    HonestStaged(c, t, w0, w, id);
    SettledCompletes(c, ids, w0, w, id, RunKinds(c, t, w, id, HONEST));
  }

  lemma SettledCompletes(c: Config, ids: seq<GoString>, w0: World, w: World, id: GoString, a: AggregateRun)
    requires Moves(c, ids, id) && Underway(c, ids, w0, w, id) && !IsFailure(a.verdict)
    requires var t := TargetOf(c, id);
             && StagedTrail(c, t, w0, w, id, a.trail) && Settled(c, t, w0, LastWorld(w, a.trail), id)
             && (Settled(c, t, w0, w, id) ==> a.trail == [])
    ensures Completes(c, ids, w0, w, id, a)
  {
    var t := TargetOf(c, id);
    LastStaged(c, t, w0, w, w, id, a.trail);
    OtherScopesCompose(c, t, w0, w, LastWorld(w, a.trail), id);
  }

  /** The first n ids of the list complete, the others are as they were, nothing
      failed; and when everything was complete already, nothing was mutated. */
  ghost predicate Halfway(c: Config, ids: seq<GoString>, run: seq<GoString>, w0: World, w: World, n: nat, p: Progress)
    requires n <= |run|
  {
    && p.report.failed == 0 && !p.stopped
    && (forall id :: id in run[..n] ==> Complete(c, ids, w0, p.world, id))
    && (forall id :: id !in run[..n] ==> SameFor(w, p.world, id))
    && (AllComplete(c, ids, w0, w) ==> p.trail == [] && p.world == w)
  }

  lemma {:induction false} FaithfulRun(c: Config, ids: seq<GoString>, run: seq<GoString>, w0: World, w: World, n: nat)
    requires Ready(c, ids, w0) && Part(run, ids) && AllUnderway(c, ids, w0, w) && n <= |run|
    ensures Halfway(c, ids, run, w0, w, n, RunAll(c, w, run[..n], ALWAYS_HONEST))
  {
    if n > 0 {
      FaithfulRun(c, ids, run, w0, w, n - 1);
      assert run[..n][..n - 1] == run[..n - 1];
      FaithfulStep(c, ids, run, w0, w, n, RunAll(c, w, run[..n - 1], ALWAYS_HONEST));
    }
  }

  lemma FaithfulStep(c: Config, ids: seq<GoString>, run: seq<GoString>, w0: World, w: World, n: nat, p: Progress)
    requires Ready(c, ids, w0) && Part(run, ids) && AllUnderway(c, ids, w0, w)
    requires 0 < n <= |run| && Halfway(c, ids, run, w0, w, n - 1, p)
    ensures Halfway(c, ids, run, w0, w, n, Advance(c, p, run[n - 1], HONEST))
  {
    var id := run[n - 1];
    assert run[..n] == run[..n - 1] + [id] && id !in run[..n - 1] && id in run;
    UnderwayTransfers(c, ids, w0, w, p.world, id);
    assert Underway(c, ids, w0, w, id);
    StepCompletes(c, ids, w0, p.world, id);
    var q := Advance(c, p, id, HONEST);
    forall x | x in run[..n] ensures Complete(c, ids, w0, q.world, x) {
      if x != id {
        assert SameFor(p.world, q.world, x);
        UnderwayTransfers(c, ids, w0, p.world, q.world, x);
      }
    }
    forall x | x !in run[..n] ensures SameFor(w, q.world, x) {
      assert x != id && x !in run[..n - 1];
      assert SameFor(w, p.world, x) && SameFor(p.world, q.world, x);
    }
    if AllComplete(c, ids, w0, w) { assert Complete(c, ids, w0, w, id); }
  }

  /** A faithful run over part of the ids completes those and leaves the others. */
  lemma PartCompletes(c: Config, ids: seq<GoString>, run: seq<GoString>, w0: World, w: World)
    requires Ready(c, ids, w0) && Part(run, ids) && AllUnderway(c, ids, w0, w)
    ensures var p := RunAll(c, w, run, ALWAYS_HONEST);
            && p.report.failed == 0
            && (forall id :: id in run ==> Complete(c, ids, w0, p.world, id))
            && (forall id :: id !in run ==> SameFor(w, p.world, id))
            && (AllComplete(c, ids, w0, w) ==> p.trail == [])
  {
    assert run[..|run|] == run;
    FaithfulRun(c, ids, run, w0, w, |run|);
  }

  lemma RunCompletes(c: Config, ids: seq<GoString>, w0: World, w: World)
    requires Ready(c, ids, w0) && AllUnderway(c, ids, w0, w)
    ensures var p := RunAll(c, w, ids, ALWAYS_HONEST);
            && p.report.failed == 0 && AllComplete(c, ids, w0, p.world)
            && (AllComplete(c, ids, w0, w) ==> p.trail == [])
  {
    PartCompletes(c, ids, ids, w0, w);
    var p := RunAll(c, w, ids, ALWAYS_HONEST);
    forall id ensures Complete(c, ids, w0, p.world, id) {
      if id !in ids { assert Underway(c, ids, w0, w, id) && SameFor(w, p.world, id); }
    }
  }

  /** The stores hold the same. */
  ghost predicate SameStores(w: World, w': World) {
    forall k: Key :: SameAt(w, w', k)
  }

  lemma CompletionIsUnique(c: Config, ids: seq<GoString>, w0: World, w: World, w': World)
    requires Ready(c, ids, w0) && AllComplete(c, ids, w0, w) && AllComplete(c, ids, w0, w')
    ensures SameStores(w, w')
  {
    forall k: Key ensures SameAt(w, w', k) {
      assert Complete(c, ids, w0, w, k.pid) && Complete(c, ids, w0, w', k.pid);
      if Moves(c, ids, k.pid) {
        var t := TargetOf(c, k.pid);
        if k == SourceKey(c, k.pid) {
        } else if k == TargetKey(t, k.pid) {
        } else {
          assert SameAt(w0, w, k) && SameAt(w0, w', k);
        }
      } else {
        assert SameAt(w0, w, k) && SameAt(w0, w', k);
      }
    }
  }

  /** Resumability. Let a run whose calls are all-or-nothing stop in any state w',
      its own trail or its end, having started from stores where the adoption
      was fresh or already underway. A faithful re-run from w' ends without
      failure in the stores an uninterrupted run from the start leaves, and one
      more run mutates nothing. */
  lemma Resumable(c: Config, ids: seq<GoString>, w0: World, w: World, faults: GoString -> Faults, w': World)
    requires Ready(c, ids, w0) && AllUnderway(c, ids, w0, w) && AtomicRun(c, ids, w, faults)
    requires w' == RunAll(c, w, ids, faults).world || w' in RunAll(c, w, ids, faults).trail
    ensures AllUnderway(c, ids, w0, w')
    ensures var again, straight := RunAll(c, w', ids, ALWAYS_HONEST), RunAll(c, w0, ids, ALWAYS_HONEST);
            && again.report.failed == 0 && SameStores(again.world, straight.world)
            && RunAll(c, again.world, ids, ALWAYS_HONEST).trail == []
            && RunAll(c, again.world, ids, ALWAYS_HONEST).report.failed == 0
  {
    assert ids[..|ids|] == ids;
    InterruptedRun(c, ids, ids, w0, w, faults, |ids|);
    assert AllUnderway(c, ids, w0, w');
    StartIsUnderway(c, ids, w0);
    RunCompletes(c, ids, w0, w');
    RunCompletes(c, ids, w0, w0);
    var again, straight := RunAll(c, w', ids, ALWAYS_HONEST), RunAll(c, w0, ids, ALWAYS_HONEST);
    CompletionIsUnique(c, ids, w0, again.world, straight.world);
    CompleteIsUnderway(c, ids, w0, again.world);
    RunCompletes(c, ids, w0, again.world);
  }
}
