/** What the runner delivers more than once: without a starting offset nothing at
    or below an offset that was ever acknowledged, crashes included; a batch whose
    offset was not acknowledged from its first event on. */
module RunnerRedelivery {
  import opened GoText
  import opened Recovery
  import opened Runner
  import opened RunnerSafety

  // ----------------------------------------------- acknowledged offsets stay

  /** Whatever the next read of the shard starts from, in this process or in a new
      one, is at least `offset`. */
  ghost predicate Acknowledges(s: State, shard: Shard, offset: int) {
    && shard in s.shards && s.shards[shard].stored >= offset
    && (s.shards[shard].cached.Some? ==> s.shards[shard].cached.value >= offset)
  }

  /** Without a starting offset no step takes an acknowledged offset back: a write
      goes beyond the cache, the cache follows the store, and a new process reads
      the store. */
  lemma StepAcknowledges(c: Config, s: State, s': State, step: Step, shard: Shard, offset: int)
    requires c.starting.None? && Inv(c, s) && Takes(c, s, s', step) && Acknowledges(s, shard, offset)
    ensures Acknowledges(s', shard, offset)
  {
    match step
    case WriteStep(w, v, ok, effect) => WriteGoesBeyond(c, s, s', w, v, ok, effect);
    case RememberStep(w, k, next) => RememberFollows(c, s, s', w, k, next);
    case _ => OtherStepAcknowledges(c, s, s', step, shard, offset);
  }

  lemma OtherStepAcknowledges(c: Config, s: State, s': State, step: Step, shard: Shard, offset: int)
    requires Takes(c, s, s', step) && !step.WriteStep? && !step.RememberStep? && Acknowledges(s, shard, offset)
    ensures Acknowledges(s', shard, offset)
  {
  }

  lemma WriteGoesBeyond(c: Config, s: State, s': State, w: nat, v: Worker, ok: bool, effect: bool)
    requires c.starting.None? && Inv(c, s) && Write(s, s', w, v, ok, effect)
    ensures s.shards[v.shard].cached.Some? && v.next > s.shards[v.shard].cached.value
  {
    assert w in Busy(s) && WorkerOk(c, s.shards[v.shard], s.workers[w], s.log);
    assert s.shards[v.shard].journal[v.lo] > s.shards[v.shard].cached.value;
  }

  lemma RememberFollows(c: Config, s: State, s': State, w: nat, shard: Shard, next: int)
    requires Inv(c, s) && Remember(s, s', w, shard, next)
    ensures s.shards[shard].stored == next
  {
    assert w in Busy(s) && WorkerOk(c, s.shards[shard], s.workers[w], s.log);
  }

  /** What one step other than a restart or an acknowledgement may do to a shard:
      append beyond everything, or touch neither journal nor known cache. */
  ghost predicate ShardMoves(x: ShardState, x': ShardState) {
    && (x.cached.Some? ==> x'.cached == x.cached)
    && (x'.journal == x.journal ||
        (|x'.journal| == |x.journal| + 1 && x'.journal[..|x.journal|] == x.journal
         && (x.journal != [] ==> x'.journal[|x.journal|] >= x.journal[|x.journal| - 1])))
  }

  lemma StepShard(c: Config, s: State, s': State, step: Step, shard: Shard)
    requires Takes(c, s, s', step) && !step.RestartStep? && !(step.RememberStep? && step.shard == shard)
             && shard in s.shards
    ensures shard in s'.shards && ShardMoves(s.shards[shard], s'.shards[shard])
  {
  }

  lemma {:induction false} AcknowledgedStays(c: Config, states: seq<State>, steps: seq<Step>, i: nat, j: nat,
                                             shard: Shard, offset: int)
    requires c.starting.None? && Execution(c, states, steps) && i <= j < |states|
    requires Acknowledges(states[i], shard, offset)
    ensures Acknowledges(states[j], shard, offset)
  {
    if i < j {
      AcknowledgedStays(c, states, steps, i, j - 1, shard, offset);
      AcknowledgedNext(c, states, steps, j - 1, shard, offset);
    }
  }

  lemma AcknowledgedNext(c: Config, states: seq<State>, steps: seq<Step>, n: nat, shard: Shard, offset: int)
    requires c.starting.None? && Execution(c, states, steps) && n < |steps|
    requires Acknowledges(states[n], shard, offset)
    ensures Acknowledges(states[n + 1], shard, offset)
  {
    EveryState(c, states, steps, n);
    StepAcknowledges(c, states[n], states[n + 1], steps[n], shard, offset);
  }

  /** An acknowledged offset is in the store. */
  lemma RememberAcknowledges(c: Config, s: State, s': State, w: nat, shard: Shard, next: int)
    requires Inv(c, s) && Remember(s, s', w, shard, next)
    ensures Acknowledges(s', shard, next)
  {
    RememberFollows(c, s, s', w, shard, next);
  }

  /** Whatever is handed to the handler lies beyond the cached offset. */
  lemma HandledIsBeyond(c: Config, s: State, s': State, w: nat, v: Worker, o: Verdict)
    requires c.starting.None? && Inv(c, s) && Handle(c, s, s', w, v, o)
    ensures v.shard in s.shards && v.k < |s.shards[v.shard].journal|
    ensures s.shards[v.shard].cached.Some? && s.shards[v.shard].journal[v.k] > s.shards[v.shard].cached.value
  {
    assert w in Busy(s) && WorkerOk(c, s.shards[v.shard], s.workers[w], s.log);
  }

  /** No redelivery: without a starting offset, an event handled after an offset was
      acknowledged lies beyond that offset, whatever failed or crashed in between. A
      batch is delivered again only when its own offset was never acknowledged. */
  lemma NeverBelowAcknowledged(c: Config, states: seq<State>, steps: seq<Step>, i: nat, j: nat)
    requires c.starting.None? && Execution(c, states, steps) && i < j < |steps|
    requires steps[i].RememberStep? && steps[j].HandleStep? && steps[j].v.Batch? && steps[j].v.shard == steps[i].shard
    ensures var v := steps[j].v; var x := states[j].shards;
            v.shard in x && v.k < |x[v.shard].journal| && x[v.shard].journal[v.k] > steps[i].next
  {
    EveryState(c, states, steps, i);
    assert Takes(c, states[i], states[i + 1], steps[i]);
    RememberAcknowledges(c, states[i], states[i + 1], steps[i].w, steps[i].shard, steps[i].next);
    AcknowledgedStays(c, states, steps, i + 1, j, steps[i].shard, steps[i].next);
    EveryState(c, states, steps, j);
    assert Takes(c, states[j], states[j + 1], steps[j]);
    HandledIsBeyond(c, states[j], states[j + 1], steps[j].w, steps[j].v, steps[j].o);
  }

  // ---------------------------------------------- a failed batch starts over

  /** The events at or below what the shard's next read starts from are the first
      lo ones, and there is one after them. */
  ghost predicate ReadsFrom(c: Config, s: State, shard: Shard, lo: nat) {
    && shard in s.shards && s.shards[shard].cached.Some? && lo < |s.shards[shard].journal|
    && forall n :: 0 <= n < |s.shards[shard].journal| ==>
         (s.shards[shard].journal[n] <= From(c, s.shards[shard]) <==> n < lo)
  }

  lemma BatchReadsFrom(c: Config, s: State, w: nat)
    requires Inv(c, s) && w in s.workers && s.workers[w].Batch?
    ensures ReadsFrom(c, s, s.workers[w].shard, s.workers[w].lo)
  {
    assert w in Busy(s) && WorkerOk(c, s.shards[s.workers[w].shard], s.workers[w], s.log);
  }

  /** Neither a restart nor an acknowledged offset of this shard. */
  predicate Unacknowledged(step: Step, shard: Shard) {
    !step.RestartStep? && !(step.RememberStep? && step.shard == shard)
  }

  lemma StepReadsFrom(c: Config, s: State, s': State, step: Step, shard: Shard, lo: nat)
    requires Inv(c, s) && Takes(c, s, s', step) && Unacknowledged(step, shard) && ReadsFrom(c, s, shard, lo)
    ensures ReadsFrom(c, s', shard, lo)
  {
    StepShard(c, s, s', step, shard);
    assert ShardOk(c, shard, s.shards[shard], s.log);
    ReadsAfterMove(c, s.shards[shard], s'.shards[shard], lo);
  }

  lemma ReadsAfterMove(c: Config, x: ShardState, x': ShardState, lo: nat)
    requires ShardMoves(x, x') && Ascending(x.journal) && x.cached.Some? && lo < |x.journal|
    requires forall n :: 0 <= n < |x.journal| ==> (x.journal[n] <= From(c, x) <==> n < lo)
    ensures x'.cached.Some? && forall n :: 0 <= n < |x'.journal| ==> (x'.journal[n] <= From(c, x') <==> n < lo)
  {
    var j, j' := x.journal, x'.journal;
    assert j[lo] > From(c, x) && j[lo] <= j[|j| - 1];
    forall n | 0 <= n < |j'| ensures j'[n] <= From(c, x') <==> n < lo {
      if n < |j| { assert j'[n] == j[n] by { assert j'[..|j|][n] == j'[n]; } }
    }
  }

  lemma {:induction false} KeepsReadingFrom(c: Config, states: seq<State>, steps: seq<Step>, i: nat, j: nat,
                                            shard: Shard, lo: nat)
    requires Execution(c, states, steps) && i <= j < |states| && ReadsFrom(c, states[i], shard, lo)
    requires forall n :: i <= n < j ==> Unacknowledged(steps[n], shard)
    ensures ReadsFrom(c, states[j], shard, lo)
  {
    if i < j {
      KeepsReadingFrom(c, states, steps, i, j - 1, shard, lo);
      ReadsFromNext(c, states, steps, j - 1, shard, lo);
    }
  }

  lemma ReadsFromNext(c: Config, states: seq<State>, steps: seq<Step>, n: nat, shard: Shard, lo: nat)
    requires Execution(c, states, steps) && n < |steps| && Unacknowledged(steps[n], shard)
             && ReadsFrom(c, states[n], shard, lo)
    ensures ReadsFrom(c, states[n + 1], shard, lo)
  {
    EveryState(c, states, steps, n);
    StepReadsFrom(c, states[n], states[n + 1], steps[n], shard, lo);
  }

  /** Whole batches: until an offset of the shard is acknowledged, whatever failed
      in between, every batch of the shard begins at the same event. After a crash it
      may begin later: a write reported as failed may have moved the stored offset,
      which the new process reads. */
  lemma BatchesBeginAlike(c: Config, states: seq<State>, steps: seq<Step>, i: nat, j: nat, w: nat, u: nat)
    requires Execution(c, states, steps) && i <= j < |states|
    requires w in states[i].workers && states[i].workers[w].Batch? && u in states[j].workers
             && states[j].workers[u].Batch?
    requires states[i].workers[w].shard == states[j].workers[u].shard
    requires forall n :: i <= n < j ==> Unacknowledged(steps[n], states[i].workers[w].shard)
    ensures states[j].workers[u].lo == states[i].workers[w].lo
  {
    var shard, lo := states[i].workers[w].shard, states[i].workers[w].lo;
    EveryState(c, states, steps, i);
    EveryState(c, states, steps, j);
    BatchReadsFrom(c, states[i], w);
    BatchReadsFrom(c, states[j], u);
    KeepsReadingFrom(c, states, steps, i, j, shard, lo);
    SamePlace(c, states[j], shard, lo, states[j].workers[u].lo);
  }

  lemma SamePlace(c: Config, s: State, shard: Shard, lo: nat, lo': nat)
    requires ReadsFrom(c, s, shard, lo) && ReadsFrom(c, s, shard, lo')
    ensures lo == lo'
  {
    var j := s.shards[shard].journal;
    assert (j[lo] <= From(c, s.shards[shard]) <==> lo < lo') && (j[lo'] <= From(c, s.shards[shard]) <==> lo' < lo);
  }

  // ------------------------------------------------- with a starting offset

  /** With a starting offset the events at or below it are the first lo ones for
      good, and there is one after them. */
  ghost predicate StartsAt(c: Config, s: State, shard: Shard, lo: nat)
    requires c.starting.Some?
  {
    && shard in s.shards && lo < |s.shards[shard].journal|
    && forall n :: 0 <= n < |s.shards[shard].journal| ==>
         (s.shards[shard].journal[n] <= c.starting.value <==> n < lo)
  }

  lemma BatchStartsAt(c: Config, s: State, w: nat)
    requires c.starting.Some? && Inv(c, s) && w in s.workers && s.workers[w].Batch?
    ensures StartsAt(c, s, s.workers[w].shard, s.workers[w].lo)
  {
    assert w in Busy(s) && WorkerOk(c, s.shards[s.workers[w].shard], s.workers[w], s.log);
  }

  /** No step touches a journal but to append to it. */
  lemma StepJournal(c: Config, s: State, s': State, step: Step, shard: Shard)
    requires Takes(c, s, s', step) && shard in s.shards
    ensures shard in s'.shards
    ensures var j, j' := s.shards[shard].journal, s'.shards[shard].journal;
            || j' == j
            || (|j'| == |j| + 1 && j'[..|j|] == j && (j != [] ==> j'[|j|] >= j[|j| - 1]))
  {
    if !step.RestartStep? && !(step.RememberStep? && step.shard == shard) { StepShard(c, s, s', step, shard); }
  }

  lemma StepStartsAt(c: Config, s: State, s': State, step: Step, shard: Shard, lo: nat)
    requires c.starting.Some? && Inv(c, s) && Takes(c, s, s', step) && StartsAt(c, s, shard, lo)
    ensures StartsAt(c, s', shard, lo)
  {
    StepJournal(c, s, s', step, shard);
    assert ShardOk(c, shard, s.shards[shard], s.log);
    var j, j' := s.shards[shard].journal, s'.shards[shard].journal;
    assert j[lo] <= j[|j| - 1];
    SplitStays(j, j', lo, c.starting.value);
  }

  /** An event appended at the end does not change which events come first. */
  lemma SplitStays(j: seq<int>, j': seq<int>, lo: nat, offset: int)
    requires lo < |j| && j[lo] <= j[|j| - 1] && forall n :: 0 <= n < |j| ==> (j[n] <= offset <==> n < lo)
    requires j' == j || (|j'| == |j| + 1 && j'[..|j|] == j && j'[|j|] >= j[|j| - 1])
    ensures forall n :: 0 <= n < |j'| ==> (j'[n] <= offset <==> n < lo)
  {
    forall n | 0 <= n < |j'| ensures j'[n] <= offset <==> n < lo {
      if n < |j| { assert j'[n] == j[n] by { assert j'[..|j|][n] == j'[n]; } }
    }
  }

  lemma {:induction false} KeepsStartingAt(c: Config, states: seq<State>, steps: seq<Step>, i: nat, j: nat,
                                           shard: Shard, lo: nat)
    requires c.starting.Some? && Execution(c, states, steps) && i <= j < |states| && StartsAt(c, states[i], shard, lo)
    ensures StartsAt(c, states[j], shard, lo)
  {
    if i < j {
      KeepsStartingAt(c, states, steps, i, j - 1, shard, lo);
      EveryState(c, states, steps, j - 1);
      assert Takes(c, states[j - 1], states[j], steps[j - 1]);
      StepStartsAt(c, states[j - 1], states[j], steps[j - 1], shard, lo);
    }
  }

  /** With a starting offset every batch of a shard begins at the same event for
      ever, across acknowledgements and crashes: the runner never gets past what one
      read returns. */
  lemma StartingOffsetPins(c: Config, states: seq<State>, steps: seq<Step>, i: nat, j: nat, w: nat, u: nat)
    requires c.starting.Some? && Execution(c, states, steps) && i <= j < |states|
    requires w in states[i].workers && states[i].workers[w].Batch?
    requires u in states[j].workers && states[j].workers[u].Batch?
    requires states[i].workers[w].shard == states[j].workers[u].shard
    ensures states[j].workers[u].lo == states[i].workers[w].lo
  {
    var shard, lo, lo' := states[i].workers[w].shard, states[i].workers[w].lo, states[j].workers[u].lo;
    EveryState(c, states, steps, i);
    EveryState(c, states, steps, j);
    BatchStartsAt(c, states[i], w);
    BatchStartsAt(c, states[j], u);
    KeepsStartingAt(c, states, steps, i, j, shard, lo);
    var q := states[j].shards[shard].journal;
    assert (q[lo] <= c.starting.value <==> lo < lo') && (q[lo'] <= c.starting.value <==> lo' < lo);
  }

  /** Step i acknowledges an offset of the shard; step j hands the handler an event
      at or below it that was settled before. */
  ghost predicate Redelivers(states: seq<State>, steps: seq<Step>, shard: Shard, i: nat, j: nat) {
    && i < j < |steps| < |states| && steps[i].RememberStep? && steps[i].shard == shard
    && steps[j].HandleStep? && steps[j].v.Batch? && steps[j].v.shard == shard
    && shard in states[j].shards && steps[j].v.k < |states[j].shards[shard].journal|
    && states[j].shards[shard].journal[steps[j].v.k] <= steps[i].next
    && Settled(states[j].log, shard, steps[j].v.k)
  }

  /** One event beyond the starting offset, which was read, settled, stored and
      acknowledged by a first pass. */
  function Acked(from: int): ShardState {
    ShardState([from + 1], Some(from + 1), from + 1, Some(from + 1))
  }

  /** A read from the starting offset finds that event, whatever is cached. */
  lemma Reading(c: Config, past: seq<Step>, shard: Shard, x: ShardState, log: seq<Entry>, runs: nat, from: int)
    returns (steps: seq<Step>)
    requires c.starting == Some(from) && Reached(c, past, AtRest(shard, x, log, runs)) && x.journal == [from + 1]
    requires x.reported.None? || x.reported.value == from + 1
    ensures var x' := x.(cached := Some(if x.cached.Some? then x.cached.value else x.stored),
                         reported := Some(from + 1));
            Reached(c, steps, InPass(shard, x', Batch(shard, runs, 0, 0, 1, from + 1), log, runs + 1))
    ensures past <= steps
  {
    var s, located := Locating(c, past, shard, x, log, runs, from);
    OneEvent(from);
    Fetching(c, located, shard, x.(cached := Some(if x.cached.Some? then x.cached.value else x.stored)), log, runs,
             from, from + 1);
    steps := located + [FetchStep(0, shard, from, from + 1)];
  }

  lemma OneEvent(from: int)
    ensures UpTo([from + 1], from) == 0 && UpTo([from + 1], from + 1) == 1
  {
  }

  /** The entry the first pass leaves. */
  function FirstEntry(shard: Shard): Entry {
    Entry(shard, 0, 0, 0, true)
  }

  /** The state of the first pass just before its offset is acknowledged. */
  function Unremembered(c: Config, shard: Shard, from: int): State {
    InPass(shard, Acked(from).(cached := Some(c.base(shard))), Written(shard, from + 1), [FirstEntry(shard)], 1)
  }

  /** The first pass: delivered and stored. */
  lemma FirstPass(c: Config, shard: Shard, from: int) returns (steps: seq<Step>)
    requires c.starting == Some(from)
    ensures Reached(c, steps, Unremembered(c, shard, from))
  {
    var x := ShardState([from + 1], None, c.base(shard), None);
    InitReached(c, AtRest(shard, x, [], 0));
    var read := Reading(c, [], shard, x, [], 0, from);
    var x' := x.(cached := Some(x.stored), reported := Some(from + 1));
    var delivered := Delivering(c, read, shard, x', from + 1);
    steps := Storing(c, delivered, shard, x', [FirstEntry(shard)], from + 1);
  }

  lemma Delivering(c: Config, past: seq<Step>, shard: Shard, x: ShardState, next: int) returns (steps: seq<Step>)
    requires Reached(c, past, InPass(shard, x, Batch(shard, 0, 0, 0, 1, next), [], 1))
    ensures Reached(c, steps, InPass(shard, x, Batch(shard, 0, 0, 1, 1, next), [FirstEntry(shard)], 1))
  {
    var v := Batch(shard, 0, 0, 0, 1, next);
    var s, s' := InPass(shard, x, v, [], 1), InPass(shard, x, v.(k := 1), [FirstEntry(shard)], 1);
    assert s'.workers == s.workers[0 := v.(k := 1)] && s'.log == s.log + [FirstEntry(shard)];
    assert Handle(c, s, s', 0, v, Handled);
    StepReached(c, past, s, s', HandleStep(0, v, Handled));
    steps := past + [HandleStep(0, v, Handled)];
  }

  lemma Storing(c: Config, past: seq<Step>, shard: Shard, x: ShardState, log: seq<Entry>, next: int)
    returns (steps: seq<Step>)
    requires Reached(c, past, InPass(shard, x, Batch(shard, 0, 0, 1, 1, next), log, 1))
    ensures Reached(c, steps, InPass(shard, x.(stored := next), Written(shard, next), log, 1))
  {
    var v := Batch(shard, 0, 0, 1, 1, next);
    var s, s' := InPass(shard, x, v, log, 1), InPass(shard, x.(stored := next), Written(shard, next), log, 1);
    assert s'.workers == s.workers[0 := Written(shard, next)] && s'.shards == s.shards[shard := x.(stored := next)];
    assert Write(s, s', 0, v, true, true);
    StepReached(c, past, s, s', WriteStep(0, v, true, true));
    steps := past + [WriteStep(0, v, true, true)];
  }

  /** It is acknowledged, and the runner comes to rest. */
  lemma Remembering(c: Config, past: seq<Step>, shard: Shard, from: int) returns (steps: seq<Step>)
    requires Reached(c, past, Unremembered(c, shard, from))
    ensures past + [RememberStep(0, shard, from + 1)] <= steps
    ensures Reached(c, steps, AtRest(shard, Acked(from), [FirstEntry(shard)], 1))
  {
    var s, s1 := Unremembered(c, shard, from), InPass(shard, Acked(from), Done(shard), [FirstEntry(shard)], 1);
    assert s1.workers == s.workers[0 := Done(shard)] && s1.shards == s.shards[shard := Acked(from)];
    assert Remember(s, s1, 0, shard, from + 1);
    var remembered := past + [RememberStep(0, shard, from + 1)];
    StepReached(c, past, s, s1, RememberStep(0, shard, from + 1));
    steps := Resting(c, remembered, shard, Acked(from), [FirstEntry(shard)]);
  }

  lemma Resting(c: Config, past: seq<Step>, shard: Shard, x: ShardState, log: seq<Entry>) returns (steps: seq<Step>)
    requires Reached(c, past, InPass(shard, x, Done(shard), log, 1))
    ensures past <= steps && Reached(c, steps, AtRest(shard, x, log, 1))
  {
    var s := InPass(shard, x, Done(shard), log, 1);
    var s1 := s.(workers := s.workers[0 := Free], waiting := 0);
    assert Finish(s, s1, 0, shard);
    StepReached(c, past, s, s1, FinishStep(0, shard));
    StepReached(c, past + [FinishStep(0, shard)], s1, AtRest(shard, x, log, 1), EndPassStep(false));
    steps := past + [FinishStep(0, shard)] + [EndPassStep(false)];
  }

  /** With a starting offset, an acknowledged batch is read and delivered again on
      the next pass. */
  lemma ReadsAgain(c: Config, shard: Shard) returns (states: seq<State>, steps: seq<Step>, i: nat, j: nat)
    requires c.starting.Some?
    ensures Execution(c, states, steps) && Redelivers(states, steps, shard, i, j)
  {
    var from := c.starting.value;
    var past := FirstPass(c, shard, from);
    var rested := Remembering(c, past, shard, from);
    var read := Reading(c, rested, shard, Acked(from), [FirstEntry(shard)], 1, from);
    var v := Batch(shard, 1, 0, 0, 1, from + 1);
    var s := InPass(shard, Acked(from), v, [FirstEntry(shard)], 2);
    var s' := WithWorker(s, 0, v.(k := 1)).(log := s.log + [Entry(shard, 0, 1, 0, true)]);
    assert Handle(c, s, s', 0, v, Handled);
    var before: seq<State> :| Execution(c, before, read) && before[|read|] == s;
    ExecutionExtends(c, before, read, s', HandleStep(0, v, Handled));
    states, steps, i, j := before + [s'], read + [HandleStep(0, v, Handled)], |past|, |read|;
    assert steps[i] == RememberStep(0, shard, from + 1);
    assert states[j] == s && s.log[0] == FirstEntry(shard);
  }

  /** An acknowledged event is delivered again, in some execution, if and only if a
      starting offset is set. */
  lemma RedeliveryCondition(c: Config, shard: Shard)
    ensures (exists states: seq<State>, steps: seq<Step>, i: nat, j: nat ::
               Execution(c, states, steps) && Redelivers(states, steps, shard, i, j)) <==> c.starting.Some?
  {
    if c.starting.Some? {
      var states, steps, i, j := ReadsAgain(c, shard);
    } else {
      forall states: seq<State>, steps: seq<Step>, i: nat, j: nat | Execution(c, states, steps)
        ensures !Redelivers(states, steps, shard, i, j)
      {
        if Redelivers(states, steps, shard, i, j) { NeverBelowAcknowledged(c, states, steps, i, j); }
      }
    }
  }
}
