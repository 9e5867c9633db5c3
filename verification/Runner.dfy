/** The projection runner as a step machine: a pull loop, a pool of workers, the
    committed-offset cache, and stores that may fail at every round trip. Shard
    reads follow the store's contract: a batch holds every event of the shard
    in (offset, next], in order, and no event appears later at or below an
    offset a read has reported. The runner is the only writer of its offsets. */
module Runner {
  import opened GoText
  import opened Recovery

  type Shard = nat

  /** `base` is each shard's stored offset before the first run; `starting` the
      configured starting offset, if any. */
  datatype Config = Config(policy: Policy, starting: Option<int>, base: Shard -> int)

  /** One shard: the offsets of its events in store order, the highest offset a
      read reported, the stored offset, and the cached one. */
  datatype ShardState = ShardState(journal: seq<int>, reported: Option<int>, stored: int, cached: Option<int>)

  datatype Worker =
    | Free
    | Assigned(shard: Shard)
    | Located(shard: Shard, cur: int)
    | Batch(shard: Shard, run: nat, lo: nat, k: nat, hi: nat, next: int)
    | Written(shard: Shard, next: int)
    | Done(shard: Shard)

  datatype Loop = Resting | Passing(todo: seq<Shard>) | Aborting | Stopped

  /** One event handed to the handler: its place in the shard, the batch read it
      came with, where that batch began, and whether it was settled. */
  datatype Entry = Entry(shard: Shard, index: nat, run: nat, lo: nat, settled: bool)

  datatype State = State(
    shards: map<Shard, ShardState>, loop: Loop, waiting: int, queue: seq<Shard>,
    workers: map<nat, Worker>, log: seq<Entry>, runs: nat, running: bool)

  // ------------------------------------------------------------- one shard

  predicate Ascending(j: seq<int>) {
    forall a, b :: 0 <= a < b < |j| ==> j[a] <= j[b]
  }

  /** How many events of the journal are at or below an offset. */
  function UpTo(j: seq<int>, offset: int): (n: nat)
    ensures n <= |j|
    ensures n < |j| ==> j[n] > offset
    ensures forall a :: 0 <= a < n ==> j[a] <= offset
  {
    UpToFrom(j, offset, 0)
  }

  function UpToFrom(j: seq<int>, offset: int, i: nat): (n: nat)
    requires i <= |j|
    ensures i <= n <= |j|
    ensures n < |j| ==> j[n] > offset
    ensures forall a :: i <= a < n ==> j[a] <= offset
    decreases |j| - i
  {
    if i < |j| && j[i] <= offset then UpToFrom(j, offset, i + 1) else i
  }

  /** Event i of a shard was handled, or skipped by policy. */
  ghost predicate Settled(log: seq<Entry>, shard: Shard, i: nat) {
    exists t :: 0 <= t < |log| && log[t].shard == shard && log[t].index == i && log[t].settled
  }

  /** Above the floor the runner is answerable for an event. */
  function Floor(c: Config, shard: Shard): int {
    if c.starting.Some? && c.starting.value > c.base(shard) then c.starting.value else c.base(shard)
  }

  /** The events from the floor up to `offset` are settled. */
  ghost predicate SettledUpTo(c: Config, shard: Shard, j: seq<int>, offset: int, log: seq<Entry>) {
    forall i :: 0 <= i < |j| && Floor(c, shard) < j[i] <= offset ==> Settled(log, shard, i)
  }

  /** At least once: whatever lies between the floor and the stored offset is
      settled; without a starting offset the cache never runs ahead of the store;
      and what is stored was reported by a read. */
  ghost predicate ShardOk(c: Config, shard: Shard, x: ShardState, log: seq<Entry>) {
    && Ascending(x.journal)
    && SettledUpTo(c, shard, x.journal, x.stored, log)
    && (c.starting.None? && x.cached.Some? ==> x.cached.value <= x.stored)
    && (x.stored <= c.base(shard) || (x.reported.Some? && x.stored <= x.reported.value))
  }

  // ------------------------------------------------------------- the steps

  ghost predicate At(s: State, w: nat, v: Worker) {
    w in s.workers && s.workers[w] == v && (v.Free? || v.shard in s.shards)
  }

  function WithWorker(s: State, w: nat, v: Worker): State {
    s.(workers := s.workers[w := v])
  }

  function WithShard(s: State, shard: Shard, x: ShardState): State {
    s.(shards := s.shards[shard := x])
  }

  /** An event is persisted. */
  ghost predicate Append(s: State, s': State, shard: Shard, offset: int) {
    && shard in s.shards
    && var x := s.shards[shard];
       && (x.journal != [] ==> x.journal[|x.journal| - 1] <= offset)
       && (x.reported.Some? ==> offset > x.reported.value)
       && s' == WithShard(s, shard, x.(journal := x.journal + [offset]))
  }

  /** pendingShards' test of one shard. */
  ghost predicate IsPending(c: Config, x: ShardState) {
    && x.journal != []
    && var latest := x.journal[|x.journal| - 1];
       if c.starting.Some? then latest > c.starting.value else x.cached.None? || latest > x.cached.value
  }

  ghost predicate BeginPass(c: Config, s: State, s': State, shards: seq<Shard>) {
    && s.loop == Resting && s.running
    && (forall i, j :: 0 <= i < j < |shards| ==> shards[i] != shards[j])
    && (forall shard :: shard in shards <==> shard in s.shards && IsPending(c, s.shards[shard]))
    && s' == s.(loop := Passing(shards), waiting := |shards|)
  }

  ghost predicate Dispatch(s: State, s': State) {
    && s.loop.Passing? && s.loop.todo != []
    && s' == s.(loop := Passing(s.loop.todo[1..]), queue := s.queue + [s.loop.todo[0]])
  }

  ghost predicate Pick(s: State, s': State, w: nat) {
    && At(s, w, Free) && s.queue != []
    && s' == WithWorker(s, w, Assigned(s.queue[0])).(queue := s.queue[1..])
  }

  /** currentOffset: the cache, filled from the offset store on first encounter,
      and overridden by a configured starting offset. */
  ghost predicate Locate(c: Config, s: State, s': State, w: nat, shard: Shard) {
    && At(s, w, Assigned(shard))
    && var x := s.shards[shard];
       var committed := if x.cached.Some? then x.cached.value else x.stored;
       if !s.running then s' == WithWorker(s, w, Done(shard))
       else s' == WithShard(WithWorker(s, w, Located(shard, if c.starting.Some? then c.starting.value else committed)),
                            shard, x.(cached := Some(committed)))
  }

  ghost predicate ReadFails(s: State, s': State, w: nat, v: Worker) {
    At(s, w, v) && (v.Assigned? || v.Located?) && s' == WithWorker(s, w, Done(v.shard))
  }

  /** GetShardEvents reports everything up to `next`. */
  ghost predicate Fetch(s: State, s': State, w: nat, shard: Shard, cur: int, next: int) {
    && At(s, w, Located(shard, cur))
    && var x := s.shards[shard];
       var lo, hi := UpTo(x.journal, cur), UpTo(x.journal, next);
       if hi <= lo then s' == WithWorker(s, w, Done(shard))
       else s' == WithShard(WithWorker(s, w, Batch(shard, s.runs, lo, lo, hi, next)), shard,
                            x.(reported := Some(if x.reported.Some? && x.reported.value > next
                                                then x.reported.value else next)))
                    .(runs := s.runs + 1)
  }

  /** processEnvelope on the next event of the batch. A failure, or an event that
      cannot be decoded, abandons the batch. */
  ghost predicate Handle(c: Config, s: State, s': State, w: nat, v: Worker, o: Verdict) {
    && At(s, w, v) && v.Batch? && v.k < v.hi && (o == Skipped ==> Skips(c.policy))
    && var entry := Entry(v.shard, v.k, v.run, v.lo, o.Handled? || o.Skipped?);
       var log := if o == Undecodable then s.log else s.log + [entry];
       s' == WithWorker(s, w, if o.Handled? || o.Skipped? then v.(k := v.k + 1) else Done(v.shard)).(log := log)
  }

  /** WriteOffset: a reported failure may still have taken effect. */
  ghost predicate Write(s: State, s': State, w: nat, v: Worker, ok: bool, effect: bool) {
    && At(s, w, v) && v.Batch? && v.k >= v.hi && (ok ==> effect)
    && var s1 := if effect then WithShard(s, v.shard, s.shards[v.shard].(stored := v.next)) else s;
       s' == WithWorker(s1, w, if ok then Written(v.shard, v.next) else Done(v.shard))
  }

  /** The cache follows the store. */
  ghost predicate Remember(s: State, s': State, w: nat, shard: Shard, next: int) {
    && At(s, w, Written(shard, next))
    && s' == WithShard(WithWorker(s, w, Done(shard)), shard, s.shards[shard].(cached := Some(next)))
  }

  ghost predicate Finish(s: State, s': State, w: nat, shard: Shard) {
    At(s, w, Done(shard)) && s' == WithWorker(s, w, Free).(waiting := s.waiting - 1)
  }

  /** The batch wait returns; an unprocessable event that was reported stops the
      runner. */
  ghost predicate EndPass(s: State, s': State, stop: bool) {
    && s.loop == Passing([]) && s.waiting == 0
    && s' == if stop then s.(loop := Stopped, running := false) else s.(loop := Resting)
  }

  /** Cancelled while dispatching: the rest is taken off the wait. */
  ghost predicate Abort(s: State, s': State) {
    && s.loop.Passing? && s.loop.todo != []
    && s' == s.(loop := Aborting, waiting := s.waiting - |s.loop.todo|)
  }

  /** The stop signal or a cancelled context ends the loop. */
  ghost predicate LeaveLoop(s: State, s': State) {
    && (s.loop == Resting || (s.loop == Aborting && s.waiting == 0))
    && s' == s.(loop := Stopped)
  }

  ghost predicate Stop(s: State, s': State) {
    s' == s.(running := false)
  }

  /** A worker between two items leaves, with items still queued or not. */
  ghost predicate ExitWorker(s: State, s': State, w: nat) {
    At(s, w, Free) && s' == s.(workers := s.workers - {w})
  }

  /** The process is gone; a new runner starts with an empty cache. */
  ghost predicate Restart(s: State, s': State, pool: map<nat, Worker>) {
    && (forall w :: w in pool ==> pool[w] == Free)
    && s' == s.(shards := map k | k in s.shards :: s.shards[k].(cached := None), loop := Resting, waiting := 0,
                queue := [],
                workers := pool, running := true)
  }

  datatype Step =
    | AppendStep(shard: Shard, offset: int)
    | BeginPassStep(shards: seq<Shard>)
    | DispatchStep
    | PickStep(w: nat)
    | LocateStep(w: nat, shard: Shard)
    | ReadFailsStep(w: nat, v: Worker)
    | FetchStep(w: nat, shard: Shard, cur: int, next: int)
    | HandleStep(w: nat, v: Worker, o: Verdict)
    | WriteStep(w: nat, v: Worker, ok: bool, effect: bool)
    | RememberStep(w: nat, shard: Shard, next: int)
    | FinishStep(w: nat, shard: Shard)
    | EndPassStep(stop: bool)
    | AbortStep
    | LeaveLoopStep
    | StopStep
    | ExitStep(w: nat)
    | RestartStep(pool: map<nat, Worker>)

  ghost predicate Takes(c: Config, s: State, s': State, step: Step) {
    match step
    case AppendStep(shard, offset) => Append(s, s', shard, offset)
    case BeginPassStep(shards) => BeginPass(c, s, s', shards)
    case DispatchStep => Dispatch(s, s')
    case PickStep(w) => Pick(s, s', w)
    case LocateStep(w, shard) => Locate(c, s, s', w, shard)
    case ReadFailsStep(w, v) => ReadFails(s, s', w, v)
    case FetchStep(w, shard, cur, next) => Fetch(s, s', w, shard, cur, next)
    case HandleStep(w, v, o) => Handle(c, s, s', w, v, o)
    case WriteStep(w, v, ok, effect) => Write(s, s', w, v, ok, effect)
    case RememberStep(w, shard, next) => Remember(s, s', w, shard, next)
    case FinishStep(w, shard) => Finish(s, s', w, shard)
    case EndPassStep(stop) => EndPass(s, s', stop)
    case AbortStep => Abort(s, s')
    case LeaveLoopStep => LeaveLoop(s, s')
    case StopStep => Stop(s, s')
    case ExitStep(w) => ExitWorker(s, s', w)
    case RestartStep(pool) => Restart(s, s', pool)
  }

  ghost predicate Init(c: Config, s: State) {
    && (forall k :: k in s.shards ==>
          && Ascending(s.shards[k].journal) && s.shards[k].stored == c.base(k)
          && s.shards[k].cached == None && s.shards[k].reported == None)
    && s.loop == Resting && s.waiting == 0 && s.queue == [] && s.log == []
    && (forall w :: w in s.workers ==> s.workers[w] == Free)
  }

  ghost predicate Execution(c: Config, states: seq<State>, steps: seq<Step>) {
    && |states| == |steps| + 1 && Init(c, states[0])
    && forall i :: 0 <= i < |steps| ==> Takes(c, states[i], states[i + 1], steps[i])
  }
}
