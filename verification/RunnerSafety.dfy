/** What every step of the runner keeps: at-least-once delivery, exclusion per
    shard, and store order. */
module RunnerSafety {
  import opened GoText
  import opened Recovery
  import opened Runner

  /** The last thing the handler was given of a shard. */
  function LastOf(log: seq<Entry>, shard: Shard): Option<Entry> {
    if log == [] then None
    else if log[|log| - 1].shard == shard then Some(log[|log| - 1])
    else LastOf(log[..|log| - 1], shard)
  }

  lemma LastOfExtends(log: seq<Entry>, e: Entry, shard: Shard)
    ensures LastOf(log + [e], shard) == if e.shard == shard then Some(e) else LastOf(log, shard)
  {
    assert (log + [e])[..|log|] == log;
  }

  lemma SettledExtends(log: seq<Entry>, added: seq<Entry>, shard: Shard, i: nat)
    requires Settled(log, shard, i)
    ensures Settled(log + added, shard, i)
  {
    var t :| 0 <= t < |log| && log[t].shard == shard && log[t].index == i && log[t].settled;
    assert (log + added)[t] == log[t];
  }

  lemma SettledUpToExtends(c: Config, shard: Shard, j: seq<int>, offset: int, log: seq<Entry>, added: seq<Entry>)
    requires SettledUpTo(c, shard, j, offset, log)
    ensures SettledUpTo(c, shard, j, offset, log + added)
  {
    forall i | 0 <= i < |j| && Floor(c, shard) < j[i] <= offset ensures Settled(log + added, shard, i) {
      SettledExtends(log, added, shard, i);
    }
  }

  // ------------------------------------------------------------- invariant

  /** The offset a batch of shard state x starts from. */
  function From(c: Config, x: ShardState): int
    requires x.cached.Some?
  {
    if c.starting.Some? then c.starting.value else x.cached.value
  }

  /** A batch in progress: places lo..hi are the events in (from, next], those
      before k are settled, and the handler saw the previous one last. */
  ghost predicate BatchOk(c: Config, x: ShardState, v: Worker, log: seq<Entry>)
    requires v.Batch?
  {
    && x.cached.Some? && v.lo <= v.k <= v.hi <= |x.journal| && v.lo < v.hi
    && (forall i :: 0 <= i < |x.journal| ==> (x.journal[i] <= From(c, x) <==> i < v.lo))
    && (forall i :: 0 <= i < |x.journal| ==> (x.journal[i] <= v.next <==> i < v.hi))
    && (forall i :: v.lo <= i < v.k ==> Settled(log, v.shard, i))
    && x.reported.Some? && v.next <= x.reported.value
    && (v.k > v.lo ==> LastOf(log, v.shard) == Some(Entry(v.shard, v.k - 1, v.run, v.lo, true)))
  }

  ghost predicate WorkerOk(c: Config, x: ShardState, v: Worker, log: seq<Entry>) {
    match v
    case Located(_, cur) => x.cached.Some? && cur == From(c, x)
    case Batch(_, _, _, _, _, _) => BatchOk(c, x, v, log)
    case Written(_, next) => x.stored == next
    case _ => true
  }

  function Todo(s: State): seq<Shard> {
    if s.loop.Passing? then s.loop.todo else []
  }

  function Busy(s: State): set<nat> {
    set w | w in s.workers && !s.workers[w].Free?
  }

  predicate NoRepeats(q: seq<Shard>) {
    forall i, j :: 0 <= i < j < |q| ==> q[i] != q[j]
  }

  /** Every shard of the pass is in one place only. */
  ghost predicate Exclusive(s: State) {
    && NoRepeats(Todo(s) + s.queue)
    && (forall w :: w in Busy(s) ==>
        s.workers[w].shard !in Todo(s) && s.workers[w].shard !in s.queue && s.workers[w].shard in s.shards)
    && (forall w, u :: w in Busy(s) && u in Busy(s) && w != u ==> s.workers[w].shard != s.workers[u].shard)
    && (forall k :: k in Todo(s) || k in s.queue ==> k in s.shards)
  }

  /** The wait counts exactly what is not done yet. */
  ghost predicate Counted(s: State) {
    && s.waiting == |Todo(s)| + |s.queue| + |Busy(s)|
    && (s.loop.Resting? || s.loop.Stopped? ==> s.waiting == 0)
  }

  /** What the t-th delivery may be: every earlier event of the shard above the
      floor was settled before it, and it continues its batch or begins one. */
  ghost predicate DeliveredInOrder(c: Config, j: seq<int>, log: seq<Entry>, t: nat)
    requires t < |log|
  {
    var e := log[t];
    && e.index < |j|
    && (forall i :: 0 <= i < e.index && j[i] > Floor(c, e.shard) ==> Settled(log[..t], e.shard, i))
    && (e.index == e.lo || (e.index > e.lo
                            && LastOf(log[..t], e.shard) == Some(Entry(e.shard, e.index - 1, e.run, e.lo, true))))
  }

  ghost predicate InOrder(c: Config, s: State) {
    forall t :: 0 <= t < |s.log| ==>
      s.log[t].shard in s.shards && DeliveredInOrder(c, s.shards[s.log[t].shard].journal, s.log, t)
  }

  ghost predicate Inv(c: Config, s: State) {
    && (forall k :: k in s.shards ==> ShardOk(c, k, s.shards[k], s.log))
    && Exclusive(s) && Counted(s) && InOrder(c, s)
    && (forall w :: w in Busy(s) ==> WorkerOk(c, s.shards[s.workers[w].shard], s.workers[w], s.log))
  }

  // -------------------------------------------------- a worker's own steps

  /** Worker w, busy with one shard, goes on to v; only that shard's state and
      the log may change. */
  ghost predicate Local(s: State, s': State, w: nat, v: Worker, x: ShardState, added: seq<Entry>) {
    && w in Busy(s) && !v.Free? && v.shard == s.workers[w].shard && v.shard in s.shards
    && s'.shards == s.shards[v.shard := x] && s'.workers == s.workers[w := v] && s'.log == s.log + added
    && (forall i :: 0 <= i < |added| ==> added[i].shard == v.shard)
    && s'.loop == s.loop && s'.waiting == s.waiting && s'.queue == s.queue
  }

  lemma {:induction false} LastOfOthers(log: seq<Entry>, added: seq<Entry>, shard: Shard)
    requires forall i :: 0 <= i < |added| ==> added[i].shard != shard
    ensures LastOf(log + added, shard) == LastOf(log, shard)
  {
    if added == [] {
      assert log + added == log;
    } else {
      var front := added[..|added| - 1];
      LastOfOthers(log, front, shard);
      assert log + added == (log + front) + [added[|added| - 1]];
      LastOfExtends(log + front, added[|added| - 1], shard);
    }
  }

  lemma OthersWorkerOk(c: Config, x: ShardState, v: Worker, log: seq<Entry>, added: seq<Entry>)
    requires WorkerOk(c, x, v, log) && !v.Free? && forall i :: 0 <= i < |added| ==> added[i].shard != v.shard
    ensures WorkerOk(c, x, v, log + added)
  {
    if v.Batch? {
      LastOfOthers(log, added, v.shard);
      forall i | v.lo <= i < v.k ensures Settled(log + added, v.shard, i) {
        SettledExtends(log, added, v.shard, i);
      }
    }
  }

  lemma LocalBusy(s: State, s': State, w: nat, v: Worker, x: ShardState, added: seq<Entry>)
    requires Local(s, s', w, v, x, added) && Exclusive(s) && Counted(s)
    ensures Busy(s') == Busy(s) && Exclusive(s') && Counted(s')
    ensures forall u :: u in Busy(s) && u != w ==> s'.workers[u] == s.workers[u] && s.workers[u].shard != v.shard
  {
    assert Busy(s') == Busy(s);
  }

  lemma LocalKept(c: Config, s: State, s': State, w: nat, v: Worker, x: ShardState, added: seq<Entry>)
    requires Inv(c, s) && Local(s, s', w, v, x, added) && x.journal == s.shards[v.shard].journal
    requires ShardOk(c, v.shard, x, s'.log) && WorkerOk(c, x, v, s'.log) && InOrder(c, s')
    ensures Inv(c, s')
  {
    LocalBusy(s, s', w, v, x, added);
    forall k | k in s'.shards ensures ShardOk(c, k, s'.shards[k], s'.log) {
      if k != v.shard { SettledUpToExtends(c, k, s.shards[k].journal, s.shards[k].stored, s.log, added); }
    }
    forall u | u in Busy(s') ensures WorkerOk(c, s'.shards[s'.workers[u].shard], s'.workers[u], s'.log) {
      if u != w { OthersWorkerOk(c, s.shards[s.workers[u].shard], s.workers[u], s.log, added); }
    }
  }

  /** A local step that delivers nothing. */
  lemma QuietKept(c: Config, s: State, s': State, w: nat, v: Worker, x: ShardState)
    requires Inv(c, s) && Local(s, s', w, v, x, []) && x.journal == s.shards[v.shard].journal
    requires ShardOk(c, v.shard, x, s.log) && WorkerOk(c, x, v, s.log)
    ensures Inv(c, s')
  {
    assert s'.log == s.log;
    LocalKept(c, s, s', w, v, x, []);
  }

  lemma LocateKept(c: Config, s: State, s': State, w: nat, shard: Shard)
    requires Inv(c, s) && Locate(c, s, s', w, shard)
    ensures Inv(c, s')
  {
    assert w in Busy(s);
    QuietKept(c, s, s', w, s'.workers[w], s'.shards[shard]);
  }

  lemma ReadFailsKept(c: Config, s: State, s': State, w: nat, v: Worker)
    requires Inv(c, s) && ReadFails(s, s', w, v)
    ensures Inv(c, s')
  {
    assert w in Busy(s);
    QuietKept(c, s, s', w, Done(v.shard), s.shards[v.shard]);
  }

  lemma UpToSplits(j: seq<int>, offset: int)
    requires Ascending(j)
    ensures forall i :: 0 <= i < |j| ==> (j[i] <= offset <==> i < UpTo(j, offset))
  {
  }

  lemma FetchKept(c: Config, s: State, s': State, w: nat, shard: Shard, cur: int, next: int)
    requires Inv(c, s) && Fetch(s, s', w, shard, cur, next)
    ensures Inv(c, s')
  {
    assert w in Busy(s);
    UpToSplits(s.shards[shard].journal, cur);
    UpToSplits(s.shards[shard].journal, next);
    QuietKept(c, s, s', w, s'.workers[w], s'.shards[shard]);
  }

  lemma BatchSettles(c: Config, shard: Shard, x: ShardState, v: Worker, log: seq<Entry>, n: nat)
    requires ShardOk(c, shard, x, log) && v.Batch? && v.shard == shard && BatchOk(c, x, v, log) && n <= v.k
    ensures forall i :: 0 <= i < n && x.journal[i] > Floor(c, shard) ==> Settled(log, shard, i)
  {
    forall i | 0 <= i < n && x.journal[i] > Floor(c, shard) ensures Settled(log, shard, i) {
      if i < v.lo {
        assert x.journal[i] <= From(c, x) <= if c.starting.Some? then Floor(c, shard) else x.stored;
      }
    }
  }

  lemma WriteKept(c: Config, s: State, s': State, w: nat, v: Worker, ok: bool, effect: bool)
    requires Inv(c, s) && Write(s, s', w, v, ok, effect)
    ensures Inv(c, s')
  {
    assert w in Busy(s);
    var x := s.shards[v.shard];
    BatchSettles(c, v.shard, x, v, s.log, v.hi);
    if effect {
      assert c.starting.None? ==> x.journal[v.lo] > x.cached.value;
    }
    QuietKept(c, s, s', w, s'.workers[w], s'.shards[v.shard]);
  }

  lemma RememberKept(c: Config, s: State, s': State, w: nat, shard: Shard, next: int)
    requires Inv(c, s) && Remember(s, s', w, shard, next)
    ensures Inv(c, s')
  {
    assert w in Busy(s);
    QuietKept(c, s, s', w, Done(shard), s'.shards[shard]);
  }

  lemma HandleShardOk(c: Config, s: State, v: Worker, e: Entry)
    requires v.Batch? && v.shard in s.shards && ShardOk(c, v.shard, s.shards[v.shard], s.log)
             && BatchOk(c, s.shards[v.shard], v, s.log)
    requires v.k < v.hi && e == Entry(v.shard, v.k, v.run, v.lo, e.settled)
    ensures ShardOk(c, v.shard, s.shards[v.shard], s.log + [e])
    ensures e.settled ==> BatchOk(c, s.shards[v.shard], v.(k := v.k + 1), s.log + [e])
  {
    var x := s.shards[v.shard];
    SettledUpToExtends(c, v.shard, x.journal, x.stored, s.log, [e]);
    LastOfExtends(s.log, e, v.shard);
    if e.settled {
      assert (s.log + [e])[|s.log|] == e;
      forall i | v.lo <= i < v.k + 1 ensures Settled(s.log + [e], v.shard, i) {
        if i < v.k { SettledExtends(s.log, [e], v.shard, i); }
      }
    }
  }

  lemma OrderExtends(c: Config, s: State, s': State, e: Entry)
    requires InOrder(c, s) && s'.shards == s.shards && s'.log == s.log + [e] && e.shard in s.shards
    requires e.index < |s.shards[e.shard].journal|
    requires forall i :: 0 <= i < e.index && s.shards[e.shard].journal[i] > Floor(c, e.shard) ==>
             Settled(s.log, e.shard, i)
    requires e.index == e.lo
             || (e.index > e.lo && LastOf(s.log, e.shard) == Some(Entry(e.shard, e.index - 1, e.run, e.lo, true)))
    ensures InOrder(c, s')
  {
    forall t | 0 <= t < |s'.log|
      ensures s'.log[t].shard in s'.shards && DeliveredInOrder(c, s'.shards[s'.log[t].shard].journal, s'.log, t)
    {
      if t < |s.log| {
        assert s'.log[..t] == s.log[..t];
        assert DeliveredInOrder(c, s.shards[s.log[t].shard].journal, s.log, t);
      } else {
        assert s'.log[..t] == s.log;
      }
    }
  }

  lemma HandleKept(c: Config, s: State, s': State, w: nat, v: Worker, o: Verdict)
    requires Inv(c, s) && Handle(c, s, s', w, v, o)
    ensures Inv(c, s')
  {
    assert w in Busy(s);
    var x := s.shards[v.shard];
    if o == Undecodable {
      QuietKept(c, s, s', w, Done(v.shard), x);
    } else {
      var e := Entry(v.shard, v.k, v.run, v.lo, o.Handled? || o.Skipped?);
      BatchSettles(c, v.shard, x, v, s.log, v.k);
      HandleShardOk(c, s, v, e);
      OrderExtends(c, s, s', e);
      assert s.shards[v.shard := x] == s.shards;
      LocalKept(c, s, s', w, s'.workers[w], x, [e]);
    }
  }

  // ------------------------------------------------------- the loop's steps

  lemma AppendKept(c: Config, s: State, s': State, shard: Shard, offset: int)
    requires Inv(c, s) && Append(s, s', shard, offset)
    ensures Inv(c, s')
  {
    assert Busy(s') == Busy(s);
    AppendShardOk(c, shard, s.shards[shard], offset, s.log);
    forall w | w in Busy(s') ensures WorkerOk(c, s'.shards[s'.workers[w].shard], s'.workers[w], s'.log) {
      assert WorkerOk(c, s.shards[s.workers[w].shard], s.workers[w], s.log);
      if s.workers[w].shard == shard { AppendWorkerOk(c, s.shards[shard], s.workers[w], offset, s.log); }
    }
    forall t | 0 <= t < |s'.log|
      ensures s'.log[t].shard in s'.shards && DeliveredInOrder(c, s'.shards[s'.log[t].shard].journal, s'.log, t)
    {
      assert DeliveredInOrder(c, s.shards[s.log[t].shard].journal, s.log, t);
    }
  }

  ghost predicate Appendable(x: ShardState, offset: int) {
    (x.journal != [] ==> x.journal[|x.journal| - 1] <= offset) && (x.reported.Some? ==> offset > x.reported.value)
  }

  lemma AppendShardOk(c: Config, shard: Shard, x: ShardState, offset: int, log: seq<Entry>)
    requires ShardOk(c, shard, x, log) && Appendable(x, offset)
    ensures ShardOk(c, shard, x.(journal := x.journal + [offset]), log)
  {
    var j := x.journal + [offset];
    forall a, b | 0 <= a < b < |j| ensures j[a] <= j[b] {
      if b == |x.journal| && a < |x.journal| - 1 { assert x.journal[a] <= x.journal[|x.journal| - 1]; }
    }
    forall i | 0 <= i < |j| && Floor(c, shard) < j[i] <= x.stored ensures Settled(log, shard, i) {
      assert i < |x.journal| ==> j[i] == x.journal[i];
    }
  }

  lemma AppendWorkerOk(c: Config, x: ShardState, v: Worker, offset: int, log: seq<Entry>)
    requires WorkerOk(c, x, v, log) && Appendable(x, offset)
    ensures WorkerOk(c, x.(journal := x.journal + [offset]), v, log)
  {
    if v.Batch? {
      var j := x.journal + [offset];
      assert x.journal[v.lo] > From(c, x) && x.journal[|x.journal| - 1] > From(c, x);
      assert offset > x.reported.value >= v.next;
    }
  }

  lemma BeginPassKept(c: Config, s: State, s': State, shards: seq<Shard>)
    requires Inv(c, s) && BeginPass(c, s, s', shards)
    ensures Inv(c, s')
  {
    assert Busy(s') == Busy(s);
    assert |Busy(s)| == 0 && s.queue == [];
    assert Busy(s) == {};
    assert Todo(s') + s'.queue == shards;
  }

  lemma DispatchKept(c: Config, s: State, s': State)
    requires Inv(c, s) && Dispatch(s, s')
    ensures Inv(c, s')
  {
    assert Busy(s') == Busy(s);
    var a, b := Todo(s) + s.queue, Todo(s') + s'.queue;
    assert |a| == |b| && forall i :: 0 <= i < |b| ==> b[i] == if i == |b| - 1 then a[0] else a[i + 1];
    assert forall k :: k in Todo(s') || k in s'.queue ==> k in Todo(s) || k in s.queue;
  }

  lemma PickKept(c: Config, s: State, s': State, w: nat)
    requires Inv(c, s) && Pick(s, s', w)
    ensures Inv(c, s')
  {
    assert Busy(s') == Busy(s) + {w} && w !in Busy(s);
    assert s.queue[0] in s.queue;
    PickExclusive(s, s', w);
  }

  lemma PickExclusive(s: State, s': State, w: nat)
    requires Exclusive(s) && Pick(s, s', w)
    ensures Exclusive(s')
  {
    assert Busy(s') == Busy(s) + {w} && w !in Busy(s);
    var a, b, n := Todo(s) + s.queue, Todo(s') + s'.queue, |Todo(s)|;
    assert forall i :: 0 <= i < |b| ==> b[i] == if i < n then a[i] else a[i + 1];
    assert s.queue[0] in s.queue && forall k :: k in s'.queue ==> k in s.queue;
    FirstIsNowhereElse(Todo(s), s.queue);
    assert NoRepeats(b) by {
      forall i, j | 0 <= i < j < |b| ensures b[i] != b[j] {
        assert a[if i < n then i else i + 1] != a[if j < n then j else j + 1];
      }
    }
  }

  lemma FirstIsNowhereElse(todo: seq<Shard>, queue: seq<Shard>)
    requires NoRepeats(todo + queue) && queue != []
    ensures queue[0] !in todo && queue[0] !in queue[1..]
  {
    var a, n := todo + queue, |todo|;
    assert a[n] == queue[0];
    forall i | 0 <= i < n ensures todo[i] != queue[0] { assert a[i] == todo[i]; }
    forall i | 1 <= i < |queue| ensures queue[i] != queue[0] { assert a[n + i] == queue[i]; }
  }

  lemma FinishKept(c: Config, s: State, s': State, w: nat, shard: Shard)
    requires Inv(c, s) && Finish(s, s', w, shard)
    ensures Inv(c, s')
  {
    assert Busy(s') == Busy(s) - {w} && w in Busy(s);
    assert |Busy(s)| >= 1;
  }

  lemma AbortKept(c: Config, s: State, s': State)
    requires Inv(c, s) && Abort(s, s')
    ensures Inv(c, s')
  {
    assert Busy(s') == Busy(s);
    var a := Todo(s) + s.queue;
    assert forall i :: 0 <= i < |s.queue| ==> s.queue[i] == a[|Todo(s)| + i];
    assert Todo(s') + s'.queue == s.queue;
  }

  lemma RestartKept(c: Config, s: State, s': State, pool: map<nat, Worker>)
    requires Inv(c, s) && Restart(s, s', pool)
    ensures Inv(c, s')
  {
    assert Busy(s') == {};
    forall t | 0 <= t < |s'.log|
      ensures s'.log[t].shard in s'.shards && DeliveredInOrder(c, s'.shards[s'.log[t].shard].journal, s'.log, t)
    {
      assert DeliveredInOrder(c, s.shards[s.log[t].shard].journal, s.log, t);
    }
  }

  lemma EndPassKept(c: Config, s: State, s': State, stop: bool)
    requires Inv(c, s) && EndPass(s, s', stop)
    ensures Inv(c, s')
  {
    assert Busy(s') == Busy(s) && Todo(s) == Todo(s') == [];
  }

  lemma LeaveKept(c: Config, s: State, s': State)
    requires Inv(c, s) && (LeaveLoop(s, s') || Stop(s, s'))
    ensures Inv(c, s')
  {
    assert Busy(s') == Busy(s) && Todo(s') == Todo(s);
  }

  lemma ExitKept(c: Config, s: State, s': State, w: nat)
    requires Inv(c, s) && ExitWorker(s, s', w)
    ensures Inv(c, s')
  {
    assert Busy(s') == Busy(s);
  }

  lemma StepKept(c: Config, s: State, s': State, step: Step)
    requires Inv(c, s) && Takes(c, s, s', step)
    ensures Inv(c, s')
  {
    match step
    case AppendStep(shard, offset) => AppendKept(c, s, s', shard, offset);
    case BeginPassStep(shards) => BeginPassKept(c, s, s', shards);
    case DispatchStep => DispatchKept(c, s, s');
    case PickStep(w) => PickKept(c, s, s', w);
    case LocateStep(w, shard) => LocateKept(c, s, s', w, shard);
    case ReadFailsStep(w, v) => ReadFailsKept(c, s, s', w, v);
    case FetchStep(w, shard, cur, next) => FetchKept(c, s, s', w, shard, cur, next);
    case HandleStep(w, v, o) => HandleKept(c, s, s', w, v, o);
    case WriteStep(w, v, ok, effect) => WriteKept(c, s, s', w, v, ok, effect);
    case RememberStep(w, shard, next) => RememberKept(c, s, s', w, shard, next);
    case FinishStep(w, shard) => FinishKept(c, s, s', w, shard);
    case EndPassStep(stop) => EndPassKept(c, s, s', stop);
    case AbortStep => AbortKept(c, s, s');
    case LeaveLoopStep => LeaveKept(c, s, s');
    case StopStep => LeaveKept(c, s, s');
    case ExitStep(w) => ExitKept(c, s, s', w);
    case RestartStep(pool) => RestartKept(c, s, s', pool);
  }

  lemma {:induction false} EveryState(c: Config, states: seq<State>, steps: seq<Step>, i: nat)
    requires Execution(c, states, steps) && i < |states|
    ensures Inv(c, states[i])
  {
    if i == 0 {
      assert Busy(states[0]) == {};
    } else {
      EveryState(c, states, steps, i - 1);
      assert Takes(c, states[i - 1], states[i], steps[i - 1]);
      StepKept(c, states[i - 1], states[i], steps[i - 1]);
    }
  }

  // ---------------------------------------------------------- the theorems

  /** At least once. In every reachable state, whatever failed, whether a failed
      offset write took effect or not, and across restarts: each event above
      the floor and at or below the stored offset was handled or skipped; and
      without a starting offset the cache is at most the stored offset, so a
      shard with an unsettled event is never left out of a pass. */
  lemma AtLeastOnce(c: Config, states: seq<State>, steps: seq<Step>, i: nat, shard: Shard, n: nat)
    requires Execution(c, states, steps) && i < |states| && shard in states[i].shards
             && n < |states[i].shards[shard].journal|
    requires states[i].shards[shard].journal[n] > Floor(c, shard)
    ensures var x := states[i].shards[shard];
            && (x.journal[n] <= x.stored ==> Settled(states[i].log, shard, n))
            && (c.starting.None? && x.cached.Some? ==> x.cached.value <= x.stored)
            && (!Settled(states[i].log, shard, n) ==> IsPending(c, x))
  {
    EveryState(c, states, steps, i);
    var x := states[i].shards[shard];
    assert ShardOk(c, shard, x, states[i].log);
    assert x.journal[n] <= x.journal[|x.journal| - 1];
  }

  /** No two workers are ever on the same shard. */
  lemma OneWorkerPerShard(c: Config, states: seq<State>, steps: seq<Step>, i: nat, w: nat, u: nat)
    requires Execution(c, states, steps) && i < |states| && w in Busy(states[i]) && u in Busy(states[i])
    requires states[i].workers[w].shard == states[i].workers[u].shard
    ensures w == u
  {
    EveryState(c, states, steps, i);
  }

  /** Store order. Each delivery finds every earlier event of its shard above the
      floor settled, and either goes on with the batch of the shard's previous
      delivery, which it settled, or begins a batch. */
  lemma DeliveriesInOrder(c: Config, states: seq<State>, steps: seq<Step>, i: nat, t: nat)
    requires Execution(c, states, steps) && i < |states| && t < |states[i].log|
    ensures states[i].log[t].shard in states[i].shards
    ensures DeliveredInOrder(c, states[i].shards[states[i].log[t].shard].journal, states[i].log, t)
  {
    EveryState(c, states, steps, i);
  }

  /** A shard's stored offset moves only when a worker has settled its whole
      batch, and then to that batch's end; a failed batch never moves it. */
  lemma OffsetFollowsBatch(c: Config, states: seq<State>, steps: seq<Step>, i: nat, shard: Shard)
    requires Execution(c, states, steps) && i < |steps| && shard in states[i].shards && shard in states[i + 1].shards
    requires states[i + 1].shards[shard].stored != states[i].shards[shard].stored
    ensures steps[i].WriteStep? && steps[i].v.Batch? && steps[i].v.shard == shard
    ensures var v := steps[i].v;
            && states[i + 1].shards[shard].stored == v.next
            && (forall n :: v.lo <= n < v.hi ==> Settled(states[i].log, shard, n))
  {
    EveryState(c, states, steps, i);
    assert Takes(c, states[i], states[i + 1], steps[i]);
  }

  // ----------------------------------------------------- the starting offset

  ghost predicate Reachable(c: Config, s: State) {
    exists states: seq<State>, steps: seq<Step> :: Execution(c, states, steps) && s in states
  }

  /** The steps of `past` lead to s. */
  ghost predicate Reached(c: Config, past: seq<Step>, s: State) {
    exists states: seq<State> :: Execution(c, states, past) && states[|past|] == s
  }

  lemma InitReached(c: Config, s: State)
    requires Init(c, s)
    ensures Reached(c, [], s)
  {
    assert Execution(c, [s], []);
  }

  lemma StepReached(c: Config, past: seq<Step>, s: State, s': State, step: Step)
    requires Reached(c, past, s) && Takes(c, s, s', step)
    ensures Reached(c, past + [step], s')
  {
    var states: seq<State> :| Execution(c, states, past) && states[|past|] == s;
    ExecutionExtends(c, states, past, s', step);
  }

  lemma ReachedIsReachable(c: Config, past: seq<Step>, s: State)
    requires Reached(c, past, s)
    ensures Reachable(c, s)
  {
    var states: seq<State> :| Execution(c, states, past) && states[|past|] == s;
    assert s in states;
  }

  lemma ExecutionExtends(c: Config, states: seq<State>, steps: seq<Step>, s: State, step: Step)
    requires Execution(c, states, steps) && Takes(c, states[|steps|], s, step)
    ensures Execution(c, states + [s], steps + [step])
  {
  }

  lemma PassBegins(c: Config, s: State, s': State, shard: Shard)
    requires s.shards.Keys == {shard} && IsPending(c, s.shards[shard]) && s.loop == Resting && s.running
    requires s' == s.(loop := Passing([shard]), waiting := 1)
    ensures BeginPass(c, s, s', [shard])
  {
  }

  /** At rest, with one shard and one worker. */
  function AtRest(shard: Shard, x: ShardState, log: seq<Entry>, runs: nat): State {
    State(map[shard := x], Resting, 0, [], map[0 := Free], log, runs, true)
  }

  /** A pass over the shard begins. */
  lemma Pulling(c: Config, past: seq<Step>, shard: Shard, x: ShardState, log: seq<Entry>, runs: nat)
    returns (s: State, steps: seq<Step>)
    requires Reached(c, past, AtRest(shard, x, log, runs)) && IsPending(c, x)
    ensures past <= steps && Reached(c, steps, s)
    ensures s == State(map[shard := x], Passing([shard]), 1, [], map[0 := Free], log, runs, true)
  {
    var s0 := AtRest(shard, x, log, runs);
    s := s0.(loop := Passing([shard]), waiting := 1);
    PassBegins(c, s0, s, shard);
    StepReached(c, past, s0, s, BeginPassStep([shard]));
    steps := past + [BeginPassStep([shard])];
  }

  /** It goes on to where a worker takes the shard. */
  lemma Assigning(c: Config, past: seq<Step>, shard: Shard, x: ShardState, log: seq<Entry>, runs: nat)
    returns (s: State, steps: seq<Step>)
    requires Reached(c, past, AtRest(shard, x, log, runs)) && IsPending(c, x)
    ensures past <= steps && Reached(c, steps, s)
    ensures s == State(map[shard := x], Passing([]), 1, [], map[0 := Assigned(shard)], log, runs, true)
  {
    var s1, steps1 := Pulling(c, past, shard, x, log, runs);
    var s2 := s1.(loop := Passing([]), queue := [shard]);
    assert Dispatch(s1, s2) by { assert s1.loop.todo[1..] == [] && s1.queue + [s1.loop.todo[0]] == [shard]; }
    StepReached(c, steps1, s1, s2, DispatchStep);
    s := s2.(workers := s2.workers[0 := Assigned(shard)], queue := []);
    assert Pick(s2, s, 0);
    StepReached(c, steps1 + [DispatchStep], s2, s, PickStep(0));
    steps := steps1 + [DispatchStep] + [PickStep(0)];
  }

  /** It finds the offset it reads from. */
  lemma Locating(c: Config, past: seq<Step>, shard: Shard, x: ShardState, log: seq<Entry>, runs: nat, from: int)
    returns (s: State, steps: seq<Step>)
    requires c.starting == Some(from) && Reached(c, past, AtRest(shard, x, log, runs)) && IsPending(c, x)
    ensures past <= steps && Reached(c, steps, s)
    ensures s == InPass(shard, x.(cached := Some(if x.cached.Some? then x.cached.value else x.stored)),
                        Located(shard, from), log, runs)
  {
    var s1, steps1 := Assigning(c, past, shard, x, log, runs);
    var x' := x.(cached := Some(if x.cached.Some? then x.cached.value else x.stored));
    s := InPass(shard, x', Located(shard, from), log, runs);
    assert s.workers == s1.workers[0 := Located(shard, from)] && s.shards == s1.shards[shard := x'];
    assert Locate(c, s1, s, 0, shard);
    StepReached(c, steps1, s1, s, LocateStep(0, shard));
    steps := steps1 + [LocateStep(0, shard)];
  }

  /** A pass in which worker 0 is at v. */
  function InPass(shard: Shard, x: ShardState, v: Worker, log: seq<Entry>, runs: nat): State {
    State(map[shard := x], Passing([]), 1, [], map[0 := v], log, runs, true)
  }

  /** It reads everything up to `next`. */
  lemma Fetching(c: Config, past: seq<Step>, shard: Shard, x: ShardState, log: seq<Entry>, runs: nat, from: int,
                 next: int)
    requires Reached(c, past, InPass(shard, x, Located(shard, from), log, runs))
    requires UpTo(x.journal, from) < UpTo(x.journal, next) && (x.reported.Some? ==> x.reported.value <= next)
    ensures var v := Batch(shard, runs, UpTo(x.journal, from), UpTo(x.journal, from), UpTo(x.journal, next), next);
            Reached(c, past + [FetchStep(0, shard, from, next)],
                    InPass(shard, x.(reported := Some(next)), v, log, runs + 1))
  {
    var lo, hi := UpTo(x.journal, from), UpTo(x.journal, next);
    var s := InPass(shard, x, Located(shard, from), log, runs);
    var s' := InPass(shard, x.(reported := Some(next)), Batch(shard, runs, lo, lo, hi, next), log, runs + 1);
    assert s'.workers == s.workers[0 := Batch(shard, runs, lo, lo, hi, next)]
           && s'.shards == s.shards[shard := s'.shards[shard]];
    assert Fetch(s, s', 0, shard, from, next);
    StepReached(c, past, s, s', FetchStep(0, shard, from, next));
  }

  lemma TwoEvents(from: int)
    ensures UpTo([from, from + 1], from) == 1 && UpTo([from, from + 1], from + 1) == 2
  {
    var j := [from, from + 1];
    assert UpToFrom(j, from, 1) == 1 && UpToFrom(j, from + 1, 2) == 2;
  }

  /** The worker reads from the starting offset on, past the event at it. */
  lemma ReadingPast(c: Config, shard: Shard, from: int) returns (steps: seq<Step>)
    requires c.starting == Some(from)
    ensures var x := ShardState([from, from + 1], Some(from + 1), c.base(shard), Some(c.base(shard)));
            Reached(c, steps, InPass(shard, x, Batch(shard, 0, 1, 1, 2, from + 1), [], 1))
  {
    var x := ShardState([from, from + 1], None, c.base(shard), None);
    InitReached(c, AtRest(shard, x, [], 0));
    var s, past := Locating(c, [], shard, x, [], 0, from);
    TwoEvents(from);
    Fetching(c, past, shard, x.(cached := Some(x.stored)), [], 0, from, from + 1);
    steps := past + [FetchStep(0, shard, from, from + 1)];
  }

  /** A starting offset above the stored one: the event at the starting offset is
      never delivered, and the stored offset passes it. */
  lemma StartingOffsetSkips(c: Config, shard: Shard) returns (s: State)
    requires c.starting.Some? && c.starting.value > c.base(shard)
    ensures Reachable(c, s)
    ensures && shard in s.shards && |s.shards[shard].journal| > 0
            && c.base(shard) < s.shards[shard].journal[0] <= s.shards[shard].stored && !Settled(s.log, shard, 0)
  {
    var from := c.starting.value;
    var past := ReadingPast(c, shard, from);
    var v := Batch(shard, 0, 1, 1, 2, from + 1);
    var s5 := InPass(shard, ShardState([from, from + 1], Some(from + 1), c.base(shard), Some(c.base(shard))), v, [], 1);
    var s6 := WithWorker(s5, 0, v.(k := 2)).(log := s5.log + [Entry(shard, 1, v.run, 1, true)]);
    StepReached(c, past, s5, s6, HandleStep(0, v, Handled));
    s := WithWorker(WithShard(s6, shard, s6.shards[shard].(stored := from + 1)), 0, Written(shard, from + 1));
    StepReached(c, past + [HandleStep(0, v, Handled)], s6, s, WriteStep(0, v.(k := 2), true, true));
    ReachedIsReachable(c, past + [HandleStep(0, v, Handled)] + [WriteStep(0, v.(k := 2), true, true)], s);
  }

  /** Everything between the offset stored before the first run and the one
      stored now is settled. */
  ghost predicate NothingMissed(c: Config, s: State, shard: Shard) {
    shard in s.shards ==>
      forall n :: && 0 <= n < |s.shards[shard].journal|
                  && c.base(shard) < s.shards[shard].journal[n] <= s.shards[shard].stored
                  ==> Settled(s.log, shard, n)
  }

  /** Above the offset stored before the first run, at-least-once delivery holds
      in every reachable state exactly when no starting offset lies beyond it. */
  lemma StartingOffsetCondition(c: Config, shard: Shard)
    ensures (forall s: State :: Reachable(c, s) ==> NothingMissed(c, s, shard)) <==>
            (c.starting.Some? ==> c.starting.value <= c.base(shard))
  {
    if c.starting.Some? && c.starting.value > c.base(shard) {
      var s := StartingOffsetSkips(c, shard);
      assert Reachable(c, s) && !NothingMissed(c, s, shard);
    } else {
      forall s: State | Reachable(c, s) ensures NothingMissed(c, s, shard) {
        var states: seq<State>, steps: seq<Step> :| Execution(c, states, steps) && s in states;
        var i :| 0 <= i < |states| && states[i] == s;
        EveryState(c, states, steps, i);
        if shard in s.shards { assert ShardOk(c, shard, s.shards[shard], s.log); }
      }
    }
  }
}
