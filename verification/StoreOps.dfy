/** The event store's and the state store's operations as optimistic operations:
    what linearizability gives their callers. */
module StoreOps {
  import opened GoText
  import opened Conflict
  import opened Records
  import opened EventLog
  import opened Optimistic

  // ------------------------------------------------------------ event store

  /** The precondition holds of what the store has under the key. */
  predicate Holds(pre: Precondition, log: Option<Log>) {
    match pre
    case Undeclared => false
    case Unconditional => true
    case Genesis => log.None?
    case Exact(revision) => log.Some? && log.value.revision == revision
  }

  function WriteDecision(batch: seq<Record>, pre: Precondition, log: Option<Log>): Decision<Log> {
    match pre
    case Undeclared => Refuse
    case Unconditional => Publish(Merge(log, batch))
    case Genesis => if log.Some? then Refuse else Publish(Merge(None, batch))
    case Exact(revision) => if log.None? || log.value.revision != revision then Refuse else Publish(Merge(log, batch))
  }

  function DeleteDecision(to: U64, log: Option<Log>): Decision<Log> {
    match log
    case None => Keep
    case Some(l) => if |Above(l.events, to)| == |l.events| then Keep else Publish(Truncate(l, to))
  }

  /** What a caller asks of one aggregate's log. */
  datatype Request =
    | Write(key: Key, batch: seq<Record>, pre: Precondition)
    | Delete(key: Key, to: U64)
    | Read(key: Key)

  ghost function OpOf(q: Request): Op<Key, Log> {
    match q
    case Write(k, batch, pre) =>
      Op(k, if pre == Unconditional then Retry else OneShot, log => WriteDecision(batch, pre, log))
    case Delete(k, to) => Op(k, Retry, log => DeleteDecision(to, log))
    case Read(k) => Op(k, OneShot, log => Keep)
  }

  type EventHistory = seq<Event<Key, Log>>

  /** Every operation of the history is one of the event store's. */
  ghost predicate OfRequests(h: EventHistory) {
    forall j :: 0 <= j < |h| && h[j].Take? ==> IsRequest(h[j].op)
  }

  ghost predicate IsRequest(op: Op<Key, Log>) {
    exists q :: op == OpOf(q)
  }

  /** A write commits only at an instant when its precondition held, and then
      merges exactly its batch; it is refused, with the revision found, only at
      an instant when it did not. */
  lemma WriteMeansHeld(m: map<Key, Log>, q: Request, r: Result<Log>)
    requires q.Write? && Atomically(m, OpOf(q), r).Some?
    ensures r == Committed ==>
            Holds(q.pre, Get(m, q.key)) && Atomically(m, OpOf(q), r) == Some(m[q.key := Merge(Get(m, q.key), q.batch)])
    ensures r.Refused? ==> !Holds(q.pre, Get(m, q.key)) && r.found == Get(m, q.key)
    ensures r.Raced? ==> q.pre != Unconditional && r.found == Get(m, q.key) && Atomically(m, OpOf(q), r) == Some(m)
    ensures !r.Unchanged?
    ensures q.pre == Genesis ==> (r == Committed ==> q.key !in m) && (r.Refused? ==> q.key in m)
    ensures q.pre.Exact? && r == Committed ==> q.key in m && m[q.key].revision == q.pre.revision
    ensures q.pre.Exact? && r.Refused? ==> q.key !in m || m[q.key].revision != q.pre.revision
  {
  }

  /** A committed deletion leaves exactly the events above its sequence, under the same
      revision; one that changes nothing finds nothing to delete. A read returns what
      is there. */
  lemma DeleteMeansTruncated(m: map<Key, Log>, q: Request, r: Result<Log>)
    requires ValidLogs(m) && !q.Write? && Atomically(m, OpOf(q), r).Some?
    ensures r == Committed ==>
            && q.Delete? && q.key in m && var after := Atomically(m, OpOf(q), r).value;
            && after.Keys == m.Keys && (forall k :: k in m && k != q.key ==> after[k] == m[k])
            && after[q.key].revision == m[q.key].revision
            && (forall e :: e in after[q.key].events <==> e in m[q.key].events && e.pos > q.to)
    ensures r.Unchanged? ==> && r.found == Get(m, q.key) && Atomically(m, OpOf(q), r) == Some(m)
                             && (q.Delete? && q.key in m ==> forall e :: e in m[q.key].events ==> e.pos > q.to)
  {
    if q.Delete? && q.key in m { AboveKeepsDistinct(m[q.key].events, q.to); }
  }

  /** A genesis write that loses its race lost it to an existing log. */
  lemma GenesisRaceIsGenuine(s: State<Key, Log>, s': State<Key, Log>, t: nat, id: nat, q: Request,
                             seen: Option<Pointer>, p: Pointer)
    requires Sane(s) && q.Write? && q.pre == Genesis && Swap(s, s', t, id, OpOf(q), seen, p)
             && Current(s, q.key) != seen
    ensures !Holds(Genesis, Get(Abs(s), q.key))
  {
    assert Loaded(id, OpOf(q), seen) == s.threads[t];
    assert OpOf(q).decide(Deref(s.heap, seen)) == WriteDecision(q.batch, Genesis, Deref(s.heap, seen));
    assert q.key in Abs(s);
  }

  // ------------------------------------------------------- revisions in a run

  ghost predicate ValidLogs(m: map<Key, Log>) {
    forall k :: k in m ==> ValidLog(m[k])
  }

  ghost function RevisionAt(m: map<Key, Log>, k: Key): int {
    if k in m then m[k].revision else -1
  }

  lemma {:induction false} MaxPosAtLeastFloor(s: seq<Record>, floor: U64)
    ensures MaxPos(s, floor) >= floor
  {
    if s != [] { MaxPosAtLeastFloor(s[..|s| - 1], floor); }
  }

  /** One operation keeps logs valid and never lowers a revision; a log that
      exists goes on existing. */
  lemma OpKeepsRevisions(m: map<Key, Log>, q: Request, r: Result<Log>, k: Key)
    requires ValidLogs(m) && Atomically(m, OpOf(q), r).Some?
    ensures ValidLogs(Atomically(m, OpOf(q), r).value)
    ensures RevisionAt(m, k) <= RevisionAt(Atomically(m, OpOf(q), r).value, k)
  {
    if r == Committed && q.Write? {
      var start := if q.key in m then m[q.key] else EMPTY;
      MergeKeepsPlaces(start, q.batch);
      MaxPosAtLeastFloor(q.batch, start.revision);
    } else if r == Committed && q.Delete? && q.key in m {
      TruncateKeepsValid(m[q.key], q.to);
    }
  }

  lemma {:induction false} HistoryKeepsLogs(m: map<Key, Log>, h: EventHistory)
    requires ValidLogs(m) && OfRequests(h) && Replayed(m, h).Some?
    ensures ValidLogs(Replayed(m, h).value)
  {
    if h != [] {
      var front, e := h[..|h| - 1], h[|h| - 1];
      assert OfRequests(front) by { assert forall j :: 0 <= j < |front| ==> front[j] == h[j]; }
      HistoryKeepsLogs(m, front);
      if e.Take? {
        var q :| e.op == OpOf(q);
        OpKeepsRevisions(Replayed(m, front).value, q, e.result, q.key);
      }
    }
  }

  /** Over any run, through deletions too, a revision never decreases and is
      never forgotten. */
  lemma {:induction false} RevisionsOnlyGrow(m: map<Key, Log>, h: EventHistory, i: nat, k: Key)
    requires ValidLogs(m) && OfRequests(h) && Replayed(m, h).Some? && i <= |h|
    ensures Replayed(m, h[..i]).Some? && RevisionAt(Replayed(m, h[..i]).value, k) <= RevisionAt(Replayed(m, h).value, k)
  {
    if i == |h| {
      assert h[..i] == h;
    } else {
      var front, e := h[..|h| - 1], h[|h| - 1];
      assert OfRequests(front) by { assert forall j :: 0 <= j < |front| ==> front[j] == h[j]; }
      assert front[..i] == h[..i];
      RevisionsOnlyGrow(m, front, i, k);
      HistoryKeepsLogs(m, front);
      if e.Take? {
        var q :| e.op == OpOf(q);
        OpKeepsRevisions(Replayed(m, front).value, q, e.result, k);
      }
    }
  }

  /** The j-th event of h is a committed write q. */
  ghost predicate CommitsAt(h: EventHistory, j: nat, q: Request) {
    j < |h| && h[j].Take? && q.Write? && h[j].op == OpOf(q) && h[j].result == Committed
  }

  /** Revision safety: once a log has passed a revision, no writer expecting an
      older one ever commits, even after every event was deleted; and genesis
      commits at most once per key. */
  lemma StaleWritersLose(m: map<Key, Log>, h: EventHistory, i: nat, j: nat, q: Request)
    requires ValidLogs(m) && OfRequests(h) && Replayed(m, h).Some? && i <= j && CommitsAt(h, j, q)
    ensures Replayed(m, h[..i]).Some?
    ensures q.pre.Exact? ==> RevisionAt(Replayed(m, h[..i]).value, q.key) <= q.pre.revision
    ensures q.pre == Genesis ==> q.key !in Replayed(m, h[..i]).value
  {
    PrefixExplained(m, h, j);
    assert OfRequests(h[..j]) by { assert forall l :: 0 <= l < j ==> h[..j][l] == h[l]; }
    assert h[..j][..i] == h[..i];
    RevisionsOnlyGrow(m, h[..j], i, q.key);
    WriteMeansHeld(Replayed(m, h[..j]).value, q, Committed);
  }

  lemma GenesisCommitsOnce(m: map<Key, Log>, h: EventHistory, i: nat, j: nat, q: Request, q': Request)
    requires ValidLogs(m) && OfRequests(h) && Replayed(m, h).Some? && CommitsAt(h, i, q) && CommitsAt(h, j, q')
    requires q.key == q'.key && q.pre == q'.pre == Genesis
    ensures i == j
    decreases i > j
  {
    if i < j {
      PrefixExplained(m, h, i);
      WriteMeansHeld(Replayed(m, h[..i]).value, q, Committed);
      StaleWritersLose(m, h, i + 1, j, q');
    } else if j < i {
      GenesisCommitsOnce(m, h, j, i, q', q);
    }
  }

  /** Two writers expecting the same revision: at most one of them commits, when
      the first one's batch reaches beyond that revision. */
  lemma CompetingWritersExclude(m: map<Key, Log>, h: EventHistory, i: nat, j: nat, q: Request, q': Request)
    requires ValidLogs(m) && OfRequests(h) && Replayed(m, h).Some? && i < j && CommitsAt(h, i, q)
    requires q.pre.Exact? && MaxPos(q.batch, 0) > q.pre.revision && q'.Write? && q'.key == q.key && q'.pre == q.pre
    ensures !CommitsAt(h, j, q')
  {
    if CommitsAt(h, j, q') {
      StaleWritersLose(m, h, i + 1, j, q');
      PrefixExplained(m, h, i);
      assert OfRequests(h[..i]) by { assert forall l :: 0 <= l < i ==> h[..i][l] == h[l]; }
      HistoryKeepsLogs(m, h[..i]);
      var before := Replayed(m, h[..i]).value;
      WriteMeansHeld(before, q, Committed);
      MergeKeepsPlaces(before[q.key], q.batch);
      MaxPosMonotone(q.batch, 0, before[q.key].revision);
      assert false;
    }
  }

  lemma {:induction false} MaxPosMonotone(s: seq<Record>, a: U64, b: U64)
    requires a <= b
    ensures MaxPos(s, a) <= MaxPos(s, b)
  {
    if s != [] { MaxPosMonotone(s[..|s| - 1], a, b); }
  }

  // ------------------------------------------------------ in every interleaving

  ghost predicate RequestsOnly(steps: seq<Step<Key, Log>>) {
    forall i :: 0 <= i < |steps| && steps[i].BeginStep? ==> IsRequest(steps[i].op)
  }

  lemma {:induction false} InvokesAreRequests(states: seq<State<Key, Log>>, steps: seq<Step<Key, Log>>, i: nat)
    requires Run(states, steps) && RequestsOnly(steps) && i < |states|
    ensures var h := states[i].history; forall j :: 0 <= j < |h| && h[j].Invoke? ==> IsRequest(h[j].op)
  {
    if i > 0 {
      InvokesAreRequests(states, steps, i - 1);
      assert Takes(states[i - 1], states[i], steps[i - 1]);
      HistoryStep(states[i - 1], states[i], steps[i - 1]);
    }
  }

  /** A step appends at most one event, and invokes only what it began. */
  lemma HistoryStep(s: State<Key, Log>, s': State<Key, Log>, step: Step<Key, Log>)
    requires Takes(s, s', step)
    ensures || s'.history == s.history
            || exists e :: s'.history == s.history + [e] && (e.Invoke? ==> step.BeginStep? && step.op == e.op)
  {
    match step
    case BeginStep(t, op) => assert s'.history == s.history + [Invoke(s.next, op)];
    case FinishStep(t, id, op, r) => assert s'.history == s.history + [Respond(id, r)];
    case LoadStep(t, id, op) =>
      var found := Deref(s.heap, Current(s, op.key));
      match op.decide(found) {
        case Refuse => assert s'.history == s.history + [Take(id, op, Refused(found))];
        case Keep => assert s'.history == s.history + [Take(id, op, Unchanged(found))];
        case Publish(_) =>
      }
    case SwapStep(t, id, op, seen, p) =>
      if Current(s, op.key) == seen { assert s'.history == s.history + [Take(id, op, Committed)]; }
      else if op.mode != Retry && seen.None? {
        assert s'.history == s.history + [Take(id, op, Raced(Deref(s.heap, Current(s, op.key))))];
      }
    case ReloadStep(t, id, op) =>
      assert s'.history == s.history + [Take(id, op, Raced(Deref(s.heap, Current(s, op.key))))];
    case StoreStep(t, id, op, p) => assert s'.history == s.history + [Take(id, op, Committed)];
  }

  lemma HistoryIsOfRequests(states: seq<State<Key, Log>>, steps: seq<Step<Key, Log>>, i: nat)
    requires Run(states, steps) && RequestsOnly(steps) && i < |states|
    ensures OfRequests(states[i].history)
  {
    Linearizable(states, steps, i);
    InvokesAreRequests(states, steps, i);
    var h := states[i].history;
    forall j | 0 <= j < |h| && h[j].Take? ensures IsRequest(h[j].op) {
      assert Invoke(h[j].id, h[j].op) in h[..j];
      var a :| 0 <= a < j && h[a] == Invoke(h[j].id, h[j].op);
    }
  }

  lemma {:induction false} HistoryGrows(states: seq<State<Key, Log>>, steps: seq<Step<Key, Log>>, i: nat, j: nat)
    requires Run(states, steps) && i <= j < |states|
    ensures states[i].history <= states[j].history
  {
    if i < j {
      HistoryGrows(states, steps, i, j - 1);
      assert Takes(states[j - 1], states[j], steps[j - 1]);
      StepGrows(states[i].history, states[j - 1], states[j], steps[j - 1]);
    }
  }

  lemma StepGrows(h: EventHistory, s: State<Key, Log>, s': State<Key, Log>, step: Step<Key, Log>)
    requires Takes(s, s', step) && h <= s.history
    ensures h <= s'.history
  {
    HistoryStep(s, s', step);
  }

  /** Revision safety in every interleaving of writers and deleters: at every
      moment each log holds one record per sequence and none above its revision,
      and from then on its revision only grows and is never forgotten. */
  lemma RevisionSafety(states: seq<State<Key, Log>>, steps: seq<Step<Key, Log>>, i: nat, j: nat, k: Key)
    requires Run(states, steps) && RequestsOnly(steps) && ValidLogs(Abs(states[0])) && i <= j < |states|
    ensures ValidLogs(Abs(states[j]))
    ensures RevisionAt(Abs(states[i]), k) <= RevisionAt(Abs(states[j]), k)
  {
    var m := Abs(states[0]);
    Linearizable(states, steps, i);
    Linearizable(states, steps, j);
    HistoryIsOfRequests(states, steps, j);
    HistoryKeepsLogs(m, states[j].history);
    HistoryGrows(states, steps, i, j);
    var n := |states[i].history|;
    assert states[j].history[..n] == states[i].history;
    RevisionsOnlyGrow(m, states[j].history, n, k);
  }

  /** In every interleaving, the step at which a write commits finds its
      precondition true and merges exactly its batch. */
  lemma CommitsWhenHeld(states: seq<State<Key, Log>>, steps: seq<Step<Key, Log>>, i: nat, q: Request, id: nat)
    requires Run(states, steps) && i < |steps| && q.Write?
    requires states[i + 1].history == states[i].history + [Take(id, OpOf(q), Committed)]
    ensures Holds(q.pre, Get(Abs(states[i]), q.key))
    ensures Abs(states[i + 1]) == Abs(states[i])[q.key := Merge(Get(Abs(states[i]), q.key), q.batch)]
  {
    TakeIsAtomic(states, steps, i, id, OpOf(q), Committed);
    WriteMeansHeld(Abs(states[i]), q, Committed);
  }

  // -------------------------------------------------- a conflict out of nowhere

  /** An exact-revision write can be refused although its precondition held all
      along: a deletion in between replaces the log without moving its revision,
      and the compare-and-swap sees only that the pointer moved. The conflict then
      names the very revision that was expected. */
  lemma SpuriousConflict(k: Key, e: Record, f: Record)
    returns (states: seq<State<Key, Log>>, steps: seq<Step<Key, Log>>)
    requires e.pos == 1 && f.pos == 2
    ensures Run(states, steps)
    ensures forall i :: 0 <= i < |states| ==> Holds(Exact(1), Get(Abs(states[i]), k))
    ensures Take(0, OpOf(Write(k, [f], Exact(1))), Raced(Some(Log(1, [])))) in states[|steps|].history
  {
    var w, d := Write(k, [f], Exact(1)), Delete(k, 1);
    assert [e][..0] == [];
    assert Above([e], 1) == [];
    assert OpOf(d).decide(Some(Log(1, [e]))) == DeleteDecision(1, Some(Log(1, [e]))) == Publish(Log(1, []));
    assert OpOf(w).decide(Some(Log(1, [e]))) == WriteDecision([f], Exact(1), Some(Log(1, [e])));
    states, steps := LosesRace(k, OpOf(w), OpOf(d), Log(1, [e]));
  }

  // -------------------------------------------------------- exactly when

  /** A request that leaves a log at `revision` there: a deletion, or a write that
      reaches no further. */
  predicate LeavesRevision(q: Request, revision: U64) {
    match q
    case Write(_, batch, _) => MaxPos(batch, 0) <= revision
    case Delete(_, _) => true
    case Read(_) => true
  }

  lemma {:induction false} MaxPosFloor(s: seq<Record>, floor: U64)
    ensures MaxPos(s, floor) == if MaxPos(s, 0) > floor then MaxPos(s, 0) else floor
  {
    if s != [] { MaxPosFloor(s[..|s| - 1], floor); }
  }

  /** A commit keeps the revision if and only if its request does. */
  lemma CommitKeepsRevisionIff(m: map<Key, Log>, q: Request, revision: U64)
    requires ValidLogs(m) && RevisionAt(m, q.key) == revision && Atomically(m, OpOf(q), Committed).Some?
    ensures RevisionAt(Atomically(m, OpOf(q), Committed).value, q.key) == revision <==> LeavesRevision(q, revision)
  {
    if q.Write? {
      WriteMeansHeld(m, q, Committed);
      MergeKeepsPlaces(m[q.key], q.batch);
      MaxPosFloor(q.batch, revision);
    }
  }

  /** Every request committed under k between places a and b of the history leaves
      the revision. */
  ghost predicate OnlyHarmless(h: EventHistory, a: nat, b: nat, k: Key, revision: U64) {
    forall n {:trigger Harmless(h, n, k, revision)} :: a <= n < b && n < |h| ==> Harmless(h, n, k, revision)
  }

  /** The n-th event of the history commits nothing under k but what leaves the
      revision. */
  ghost predicate Harmless(h: EventHistory, n: nat, k: Key, revision: U64)
    requires n < |h|
  {
    HarmlessEvent(h[n], k, revision)
  }

  ghost predicate HarmlessEvent(e: Event<Key, Log>, k: Key, revision: U64) {
    forall q: Request :: e.Take? && e.result == Committed && e.op == OpOf(q) && q.key == k ==>
      LeavesRevision(q, revision)
  }

  lemma EventKeepsRevisionIff(m: map<Key, Log>, e: Event<Key, Log>, k: Key, revision: U64)
    requires ValidLogs(m) && RevisionAt(m, k) == revision
    requires e.Take? ==> Atomically(m, e.op, e.result).Some? && IsRequest(e.op)
    ensures var after := if e.Take? then Atomically(m, e.op, e.result).value else m;
            RevisionAt(after, k) == revision <==> HarmlessEvent(e, k, revision)
  {
    if e.Take? && e.result == Committed {
      if e.op.key == k {
        forall q: Request | e.op == OpOf(q) && q.key == k
          ensures RevisionAt(Atomically(m, e.op, e.result).value, k) == revision <==> LeavesRevision(q, revision)
        {
          CommitKeepsRevisionIff(m, q, revision);
        }
        var q: Request :| e.op == OpOf(q);
        assert q.key == k;
      } else {
        assert forall q: Request :: e.op == OpOf(q) ==> q.key == e.op.key;
      }
    }
  }

  /** After the first b events of the history the log under k is at `revision`. */
  ghost predicate StandsAt(m: map<Key, Log>, h: EventHistory, b: nat, k: Key, revision: U64)
    requires b <= |h|
  {
    Replayed(m, h[..b]).Some? && RevisionAt(Replayed(m, h[..b]).value, k) == revision
  }

  /** Over a stretch of history the revision stands if and only if no commit under
      the key reached beyond it. */
  lemma {:induction false} RevisionStandsIff(m: map<Key, Log>, h: EventHistory, a: nat, b: nat, k: Key, revision: U64)
    requires ValidLogs(m) && OfRequests(h) && Replayed(m, h).Some? && a <= b <= |h| && StandsAt(m, h, a, k, revision)
    ensures StandsAt(m, h, b, k, revision) <==> OnlyHarmless(h, a, b, k, revision)
  {
    if a == b {
      NothingBetween(h, a, k, revision);
    } else {
      RevisionStandsIff(m, h, a, b - 1, k, revision);
      StandsOneMore(m, h, a, b - 1, k, revision);
    }
  }

  lemma NothingBetween(h: EventHistory, a: nat, k: Key, revision: U64)
    ensures OnlyHarmless(h, a, a, k, revision)
  {
  }

  lemma StandsOneMore(m: map<Key, Log>, h: EventHistory, a: nat, n: nat, k: Key, revision: U64)
    requires ValidLogs(m) && OfRequests(h) && Replayed(m, h).Some? && a <= n < |h| && StandsAt(m, h, a, k, revision)
    requires StandsAt(m, h, n, k, revision) <==> OnlyHarmless(h, a, n, k, revision)
    ensures StandsAt(m, h, n + 1, k, revision) <==> OnlyHarmless(h, a, n + 1, k, revision)
  {
    PrefixExplained(m, h, n);
    NextReplayed(m, h, n);
    RevisionBetween(m, h, a, n, k);
    RequestsOfPrefix(h, n);
    HistoryKeepsLogs(m, h[..n]);
    if RevisionAt(Replayed(m, h[..n]).value, k) == revision {
      EventKeepsRevisionIff(Replayed(m, h[..n]).value, h[n], k, revision);
    }
    HarmlessOneMore(h, a, n, k, revision);
  }

  lemma HarmlessOneMore(h: EventHistory, a: nat, n: nat, k: Key, revision: U64)
    requires a <= n < |h|
    ensures OnlyHarmless(h, a, n + 1, k, revision) <==>
            OnlyHarmless(h, a, n, k, revision) && Harmless(h, n, k, revision)
  {
  }

  lemma RequestsOfPrefix(h: EventHistory, n: nat)
    requires OfRequests(h) && n <= |h|
    ensures OfRequests(h[..n])
  {
    assert forall l :: 0 <= l < n ==> h[..n][l] == h[l];
  }

  /** Revisions between a and n, and from n to n + 1, only grow. */
  lemma RevisionBetween(m: map<Key, Log>, h: EventHistory, a: nat, n: nat, k: Key)
    requires ValidLogs(m) && OfRequests(h) && Replayed(m, h).Some? && a <= n < |h|
    ensures Replayed(m, h[..a]).Some? && Replayed(m, h[..n]).Some? && Replayed(m, h[..n + 1]).Some?
    ensures RevisionAt(Replayed(m, h[..a]).value, k) <= RevisionAt(Replayed(m, h[..n]).value, k)
    ensures RevisionAt(Replayed(m, h[..n]).value, k) <= RevisionAt(Replayed(m, h[..n + 1]).value, k)
  {
    PrefixStays(m, h, n + 1);
    RequestsOfPrefix(h, n + 1);
    RevisionsOnlyGrow(m, h[..n + 1], n, k);
    assert h[..n + 1][..n] == h[..n];
    RequestsOfPrefix(h, n);
    RevisionsOnlyGrow(m, h[..n], a, k);
    assert h[..n][..a] == h[..a];
  }

  /** A writer expecting `revision` loaded the log at state i. Its precondition holds
      at a later state n if and only if every request committed under the key in
      between was a deletion or a write that reaches no further than the expected
      revision. */
  lemma HeldAfterLoadIff(states: seq<State<Key, Log>>, steps: seq<Step<Key, Log>>, i: nat, n: nat, t: nat, id: nat,
                         q: Request, seen: Option<Pointer>)
    requires Run(states, steps) && RequestsOnly(steps) && ValidLogs(Abs(states[0])) && q.Write? && q.pre.Exact?
    requires i < n < |states| && steps[i] == LoadStep(t, id, OpOf(q)) && At(states[i + 1], t, Loaded(id, OpOf(q), seen))
    ensures states[i].history <= states[n].history
    ensures Holds(q.pre, Get(Abs(states[n]), q.key))
       <==> OnlyHarmless(states[n].history, |states[i].history|, |states[n].history|, q.key, q.pre.revision)
  {
    LoadHeld(states, steps, i, t, id, q, seen);
    HistoryGrows(states, steps, i, n);
    Linearizable(states, steps, i);
    Linearizable(states, steps, n);
    HistoryIsOfRequests(states, steps, n);
    var m, h, a := Abs(states[0]), states[n].history, |states[i].history|;
    assert h[..a] == states[i].history && h[..|h|] == h;
    RevisionStandsIff(m, h, a, |h|, q.key, q.pre.revision);
  }

  /** Exactly when a conflict is spurious: the writer lost its swap at state j,
      because the pointer moved, and its precondition holds all the same. */
  lemma RaceIsSpuriousIff(states: seq<State<Key, Log>>, steps: seq<Step<Key, Log>>, i: nat, j: nat, t: nat, id: nat,
                          q: Request, seen: Option<Pointer>, p: Pointer)
    requires Run(states, steps) && RequestsOnly(steps) && ValidLogs(Abs(states[0])) && q.Write? && q.pre.Exact?
    requires i < j < |steps| && steps[i] == LoadStep(t, id, OpOf(q)) && At(states[i + 1], t, Loaded(id, OpOf(q), seen))
    requires steps[j] == SwapStep(t, id, OpOf(q), seen, p) && Current(states[j], q.key) != seen
    ensures states[i].history <= states[j].history
    ensures Holds(q.pre, Get(Abs(states[j]), q.key))
       <==> OnlyHarmless(states[j].history, |states[i].history|, |states[j].history|, q.key, q.pre.revision)
    ensures At(states[j + 1], t, Lost(id, OpOf(q)))
  {
    HeldAfterLoadIff(states, steps, i, j, t, id, q, seen);
    LoadHeld(states, steps, i, t, id, q, seen);
    assert Takes(states[j], states[j + 1], steps[j]);
  }

  /** What the conflict then names: the revision in place when the loser loads again,
      at state n, which is never below the expected one, and is the expected one
      itself if and only if only such requests were committed until then. */
  lemma RaceNamesRevision(states: seq<State<Key, Log>>, steps: seq<Step<Key, Log>>, i: nat, n: nat, t: nat, id: nat,
                          q: Request, seen: Option<Pointer>)
    requires Run(states, steps) && RequestsOnly(steps) && ValidLogs(Abs(states[0])) && q.Write? && q.pre.Exact?
    requires i < n < |steps| && steps[i] == LoadStep(t, id, OpOf(q)) && At(states[i + 1], t, Loaded(id, OpOf(q), seen))
    requires steps[n] == ReloadStep(t, id, OpOf(q))
    ensures exists found :: && states[n + 1].history == states[n].history + [Take(id, OpOf(q), Raced(Some(found)))]
                            && Get(Abs(states[n]), q.key) == Some(found) && found.revision >= q.pre.revision
                            && (found.revision == q.pre.revision <==>
                                OnlyHarmless(states[n].history, |states[i].history|, |states[n].history|, q.key,
                                             q.pre.revision))
  {
    HeldAfterLoadIff(states, steps, i, n, t, id, q, seen);
    LoadHeld(states, steps, i, t, id, q, seen);
    RevisionSafety(states, steps, i, n, q.key);
    Linearizable(states, steps, n);
    assert Takes(states[n], states[n + 1], steps[n]);
    var found := Abs(states[n])[q.key];
    assert Deref(states[n].heap, Current(states[n], q.key)) == Some(found);
  }

  /** A conditional write that got past its load saw its precondition hold. */
  lemma LoadHeld(states: seq<State<Key, Log>>, steps: seq<Step<Key, Log>>, i: nat, t: nat, id: nat, q: Request,
                 seen: Option<Pointer>)
    requires Run(states, steps) && q.Write? && q.pre.Exact? && i < |steps|
    requires steps[i] == LoadStep(t, id, OpOf(q)) && At(states[i + 1], t, Loaded(id, OpOf(q), seen))
    ensures seen == Current(states[i], q.key) && Holds(q.pre, Get(Abs(states[i]), q.key))
  {
    Linearizable(states, steps, i);
    assert Takes(states[i], states[i + 1], steps[i]);
    var found := Deref(states[i].heap, Current(states[i], q.key));
    assert OpOf(q).decide(found) == WriteDecision(q.batch, q.pre, found);
    assert found == Get(Abs(states[i]), q.key);
  }

  /** Seen over the whole run: a precondition that held when the log was loaded
      holds at a later moment if and only if it held at every moment between. */
  lemma HeldThroughout(states: seq<State<Key, Log>>, steps: seq<Step<Key, Log>>, i: nat, j: nat, k: Key, revision: U64)
    requires Run(states, steps) && RequestsOnly(steps) && ValidLogs(Abs(states[0])) && i <= j < |states|
    requires Holds(Exact(revision), Get(Abs(states[i]), k))
    ensures Holds(Exact(revision), Get(Abs(states[j]), k))
       <==> forall n :: i <= n <= j ==> Holds(Exact(revision), Get(Abs(states[n]), k))
  {
    if Holds(Exact(revision), Get(Abs(states[j]), k)) {
      forall n | i <= n <= j ensures Holds(Exact(revision), Get(Abs(states[n]), k)) {
        RevisionSafety(states, steps, i, n, k);
        RevisionSafety(states, steps, n, j, k);
      }
    }
  }

  // ------------------------------------------------------------ state store

  predicate StateHolds(pre: Precondition, state: Option<Record>) {
    match pre
    case Undeclared => false
    case Unconditional => true
    case Genesis => state.None?
    case Exact(revision) => state.Some? && state.value.pos == revision
  }

  function PutDecision(state: Record, pre: Precondition, found: Option<Record>): Decision<Record> {
    if StateHolds(pre, found) then Publish(state) else Refuse
  }

  /** DurableStore.WriteState: a blind store, a LoadOrStore or a CompareAndSwap of
      the caller's own object. */
  ghost function PutOp(k: Key, state: Record, pre: Precondition): Op<Key, Record> {
    Op(k, if pre == Unconditional then Blind else OneShot, found => PutDecision(state, pre, found))
  }

  lemma PutMeansHeld(m: map<Key, Record>, k: Key, state: Record, pre: Precondition, r: Result<Record>)
    requires Atomically(m, PutOp(k, state, pre), r).Some?
    ensures r == Committed ==>
            StateHolds(pre, Get(m, k)) && Atomically(m, PutOp(k, state, pre), r) == Some(m[k := state])
    ensures r.Refused? ==> !StateHolds(pre, Get(m, k)) && r.found == Get(m, k)
    ensures r.Raced? ==> pre != Unconditional && r.found == Get(m, k)
    ensures r != Committed ==> Atomically(m, PutOp(k, state, pre), r) == Some(m)
    ensures pre == Genesis ==> (r == Committed ==> k !in m) && (r.Refused? ==> k in m)
    ensures pre.Exact? && r == Committed ==> k in m && m[k].pos == pre.revision
    ensures pre.Exact? && r.Refused? ==> k !in m || m[k].pos != pre.revision
  {
  }

  type StateHistory = seq<Event<Key, Record>>

  /** The j-th event of h commits this state write. */
  ghost predicate PutsAt(h: StateHistory, j: nat, k: Key, state: Record, pre: Precondition) {
    j < |h| && h[j].Take? && h[j].op == PutOp(k, state, pre) && h[j].result == Committed
  }

  ghost predicate OfPuts(h: StateHistory) {
    forall j :: 0 <= j < |h| && h[j].Take? ==> IsPut(h[j].op)
  }

  ghost predicate IsPut(op: Op<Key, Record>) {
    exists k: Key, state: Record, pre: Precondition :: op == PutOp(k, state, pre)
  }

  /** In every history a committed exact write found exactly the version it expected, a
      committed genesis write found nothing, and each leaves its own state. */
  lemma PutFinds(m: map<Key, Record>, h: StateHistory, j: nat, k: Key, state: Record, pre: Precondition)
    requires Replayed(m, h).Some? && PutsAt(h, j, k, state, pre)
    ensures Replayed(m, h[..j]).Some?
    ensures var before := Replayed(m, h[..j]).value;
            && (pre.Exact? ==> k in before && before[k].pos == pre.revision)
            && (pre == Genesis ==> k !in before) && pre != Undeclared
            && Replayed(m, h[..j + 1]) == Some(before[k := state])
  {
    PrefixExplained(m, h, j);
    PutMeansHeld(Replayed(m, h[..j]).value, k, state, pre, Committed);
  }

  /** A genesis write commits at most once per key, and never on one that exists. */
  lemma GenesisPutsOnce(m: map<Key, Record>, h: StateHistory, i: nat, j: nat, k: Key, a: Record, b: Record,
                        pre: Precondition)
    requires Replayed(m, h).Some? && i < j && PutsAt(h, i, k, a, pre)
    ensures !PutsAt(h, j, k, b, Genesis)
  {
    if PutsAt(h, j, k, b, Genesis) {
      PutFinds(m, h, i, k, a, pre);
      KeysStay(m, h, i + 1, j);
      PutFinds(m, h, j, k, b, Genesis);
    }
  }

  /** Some write committed under k at the n-th event leaves version v there. */
  ghost predicate PutsVersion(h: StateHistory, n: nat, k: Key, v: U64) {
    exists state: Record, pre: Precondition :: PutsAt(h, n, k, state, pre) && state.pos == v
  }

  ghost predicate AtVersion(m: map<Key, Record>, k: Key, v: U64) {
    k in m && m[k].pos == v
  }

  lemma VersionNext(m: map<Key, Record>, h: StateHistory, n: nat, k: Key, v: U64)
    requires Replayed(m, h).Some? && OfPuts(h) && n < |h| && !PutsVersion(h, n, k, v)
    ensures Replayed(m, h[..n]).Some? && Replayed(m, h[..n + 1]).Some?
    ensures AtVersion(Replayed(m, h[..n + 1]).value, k, v) ==> AtVersion(Replayed(m, h[..n]).value, k, v)
  {
    PrefixStays(m, h, n);
    PrefixStays(m, h, n + 1);
    NextReplayed(m, h, n);
    if h[n].Take? && h[n].result == Committed {
      assert IsPut(h[n].op);
      var k': Key, state: Record, pre: Precondition :| h[n].op == PutOp(k', state, pre);
      PutMeansHeld(Replayed(m, h[..n]).value, k', state, pre, Committed);
      if k' == k { assert PutsAt(h, n, k, state, pre); }
    }
  }

  /** A version that is not there comes only from a write that puts it there. */
  lemma {:induction false} VersionIsPut(m: map<Key, Record>, h: StateHistory, a: nat, b: nat, k: Key, v: U64)
    requires Replayed(m, h).Some? && OfPuts(h) && a <= b <= |h|
    requires forall n :: a <= n < b ==> !PutsVersion(h, n, k, v)
    ensures Replayed(m, h[..a]).Some? && Replayed(m, h[..b]).Some?
    ensures AtVersion(Replayed(m, h[..b]).value, k, v) ==> AtVersion(Replayed(m, h[..a]).value, k, v)
    decreases b
  {
    PrefixStays(m, h, a);
    PrefixStays(m, h, b);
    if a < b {
      VersionIsPut(m, h, a, b - 1, k, v);
      VersionNext(m, h, b - 1, k, v);
    }
  }

  /** No lost update: once a write has left another version than v under k, no writer
      expecting v commits there until some write has put v back. */
  lemma StaleStatesLose(m: map<Key, Record>, h: StateHistory, i: nat, j: nat, k: Key, a: Record, pre: Precondition,
                        b: Record, v: U64)
    requires Replayed(m, h).Some? && OfPuts(h) && i < j && PutsAt(h, i, k, a, pre) && a.pos != v
    requires forall n :: i < n < j ==> !PutsVersion(h, n, k, v)
    ensures !PutsAt(h, j, k, b, Exact(v))
  {
    PutFinds(m, h, i, k, a, pre);
    if PutsAt(h, j, k, b, Exact(v)) {
      PutFinds(m, h, j, k, b, Exact(v));
      VersionIsPut(m, h, i + 1, j, k, v);
    }
  }
}
