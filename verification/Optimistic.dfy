/** Optimistic concurrency over a shared map: any number of threads, each loading
    a pointer, deciding on what it points to, and publishing a successor by
    LoadOrStore or CompareAndSwap. Every interleaving is linearizable. */
module Optimistic {
  import opened GoText

  /** What an operation does to the value it finds. */
  datatype Decision<+V> = Refuse | Keep | Publish(value: V)

  /** OneShot: a lost race is final. Retry: a lost race starts over. Blind: an
      unconditional store that never looks. */
  datatype Mode = OneShot | Retry | Blind

  datatype Op<K, !V> = Op(key: K, mode: Mode, decide: Option<V> -> Decision<V>)

  /** `found` is what the operation saw at its linearization point. */
  datatype Result<+V> =
    | Committed
    | Refused(found: Option<V>)
    | Unchanged(found: Option<V>)
    | Raced(found: Option<V>)

  type Pointer = nat

  datatype Thread<K, !V> =
    | Idle
    | Started(id: nat, op: Op<K, V>)
    | Loaded(id: nat, op: Op<K, V>, seen: Option<Pointer>)
    | Lost(id: nat, op: Op<K, V>)
    | Finished(id: nat, op: Op<K, V>, result: Result<V>)

  /** The observable history, with the linearization points marked. */
  datatype Event<K, !V> =
    | Invoke(id: nat, op: Op<K, V>)
    | Take(id: nat, op: Op<K, V>, result: Result<V>)
    | Respond(id: nat, result: Result<V>)

  /** The shared map, the immutable objects its pointers lead to, the threads. */
  datatype State<K, !V> = State(
    db: map<K, Pointer>, heap: map<Pointer, V>, threads: map<nat, Thread<K, V>>, next: nat, history: seq<Event<K, V>>)

  ghost function Deref<V>(heap: map<Pointer, V>, p: Option<Pointer>): Option<V> {
    if p.None? || p.value !in heap then None else Some(heap[p.value])
  }

  ghost function Current<K, V>(s: State<K, V>, k: K): Option<Pointer> {
    if k in s.db then Some(s.db[k]) else None
  }

  // ------------------------------------------------------------- the steps

  ghost predicate At<K, V>(s: State<K, V>, t: nat, th: Thread<K, V>) {
    t in s.threads && s.threads[t] == th
  }

  ghost predicate Begin<K, V>(s: State<K, V>, s': State<K, V>, t: nat, op: Op<K, V>) {
    && At(s, t, Idle)
    && s' == s.(threads := s.threads[t := Started(s.next, op)], next := s.next + 1,
                history := s.history + [Invoke(s.next, op)])
  }

  /** Load, and the local decision it leads to. */
  ghost predicate Load<K, V>(s: State<K, V>, s': State<K, V>, t: nat, id: nat, op: Op<K, V>) {
    && At(s, t, Started(id, op)) && op.mode != Blind
    && var seen := Current(s, op.key);
       var found := Deref(s.heap, seen);
       match op.decide(found)
       case Refuse => s' == Decided(s, t, id, op, Refused(found))
       case Keep => s' == Decided(s, t, id, op, Unchanged(found))
       case Publish(_) => s' == s.(threads := s.threads[t := Loaded(id, op, seen)])
  }

  ghost function Decided<K, V>(s: State<K, V>, t: nat, id: nat, op: Op<K, V>, r: Result<V>): State<K, V> {
    s.(threads := s.threads[t := Finished(id, op, r)], history := s.history + [Take(id, op, r)])
  }

  /** An object is published under a fresh address, or under one that already
      leads to this very value: published objects never change. */
  ghost predicate Allocates<V>(heap: map<Pointer, V>, p: Pointer, v: V) {
    p in heap ==> heap[p] == v
  }

  ghost function Published<K, V>(s: State<K, V>, k: K, p: Pointer, v: V): State<K, V> {
    s.(db := s.db[k := p], heap := s.heap[p := v])
  }

  /** LoadOrStore when nothing was seen, CompareAndSwap otherwise: it succeeds
      exactly when the map still holds the pointer that was loaded. A failed
      LoadOrStore returns what is there; a failed CompareAndSwap does not. */
  ghost predicate Swap<K, V>(s: State<K, V>, s': State<K, V>, t: nat, id: nat, op: Op<K, V>, seen: Option<Pointer>,
                             p: Pointer)
  {
    && At(s, t, Loaded(id, op, seen))
    && op.decide(Deref(s.heap, seen)).Publish?
    && var v := op.decide(Deref(s.heap, seen)).value;
       && Allocates(s.heap, p, v)
       && if Current(s, op.key) == seen then s' == Decided(Published(s, op.key, p, v), t, id, op, Committed)
          else if op.mode == Retry then s' == s.(threads := s.threads[t := Started(id, op)])
          else if seen.None? then s' == Decided(s, t, id, op, Raced(Deref(s.heap, Current(s, op.key))))
          else s' == s.(threads := s.threads[t := Lost(id, op)])
  }

  /** The loser of a CompareAndSwap loads once more, to name what is there now. */
  ghost predicate Reload<K, V>(s: State<K, V>, s': State<K, V>, t: nat, id: nat, op: Op<K, V>) {
    At(s, t, Lost(id, op)) && s' == Decided(s, t, id, op, Raced(Deref(s.heap, Current(s, op.key))))
  }

  ghost predicate Store<K, V>(s: State<K, V>, s': State<K, V>, t: nat, id: nat, op: Op<K, V>, p: Pointer) {
    && At(s, t, Started(id, op)) && op.mode == Blind
    && var found := Deref(s.heap, Current(s, op.key));
       && op.decide(found).Publish? && Allocates(s.heap, p, op.decide(found).value)
       && s' == Decided(Published(s, op.key, p, op.decide(found).value), t, id, op, Committed)
  }

  ghost predicate Finish<K, V>(s: State<K, V>, s': State<K, V>, t: nat, id: nat, op: Op<K, V>, r: Result<V>) {
    && At(s, t, Finished(id, op, r))
    && s' == s.(threads := s.threads[t := Idle], history := s.history + [Respond(id, r)])
  }

  /** One atomic step of one thread. */
  datatype Step<K, !V> =
    | BeginStep(t: nat, op: Op<K, V>)
    | LoadStep(t: nat, id: nat, op: Op<K, V>)
    | SwapStep(t: nat, id: nat, op: Op<K, V>, seen: Option<Pointer>, p: Pointer)
    | ReloadStep(t: nat, id: nat, op: Op<K, V>)
    | StoreStep(t: nat, id: nat, op: Op<K, V>, p: Pointer)
    | FinishStep(t: nat, id: nat, op: Op<K, V>, r: Result<V>)

  ghost predicate Takes<K, V>(s: State<K, V>, s': State<K, V>, step: Step<K, V>) {
    match step
    case BeginStep(t, op) => Begin(s, s', t, op)
    case LoadStep(t, id, op) => Load(s, s', t, id, op)
    case SwapStep(t, id, op, seen, p) => Swap(s, s', t, id, op, seen, p)
    case ReloadStep(t, id, op) => Reload(s, s', t, id, op)
    case StoreStep(t, id, op, p) => Store(s, s', t, id, op, p)
    case FinishStep(t, id, op, r) => Finish(s, s', t, id, op, r)
  }

  ghost predicate Init<K, V>(s: State<K, V>) {
    && s.history == [] && s.next == 0
    && (forall k :: k in s.db ==> s.db[k] in s.heap)
    && (forall t :: t in s.threads ==> s.threads[t] == Idle)
  }

  /** A run: states joined by steps. */
  ghost predicate Run<K, V>(states: seq<State<K, V>>, steps: seq<Step<K, V>>) {
    && |states| == |steps| + 1 && Init(states[0])
    && forall i :: 0 <= i < |steps| ==> Takes(states[i], states[i + 1], steps[i])
  }

  // ------------------------------------------------- the atomic specification

  /** What the store holds, abstracting from pointers. */
  ghost function Abs<K, V>(s: State<K, V>): map<K, V> {
    map k | k in s.db && s.db[k] in s.heap :: s.heap[s.db[k]]
  }

  ghost function Get<K, V>(m: map<K, V>, k: K): Option<V> {
    if k in m then Some(m[k]) else None
  }

  /** One operation applied to the atomic store: the result it may return there
      and what it leaves. A lost race is a refusal that changes nothing, and shows
      what is there. */
  ghost function Atomically<K, V>(m: map<K, V>, op: Op<K, V>, r: Result<V>): Option<map<K, V>> {
    match r
    case Committed => if op.decide(Get(m, op.key)).Publish? then Some(m[op.key := op.decide(Get(m, op.key)).value])
      else None
    case Refused(found) => if found == Get(m, op.key) && op.decide(found) == Refuse then Some(m) else None
    case Unchanged(found) => if found == Get(m, op.key) && op.decide(found) == Keep then Some(m) else None
    case Raced(found) => if found == Get(m, op.key) && op.mode == OneShot then Some(m) else None
  }

  /** The atomic store after the linearization points of a history, or nothing
      when some operation could not have returned what it did. */
  ghost function Replayed<K, V>(m: map<K, V>, h: seq<Event<K, V>>): Option<map<K, V>> {
    if h == [] then Some(m)
    else
      var before := Replayed(m, h[..|h| - 1]);
      var last := h[|h| - 1];
      if before.None? || !last.Take? then before else Atomically(before.value, last.op, last.result)
  }

  lemma ReplayedExtends<K, V>(m: map<K, V>, h: seq<Event<K, V>>, e: Event<K, V>)
    ensures Replayed(m, h + [e]) == var before := Replayed(m, h); if before.None? || !e.Take? then before
            else Atomically(before.value, e.op, e.result)
  {
    assert (h + [e])[..|h|] == h;
  }

  lemma {:induction false} PrefixExplained<K, V>(m: map<K, V>, h: seq<Event<K, V>>, j: nat)
    requires Replayed(m, h).Some? && j < |h|
    ensures Replayed(m, h[..j]).Some?
    ensures h[j].Take? ==>
            Atomically(Replayed(m, h[..j]).value, h[j].op, h[j].result) == Replayed(m, h[..j + 1]) != None
  {
    if j + 1 < |h| {
      assert h[..|h| - 1][..j] == h[..j] && h[..|h| - 1][..j + 1] == h[..j + 1];
      PrefixExplained(m, h[..|h| - 1], j);
    } else {
      assert h[..j + 1] == h;
    }
  }

  lemma PrefixStays<K, V>(m: map<K, V>, h: seq<Event<K, V>>, n: nat)
    requires Replayed(m, h).Some? && n <= |h|
    ensures Replayed(m, h[..n]).Some?
  {
    if n < |h| {
      PrefixExplained(m, h, n);
    } else {
      assert h[..n] == h;
    }
  }

  lemma NextReplayed<K, V>(m: map<K, V>, h: seq<Event<K, V>>, n: nat)
    requires n < |h| && Replayed(m, h[..n]).Some?
    ensures Replayed(m, h[..n + 1])
         == if h[n].Take? then Atomically(Replayed(m, h[..n]).value, h[n].op, h[n].result) else Replayed(m, h[..n])
  {
    assert h[..n + 1][..n] == h[..n] && h[..n + 1][n] == h[n];
  }

  /** No operation removes a key. */
  lemma {:induction false} KeysStay<K, V>(m: map<K, V>, h: seq<Event<K, V>>, a: nat, b: nat)
    requires Replayed(m, h).Some? && a <= b <= |h|
    ensures Replayed(m, h[..a]).Some? && Replayed(m, h[..b]).Some?
    ensures Replayed(m, h[..a]).value.Keys <= Replayed(m, h[..b]).value.Keys
    decreases b
  {
    PrefixStays(m, h, a);
    PrefixStays(m, h, b);
    if a < b {
      KeysStay(m, h, a, b - 1);
      NextReplayed(m, h, b - 1);
    }
  }

  // -------------------------------------------------------------- invariant

  /** Pointers lead somewhere, a loaded thread has something to publish, and only
      one-shot operations lose. */
  ghost predicate Sane<K, V>(s: State<K, V>) {
    && (forall k :: k in s.db ==> s.db[k] in s.heap)
    && (forall t :: t in s.threads && s.threads[t].Loaded? ==>
          && (s.threads[t].seen.Some? ==> s.threads[t].seen.value in s.heap)
          && s.threads[t].op.decide(Deref(s.heap, s.threads[t].seen)).Publish?
          && s.threads[t].op.mode != Blind)
    && (forall t :: t in s.threads && s.threads[t].Lost? ==> s.threads[t].op.mode == OneShot)
  }

  lemma PublishedAbs<K, V>(s: State<K, V>, k: K, p: Pointer, v: V)
    requires Sane(s) && Allocates(s.heap, p, v)
    ensures Sane(Published(s, k, p, v)) && Abs(Published(s, k, p, v)) == Abs(s)[k := v]
  {
  }

  lemma DecidedExtends<K, V>(m: map<K, V>, s: State<K, V>, t: nat, id: nat, op: Op<K, V>, r: Result<V>)
    requires Sane(s)
    ensures Sane(Decided(s, t, id, op, r)) && Abs(Decided(s, t, id, op, r)) == Abs(s)
    ensures Replayed(m, s.history + [Take(id, op, r)])
         == var before := Replayed(m, s.history); if before.None? then None else Atomically(before.value, op, r)
  {
    ReplayedExtends(m, s.history, Take(id, op, r));
  }

  /** The store equals its history's operations applied one by one. */
  ghost predicate Explained<K, V>(m: map<K, V>, s: State<K, V>) {
    Sane(s) && Replayed(m, s.history) == Some(Abs(s))
  }

  lemma LoadSimulates<K, V>(m: map<K, V>, s: State<K, V>, s': State<K, V>, t: nat, id: nat, op: Op<K, V>)
    requires Explained(m, s) && Load(s, s', t, id, op)
    ensures Explained(m, s')
  {
    var found := Deref(s.heap, Current(s, op.key));
    assert Get(Abs(s), op.key) == found;
    match op.decide(found)
    case Refuse => DecidedExtends(m, s, t, id, op, Refused(found));
    case Keep => DecidedExtends(m, s, t, id, op, Unchanged(found));
    case Publish(_) =>
  }

  /** Publishing what op decides on the current value is op, applied atomically. */
  lemma CommitSimulates<K, V>(m: map<K, V>, s: State<K, V>, t: nat, id: nat, op: Op<K, V>, p: Pointer)
    requires Explained(m, s) && op.decide(Deref(s.heap, Current(s, op.key))).Publish?
    requires Allocates(s.heap, p, op.decide(Deref(s.heap, Current(s, op.key))).value)
    ensures Explained(m, Decided(Published(s, op.key, p, op.decide(Deref(s.heap, Current(s, op.key))).value), t, id, op,
                                 Committed))
  {
    var v := op.decide(Deref(s.heap, Current(s, op.key))).value;
    assert Get(Abs(s), op.key) == Deref(s.heap, Current(s, op.key));
    PublishedAbs(s, op.key, p, v);
    DecidedExtends(m, Published(s, op.key, p, v), t, id, op, Committed);
  }

  lemma SwapSimulates<K, V>(m: map<K, V>, s: State<K, V>, s': State<K, V>, t: nat, id: nat, op: Op<K, V>,
                            seen: Option<Pointer>, p: Pointer)
    requires Explained(m, s) && Swap(s, s', t, id, op, seen, p)
    ensures Explained(m, s')
  {
    if Current(s, op.key) == seen {
      CommitSimulates(m, s, t, id, op, p);
    } else if op.mode != Retry && seen.None? {
      RacedSimulates(m, s, t, id, op);
    }
  }

  /** A lost race is decided on what is there. */
  lemma RacedSimulates<K, V>(m: map<K, V>, s: State<K, V>, t: nat, id: nat, op: Op<K, V>)
    requires Explained(m, s) && op.mode == OneShot
    ensures Explained(m, Decided(s, t, id, op, Raced(Deref(s.heap, Current(s, op.key)))))
  {
    assert Get(Abs(s), op.key) == Deref(s.heap, Current(s, op.key));
    DecidedExtends(m, s, t, id, op, Raced(Deref(s.heap, Current(s, op.key))));
  }

  /** Simulation: every step keeps the store explained by its history. */
  lemma StepSimulates<K, V>(m: map<K, V>, s: State<K, V>, s': State<K, V>, step: Step<K, V>)
    requires Explained(m, s) && Takes(s, s', step)
    ensures Explained(m, s')
  {
    match step
    case BeginStep(t, op) => ReplayedExtends(m, s.history, Invoke(s.next, op));
    case LoadStep(t, id, op) => LoadSimulates(m, s, s', t, id, op);
    case SwapStep(t, id, op, seen, p) => SwapSimulates(m, s, s', t, id, op, seen, p);
    case ReloadStep(t, id, op) => RacedSimulates(m, s, t, id, op);
    case StoreStep(t, id, op, p) => CommitSimulates(m, s, t, id, op, p);
    case FinishStep(t, id, op, r) => ReplayedExtends(m, s.history, Respond(id, r));
  }

  // ---------------------------------------------------- order of the history

  predicate SameKind<K, V>(a: Event<K, V>, b: Event<K, V>) {
    a.id == b.id && (a.Invoke? <==> b.Invoke?) && (a.Take? <==> b.Take?)
  }

  ghost predicate TookEffect<K, V>(h: seq<Event<K, V>>, id: nat, r: Result<V>) {
    exists i :: 0 <= i < |h| && h[i].Take? && h[i].id == id && h[i].result == r
  }

  /** Each operation is invoked, takes effect and responds at most once, in that
      order, and responds with the result it took effect with. */
  ghost predicate Orderly<K, V>(h: seq<Event<K, V>>) {
    && (forall i, j :: 0 <= i < j < |h| ==> !SameKind(h[i], h[j]))
    && (forall j :: 0 <= j < |h| && h[j].Take? ==> Invoke(h[j].id, h[j].op) in h[..j])
    && (forall j :: 0 <= j < |h| && h[j].Respond? ==> TookEffect(h[..j], h[j].id, h[j].result))
  }

  /** What the history already says about a thread's operation. */
  ghost predicate Recorded<K, V>(h: seq<Event<K, V>>, th: Thread<K, V>) {
    match th
    case Idle => true
    case Started(id, op) => Invoke(id, op) in h && forall e :: e in h && e.id == id ==> e.Invoke?
    case Loaded(id, op, _) => Invoke(id, op) in h && forall e :: e in h && e.id == id ==> e.Invoke?
    case Lost(id, op) => Invoke(id, op) in h && forall e :: e in h && e.id == id ==> e.Invoke?
    case Finished(id, op, r) => Take(id, op, r) in h && forall e :: e in h && e.id == id ==> !e.Respond?
  }

  ghost predicate Ledger<K, V>(s: State<K, V>) {
    && Orderly(s.history)
    && (forall e :: e in s.history ==> e.id < s.next)
    && (forall t :: t in s.threads ==>
        && Recorded(s.history, s.threads[t])
        && (!s.threads[t].Idle? ==> s.threads[t].id < s.next))
    && (forall t, u :: t in s.threads && u in s.threads && t != u && !s.threads[t].Idle? && !s.threads[u].Idle? ==>
          s.threads[t].id != s.threads[u].id)
  }

  lemma OrderlyExtends<K, V>(h: seq<Event<K, V>>, e: Event<K, V>)
    requires Orderly(h) && forall x :: x in h ==> !SameKind(x, e)
    requires e.Take? ==> Invoke(e.id, e.op) in h
    requires e.Respond? ==> TookEffect(h, e.id, e.result)
    ensures Orderly(h + [e])
  {
    var h' := h + [e];
    assert forall j :: 0 <= j <= |h| ==> h'[..j] == h[..j];
    assert h[..|h|] == h;
  }

  /** A new event about one operation leaves what is recorded about others. */
  lemma RecordedExtends<K, V>(h: seq<Event<K, V>>, e: Event<K, V>, th: Thread<K, V>)
    requires Recorded(h, th) && (!th.Idle? ==> th.id != e.id)
    ensures Recorded(h + [e], th)
  {
  }

  lemma LedgerAppend<K, V>(s: State<K, V>, t: nat, th: Thread<K, V>, e: Event<K, V>, next: nat)
    requires Ledger(s) && t in s.threads && Orderly(s.history + [e]) && e.id < next && s.next <= next
    requires Recorded(s.history + [e], th) && (!th.Idle? ==> th.id == e.id)
    requires forall u :: u in s.threads && u != t && !s.threads[u].Idle? ==> s.threads[u].id != e.id
    ensures Ledger(s.(threads := s.threads[t := th], history := s.history + [e], next := next))
  {
    forall u | u in s.threads && u != t ensures Recorded(s.history + [e], s.threads[u]) {
      RecordedExtends(s.history, e, s.threads[u]);
    }
  }

  lemma LedgerBegin<K, V>(s: State<K, V>, s': State<K, V>, t: nat, op: Op<K, V>)
    requires Ledger(s) && Begin(s, s', t, op)
    ensures Ledger(s')
  {
    var e := Invoke(s.next, op);
    OrderlyExtends(s.history, e);
    LedgerAppend(s, t, Started(s.next, op), e, s.next + 1);
  }

  lemma LedgerDecided<K, V>(s: State<K, V>, t: nat, th: Thread<K, V>, r: Result<V>)
    requires Ledger(s) && At(s, t, th) && (th.Started? || th.Loaded? || th.Lost?)
    ensures Ledger(Decided(s, t, th.id, th.op, r))
  {
    var e := Take(th.id, th.op, r);
    OrderlyExtends(s.history, e);
    LedgerAppend(s, t, Finished(th.id, th.op, r), e, s.next);
  }

  lemma LedgerFinish<K, V>(s: State<K, V>, s': State<K, V>, t: nat, id: nat, op: Op<K, V>, r: Result<V>)
    requires Ledger(s) && Finish(s, s', t, id, op, r)
    ensures Ledger(s')
  {
    var i :| 0 <= i < |s.history| && s.history[i] == Take(id, op, r);
    assert TookEffect(s.history, id, r);
    OrderlyExtends(s.history, Respond(id, r));
    LedgerAppend(s, t, Idle, Respond(id, r), s.next);
  }

  lemma LedgerLoad<K, V>(s: State<K, V>, s': State<K, V>, t: nat, id: nat, op: Op<K, V>)
    requires Ledger(s) && Load(s, s', t, id, op)
    ensures Ledger(s')
  {
    var found := Deref(s.heap, Current(s, op.key));
    match op.decide(found)
    case Refuse => LedgerDecided(s, t, Started(id, op), Refused(found));
    case Keep => LedgerDecided(s, t, Started(id, op), Unchanged(found));
    case Publish(_) =>
  }

  lemma LedgerSwap<K, V>(s: State<K, V>, s': State<K, V>, t: nat, id: nat, op: Op<K, V>, seen: Option<Pointer>,
                         p: Pointer)
    requires Ledger(s) && Swap(s, s', t, id, op, seen, p)
    ensures Ledger(s')
  {
    if Current(s, op.key) == seen {
      LedgerDecided(Published(s, op.key, p, op.decide(Deref(s.heap, seen)).value), t, Loaded(id, op, seen), Committed);
    } else if op.mode != Retry && seen.None? {
      LedgerDecided(s, t, Loaded(id, op, seen), Raced(Deref(s.heap, Current(s, op.key))));
    }
  }

  lemma LedgerStore<K, V>(s: State<K, V>, s': State<K, V>, t: nat, id: nat, op: Op<K, V>, p: Pointer)
    requires Ledger(s) && Store(s, s', t, id, op, p)
    ensures Ledger(s')
  {
    var v := op.decide(Deref(s.heap, Current(s, op.key))).value;
    LedgerDecided(Published(s, op.key, p, v), t, Started(id, op), Committed);
  }

  lemma LedgerKept<K, V>(s: State<K, V>, s': State<K, V>, step: Step<K, V>)
    requires Ledger(s) && Takes(s, s', step)
    ensures Ledger(s')
  {
    match step
    case BeginStep(t, op) => LedgerBegin(s, s', t, op);
    case LoadStep(t, id, op) => LedgerLoad(s, s', t, id, op);
    case SwapStep(t, id, op, seen, p) => LedgerSwap(s, s', t, id, op, seen, p);
    case ReloadStep(t, id, op) => LedgerDecided(s, t, Lost(id, op), Raced(Deref(s.heap, Current(s, op.key))));
    case StoreStep(t, id, op, p) => LedgerStore(s, s', t, id, op, p);
    case FinishStep(t, id, op, r) => LedgerFinish(s, s', t, id, op, r);
  }

  // ----------------------------------------------------------- linearizability

  /** Every interleaving refines the atomic store: at every moment the store is
      the initial one with the operations of the history applied one by one,
      each atomically and with the result it returns; and each takes effect
      exactly once, between its invocation and its response. */
  lemma {:induction false} Linearizable<K, V>(states: seq<State<K, V>>, steps: seq<Step<K, V>>, i: nat)
    requires Run(states, steps) && i < |states|
    ensures Explained(Abs(states[0]), states[i]) && Ledger(states[i])
  {
    if i > 0 {
      Linearizable(states, steps, i - 1);
      assert Takes(states[i - 1], states[i], steps[i - 1]);
      StepSimulates(Abs(states[0]), states[i - 1], states[i], steps[i - 1]);
      LedgerKept(states[i - 1], states[i], steps[i - 1]);
    }
  }

  /** The step that takes an effect is that operation, applied atomically. */
  lemma TakeIsAtomic<K, V>(states: seq<State<K, V>>, steps: seq<Step<K, V>>, i: nat, id: nat, op: Op<K, V>,
                           r: Result<V>)
    requires Run(states, steps) && i < |steps| && states[i + 1].history == states[i].history + [Take(id, op, r)]
    ensures Atomically(Abs(states[i]), op, r) == Some(Abs(states[i + 1]))
  {
    Linearizable(states, steps, i);
    Linearizable(states, steps, i + 1);
    ReplayedExtends(Abs(states[0]), states[i].history, Take(id, op, r));
  }

  /** The linearization respects real time: an operation that responded before
      another was invoked took effect before it. */
  lemma RealTimeOrder<K, V>(h: seq<Event<K, V>>, res: nat, inv: nat, first: nat, second: nat)
    requires Orderly(h) && res < inv < |h| && first < |h| && second < |h|
    requires h[res].Respond? && h[inv].Invoke? && h[first].Take? && h[second].Take?
    requires h[first].id == h[res].id && h[second].id == h[inv].id
    ensures first < res < inv < second
  {
    assert TookEffect(h[..res], h[res].id, h[res].result);
    var a :| 0 <= a < res && h[..res][a].Take? && h[..res][a].id == h[res].id;
    assert SameKind(h[a], h[first]);
    var b :| 0 <= b < second && h[b] == Invoke(h[second].id, h[second].op);
    assert SameKind(h[b], h[inv]);
  }

  /** No operation reaches past its own key. */
  lemma OtherKeysUntouched<K, V>(s: State<K, V>, s': State<K, V>, step: Step<K, V>, k: K)
    requires Sane(s) && Takes(s, s', step) && (step.SwapStep? || step.StoreStep? ==> k != step.op.key)
    ensures Get(Abs(s'), k) == Get(Abs(s), k)
  {
    match step
    case SwapStep(t, id, op, seen, p) => PublishedAbs(s, op.key, p, op.decide(Deref(s.heap, seen)).value);
    case StoreStep(t, id, op, p) => PublishedAbs(s, op.key, p, op.decide(Deref(s.heap, Current(s, op.key))).value);
    case _ =>
  }

  // ------------------------------------------------------------ a lost race

  lemma RunExtends<K, V>(states: seq<State<K, V>>, steps: seq<Step<K, V>>, s: State<K, V>, step: Step<K, V>)
    requires Run(states, steps) && Takes(states[|steps|], s, step)
    ensures Run(states + [s], steps + [step])
  {
  }

  /** Thread t invokes op and loads what the store holds. */
  ghost function Loading<K, V>(s: State<K, V>, t: nat, op: Op<K, V>): State<K, V> {
    s.(threads := s.threads[t := Loaded(s.next, op, Current(s, op.key))], next := s.next + 1,
       history := s.history + [Invoke(s.next, op)])
  }

  lemma OneLoads<K, V>(states: seq<State<K, V>>, steps: seq<Step<K, V>>, t: nat, op: Op<K, V>)
    returns (states': seq<State<K, V>>, steps': seq<Step<K, V>>)
    requires Run(states, steps) && At(states[|steps|], t, Idle) && op.mode != Blind
    requires op.decide(Deref(states[|steps|].heap, Current(states[|steps|], op.key))).Publish?
    ensures Run(states', steps') && states'[|steps'|] == Loading(states[|steps|], t, op)
    ensures |states'| == |states| + 2 && states'[..|states|] == states
    ensures var s := states[|steps|]; var s' := states'[|states|]; s'.db == s.db && s'.heap == s.heap
  {
    var s := states[|steps|];
    var s1 := s.(threads := s.threads[t := Started(s.next, op)], next := s.next + 1,
                 history := s.history + [Invoke(s.next, op)]);
    RunExtends(states, steps, s1, BeginStep(t, op));
    var s2 := Loading(s, t, op);
    assert s2.threads == s1.threads[t := Loaded(s.next, op, Current(s, op.key))];
    assert Load(s1, s2, t, s.next, op);
    RunExtends(states + [s1], steps + [BeginStep(t, op)], s2, LoadStep(t, s.next, op));
    states', steps' := states + [s1] + [s2], steps + [BeginStep(t, op)] + [LoadStep(t, s.next, op)];
  }

  /** Both threads have loaded v before either publishes. */
  lemma BothLoad<K, V>(k: K, w: Op<K, V>, d: Op<K, V>, v: V) returns (states: seq<State<K, V>>, steps: seq<Step<K, V>>)
    requires w.key == d.key == k && w.mode != Blind && d.mode != Blind
    requires w.decide(Some(v)).Publish? && d.decide(Some(v)).Publish?
    ensures Run(states, steps) && forall i :: 0 <= i < |states| ==>
            states[i].db == map[k := 0] && states[i].heap == map[0 := v]
    ensures var s := states[|steps|];
            s.threads == map[0 := Loaded(0, w, Some(0)), 1 := Loaded(1, d, Some(0))]
  {
    var s0: State<K, V> := State(map[k := 0], map[0 := v], map[0 := Idle, 1 := Idle], 0, []);
    assert Run([s0], []);
    var states1, steps1 := OneLoads([s0], [], 0, w);
    assert states1[0] == s0 by { assert states1[..1][0] == s0; }
    states, steps := OneLoads(states1, steps1, 1, d);
    assert forall i :: 0 <= i < 3 ==>
           states[i] == states1[i] by { assert forall i :: 0 <= i < 3 ==> states[..3][i] == states[i]; }
  }

  /** Whatever d publishes, even if w would still be content with it, w loses. */
  lemma LosesRace<K, V>(k: K, w: Op<K, V>, d: Op<K, V>, v: V) returns (states: seq<State<K, V>>, steps: seq<Step<K, V>>)
    requires w.key == d.key == k && w.mode == OneShot && d.mode != Blind
    requires w.decide(Some(v)).Publish? && d.decide(Some(v)).Publish?
    ensures Run(states, steps)
    ensures Shows(states, k, v, d.decide(Some(v)).value)
    ensures Take(0, w, Raced(Some(d.decide(Some(v)).value))) in states[|steps|].history
  {
    var past, taken := BothLoad(k, w, d, v);
    var v1 := d.decide(Some(v)).value;
    var s1 := Wins(k, d, past, taken, v);
    states, steps := Loses(k, w, past + [s1], taken + [SwapStep(1, 1, d, Some(0), 1)], s1, v1);
    ShowsLater(past, states, k, v, v1);
  }

  /** The store shows one of two values under k, and nothing else, in every state. */
  ghost predicate Shows<K, V>(states: seq<State<K, V>>, k: K, a: V, b: V) {
    forall i :: 0 <= i < |states| ==> Abs(states[i]) == map[k := a] || Abs(states[i]) == map[k := b]
  }

  lemma ShowsLater<K, V>(past: seq<State<K, V>>, states: seq<State<K, V>>, k: K, a: V, b: V)
    requires past <= states
    requires forall i :: 0 <= i < |past| ==> past[i].db == map[k := 0] && past[i].heap == map[0 := a]
    requires forall i :: |past| <= i < |states| ==> Abs(states[i]) == map[k := b]
    ensures Shows(states, k, a, b)
  {
    forall i | 0 <= i < |past| ensures Abs(states[i]) == map[k := a] {
      assert states[i] == past[i];
    }
  }

  /** Thread 1 publishes what it decided. */
  lemma Wins<K, V>(k: K, d: Op<K, V>, past: seq<State<K, V>>, taken: seq<Step<K, V>>, v: V) returns (s1: State<K, V>)
    requires Run(past, taken) && d.key == k && d.decide(Some(v)).Publish?
    requires var s := past[|taken|];
             s.db == map[k := 0] && s.heap == map[0 := v] && At(s, 1, Loaded(1, d, Some(0)))
    ensures var s := past[|taken|]; var v1 := d.decide(Some(v)).value;
            && Run(past + [s1], taken + [SwapStep(1, 1, d, Some(0), 1)])
            && s1.db == map[k := 1] && s1.heap == map[0 := v, 1 := v1] && Abs(s1) == map[k := v1]
            && s1.threads == s.threads[1 := Finished(1, d, Committed)]
  {
    var s, v1 := past[|taken|], d.decide(Some(v)).value;
    s1 := Decided(Published(s, k, 1, v1), 1, 1, d, Committed);
    assert Swap(s, s1, 1, 1, d, Some(0), 1);
    RunExtends(past, taken, s1, SwapStep(1, 1, d, Some(0), 1));
  }

  /** A swap from a pointer that moved, and the load that names what is there. */
  lemma Loses<K, V>(k: K, w: Op<K, V>, past: seq<State<K, V>>, taken: seq<Step<K, V>>, s: State<K, V>, now: V)
    returns (states: seq<State<K, V>>, steps: seq<Step<K, V>>)
    requires Run(past, taken) && past[|taken|] == s && w.key == k && w.mode == OneShot
    requires At(s, 0, Loaded(0, w, Some(0))) && w.decide(Deref(s.heap, Some(0))).Publish?
    requires s.db == map[k := 1] && s.heap.Keys == {0, 1} && s.heap[1] == now
    ensures Run(states, steps) && past <= states && |states| == |past| + 2
    ensures forall i :: |past| <= i < |states| ==> Abs(states[i]) == Abs(s)
    ensures Take(0, w, Raced(Some(now))) in states[|steps|].history
  {
    var s1 := s.(threads := s.threads[0 := Lost(0, w)]);
    assert Swap(s, s1, 0, 0, w, Some(0), 2);
    RunExtends(past, taken, s1, SwapStep(0, 0, w, Some(0), 2));
    var s2 := Decided(s1, 0, 0, w, Raced(Some(now)));
    assert Reload(s1, s2, 0, 0, w);
    RunExtends(past + [s1], taken + [SwapStep(0, 0, w, Some(0), 2)], s2, ReloadStep(0, 0, w));
    states, steps := past + [s1] + [s2], taken + [SwapStep(0, 0, w, Some(0), 2)] + [ReloadStep(0, 0, w)];
    assert s2.history[|s2.history| - 1] == Take(0, w, Raced(Some(now)));
  }
}
