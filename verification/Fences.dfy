/** The adoption fences of concurrent runs: every run holds the fence of an
    aggregate in its source and its target scope, taken one after the other. A
    fence has at most one holder, and acquiring a held fence waits. */
module Fences {
  import opened GoText
  import opened Conflict
  import opened Pagination

  /** fenceOrderKey */
  function FenceKey(s: Scope): GoString {
    match s
    case Unscoped => Ascii("0")
    case Unspecified => Ascii("1")
    case Tenant(id) => Ascii("1") + id
  }

  lemma FenceKeyInjective(a: Scope, b: Scope)
    requires ValidScope(a) && ValidScope(b) && FenceKey(a) == FenceKey(b)
    ensures a == b
  {
    if a.Tenant? { assert FenceKey(a)[0] == 49 && FenceKey(a)[1..] == a.id; }
    if b.Tenant? { assert FenceKey(b)[0] == 49 && FenceKey(b)[1..] == b.id; }
  }

  /** Unscoped comes first, then the tenants by id. */
  lemma FenceKeyOrder(a: GoString, b: GoString)
    ensures Less(FenceKey(Unscoped), FenceKey(Tenant(a)))
    ensures Less(FenceKey(Tenant(a)), FenceKey(Tenant(b))) <==> Less(a, b)
  {
    assert FenceKey(Tenant(a))[1..] == a && FenceKey(Tenant(b))[1..] == b;
  }

  /** The two scopes in the order their fences are taken. */
  function LockOrder(source: Scope, target: Scope): seq<Scope> {
    if Less(FenceKey(target), FenceKey(source)) then [target, source] else [source, target]
  }

  lemma LockOrderRises(source: Scope, target: Scope)
    requires ValidScope(source) && ValidScope(target) && source != target
    ensures var order := LockOrder(source, target);
            Less(FenceKey(order[0]), FenceKey(order[1])) && order[0] != order[1] && order == LockOrder(target, source)
  {
    LessTotal(FenceKey(source), FenceKey(target));
    if FenceKey(source) == FenceKey(target) { FenceKeyInjective(source, target); }
  }

  // ------------------------------------------------------- acquiring two fences

  datatype FenceCall = Acquire(scope: Scope) | Release(scope: Scope)

  function Acquires(s: seq<Scope>): seq<FenceCall> {
    seq(|s|, i requires 0 <= i < |s| => Acquire(s[i]))
  }

  /** Releases in reverse order of acquisition. */
  function Releases(s: seq<Scope>): seq<FenceCall> {
    seq(|s|, i requires 0 <= i < |s| => Release(s[|s| - 1 - i]))
  }

  /** acquireFences: the calls it makes, and the fences it still holds. Acquisition i
      fails if fails(i), and then every fence taken so far is given back. */
  method AcquireFences(source: Scope, target: Scope, fails: nat -> bool)
    returns (held: seq<Scope>, calls: seq<FenceCall>)
    ensures var order := LockOrder(source, target);
            if !fails(0) && !fails(1) then held == order && calls == Acquires(order)
            else held == [] && exists n :: && 0 <= n < 2 && fails(n)
                                           && (forall j :: 0 <= j < n ==> !fails(j))
                                           && calls == Acquires(order[..n]) + Releases(order[..n])
  {
    var order := LockOrder(source, target);
    held, calls := [], [];
    for i := 0 to |order|
      invariant held == order[..i] && calls == Acquires(order[..i])
      invariant forall j :: 0 <= j < i ==> !fails(j)
    {
      if fails(i) {
        var given := ReleaseAll(held);
        assert held == order[..i] && 0 <= i < 2;
        held, calls := [], calls + given;
        return;
      }
      held, calls := held + [order[i]], calls + [Acquire(order[i])];
      assert order[..i + 1] == order[..i] + [order[i]];
      assert Acquires(order[..i + 1]) == Acquires(order[..i]) + [Acquire(order[i])];
    }
    assert order[..|order|] == order;
  }

  method ReleaseAll(held: seq<Scope>) returns (calls: seq<FenceCall>)
    ensures calls == Releases(held)
  {
    calls := [];
    var i := |held|;
    while i > 0
      invariant 0 <= i <= |held| && calls == Releases(held)[..|held| - i]
    {
      i := i - 1;
      calls := calls + [Release(held[i])];
    }
  }

  // --------------------------------------------------------- concurrent runs

  /** One adopter: at rest, taking its fences, at work under both, or giving
      back those it took. */
  datatype Run =
    | Resting
    | Taking(id: GoString, order: seq<Scope>, taken: nat)
    | Working(id: GoString, order: seq<Scope>)
    | Giving(id: GoString, order: seq<Scope>, left: nat)

  datatype Mark = Took(run: nat, fence: Key) | Gave(run: nat, fence: Key)

  datatype Fenced = Fenced(runs: map<nat, Run>, holder: map<Key, nat>, log: seq<Mark>)

  ghost predicate Is(s: Fenced, a: nat, r: Run) {
    a in s.runs && s.runs[a] == r
  }

  ghost predicate Begins(s: Fenced, s': Fenced, a: nat, id: GoString, source: Scope, target: Scope) {
    && Is(s, a, Resting) && ValidScope(source) && ValidScope(target) && source != target
    && s' == s.(runs := s.runs[a := Taking(id, LockOrder(source, target), 0)])
  }

  /** The fence a run that is still taking asks for next. */
  function Wanted(r: Run): Key
    requires r.Taking? && r.taken < |r.order|
  {
    Key(r.order[r.taken], r.id)
  }

  ghost predicate Takes(s: Fenced, s': Fenced, a: nat) {
    && a in s.runs && s.runs[a].Taking? && s.runs[a].taken < |s.runs[a].order|
    && var r := s.runs[a];
       && Wanted(r) !in s.holder
       && s' == Fenced(s.runs[a := if r.taken + 1 == |r.order| then Working(r.id, r.order)
                              else r.(taken := r.taken + 1)],
                       s.holder[Wanted(r) := a], s.log + [Took(a, Wanted(r))])
  }

  /** An acquisition ends in an error: what was taken is given back. */
  ghost predicate Fails(s: Fenced, s': Fenced, a: nat) {
    && a in s.runs && s.runs[a].Taking?
    && s' == s.(runs := s.runs[a := Giving(s.runs[a].id, s.runs[a].order, s.runs[a].taken)])
  }

  /** The deferred release, on success, on error and on panic. */
  ghost predicate Ends(s: Fenced, s': Fenced, a: nat) {
    && a in s.runs && s.runs[a].Working?
    && s' == s.(runs := s.runs[a := Giving(s.runs[a].id, s.runs[a].order, |s.runs[a].order|)])
  }

  ghost predicate Gives(s: Fenced, s': Fenced, a: nat) {
    && a in s.runs && s.runs[a].Giving?
    && var r := s.runs[a];
       if r.left == 0 || r.left > |r.order| then s' == s.(runs := s.runs[a := Resting])
       else
         var k := Key(r.order[r.left - 1], r.id);
         s' == Fenced(s.runs[a := r.(left := r.left - 1)], s.holder - {k}, s.log + [Gave(a, k)])
  }

  datatype Move =
    | Begin(run: nat, id: GoString, source: Scope, target: Scope)
    | Take(run: nat)
    | Fail(run: nat)
    | End(run: nat)
    | Give(run: nat)

  ghost predicate Moves(s: Fenced, s': Fenced, m: Move) {
    match m
    case Begin(a, id, source, target) => Begins(s, s', a, id, source, target)
    case Take(a) => Takes(s, s', a)
    case Fail(a) => Fails(s, s', a)
    case End(a) => Ends(s, s', a)
    case Give(a) => Gives(s, s', a)
  }

  // -------------------------------------------------------------- invariant

  /** How many of its two fences a run holds: always the first ones. */
  function Depth(r: Run): int {
    match r
    case Resting => 0
    case Taking(_, _, n) => n
    case Working(_, order) => |order|
    case Giving(_, _, n) => n
  }

  predicate Rising(r: Run) {
    r.Resting? || (|r.order| == 2 && Less(FenceKey(r.order[0]), FenceKey(r.order[1])) && Depth(r) <= 2
                   && (r.Taking? ==> r.taken < 2))
  }

  /** Run r holds fence k. */
  predicate Holds(r: Run, k: Key) {
    !r.Resting? && |r.order| == 2 && k.pid == r.id
      && ((Depth(r) >= 1 && k.scope == r.order[0]) || (Depth(r) >= 2 && k.scope == r.order[1]))
  }

  /** How often run a took fence k, less how often it gave it back. */
  function Balance(log: seq<Mark>, a: nat, k: Key): int {
    if log == [] then 0
    else
      Balance(log[..|log| - 1], a, k)
      + (if log[|log| - 1] == Took(a, k) then 1 else if log[|log| - 1] == Gave(a, k) then -1 else 0)
  }

  /** Run a and fence k: a is k's holder exactly when its own record says so, and
      then, and only then, it took k once more than it gave it back. */
  ghost predicate Accounted(s: Fenced, a: nat, k: Key)
    requires a in s.runs
  {
    && (Holds(s.runs[a], k) <==> (k in s.holder && s.holder[k] == a))
    && Balance(s.log, a, k) == if Holds(s.runs[a], k) then 1 else 0
  }

  ghost predicate Disciplined(s: Fenced) {
    && (forall a :: a in s.runs ==> Rising(s.runs[a]))
    && (forall a, k :: a in s.runs ==> Accounted(s, a, k))
    && (forall k :: k in s.holder ==> s.holder[k] in s.runs)
  }

  lemma BalanceExtends(log: seq<Mark>, m: Mark, a: nat, k: Key)
    ensures Balance(log + [m], a, k)
            == Balance(log, a, k) + (if m == Took(a, k) then 1 else if m == Gave(a, k) then -1 else 0)
  {
    assert (log + [m])[..|log|] == log;
  }

  lemma KeysDiffer(r: Run)
    requires Rising(r) && !r.Resting?
    ensures r.order[0] != r.order[1]
  {
    LessTotal(FenceKey(r.order[0]), FenceKey(r.order[0]));
  }

  /** s' is s after run a becomes r and takes or gives fence k. */
  ghost predicate Marks(s: Fenced, s': Fenced, a: nat, r: Run, k: Key, took: bool) {
    && a in s.runs && s'.runs == s.runs[a := r]
    && s'.log == s.log + [if took then Took(a, k) else Gave(a, k)]
    && (if took then k !in s.holder && s'.holder == s.holder[k := a]
        else k in s.holder && s.holder[k] == a && s'.holder == s.holder - {k})
    && (forall x :: Holds(r, x) <==> if x == k then took else Holds(s.runs[a], x))
  }

  lemma MarkAccounted(s: Fenced, s': Fenced, a: nat, r: Run, k: Key, took: bool, b: nat, x: Key)
    requires Marks(s, s', a, r, k, took) && b in s.runs && Accounted(s, b, x)
    ensures Accounted(s', b, x)
  {
    BalanceExtends(s.log, if took then Took(a, k) else Gave(a, k), b, x);
  }

  lemma MarkKept(s: Fenced, s': Fenced, a: nat, r: Run, k: Key, took: bool)
    requires Disciplined(s) && Rising(r) && Marks(s, s', a, r, k, took)
    ensures Disciplined(s')
  {
    forall b, x | b in s'.runs ensures Accounted(s', b, x) {
      assert b in s.runs && Accounted(s, b, x);
      MarkAccounted(s, s', a, r, k, took, b, x);
    }
  }

  /** A step that neither takes nor gives. */
  lemma QuietKept(s: Fenced, s': Fenced, a: nat, r: Run)
    requires Disciplined(s) && a in s.runs && Rising(r) && s' == s.(runs := s.runs[a := r])
    requires forall x :: Holds(r, x) <==> Holds(s.runs[a], x)
    ensures Disciplined(s')
  {
    forall b, x | b in s'.runs ensures Accounted(s', b, x) {
      assert Accounted(s, b, x);
    }
  }

  lemma TakeKept(s: Fenced, s': Fenced, a: nat)
    requires Disciplined(s) && Takes(s, s', a)
    ensures Disciplined(s')
  {
    var r := s.runs[a];
    KeysDiffer(r);
    MarkKept(s, s', a, s'.runs[a], Wanted(r), true);
  }

  lemma GiveKept(s: Fenced, s': Fenced, a: nat)
    requires Disciplined(s) && Gives(s, s', a)
    ensures Disciplined(s')
  {
    var r := s.runs[a];
    KeysDiffer(r);
    if r.left == 0 {
      QuietKept(s, s', a, Resting);
    } else {
      var k := Key(r.order[r.left - 1], r.id);
      assert Holds(r, k) && Accounted(s, a, k);
      MarkKept(s, s', a, r.(left := r.left - 1), k, false);
    }
  }

  lemma MoveKept(s: Fenced, s': Fenced, m: Move)
    requires Disciplined(s) && Moves(s, s', m)
    ensures Disciplined(s')
  {
    match m
    case Begin(a, id, source, target) =>
      LockOrderRises(source, target);
      QuietKept(s, s', a, Taking(id, LockOrder(source, target), 0));
    case Take(a) => TakeKept(s, s', a);
    case Give(a) => GiveKept(s, s', a);
    case Fail(a) => QuietKept(s, s', a, s'.runs[a]);
    case End(a) => QuietKept(s, s', a, s'.runs[a]);
  }

  ghost predicate Start(s: Fenced) {
    s.holder == map[] && s.log == [] && forall a :: a in s.runs ==> s.runs[a] == Resting
  }

  ghost predicate Execution(states: seq<Fenced>, moves: seq<Move>) {
    && |states| == |moves| + 1 && Start(states[0])
    && forall i :: 0 <= i < |moves| ==> Moves(states[i], states[i + 1], moves[i])
  }

  /** In every state of every execution each run has given back exactly what it
      took except the fences it holds now; at rest, all of them. */
  lemma {:induction false} FencesBalance(states: seq<Fenced>, moves: seq<Move>, i: nat)
    requires Execution(states, moves) && i < |states|
    ensures Disciplined(states[i])
    ensures forall a, k :: a in states[i].runs && states[i].runs[a].Resting? ==> Balance(states[i].log, a, k) == 0
  {
    if i > 0 {
      FencesBalance(states, moves, i - 1);
      assert Moves(states[i - 1], states[i], moves[i - 1]);
      MoveKept(states[i - 1], states[i], moves[i - 1]);
    }
    forall a, k | a in states[i].runs && states[i].runs[a].Resting? ensures Balance(states[i].log, a, k) == 0 {
      assert Accounted(states[i], a, k);
    }
  }

  /** In every state of every execution, two runs never hold the same fence. */
  lemma WorkIsExclusive(states: seq<Fenced>, moves: seq<Move>, i: nat, a: nat, b: nat, k: Key)
    requires Execution(states, moves) && i < |states| && a in states[i].runs && b in states[i].runs
    requires Holds(states[i].runs[a], k) && Holds(states[i].runs[b], k)
    ensures a == b
  {
    FencesBalance(states, moves, i);
    assert Accounted(states[i], a, k) && Accounted(states[i], b, k);
  }

  // ------------------------------------------------------------ no deadlock

  /** Run a waits for a fence run b holds. */
  ghost predicate WaitsFor(s: Fenced, a: nat, b: nat) {
    && a in s.runs && s.runs[a].Taking? && s.runs[a].taken < |s.runs[a].order|
    && Wanted(s.runs[a]) in s.holder && s.holder[Wanted(s.runs[a])] == b
  }

  ghost predicate Waiting(s: Fenced, a: nat) {
    exists b :: WaitsFor(s, a, b)
  }

  /** Whoever holds what a waits for waits, if at all, for a later fence of the
      same aggregate. */
  lemma WaitRises(s: Fenced, a: nat, b: nat)
    requires Disciplined(s) && WaitsFor(s, a, b) && Waiting(s, b)
    ensures Wanted(s.runs[a]).pid == Wanted(s.runs[b]).pid
    ensures Less(FenceKey(Wanted(s.runs[a]).scope), FenceKey(Wanted(s.runs[b]).scope))
  {
    assert Accounted(s, b, Wanted(s.runs[a]));
  }

  /** A chain of runs, each waiting for the next. */
  ghost predicate WaitChain(s: Fenced, chain: seq<nat>) {
    forall i :: 0 <= i < |chain| - 1 ==> WaitsFor(s, chain[i], chain[i + 1])
  }

  lemma {:induction false} ChainRises(s: Fenced, chain: seq<nat>)
    requires Disciplined(s) && |chain| >= 2 && WaitChain(s, chain) && Waiting(s, chain[|chain| - 1])
    ensures Waiting(s, chain[0])
    ensures Less(FenceKey(Wanted(s.runs[chain[0]]).scope), FenceKey(Wanted(s.runs[chain[|chain| - 1]]).scope))
    decreases |chain|
  {
    var n := |chain|;
    assert WaitsFor(s, chain[0], chain[1]);
    assert WaitsFor(s, chain[n - 2], chain[n - 1]);
    WaitRises(s, chain[n - 2], chain[n - 1]);
    if n > 2 {
      var front := chain[..n - 1];
      assert forall i :: 0 <= i < n - 1 ==> front[i] == chain[i];
      ChainRises(s, front);
      LessTransitive(FenceKey(Wanted(s.runs[chain[0]]).scope), FenceKey(Wanted(s.runs[chain[n - 2]]).scope),
                     FenceKey(Wanted(s.runs[chain[n - 1]]).scope));
    }
  }

  /** No set of concurrent runs, in whatever directions they move data, ever waits
      in a cycle. */
  lemma NoWaitCycle(states: seq<Fenced>, moves: seq<Move>, i: nat, cycle: seq<nat>)
    requires Execution(states, moves) && i < |states| && cycle != []
    ensures !(WaitChain(states[i], cycle) && WaitsFor(states[i], cycle[|cycle| - 1], cycle[0]))
  {
    FencesBalance(states, moves, i);
    ChainsEnd(states[i], cycle);
  }

  lemma ChainsEnd(s: Fenced, chain: seq<nat>)
    requires Disciplined(s) && chain != []
    ensures WaitChain(s, chain) ==> !WaitsFor(s, chain[|chain| - 1], chain[0])
  {
    var first, last := chain[0], chain[|chain| - 1];
    if WaitChain(s, chain) && WaitsFor(s, last, first) {
      assert Waiting(s, last);
      if |chain| > 1 { ChainRises(s, chain); }
      WaitRises(s, last, first);
      LessTotal(FenceKey(Wanted(s.runs[first]).scope), FenceKey(Wanted(s.runs[last]).scope));
      assert false;
    }
  }

  /** Run a can take a step of its own. */
  ghost predicate CanMove(s: Fenced, a: nat) {
    a in s.runs && !s.runs[a].Resting? && !Waiting(s, a)
  }

  lemma CanMoveMoves(s: Fenced, a: nat)
    requires Disciplined(s) && CanMove(s, a)
    ensures exists s', m :: Moves(s, s', m) && m.run == a && !m.Fail?
  {
    var r := s.runs[a];
    match r
    case Taking(id, order, n) =>
      assert !WaitsFor(s, a, if Wanted(r) in s.holder then s.holder[Wanted(r)] else a);
      var s' := Fenced(s.runs[a := if n + 1 == |order| then Working(id, order) else r.(taken := n + 1)],
                       s.holder[Wanted(r) := a], s.log + [Took(a, Wanted(r))]);
      assert Moves(s, s', Take(a));
    case Working(id, order) =>
      assert Moves(s, s.(runs := s.runs[a := Giving(id, order, |order|)]), End(a));
    case Giving(id, order, n) =>
      if n == 0 {
        assert Moves(s, s.(runs := s.runs[a := Resting]), Give(a));
      } else {
        var k := Key(order[n - 1], id);
        assert Moves(s, Fenced(s.runs[a := r.(left := n - 1)], s.holder - {k}, s.log + [Gave(a, k)]), Give(a));
      }
  }

  /** As long as some run is active, some active run can move, without any
      acquisition having to fail. */
  lemma NeverStuck(states: seq<Fenced>, moves: seq<Move>, i: nat, a: nat)
    requires Execution(states, moves) && i < |states| && a in states[i].runs && !states[i].runs[a].Resting?
    ensures exists b, s', m :: CanMove(states[i], b) && Moves(states[i], s', m) && m.run == b && !m.Fail?
  {
    FencesBalance(states, moves, i);
    var s := states[i];
    var waited := set b | b in s.runs && Waiting(s, b) :: FenceKey(Wanted(s.runs[b]).scope);
    var b := a;
    if Waiting(s, a) {
      assert FenceKey(Wanted(s.runs[a]).scope) in waited;
      var top := Greatest(waited);
      var w :| w in s.runs && Waiting(s, w) && FenceKey(Wanted(s.runs[w]).scope) == top;
      b :| WaitsFor(s, w, b);
      assert b in s.runs && Accounted(s, b, Wanted(s.runs[w]));
      if Waiting(s, b) {
        WaitRises(s, w, b);
        LessTotal(top, FenceKey(Wanted(s.runs[b]).scope));
        assert false;
      }
    }
    assert CanMove(s, b);
    CanMoveMoves(s, b);
  }
}
