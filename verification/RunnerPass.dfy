/** One worker's pass over a shard, as the object runs it, is a run of the step
    machine by that worker alone: what holds in every reachable state of the steps
    holds after every pass. */
module RunnerPass {
  import opened GoText
  import opened Recovery
  import opened Runner
  import opened RunnerLoop

  /** The settled places of a shard, in the order they were settled. */
  function SettledPlaces(log: seq<Entry>, shard: Shard): seq<nat> {
    if log == [] then []
    else
      var last := log[|log| - 1];
      SettledPlaces(log[..|log| - 1], shard) + if last.shard == shard && last.settled then [last.index] else []
  }

  lemma OneMoreEntry(log: seq<Entry>, e: Entry, shard: Shard)
    ensures SettledPlaces(log + [e], shard)
         == SettledPlaces(log, shard) + if e.shard == shard && e.settled then [e.index] else []
  {
    assert (log + [e])[..|log|] == log;
  }

  lemma {:induction false} PlacesFromFirst(lo: nat, n: nat)
    requires lo < n
    ensures Places(lo, n) == [lo] + Places(lo + 1, n)
    decreases n
  {
    if lo < n - 1 { PlacesFromFirst(lo, n - 1); }
  }

  /** s' adds these places of the shard to what is settled, and nothing else. */
  ghost predicate Adds(s: State, s': State, shard: Shard, places: seq<nat>) {
    && SettledPlaces(s'.log, shard) == SettledPlaces(s.log, shard) + places
    && forall k :: k != shard ==> SettledPlaces(s'.log, k) == SettledPlaces(s.log, k)
  }

  /** Steps that only worker w takes. */
  predicate TakenBy(step: Step, w: nat) {
    match step
    case LocateStep(v, _) => v == w
    case ReadFailsStep(v, _) => v == w
    case FetchStep(v, _, _, _) => v == w
    case HandleStep(v, _, _) => v == w
    case WriteStep(v, _, _, _) => v == w
    case RememberStep(v, _, _) => v == w
    case _ => false
  }

  /** The steps lead from s to s', and worker w takes them all. */
  ghost predicate Leads(c: Config, w: nat, s: State, s': State, states: seq<State>, steps: seq<Step>) {
    && |states| == |steps| + 1 && states[0] == s && states[|steps|] == s'
    && forall i :: 0 <= i < |steps| ==> Takes(c, states[i], states[i + 1], steps[i]) && TakenBy(steps[i], w)
  }

  lemma OneStep(c: Config, w: nat, s: State, s': State, step: Step)
    requires Takes(c, s, s', step) && TakenBy(step, w)
    ensures Leads(c, w, s, s', [s, s'], [step])
  {
  }

  lemma StepFirst(c: Config, w: nat, s: State, m: State, s': State, step: Step, states: seq<State>, steps: seq<Step>)
    requires Takes(c, s, m, step) && TakenBy(step, w) && Leads(c, w, m, s', states, steps)
    ensures Leads(c, w, s, s', [s] + states, [step] + steps)
  {
    var all, taken := [s] + states, [step] + steps;
    forall i | 0 <= i < |taken| ensures Takes(c, all[i], all[i + 1], taken[i]) && TakenBy(taken[i], w) {
      if i > 0 { assert all[i] == states[i - 1] && all[i + 1] == states[i] && taken[i] == steps[i - 1]; }
    }
  }

  /** Where the rest of a batch leads when its first bad event is at n. */
  ghost predicate BatchDone(s: State, s': State, w: nat, v: Worker, weather: Weather, n: nat)
    requires v.Batch? && v.shard in s.shards
  {
    var x := s.shards[v.shard];
    var ok := n == v.hi && !weather.write;
    && s'.workers == s.workers[w := Done(v.shard)]
    && s'.shards == s.shards[v.shard := x.(
         stored := if ok || (n == v.hi && weather.writeEffect) then v.next else x.stored,
         cached := if ok then Some(v.next) else x.cached)]
    && s' == s.(workers := s'.workers, shards := s'.shards, log := s'.log)
  }

  lemma WriteLeads(c: Config, s: State, w: nat, v: Worker, weather: Weather)
    returns (s': State, states: seq<State>, steps: seq<Step>)
    requires At(s, w, v) && v.Batch? && v.k == v.hi
    ensures Leads(c, w, s, s', states, steps) && BatchDone(s, s', w, v, weather, v.hi) && s'.log == s.log
  {
    var ok, effect := !weather.write, !weather.write || weather.writeEffect;
    var s1 := if effect then WithShard(s, v.shard, s.shards[v.shard].(stored := v.next)) else s;
    var m := WithWorker(s1, w, if ok then Written(v.shard, v.next) else Done(v.shard));
    var step := WriteStep(w, v, ok, effect);
    assert Takes(c, s, m, step);
    if ok {
      s' := WithShard(WithWorker(m, w, Done(v.shard)), v.shard, m.shards[v.shard].(cached := Some(v.next)));
      assert Takes(c, m, s', RememberStep(w, v.shard, v.next));
      OneStep(c, w, m, s', RememberStep(w, v.shard, v.next));
      StepFirst(c, w, s, m, s', step, [m, s'], [RememberStep(w, v.shard, v.next)]);
      states, steps := [s] + [m, s'], [step] + [RememberStep(w, v.shard, v.next)];
    } else {
      s' := m;
      OneStep(c, w, s, s', step);
      states, steps := [s, s'], [step];
    }
    assert s.shards == s.shards[v.shard := s.shards[v.shard]];
  }

  function AfterEvent(s: State, w: nat, v: Worker, o: Verdict): State
    requires v.Batch?
  {
    var good := o.Handled? || o.Skipped?;
    var log := if o == Undecodable then s.log else s.log + [Entry(v.shard, v.k, v.run, v.lo, good)];
    WithWorker(s, w, if good then v.(k := v.k + 1) else Done(v.shard)).(log := log)
  }

  lemma EventLeads(c: Config, s: State, w: nat, v: Worker, o: Verdict)
    requires At(s, w, v) && v.Batch? && v.k < v.hi && (o == Skipped ==> Skips(c.policy))
    ensures Takes(c, s, AfterEvent(s, w, v, o), HandleStep(w, v, o))
    ensures Adds(s, AfterEvent(s, w, v, o), v.shard, if o.Handled? || o.Skipped? then [v.k] else [])
  {
    if o != Undecodable {
      forall k ensures k != v.shard ==> SettledPlaces(AfterEvent(s, w, v, o).log, k) == SettledPlaces(s.log, k) {
        OneMoreEntry(s.log, Entry(v.shard, v.k, v.run, v.lo, o.Handled? || o.Skipped?), k);
      }
      OneMoreEntry(s.log, Entry(v.shard, v.k, v.run, v.lo, o.Handled? || o.Skipped?), v.shard);
    }
  }

  lemma GoodEventFirst(s: State, s': State, w: nat, v: Worker, o: Verdict, weather: Weather, n: nat)
    requires At(s, w, v) && v.Batch? && v.k < n <= v.hi && (o.Handled? || o.Skipped?)
    requires var m := AfterEvent(s, w, v, o);
             && Adds(s, m, v.shard, [v.k]) && BatchDone(m, s', w, v.(k := v.k + 1), weather, n)
             && Adds(m, s', v.shard, Places(v.k + 1, n))
    ensures BatchDone(s, s', w, v, weather, n) && Adds(s, s', v.shard, Places(v.k, n))
  {
    PlacesFromFirst(v.k, n);
  }

  lemma BadEventEnds(s: State, w: nat, v: Worker, o: Verdict, weather: Weather)
    requires At(s, w, v) && v.Batch? && v.k < v.hi && (o.Failed? || o.Undecodable?)
    ensures BatchDone(s, AfterEvent(s, w, v, o), w, v, weather, v.k)
  {
    assert s.shards == s.shards[v.shard := s.shards[v.shard]];
  }

  ghost predicate SkipsAllowed(c: Config, weather: Weather) {
    forall i :: weather.event(i) == Skipped ==> Skips(c.policy)
  }

  lemma {:induction false} BatchLeads(c: Config, s: State, w: nat, v: Worker, weather: Weather)
    returns (s': State, states: seq<State>, steps: seq<Step>)
    requires At(s, w, v) && v.Batch? && v.k <= v.hi && SkipsAllowed(c, weather)
    ensures Leads(c, w, s, s', states, steps)
    ensures var n := FirstBad(weather.event, v.k, v.hi);
            BatchDone(s, s', w, v, weather, n) && Adds(s, s', v.shard, Places(v.k, n))
    decreases v.hi - v.k
  {
    if v.k == v.hi {
      s', states, steps := WriteLeads(c, s, w, v, weather);
    } else {
      var o := weather.event(v.k);
      var m := AfterEvent(s, w, v, o);
      EventLeads(c, s, w, v, o);
      if o.Failed? || o.Undecodable? {
        s', states, steps := m, [s, m], [HandleStep(w, v, o)];
        OneStep(c, w, s, m, HandleStep(w, v, o));
        BadEventEnds(s, w, v, o, weather);
        assert Places(v.k, v.k) == [];
      } else {
        s', states, steps := BatchLeads(c, m, w, v.(k := v.k + 1), weather);
        StepFirst(c, w, s, m, s', HandleStep(w, v, o), states, steps);
        states, steps := [s] + states, [HandleStep(w, v, o)] + steps;
        GoodEventFirst(s, s', w, v, o, weather, FirstBad(weather.event, v.k, v.hi));
      }
    }
  }

  /** s' differs from s in the worker, the shard's offsets, and what was read and
      handled. */
  ghost predicate Moved(s: State, s': State, w: nat, shard: Shard, stored: int, cached: Option<int>)
    requires shard in s.shards
  {
    && s'.workers == s.workers[w := Done(shard)] && s'.shards.Keys == s.shards.Keys
    && s'.shards[shard].journal == s.shards[shard].journal
    && s'.shards[shard].stored == stored && s'.shards[shard].cached == cached
    && (forall k :: k in s.shards && k != shard ==> s'.shards[k] == s.shards[k])
    && s'.loop == s.loop && s'.waiting == s.waiting && s'.queue == s.queue && s'.running == s.running
  }

  /** Where a whole pass leads. */
  ghost predicate PassDone(c: Config, s: State, s': State, w: nat, shard: Shard, weather: Weather)
    requires shard in s.shards
  {
    var x := s.shards[shard];
    var p := PassOf(s.running, c.starting, x.journal, x.stored, x.cached, weather);
    Moved(s, s', w, shard, p.stored, p.cached) && Adds(s, s', shard, p.places)
  }

  function AfterFetch(s: State, w: nat, v: Worker): State
    requires v.Batch? && v.shard in s.shards
  {
    var x := s.shards[v.shard];
    var reported := if x.reported.Some? && x.reported.value > v.next then x.reported.value else v.next;
    WithShard(WithWorker(s, w, v), v.shard, x.(reported := Some(reported))).(runs := s.runs + 1)
  }

  lemma BatchMoved(s: State, m: State, s': State, w: nat, v: Worker, weather: Weather, n: nat)
    requires v.Batch? && v.shard in s.shards && w in s.workers && m == AfterFetch(s, w, v)
    requires BatchDone(m, s', w, v, weather, n) && Adds(m, s', v.shard, Places(v.lo, n))
    ensures var x, ok := s.shards[v.shard], n == v.hi && !weather.write;
            Moved(s, s', w, v.shard, if ok || (n == v.hi && weather.writeEffect) then v.next else x.stored,
                  if ok then Some(v.next) else x.cached)
    ensures Adds(s, s', v.shard, Places(v.lo, n))
  {
  }

  /** Reading the events, and the batch if there is one. */
  lemma FetchLeads(c: Config, s: State, w: nat, shard: Shard, cur: int, weather: Weather)
    returns (s': State, states: seq<State>, steps: seq<Step>)
    requires At(s, w, Located(shard, cur)) && SkipsAllowed(c, weather) && s.shards[shard].cached.Some?
    ensures Leads(c, w, s, s', states, steps)
    ensures var x := s.shards[shard];
            var r := PassResult(UpTo(x.journal, cur), UpTo(x.journal, weather.next), weather);
            && Moved(s, s', w, shard, if r.moves then weather.next else x.stored,
                     if r.ok && r.moves then Some(weather.next) else x.cached)
            && Adds(s, s', shard, r.places)
  {
    var x := s.shards[shard];
    var lo, hi := UpTo(x.journal, cur), UpTo(x.journal, weather.next);
    if weather.readEvents || hi <= lo {
      s' := WithWorker(s, w, Done(shard));
      var step := if weather.readEvents then ReadFailsStep(w, Located(shard, cur))
          else FetchStep(w, shard, cur, weather.next);
      OneStep(c, w, s, s', step);
      states, steps := [s, s'], [step];
    } else {
      var v := Batch(shard, s.runs, lo, lo, hi, weather.next);
      var m := AfterFetch(s, w, v);
      var step := FetchStep(w, shard, cur, weather.next);
      assert Fetch(s, m, w, shard, cur, weather.next);
      s', states, steps := BatchLeads(c, m, w, v, weather);
      StepFirst(c, w, s, m, s', step, states, steps);
      states, steps := [s] + states, [step] + steps;
      BatchMoved(s, m, s', w, v, weather, FirstBad(weather.event, lo, hi));
    }
  }

  /** What the object does in one pass, the steps can do: from a state in which
      worker w has been given the shard, its own steps lead to the offsets, the
      cache and the settled places of DoProcess, and leave everything else. */
  lemma PassIsSteps(c: Config, s: State, w: nat, shard: Shard, weather: Weather)
    returns (s': State, states: seq<State>, steps: seq<Step>)
    requires At(s, w, Assigned(shard)) && SkipsAllowed(c, weather)
    ensures Leads(c, w, s, s', states, steps) && PassDone(c, s, s', w, shard, weather)
  {
    var x := s.shards[shard];
    if !s.running || (x.cached.None? && weather.readOffset) {
      s' := WithWorker(s, w, Done(shard));
      var step := if !s.running then LocateStep(w, shard) else ReadFailsStep(w, Assigned(shard));
      OneStep(c, w, s, s', step);
      states, steps := [s, s'], [step];
    } else {
      var known := if x.cached.Some? then x.cached.value else x.stored;
      var cur := if c.starting.Some? then c.starting.value else known;
      var m := WithShard(WithWorker(s, w, Located(shard, cur)), shard, x.(cached := Some(known)));
      assert Locate(c, s, m, w, shard);
      s', states, steps := FetchLeads(c, m, w, shard, cur, weather);
      StepFirst(c, w, s, m, s', LocateStep(w, shard), states, steps);
      states, steps := [s] + states, [LocateStep(w, shard)] + steps;
    }
  }
}
