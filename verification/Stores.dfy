/** The in-memory event and state stores, called by one thread at a time: the
    objects whose concurrent form is the optimistic machine. */
module Stores {
  import opened GoText
  import opened Conflict
  import opened Records
  import opened EventLog
  import opened Pagination
  import opened StoreOps

  /** `Panics` stands for a slice bound out of range. */
  datatype Answer =
    | Accepted
    | Panics
    | NotConnected
    | InvalidScope
    | InvalidPrecondition
    | PreconditionScope
    | Conflicted(error: ConflictError)

  function Find<V>(db: map<Key, V>, k: Key): Option<V> {
    if k in db then Some(db[k]) else None
  }

  function ActualRevision(log: Option<Log>): Option<U64> {
    if log.None? then None else Some(log.value.revision)
  }

  // ------------------------------------------------------- batches and groups

  /** The events of a batch that belong to one persistence id, in batch order. */
  function Of(events: seq<Record>, id: GoString): seq<Record> {
    if events == [] then []
    else
      var front, last := Of(events[..|events| - 1], id), events[|events| - 1];
      if last.pid == id then front + [last] else front
  }

  function Ids(events: seq<Record>): set<GoString> {
    set i | 0 <= i < |events| :: events[i].pid
  }

  lemma {:induction false} OfOne(events: seq<Record>, id: GoString)
    ensures (forall i :: 0 <= i < |events| ==> events[i].pid == id) ==> Of(events, id) == events
    ensures id !in Ids(events) ==> Of(events, id) == []
    ensures forall i :: 0 <= i < |Of(events, id)| ==> Of(events, id)[i].pid == id
  {
    if events != [] {
      var front := events[..|events| - 1];
      OfOne(front, id);
      assert events == front + [events[|events| - 1]];
    }
  }

  /** One batch after another: the parts follow one another. */
  lemma {:induction false} OfConcat(a: seq<Record>, b: seq<Record>, id: GoString)
    ensures Of(a + b, id) == Of(a, id) + Of(b, id)
    decreases |b|
  {
    if b == [] {
      assert a + b == a;
    } else {
      var front, last := b[..|b| - 1], b[|b| - 1];
      assert (a + b)[..|a + b| - 1] == a + front && (a + b)[|a + b| - 1] == last;
      OfConcat(a, front, id);
    }
  }

  /** What is under k once the batch is merged. */
  function WrittenAt(db: map<Key, Log>, events: seq<Record>, k: Key): Log {
    Merge(Find(db, k), Of(events, k.pid))
  }

  function Keys(scope: Scope, ids: set<GoString>): set<Key> {
    set id | id in ids :: Key(scope, id)
  }

  /** The store once each of `ids` merged its own part of the batch. */
  function Written(db: map<Key, Log>, scope: Scope, events: seq<Record>, ids: set<GoString>): map<Key, Log> {
    db + map k | k in Keys(scope, ids) :: WrittenAt(db, events, k)
  }

  lemma WrittenNext(db: map<Key, Log>, scope: Scope, events: seq<Record>, ids: set<GoString>, id: GoString)
    requires id !in ids
    ensures var k := Key(scope, id);
            && Find(Written(db, scope, events, ids), k) == Find(db, k)
            && Written(db, scope, events, ids + {id}) == Written(db, scope, events, ids)[k := WrittenAt(db, events, k)]
  {
    var k := Key(scope, id);
    assert Keys(scope, ids + {id}) == Keys(scope, ids) + {k};
    assert k !in Keys(scope, ids);
  }

  /** A written store key by key: an aggregate of the batch has its old events overridden
      by its own part and its revision raised to the highest sequence; every other key is
      as it was. */
  lemma WrittenMeans(db: map<Key, Log>, scope: Scope, events: seq<Record>, k: Key)
    requires ValidLogs(db)
    ensures var after := Written(db, scope, events, Ids(events));
            if k.scope != scope || k.pid !in Ids(events) then Find(after, k) == Find(db, k)
            else && k in after
                 && var before := if k in db then db[k] else EMPTY;
                 && ByPos(after[k].events) == ByPos(before.events) + ByPos(Of(events, k.pid))
                 && after[k].revision == MaxPos(Of(events, k.pid), before.revision)
  {
    var before := if k in db then db[k] else EMPTY;
    MergeIsOverride(before, Of(events, k.pid));
    MergeKeepsPlaces(before, Of(events, k.pid));
    if k.scope == scope && k.pid in Ids(events) {
      assert k == Key(scope, k.pid);
      assert k in Keys(scope, Ids(events));
    } else {
      assert k !in Keys(scope, Ids(events));
    }
  }

  lemma WrittenOne(db: map<Key, Log>, scope: Scope, events: seq<Record>, id: GoString)
    requires forall i :: 0 <= i < |events| ==> events[i].pid == id
    ensures Written(db, scope, events, {id}) == db[Key(scope, id) := Merge(Find(db, Key(scope, id)), events)]
  {
    OfOne(events, id);
    WrittenNext(db, scope, events, {}, id);
    assert Written(db, scope, events, {}) == db && {} + {id} == {id};
  }

  /** Every log is valid and holds its own aggregate's events only. */
  ghost predicate OwnLogs(db: map<Key, Log>) {
    ValidLogs(db) && forall k, i :: k in db && 0 <= i < |db[k].events| ==> db[k].events[i].pid == k.pid
  }

  lemma {:induction false} MergeKeepsOwner(log: Log, batch: seq<Record>, id: GoString)
    requires forall i :: 0 <= i < |log.events| ==> log.events[i].pid == id
    requires forall i :: 0 <= i < |batch| ==> batch[i].pid == id
    ensures forall i :: 0 <= i < |PutAll(log, batch).events| ==> PutAll(log, batch).events[i].pid == id
  {
    if batch != [] { MergeKeepsOwner(log, batch[..|batch| - 1], id); }
  }

  lemma MergedIsOwn(db: map<Key, Log>, k: Key, batch: seq<Record>)
    requires OwnLogs(db) && forall i :: 0 <= i < |batch| ==> batch[i].pid == k.pid
    ensures OwnLogs(db[k := Merge(Find(db, k), batch)])
  {
    var start := if k in db then db[k] else EMPTY;
    MergeKeepsPlaces(start, batch);
    MergeKeepsOwner(start, batch, k.pid);
  }

  lemma TruncatedIsOwn(db: map<Key, Log>, k: Key, to: U64)
    requires OwnLogs(db) && k in db
    ensures OwnLogs(db[k := Truncate(db[k], to)])
    ensures |Above(db[k].events, to)| == |db[k].events| ==> db[k := Truncate(db[k], to)] == db
  {
    var retained := Above(db[k].events, to);
    AboveKeepsDistinct(db[k].events, to);
    TruncateKeepsValid(db[k], to);
    forall i | 0 <= i < |retained| ensures retained[i].pid == k.pid {
      assert retained[i] in retained && retained[i] in db[k].events;
    }
  }

  // ------------------------------------------------------------- reading

  predicate Between(r: Record, from: U64, to: U64) {
    from <= r.pos <= to
  }

  function Range(s: seq<Record>, from: U64, to: U64): seq<Record> {
    if s == [] then []
    else
      var front, last := Range(s[..|s| - 1], from, to), s[|s| - 1];
      if Between(last, from, to) then front + [last] else front
  }

  function Limited(s: seq<Record>, limit: nat): seq<Record> {
    if |s| > limit then s[..limit] else s
  }

  lemma {:induction false} RangeHolds(s: seq<Record>, from: U64, to: U64)
    ensures forall r :: r in Range(s, from, to) <==> r in s && Between(r, from, to)
    ensures |Range(s, from, to)| <= |s|
  {
    if s != [] {
      RangeHolds(s[..|s| - 1], from, to);
      assert s == s[..|s| - 1] + [s[|s| - 1]];
    }
  }

  lemma {:induction false} FullRange(s: seq<Record>)
    ensures Range(s, 1, U64_LIMIT - 1) == Above(s, 0)
  {
    if s != [] { FullRange(s[..|s| - 1]); }
  }

  /** What a replay returns: events of the range in ascending order, no earlier one left
      out for a later one; as many as the limit, or all of them, repeats included. */
  ghost predicate IsReplay(log: seq<Record>, from: U64, to: U64, limit: nat, events: seq<Record>) {
    && Ascending(events) && |events| <= limit
    && (forall e :: e in events ==> e in log && from <= e.pos <= to)
    && (forall x, e :: x in log && from <= x.pos <= to && x !in events && e in events ==> e.pos <= x.pos)
    && (|events| < limit ==> multiset(events) == multiset(Range(log, from, to)))
    && (|events| < limit ==> forall x :: x in log && from <= x.pos <= to ==> x in events)
  }

  lemma LimitedReplay(log: seq<Record>, from: U64, to: U64, limit: nat)
    ensures var full := InSequenceOrder(Range(log, from, to));
            && IsReplay(log, from, to, limit, Limited(full, limit))
            && |Limited(full, limit)| == (if limit < |full| then limit else |full|)
            && Limited(full, limit) <= full
  {
    var part := Range(log, from, to);
    var full := InSequenceOrder(part);
    RangeHolds(log, from, to);
    ReplaySorts(part);
    SameRecords(full, part);
    var events := Limited(full, limit);
    FirstOfSorted(full, |events|);
    assert events == full[..|events|];
    assert |events| < limit ==> events == full;
  }

  /** The first n records of an ascending list come before the others. */
  lemma FirstOfSorted(full: seq<Record>, n: nat)
    requires Ascending(full) && n <= |full|
    ensures var events := full[..n];
            && Ascending(events) && (forall e :: e in events ==> e in full)
            && forall x, e :: x in full && x !in events && e in events ==> e.pos <= x.pos
  {
    var events := full[..n];
    forall x, e | x in full && x !in events && e in events ensures e.pos <= x.pos {
      var i :| 0 <= i < |full| && full[i] == x;
      var j :| 0 <= j < n && events[j] == e;
      assert i >= n by { assert forall k :: 0 <= k < n ==> full[k] in events; }
    }
  }

  // ---------------------------------------------------------- the event store

  class EventStore {
    var db: map<Key, Log>

    ghost predicate Valid()
      reads this
    {
      OwnLogs(db)
    }

    constructor ()
      ensures Valid() && db == map[]
    {
      db := map[];
    }

    /** WriteEvents. A conditional write commits exactly when its precondition
        holds of its one aggregate, and otherwise names the revision it found. */
    method WriteEvents(scope: Scope, events: seq<Record>, pre: Precondition) returns (r: Answer)
      requires Valid()
      modifies this
      ensures Valid()
      ensures r != Accepted ==> db == old(db)
      ensures r == Accepted ==> db == Written(old(db), scope, events, Ids(events))
      ensures r == InvalidScope <==> !ValidScope(scope)
      ensures r == InvalidPrecondition <==> ValidScope(scope) && pre == Undeclared
      ensures r == PreconditionScope <==>
              ValidScope(scope) && pre != Undeclared && pre != Unconditional && |Ids(events)| != 1
      ensures r == Accepted && pre != Unconditional ==>
              events != [] && Holds(pre, Find(old(db), Key(scope, events[0].pid)))
      ensures r.Conflicted? ==> && pre != Unconditional && events != []
                                && var found := Find(old(db), Key(scope, events[0].pid));
                                   && !Holds(pre, found)
                                   && r.error == ConflictError(scope, events[0].pid, pre,
                                                               if found.Some? then Some(found.value.revision) else None)
      ensures r != NotConnected && r != Panics
      ensures r == Accepted && pre == Genesis ==> Key(scope, events[0].pid) !in old(db)
      ensures r == Accepted && pre.Exact? ==>
              var k := Key(scope, events[0].pid); k in old(db) && old(db)[k].revision == pre.revision
      ensures r.Conflicted? && pre.Exact? ==>
              var k := Key(scope, events[0].pid); k !in old(db) || old(db)[k].revision != pre.revision
    {
      if !ValidScope(scope) { return InvalidScope; }
      if pre == Undeclared { return InvalidPrecondition; }
      if pre == Unconditional {
        WriteUnconditional(scope, events);
        return Accepted;
      }
      if |events| == 0 {
        return PreconditionScope;
      }
      var id := events[0].pid;
      assert events[0].pid in Ids(events);
      for i := 1 to |events|
        invariant forall j :: 0 <= j < i ==> events[j].pid == id
      {
        if events[i].pid != id {
          TwoIds(events, 0, i);
          return PreconditionScope;
        }
      }
      assert Ids(events) == {id};
      r := WriteConditional(scope, id, events, pre);
    }

    method WriteConditional(scope: Scope, id: GoString, events: seq<Record>, pre: Precondition) returns (r: Answer)
      requires Valid() && events != [] && (pre.Genesis? || pre.Exact?) 
      requires forall i :: 0 <= i < |events| ==> events[i].pid == id
      modifies this
      ensures Valid()
      ensures var found := Find(old(db), Key(scope, id));
              if Holds(pre, found) then r == Accepted && db == Written(old(db), scope, events, {id})
              else r == Conflicted(ConflictError(scope, id, pre, ActualRevision(found))) && db == old(db)
    {
      var k := Key(scope, id);
      var found := Find(db, k);
      WrittenOne(db, scope, events, id);
      MergedIsOwn(db, k, events);
      if pre == Genesis {
        if found.Some? { return Conflicted(ConflictError(scope, id, pre, Some(found.value.revision))); }
        var log := NewEventLog(None, events);
        db := db[k := log];
        return Accepted;
      }
      if found.None? || found.value.revision != pre.revision {
        return Conflicted(ConflictError(scope, id, pre, ActualRevision(found)));
      }
      var log := NewEventLog(found, events);
      db := db[k := log];
      r := Accepted;
    }

    /** The batch split by persistence id, ids in order of first appearance. */
    method Group(events: seq<Record>) returns (grouped: map<GoString, seq<Record>>, order: seq<GoString>)
      ensures grouped.Keys == Ids(events) && forall id :: id in grouped ==> grouped[id] == Of(events, id)
      ensures forall id :: id in order <==> id in grouped
      ensures forall i, j :: 0 <= i < j < |order| ==> order[i] != order[j]
    {
      grouped, order := map[], [];
      for i := 0 to |events|
        invariant grouped.Keys == Ids(events[..i]) && forall id :: id in grouped ==> grouped[id] == Of(events[..i], id)
        invariant forall id :: id in order <==> id in grouped
        invariant forall a, b :: 0 <= a < b < |order| ==> order[a] != order[b]
      {
        var id := events[i].pid;
        assert events[..i + 1][..i] == events[..i] && events[..i + 1] == events[..i] + [events[i]];
        assert Ids(events[..i + 1]) == Ids(events[..i]) + {id};
        if id !in grouped {
          OfOne(events[..i], id);
          order := order + [id];
          grouped := grouped[id := [events[i]]];
        } else {
          grouped := grouped[id := grouped[id] + [events[i]]];
        }
      }
      assert events[..|events|] == events;
    }

    method WriteUnconditional(scope: Scope, events: seq<Record>)
      requires Valid()
      modifies this
      ensures Valid()
      ensures db == Written(old(db), scope, events, Ids(events))
    {
      var grouped, order := Group(events);
      ghost var done: set<GoString> := {};
      for n := 0 to |order|
        invariant Valid()
        invariant done == set i | 0 <= i < n :: order[i]
        invariant db == Written(old(db), scope, events, done)
      {
        assert order[n] in order;
        WrittenNext(old(db), scope, events, done, order[n]);
        AppendGroup(Key(scope, order[n]), grouped[order[n]], events);
        done := done + {order[n]};
      }
      assert done == Ids(events);
    }

    method AppendGroup(k: Key, group: seq<Record>, ghost events: seq<Record>)
      requires Valid() && group == Of(events, k.pid)
      modifies this
      ensures Valid() && db == old(db)[k := WrittenAt(old(db), events, k)]
    {
      OfOne(events, k.pid);
      MergedIsOwn(db, k, group);
      var log := NewEventLog(Find(db, k), group);
      db := db[k := log];
    }

    /** DeleteEvents: the revision survives. */
    method DeleteEvents(scope: Scope, id: GoString, to: U64) returns (r: Answer)
      requires Valid()
      modifies this
      ensures Valid()
      ensures r == if ValidScope(scope) then Accepted else InvalidScope
      ensures var k := Key(scope, id);
              db == if ValidScope(scope) && k in old(db) then old(db)[k := Truncate(old(db)[k], to)] else old(db)
    {
      if !ValidScope(scope) { return InvalidScope; }
      r := Accepted;
      var k := Key(scope, id);
      if k !in db { return; }
      var log := db[k];
      var retained := Retained(log.events, to);
      TruncatedIsOwn(db, k, to);
      if |retained| == |log.events| { return; }
      db := db[k := Log(log.revision, retained)];
    }

    static method Retained(events: seq<Record>, to: U64) returns (retained: seq<Record>)
      ensures retained == Above(events, to)
    {
      retained := [];
      for i := 0 to |events|
        invariant retained == Above(events[..i], to)
      {
        assert events[..i + 1][..i] == events[..i];
        if events[i].pos > to { retained := retained + [events[i]]; }
      }
      assert events[..|events|] == events;
    }

    /** ReplayEvents. A limit beyond the platform's int turns negative and cannot be
        sliced by. */
    method ReplayEvents(scope: Scope, id: GoString, from: U64, to: U64, limit: U64)
      returns (r: Answer, events: seq<Record>)
      ensures r == InvalidScope <==> !ValidScope(scope)
      ensures r == Panics <==> ValidScope(scope) && Key(scope, id) in db && limit > MAX_INT
      ensures r == InvalidScope || r == Panics || r == Accepted
      ensures var k := Key(scope, id);
              events == if r != Accepted || k !in db then []
                        else Limited(InSequenceOrder(Range(db[k].events, from, to)), limit)
      ensures r == Accepted && Key(scope, id) in db ==>
                IsReplay(db[Key(scope, id)].events, from, to, limit, events)
    {
      events := [];
      if !ValidScope(scope) { return InvalidScope, []; }
      r := Accepted;
      var k := Key(scope, id);
      if k !in db { return; }
      var log := db[k];
      for i := 0 to |log.events|
        invariant events == Range(log.events[..i], from, to)
      {
        assert log.events[..i + 1][..i] == log.events[..i];
        if log.events[i].pos >= from && log.events[i].pos <= to { events := events + [log.events[i]]; }
      }
      assert log.events[..|log.events|] == log.events;
      events := InSequenceOrder(events);
      if |events| > AsInt(limit) {
        if AsInt(limit) < 0 { return Panics, []; }
        events := events[..limit];
      }
      LimitedReplay(log.events, from, to, limit);
    }

    /** GetLatestEvent: the retained event of highest sequence, if any. */
    method GetLatestEvent(scope: Scope, id: GoString) returns (r: Answer, latest: Option<Record>)
      ensures r == if ValidScope(scope) then Accepted else InvalidScope
      ensures var k := Key(scope, id);
              if ValidScope(scope) && k in db && db[k].events != [] then
                && latest.Some? && latest.value in db[k].events
                && forall e :: e in db[k].events ==> e.pos <= latest.value.pos
              else latest == None
    {
      if !ValidScope(scope) { return InvalidScope, None; }
      r := Accepted;
      var k := Key(scope, id);
      if k !in db || |db[k].events| == 0 { return Accepted, None; }
      var events := db[k].events;
      var best := events[0];
      for i := 1 to |events|
        invariant best in events
        invariant forall j :: 0 <= j < i ==> events[j].pos <= best.pos
      {
        if events[i].pos > best.pos { best := events[i]; }
      }
      latest := Some(best);
    }

    /** PersistenceIDs: the first ids of the scope beyond the token, as many as fit,
        in order; a token no id is beyond starts over. A page whose end overflows
        the platform's int cannot be sliced. */
    method PersistenceIDs(scope: Scope, size: U64, token: GoString) returns (r: Answer, page: Page)
      requires |IdsIn(db, scope)| <= MAX_INT
      ensures r == InvalidScope <==> !ValidScope(scope)
      ensures r == Accepted ==> var ids := IdsIn(db, scope); IsPage(ids, size, Effective(ids, token), page)
      ensures forall id :: id in IdsIn(db, scope) <==> Key(scope, id) in db
      ensures forall id :: id in page.ids ==> Key(scope, id) in db
      ensures r == Panics <==> ValidScope(scope) && StartOf(Ordered(IdsIn(db, scope)), token) + size > MAX_INT
      ensures r == InvalidScope || r == Panics || r == Accepted
    {
      IdsAreKeys(db, scope);
      if !ValidScope(scope) { return InvalidScope, Page([], []); }
      var keys := Ordered(IdsIn(db, scope));
      assert IdsIn(db, scope) == Members(keys);
      var p := Paginate(keys, size, token);
      if p.None? { return Panics, Page([], []); }
      r, page := Accepted, p.value;
    }
  }

  /** The persistence ids a scope holds. */
  function IdsIn(db: map<Key, Log>, scope: Scope): set<GoString> {
    set k | k in db && k.scope == scope :: k.pid
  }

  lemma IdsAreKeys(db: map<Key, Log>, scope: Scope)
    ensures forall id :: id in IdsIn(db, scope) <==> Key(scope, id) in db
  {
    forall id | Key(scope, id) in db ensures id in IdsIn(db, scope) {
      assert Key(scope, id).scope == scope && Key(scope, id).pid == id;
    }
  }

  lemma TwoIds(events: seq<Record>, i: nat, j: nat)
    requires i < |events| && j < |events| && events[i].pid != events[j].pid
    ensures |Ids(events)| != 1
  {
    var s := Ids(events);
    assert events[i].pid in s && events[j].pid in s;
    assert |s - {events[i].pid} - {events[j].pid}| == |s| - 2;
  }

  /** A replay from sequence 1 on, unlimited, is what adoption reads: every
      retained event but one at 0, once each, ascending. */
  lemma FullReplay(log: Log)
    requires |log.events| <= MAX_INT
    ensures Limited(InSequenceOrder(Range(log.events, 1, U64_LIMIT - 1)), MAX_INT) == Replay(Some(log))
    ensures ValidLog(log) ==> Ascending(Replay(Some(log))) && Distinct(Replay(Some(log)))
  {
    FullRange(log.events);
    ReplayHolds(log);
    if ValidLog(log) { ReplayOfDistinct(log); }
  }

  /** What a writer merged is what a replay of its range returns. */
  lemma ReadYourWrites(prior: Option<Log>, batch: seq<Record>, r: Record)
    requires prior.Some? ==> ValidLog(prior.value)
    requires r in batch && Distinct(batch)
    ensures r in InSequenceOrder(Range(Merge(prior, batch).events, r.pos, r.pos))
  {
    var start := if prior.Some? then prior.value else EMPTY;
    var log := Merge(prior, batch);
    MergeIsOverride(start, batch);
    var i :| 0 <= i < |batch| && batch[i] == r;
    ByPosOfDistinct(batch, i);
    ByPosAt(log.events, r.pos);
    RangeHolds(log.events, r.pos, r.pos);
    ReplaySorts(Range(log.events, r.pos, r.pos));
    SameRecords(InSequenceOrder(Range(log.events, r.pos, r.pos)), Range(log.events, r.pos, r.pos));
  }

  // ---------------------------------------------------------- the state store

  class DurableStore {
    var connected: bool
    var db: map<Key, Record>

    ghost predicate Valid()
      reads this
    {
      forall k :: k in db ==> db[k].pid == k.pid
    }

    constructor ()
      ensures Valid() && db == map[] && !connected
    {
      connected, db := false, map[];
    }

    method Connect()
      modifies this`connected
      ensures connected
    {
      if connected { return; }
      connected := true;
    }

    /** Disconnecting forgets everything. */
    method Disconnect()
      modifies this
      ensures !connected && db == if old(connected) then map[] else old(db)
    {
      if !connected { return; }
      db := map[];
      connected := false;
    }

    method WriteState(scope: Scope, state: Record, pre: Precondition) returns (r: Answer)
      requires Valid()
      modifies this`db
      ensures Valid()
      ensures var k := Key(scope, state.pid);
              var found := Find(old(db), k);
              var open := connected && ValidScope(scope) && pre != Undeclared;
              && (db == if open && StateHolds(pre, found) then old(db)[k := state] else old(db))
              && r == if !connected then NotConnected
                      else if !ValidScope(scope) then InvalidScope
                      else if pre == Undeclared then InvalidPrecondition
                      else if StateHolds(pre, found) then Accepted
                      else Conflicted(ConflictError(scope, state.pid, pre, if found.None? then None
                                                    else Some(found.value.pos)))
      ensures var k := Key(scope, state.pid);
              && (r == Accepted && pre == Genesis ==> k !in old(db))
              && (r == Accepted && pre.Exact? ==> k in old(db) && old(db)[k].pos == pre.revision)
              && (r.Conflicted? && pre == Genesis ==> k in old(db))
              && (r.Conflicted? && pre.Exact? ==> k !in old(db) || old(db)[k].pos != pre.revision)
              && (r.Conflicted? ==> pre == Genesis || pre.Exact?)
    {
      if !connected { return NotConnected; }
      if !ValidScope(scope) { return InvalidScope; }
      if pre == Undeclared { return InvalidPrecondition; }
      var k := Key(scope, state.pid);
      if pre == Unconditional {
        db := db[k := state];
        return Accepted;
      }
      var current := Find(db, k);
      if pre == Genesis {
        if current.Some? { return Conflicted(ConflictError(scope, state.pid, pre, Some(current.value.pos))); }
        db := db[k := state];
        return Accepted;
      }
      if current.None? || current.value.pos != pre.revision {
        if current.Some? { return Conflicted(ConflictError(scope, state.pid, pre, Some(current.value.pos))); }
        return Conflicted(ConflictError(scope, state.pid, pre, None));
      }
      db := db[k := state];
      r := Accepted;
    }

    method GetLatestState(scope: Scope, id: GoString) returns (r: Answer, state: Option<Record>)
      requires Valid()
      ensures r == if !connected then NotConnected else if !ValidScope(scope) then InvalidScope else Accepted
      ensures state == if r == Accepted then Find(db, Key(scope, id)) else None
      ensures state.Some? ==> state.value.pid == id
    {
      if !connected { return NotConnected, None; }
      if !ValidScope(scope) { return InvalidScope, None; }
      r, state := Accepted, Find(db, Key(scope, id));
    }
  }
}
