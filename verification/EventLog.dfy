/** The immutable log an event store publishes per (scope, persistence id). */
module EventLog {
  import opened GoText
  import opened Records

  datatype Log = Log(revision: U64, events: seq<Record>)

  const EMPTY := Log(0, [])

  predicate Distinct(s: seq<Record>) {
    forall i, j :: 0 <= i < j < |s| ==> s[i].pos != s[j].pos
  }

  /** One record per position, and no record above the revision. */
  predicate ValidLog(log: Log) {
    Distinct(log.events) && forall i :: 0 <= i < |log.events| ==> log.events[i].pos <= log.revision
  }

  /** The last place holding position p. */
  function LastIndex(s: seq<Record>, p: U64): (r: Option<nat>)
    ensures r.Some? ==> r.value < |s| && s[r.value].pos == p
    ensures r.None? ==> forall i :: 0 <= i < |s| ==> s[i].pos != p
  {
    if s == [] then None
    else if s[|s| - 1].pos == p then Some(|s| - 1)
    else LastIndex(s[..|s| - 1], p)
  }

  /** The position-to-record map of a sequence; a later record overrides. */
  function ByPos(s: seq<Record>): map<U64, Record> {
    if s == [] then map[] else ByPos(s[..|s| - 1])[s[|s| - 1].pos := s[|s| - 1]]
  }

  lemma {:induction false} ByPosAt(s: seq<Record>, p: U64)
    ensures p in ByPos(s) <==> LastIndex(s, p).Some?
    ensures p in ByPos(s) ==> ByPos(s)[p] == s[LastIndex(s, p).value]
  {
    if s != [] { ByPosAt(s[..|s| - 1], p); }
  }

  lemma ByPosOfDistinct(s: seq<Record>, i: nat)
    requires Distinct(s) && i < |s|
    ensures s[i].pos in ByPos(s) && ByPos(s)[s[i].pos] == s[i]
  {
    ByPosAt(s, s[i].pos);
  }

  lemma {:induction false} ByPosSize(s: seq<Record>)
    ensures |ByPos(s)| <= |s|
    ensures |ByPos(s)| == |s| <==> Distinct(s)
  {
    if s != [] {
      var front, last := s[..|s| - 1], s[|s| - 1];
      ByPosSize(front);
      ByPosAt(front, last.pos);
      assert ByPos(s).Keys == ByPos(front).Keys + {last.pos};
      if Distinct(front) && LastIndex(front, last.pos).None? {
        assert forall i :: 0 <= i < |front| ==> s[i] == front[i];
      }
    }
  }

  // --------------------------------------------------------------- merging

  /** Replace the record at e's position in place, or append e. */
  function Put(log: Log, e: Record): Log {
    Log(if e.pos > log.revision then e.pos else log.revision,
        match LastIndex(log.events, e.pos)
        case Some(i) => log.events[i := e]
        case None => log.events + [e])
  }

  function PutAll(log: Log, batch: seq<Record>): Log {
    if batch == [] then log else Put(PutAll(log, batch[..|batch| - 1]), batch[|batch| - 1])
  }

  function Merge(prior: Option<Log>, batch: seq<Record>): Log {
    PutAll(if prior.Some? then prior.value else EMPTY, batch)
  }

  ghost predicate IndexFor(index: map<U64, nat>, s: seq<Record>) {
    forall p: U64 :: LastIndex(s, p) == if p in index then Some(index[p]) else None
  }

  /** newEventLog: the slice and its position index are updated side by side. */
  method NewEventLog(prior: Option<Log>, batch: seq<Record>) returns (log: Log)
    ensures log == Merge(prior, batch)
  {
    var start := if prior.Some? then prior.value else EMPTY;
    var revision, merged := start.revision, start.events;
    var index: map<U64, nat> := map[];
    for i := 0 to |merged|
      invariant IndexFor(index, merged[..i])
    {
      IndexGrows(index, merged[..i], merged[i]);
      assert merged[..i + 1] == merged[..i] + [merged[i]];
      index := index[merged[i].pos := i];
    }
    assert merged[..|merged|] == merged;
    for k := 0 to |batch|
      invariant Log(revision, merged) == PutAll(start, batch[..k])
      invariant IndexFor(index, merged)
    {
      var e := batch[k];
      assert batch[..k + 1][..k] == batch[..k];
      if e.pos in index {
        IndexKept(index, merged, index[e.pos], e);
        merged := merged[index[e.pos] := e];
      } else {
        IndexGrows(index, merged, e);
        index := index[e.pos := |merged|];
        merged := merged + [e];
      }
      if e.pos > revision { revision := e.pos; }
    }
    assert batch[..|batch|] == batch;
    log := Log(revision, merged);
  }

  lemma IndexGrows(index: map<U64, nat>, s: seq<Record>, e: Record)
    requires IndexFor(index, s)
    ensures IndexFor(index[e.pos := |s|], s + [e])
  {
    assert (s + [e])[..|s|] == s;
  }

  lemma IndexKept(index: map<U64, nat>, s: seq<Record>, i: nat, e: Record)
    requires IndexFor(index, s) && i < |s| && s[i].pos == e.pos
    ensures IndexFor(index, s[i := e])
  {
    forall p: U64 ensures LastIndex(s[i := e], p) == LastIndex(s, p) {
      SamePositions(s, s[i := e], p);
    }
  }

  lemma {:induction false} SamePositions(s: seq<Record>, t: seq<Record>, p: U64)
    requires |s| == |t| && forall i :: 0 <= i < |s| ==> s[i].pos == t[i].pos
    ensures LastIndex(s, p) == LastIndex(t, p)
  {
    if s != [] { SamePositions(s[..|s| - 1], t[..|t| - 1], p); }
  }

  // ------------------------------------------------- what merging preserves

  lemma ReplaceOverrides(s: seq<Record>, i: nat, e: Record)
    requires i < |s| && s[i].pos == e.pos && LastIndex(s, e.pos) == Some(i)
    ensures ByPos(s[i := e]) == ByPos(s)[e.pos := e]
  {
    var t := s[i := e];
    forall p: U64 ensures p in ByPos(t) <==> p in ByPos(s)[e.pos := e]
                  ensures p in ByPos(t) ==> ByPos(t)[p] == ByPos(s)[e.pos := e][p]
    {
      SamePositions(s, t, p);
      ByPosAt(s, p);
      ByPosAt(t, p);
    }
  }

  lemma AppendOverrides(s: seq<Record>, e: Record)
    ensures ByPos(s + [e]) == ByPos(s)[e.pos := e]
  {
    assert (s + [e])[..|s|] == s;
  }

  lemma PutOverrides(log: Log, e: Record)
    requires ValidLog(log)
    ensures ValidLog(Put(log, e))
    ensures ByPos(Put(log, e).events) == ByPos(log.events)[e.pos := e]
    ensures |Put(log, e).events| >= |log.events|
    ensures forall i :: 0 <= i < |log.events| ==> Put(log, e).events[i].pos == log.events[i].pos
  {
    match LastIndex(log.events, e.pos)
    case None => AppendOverrides(log.events, e);
    case Some(i) => ReplaceOverrides(log.events, i, e);
  }

  function MaxPos(s: seq<Record>, floor: U64): U64 {
    if s == [] then floor
    else
      var m := MaxPos(s[..|s| - 1], floor);
      if s[|s| - 1].pos > m then s[|s| - 1].pos else m
  }

  lemma {:induction false} MaxPosIsUpperBound(s: seq<Record>, r: Record)
    requires r in s
    ensures r.pos <= MaxPos(s, 0)
  {
    if r in s[..|s| - 1] { MaxPosIsUpperBound(s[..|s| - 1], r); }
  }

  /** Merging keeps one record per position and every old record's place, and
      the revision is the maximum of the old one and the batch's positions. */
  lemma {:induction false} MergeKeepsPlaces(log: Log, batch: seq<Record>)
    requires ValidLog(log)
    ensures ValidLog(PutAll(log, batch))
    ensures |log.events| <= |PutAll(log, batch).events|
    ensures forall i :: 0 <= i < |log.events| ==> PutAll(log, batch).events[i].pos == log.events[i].pos
    ensures PutAll(log, batch).revision == MaxPos(batch, log.revision)
  {
    if batch != [] {
      var front := batch[..|batch| - 1];
      MergeKeepsPlaces(log, front);
      PutOverrides(PutAll(log, front), batch[|batch| - 1]);
    }
  }

  lemma OverrideStep(a: map<U64, Record>, b: map<U64, Record>, r: Record)
    ensures (a + b)[r.pos := r] == a + b[r.pos := r]
  {
  }

  /** Merging is overriding the old position map by the batch, in order. */
  lemma {:induction false} MergeIsOverride(log: Log, batch: seq<Record>)
    requires ValidLog(log)
    ensures ByPos(PutAll(log, batch).events) == ByPos(log.events) + ByPos(batch)
  {
    if batch == [] {
      assert ByPos(log.events) + map[] == ByPos(log.events);
    } else {
      var front, last := batch[..|batch| - 1], batch[|batch| - 1];
      MergeIsOverride(log, front);
      MergeKeepsPlaces(log, front);
      PutOverrides(PutAll(log, front), last);
      OverrideStep(ByPos(log.events), ByPos(front), last);
    }
  }

  lemma DistinctFront(front: seq<Record>, last: Record)
    requires Distinct(front + [last])
    ensures Distinct(front) && forall i :: 0 <= i < |front| ==> front[i].pos != last.pos
  {
    var s := front + [last];
    assert forall i :: 0 <= i < |front| ==> s[i] == front[i];
    assert s[|front|] == last;
  }

  lemma PutFresh(log: Log, e: Record)
    requires forall i :: 0 <= i < |log.events| ==> log.events[i].pos != e.pos
    ensures Put(log, e) == Log(if e.pos > log.revision then e.pos else log.revision, log.events + [e])
  {
  }

  /** A batch without repeated positions becomes a fresh log unchanged. */
  lemma {:induction false} MergeFresh(batch: seq<Record>)
    requires Distinct(batch)
    ensures PutAll(EMPTY, batch) == Log(MaxPos(batch, 0), batch)
  {
    if batch != [] {
      var front, last := batch[..|batch| - 1], batch[|batch| - 1];
      assert batch == front + [last];
      DistinctFront(front, last);
      MergeFresh(front);
      PutFresh(Log(MaxPos(front, 0), front), last);
    }
  }

  // -------------------------------------------------- deletion and reading

  /** The records above position `to`, in log order. */
  function Above(s: seq<Record>, to: U64): (t: seq<Record>)
    ensures forall r :: r in t <==> r in s && r.pos > to
    ensures |t| <= |s|
  {
    if s == [] then []
    else
      var front, last := s[..|s| - 1], s[|s| - 1];
      assert s == front + [last];
      if last.pos > to then Above(front, to) + [last] else Above(front, to)
  }

  /** DeleteEvents on one log: the revision survives. */
  function Truncate(log: Log, to: U64): Log {
    Log(log.revision, Above(log.events, to))
  }

  lemma {:induction false} AboveKeepsDistinct(s: seq<Record>, to: U64)
    requires Distinct(s)
    ensures Distinct(Above(s, to))
    ensures |Above(s, to)| == |s| <==> forall r :: r in s ==> r.pos > to
    ensures (forall r :: r in s ==> r.pos > to) ==> Above(s, to) == s
  {
    if s != [] {
      var front, last := s[..|s| - 1], s[|s| - 1];
      assert s == front + [last];
      AboveKeepsDistinct(front, to);
      assert forall r :: r in Above(front, to) ==> r.pos != last.pos;
    }
  }

  lemma TruncateKeepsValid(log: Log, to: U64)
    requires ValidLog(log)
    ensures ValidLog(Truncate(log, to))
  {
    AboveKeepsDistinct(log.events, to);
    var t := Above(log.events, to);
    assert forall i :: 0 <= i < |t| ==> t[i] in t;
  }

  // ---------------------------------------------------------------- replay

  predicate Ascending(s: seq<Record>) {
    forall i, j :: 0 <= i < j < |s| ==> s[i].pos <= s[j].pos
  }

  /** r placed behind every record of s at or below its position. */
  function Insert(s: seq<Record>, r: Record): seq<Record> {
    if s == [] || s[|s| - 1].pos <= r.pos then s + [r]
    else Insert(s[..|s| - 1], r) + [s[|s| - 1]]
  }

  /** s stably sorted by position. */
  function InSequenceOrder(s: seq<Record>): seq<Record> {
    if s == [] then [] else Insert(InSequenceOrder(s[..|s| - 1]), s[|s| - 1])
  }

  lemma {:induction false} InsertSorts(s: seq<Record>, r: Record)
    requires Ascending(s)
    ensures Ascending(Insert(s, r))
    ensures multiset(Insert(s, r)) == multiset(s) + multiset{r}
  {
    if s != [] && s[|s| - 1].pos > r.pos {
      var front, last := s[..|s| - 1], s[|s| - 1];
      assert s == front + [last];
      InsertSorts(front, r);
      LastStaysLast(front, r, Insert(front, r), last);
    }
  }

  lemma LastStaysLast(front: seq<Record>, r: Record, t: seq<Record>, last: Record)
    requires Ascending(t) && multiset(t) == multiset(front) + multiset{r} && r.pos < last.pos
    requires forall i :: 0 <= i < |front| ==> front[i].pos <= last.pos
    ensures Ascending(t + [last])
  {
    forall i | 0 <= i < |t| ensures t[i].pos <= last.pos {
      assert t[i] in multiset(t);
      assert t[i] in front || t[i] == r;
    }
  }

  /** Replaying sorts: the same records, repeats included, in ascending order. */
  lemma {:induction false} ReplaySorts(s: seq<Record>)
    ensures Ascending(InSequenceOrder(s)) && multiset(InSequenceOrder(s)) == multiset(s)
  {
    if s != [] {
      ReplaySorts(s[..|s| - 1]);
      InsertSorts(InSequenceOrder(s[..|s| - 1]), s[|s| - 1]);
      assert s == s[..|s| - 1] + [s[|s| - 1]];
    }
  }

  lemma {:induction false} ReplayKeepsOrder(s: seq<Record>)
    requires Ascending(s)
    ensures InSequenceOrder(s) == s
  {
    if s != [] {
      var front, last := s[..|s| - 1], s[|s| - 1];
      ReplayKeepsOrder(front);
      InsertLast(front, last);
      assert s == front + [last];
    }
  }

  lemma InsertLast(s: seq<Record>, r: Record)
    requires s != [] ==> s[|s| - 1].pos <= r.pos
    ensures Insert(s, r) == s + [r]
  {
  }

  lemma SameRecords(s: seq<Record>, t: seq<Record>)
    requires multiset(s) == multiset(t)
    ensures |s| == |t| && forall x :: x in s <==> x in t
  {
    assert |multiset(s)| == |s| && |multiset(t)| == |t|;
    assert forall x :: x in multiset(s) <==> x in s;
    assert forall x :: x in multiset(t) <==> x in t;
  }

  lemma DistinctByContents(s: seq<Record>, t: seq<Record>)
    requires |s| == |t| && (forall x :: x in s <==> x in t)
    ensures Distinct(s) <==> Distinct(t)
  {
    ByPosSize(s);
    ByPosSize(t);
    ByPosKeysOf(s);
    ByPosKeysOf(t);
    assert ByPos(s).Keys == ByPos(t).Keys;
    assert |ByPos(s).Keys| == |ByPos(s)| && |ByPos(t).Keys| == |ByPos(t)|;
  }

  lemma ByPosKeysOf(s: seq<Record>)
    ensures forall p :: p in ByPos(s) <==> exists x :: x in s && x.pos == p
  {
    forall p: U64 ensures p in ByPos(s) <==> exists x :: x in s && x.pos == p {
      ByPosAt(s, p);
    }
  }

  /** A full replay starts at sequence 1: every record but one at position 0. */
  function Replay(log: Option<Log>): seq<Record> {
    if log.None? then [] else InSequenceOrder(Above(log.value.events, 0))
  }

  lemma ReplayHolds(log: Log)
    ensures forall r :: r in Replay(Some(log)) <==> r in log.events && r.pos > 0
    ensures |Replay(Some(log))| == |Above(log.events, 0)|
  {
    ReplaySorts(Above(log.events, 0));
    SameRecords(Replay(Some(log)), Above(log.events, 0));
  }

  lemma ReplayOfDistinct(log: Log)
    requires Distinct(log.events)
    ensures Distinct(Replay(Some(log))) && Ascending(Replay(Some(log)))
  {
    AboveKeepsDistinct(log.events, 0);
    ReplaySorts(Above(log.events, 0));
    SameRecords(Replay(Some(log)), Above(log.events, 0));
    DistinctByContents(Replay(Some(log)), Above(log.events, 0));
  }
}
