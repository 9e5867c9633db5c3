/** The runner object between two steps of its loop: the pending-shard test and
    one worker's pass over one shard, with the outcome of every store round trip
    and of every event as parameters. */
module RunnerLoop {
  import opened GoText
  import opened Recovery
  import opened Runner

  /** What the stores and the handler do during one doProcess. */
  datatype Weather = Weather(readOffset: bool, readEvents: bool, next: int, event: nat -> Verdict, write: bool,
                             writeEffect: bool)

  /** The first place from k on whose event is neither handled nor skipped. */
  function FirstBad(event: nat -> Verdict, k: nat, hi: nat): (n: nat)
    requires k <= hi
    ensures k <= n <= hi
    ensures forall i :: k <= i < n ==> event(i).Handled? || event(i).Skipped?
    ensures n < hi ==> event(n).Failed? || event(n).Undecodable?
    decreases hi - k
  {
    if k == hi || event(k).Failed? || event(k).Undecodable? then k else FirstBad(event, k + 1, hi)
  }

  /** The places lo, lo + 1, ..., n - 1. */
  function Places(lo: nat, n: nat): (s: seq<nat>)
    decreases n
  {
    if n <= lo then [] else Places(lo, n - 1) + [n - 1]
  }

  /** What one doProcess comes to: the places it settles, whether the stored
      offset moves, and whether it succeeds. */
  datatype Passed = Passed(places: seq<nat>, moves: bool, ok: bool)

  /** The batch is places lo..hi: settled up to the first bad event; the offset
      moves only when there is none. */
  function BatchResult(lo: nat, hi: nat, weather: Weather): Passed
    requires lo < hi
  {
    var n := FirstBad(weather.event, lo, hi);
    Passed(Places(lo, n), n == hi && (!weather.write || weather.writeEffect), n == hi && !weather.write)
  }

  /** GetShardEvents answers with places lo..hi, or fails. */
  function PassResult(lo: nat, hi: nat, weather: Weather): Passed {
    if weather.readEvents then Passed([], false, false)
    else if hi <= lo then Passed([], false, true)
    else BatchResult(lo, hi, weather)
  }

  /** What a whole doProcess comes to, from a shard's offset in the store and in the
      cache. */
  datatype ShardPass = ShardPass(stored: int, cached: Option<int>, places: seq<nat>, ok: bool)

  function PassOf(running: bool, starting: Option<int>, journal: seq<int>, stored: int, cached: Option<int>,
                  weather: Weather): ShardPass
  {
    if !running then ShardPass(stored, cached, [], true)
    else if cached.None? && weather.readOffset then ShardPass(stored, cached, [], false)
    else
      var known := if cached.Some? then cached.value else stored;
      var r := PassResult(UpTo(journal, if starting.Some? then starting.value else known), UpTo(journal, weather.next),
                          weather);
      ShardPass(if r.moves then weather.next else stored, Some(if r.ok && r.moves then weather.next else known),
                r.places, r.ok)
  }

  /** How many events a read of places lo..hi returns. */
  function BatchSize(lo: nat, hi: nat): nat {
    if lo < hi then hi - lo else 0
  }

  class ProjectionRunner {
    const starting: Option<int>
    var running: bool
    var committed: map<Shard, int>
    var stored: map<Shard, int>
    /** Places handled or skipped, per shard, in order. */
    var settled: map<Shard, seq<nat>>
    var sawFullBatch: bool

    constructor (from: Option<int>, offsets: map<Shard, int>)
      ensures starting == from && running && committed == map[] && stored == offsets && settled == map[]
              && !sawFullBatch
    {
      starting, running, committed, stored, settled, sawFullBatch := from, true, map[], offsets, map[], false;
    }

    function Stored(shard: Shard): int
      reads this`stored
    {
      if shard in stored then stored[shard] else 0
    }

    function Cached(shard: Shard): Option<int>
      reads this`committed
    {
      if shard in committed then Some(committed[shard]) else None
    }

    function SettledOf(shard: Shard): seq<nat>
      reads this`settled
    {
      if shard in settled then settled[shard] else []
    }

    /** pendingShards: each shard once, and exactly those whose latest event is
        past the offset its next pull starts from. */
    method PendingShards(latest: map<Shard, int>) returns (shards: seq<Shard>)
      ensures forall i, j :: 0 <= i < j < |shards| ==> shards[i] != shards[j]
      ensures forall k :: k in shards <==>
                k in latest && if starting.Some? then latest[k] > starting.value
                  else k !in committed || latest[k] > committed[k]
    {
      shards := [];
      var left := latest.Keys;
      while left != {}
        invariant left <= latest.Keys
        invariant forall i, j :: 0 <= i < j < |shards| ==> shards[i] != shards[j]
        invariant forall k :: k in shards <==>
                    k in latest && k !in left && if starting.Some? then latest[k] > starting.value
                      else k !in committed || latest[k] > committed[k]
        decreases |left|
      {
        var k :| k in left;
        left := left - {k};
        if starting.Some? {
          if latest[k] > starting.value { shards := shards + [k]; }
        } else if k !in committed || latest[k] > committed[k] {
          shards := shards + [k];
        }
      }
    }

    /** currentOffset: the store is read on the shard's first encounter only. */
    method CurrentOffset(shard: Shard, fails: bool) returns (offset: Option<int>)
      modifies this`committed
      ensures shard in old(committed) || !fails ==>
                && shard in committed
                && committed[shard] == (if shard in old(committed) then old(committed)[shard] else Stored(shard))
                && committed == old(committed)[shard := committed[shard]]
                && offset == Some(if starting.Some? then starting.value else committed[shard])
      ensures shard !in old(committed) && fails ==> offset == None && committed == old(committed)
      ensures forall k :: k != shard ==> Cached(k) == old(Cached(k))
    {
      if shard !in committed {
        if fails { return None; }
        committed := committed[shard := Stored(shard)];
      }
      offset := Some(if starting.Some? then starting.value else committed[shard]);
    }

    /** commitOffset: the cache moves only with an acknowledged write. */
    method CommitOffset(shard: Shard, next: int, fails: bool, effect: bool) returns (ok: bool)
      modifies this`stored, this`committed
      ensures ok == !fails
      ensures stored == if !fails || effect then old(stored)[shard := next] else old(stored)
      ensures committed == if !fails then old(committed)[shard := next] else old(committed)
    {
      if fails {
        if effect { stored := stored[shard := next]; }
        return false;
      }
      stored := stored[shard := next];
      committed := committed[shard := next];
      ok := true;
    }

    /** processEvents: every event of the batch in order, then one commit. A bad
        event leaves the offsets alone. */
    method ProcessEvents(shard: Shard, lo: nat, hi: nat, next: int, weather: Weather) returns (ok: bool)
      requires lo < hi
      modifies this`settled, this`stored, this`committed
      ensures var r := BatchResult(lo, hi, weather);
              && SettledOf(shard) == old(SettledOf(shard)) + r.places && ok == r.ok
              && stored == (if r.moves then old(stored)[shard := next] else old(stored))
              && committed == (if ok then old(committed)[shard := next] else old(committed))
      ensures forall k :: k != shard ==> SettledOf(k) == old(SettledOf(k))
    {
      for k := lo to hi
        invariant FirstBad(weather.event, lo, hi) == FirstBad(weather.event, k, hi)
        invariant SettledOf(shard) == old(SettledOf(shard)) + Places(lo, k)
        invariant forall j :: j != shard ==> SettledOf(j) == old(SettledOf(j))
        invariant stored == old(stored) && committed == old(committed)
      {
        var v := weather.event(k);
        if v.Failed? || v.Undecodable? { return false; }
        settled := settled[shard := SettledOf(shard) + [k]];
      }
      ok := CommitOffset(shard, next, weather.write, weather.writeEffect);
    }

    /** The part of doProcess after the current offset is known. */
    method ReadAndProcess(shard: Shard, lo: nat, hi: nat, buffer: nat, weather: Weather) returns (ok: bool)
      modifies this`settled, this`stored, this`committed, this`sawFullBatch
      ensures sawFullBatch == (old(sawFullBatch) || (!weather.readEvents && BatchSize(lo, hi) >= buffer))
      ensures var r := PassResult(lo, hi, weather);
              && SettledOf(shard) == old(SettledOf(shard)) + r.places && ok == r.ok
              && stored == (if r.moves then old(stored)[shard := weather.next] else old(stored))
              && committed == (if r.ok && r.moves then old(committed)[shard := weather.next] else old(committed))
      ensures forall k :: k != shard ==>
                Stored(k) == old(Stored(k)) && Cached(k) == old(Cached(k)) && SettledOf(k) == old(SettledOf(k))
    {
      if weather.readEvents { return false; }
      if BatchSize(lo, hi) >= buffer { sawFullBatch := true; }
      if hi <= lo { return true; }
      ok := ProcessEvents(shard, lo, hi, weather.next, weather);
    }

    /** doProcess on a shard whose events have these offsets: it reads from the
        starting offset, the cached one or, on first encounter, the stored one,
        and caches the new offset only once its write was acknowledged. A
        stopped runner does nothing, and an offset that cannot be read leaves
        everything as it was. */
    method DoProcess(shard: Shard, journal: seq<int>, buffer: nat, weather: Weather) returns (ok: bool)
      modifies this
      ensures var p := PassOf(old(running), starting, journal, old(Stored(shard)), old(Cached(shard)), weather);
              && Stored(shard) == p.stored && Cached(shard) == p.cached && ok == p.ok
              && SettledOf(shard) == old(SettledOf(shard)) + p.places
      ensures forall k :: k != shard ==>
                Stored(k) == old(Stored(k)) && Cached(k) == old(Cached(k)) && SettledOf(k) == old(SettledOf(k))
      ensures running == old(running)
      ensures var from := if starting.Some? then starting.value else old(Cached(shard)).UnwrapOr(old(Stored(shard)));
              sawFullBatch == (|| old(sawFullBatch)
                               || (&& old(running) && (old(Cached(shard)).Some? || !weather.readOffset)
                                   && !weather.readEvents
                                   && BatchSize(UpTo(journal, from), UpTo(journal, weather.next)) >= buffer))
    {
      if !running { return true; }
      var offset := CurrentOffset(shard, weather.readOffset);
      if offset.None? { return false; }
      ok := ReadAndProcess(shard, UpTo(journal, offset.value), UpTo(journal, weather.next), buffer, weather);
    }
  }
}
