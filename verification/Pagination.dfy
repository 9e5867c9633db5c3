/** Keyset pagination over the persistence ids of one scope, and the adopter's
    enumeration that follows its tokens. */
module Pagination {
  import opened GoText

  // ------------------------------------------------- the order of Go strings

  /** Bytewise lexicographic order. */
  predicate Less(a: GoString, b: GoString) {
    if b == [] then false
    else if a == [] then true
    else a[0] < b[0] || (a[0] == b[0] && Less(a[1..], b[1..]))
  }

  lemma {:induction false} LessTotal(a: GoString, b: GoString)
    ensures a == b || Less(a, b) || Less(b, a)
    ensures Less(a, b) ==> a != b && !Less(b, a)
  {
    if a != [] && b != [] {
      LessTotal(a[1..], b[1..]);
      assert a == [a[0]] + a[1..] && b == [b[0]] + b[1..];
    }
  }

  lemma {:induction false} LessTransitive(a: GoString, b: GoString, c: GoString)
    requires Less(a, b) && Less(b, c)
    ensures Less(a, c)
  {
    if a != [] && a[0] == b[0] == c[0] { LessTransitive(a[1..], b[1..], c[1..]); }
  }

  predicate Increasing(q: seq<GoString>) {
    forall i, j :: 0 <= i < j < |q| ==> Less(q[i], q[j])
  }

  predicate IsGreatest(s: set<GoString>, m: GoString) {
    m in s && forall x :: x in s && x != m ==> Less(x, m)
  }

  lemma {:induction false} GreatestWitness(s: set<GoString>) returns (m: GoString)
    requires s != {}
    ensures IsGreatest(s, m)
  {
    m :| m in s;
    var rest := s - {m};
    assert forall x :: x in s ==> x == m || x in rest;
    if rest != {} {
      var n := GreatestWitness(rest);
      LessTotal(m, n);
      if Less(m, n) {
        m := n;
      } else {
        forall x | x in s && x != m ensures Less(x, m) {
          if x != n { LessTransitive(x, n, m); }
        }
      }
    }
  }

  lemma HasGreatest(s: set<GoString>)
    requires s != {}
    ensures exists m :: IsGreatest(s, m)
  {
    var m := GreatestWitness(s);
  }

  lemma GreatestUnique(s: set<GoString>, m: GoString, n: GoString)
    requires IsGreatest(s, m) && IsGreatest(s, n)
    ensures m == n
  {
    LessTotal(m, n);
  }

  function Greatest(s: set<GoString>): (m: GoString)
    requires s != {}
    ensures IsGreatest(s, m)
  {
    HasGreatest(s);
    assert forall m, n :: IsGreatest(s, m) && IsGreatest(s, n) ==> m == n by {
      forall m, n | IsGreatest(s, m) && IsGreatest(s, n) ensures m == n {
        GreatestUnique(s, m, n);
      }
    }
    var m :| IsGreatest(s, m);
    m
  }

  /** The ids of a set in increasing order. */
  function Ordered(s: set<GoString>): (q: seq<GoString>)
    ensures Increasing(q) && |q| == |s| && forall x :: x in q <==> x in s
  {
    if s == {} then []
    else
      var m := Greatest(s);
      Ordered(s - {m}) + [m]
  }

  // -------------------------------------------------------------- one page

  /** The first place from i on whose key is beyond the token. */
  function FirstBeyond(keys: seq<GoString>, token: GoString, i: nat): (r: nat)
    requires i <= |keys|
    ensures i <= r <= |keys|
    ensures forall j :: i <= j < r ==> !Less(token, keys[j])
    ensures r < |keys| ==> Less(token, keys[r])
    decreases |keys| - i
  {
    if i == |keys| || Less(token, keys[i]) then i else FirstBeyond(keys, token, i + 1)
  }

  /** An empty token starts at the first key, and so does a token that no key is
      beyond. */
  function StartOf(keys: seq<GoString>, token: GoString): (i: nat)
    ensures i <= |keys|
  {
    if token == [] || FirstBeyond(keys, token, 0) == |keys| then 0 else FirstBeyond(keys, token, 0)
  }

  method StartIndex(keys: seq<GoString>, token: GoString) returns (start: nat)
    ensures start == StartOf(keys, token)
  {
    start := 0;
    if token != [] {
      for i := 0 to |keys|
        invariant start == 0 && FirstBeyond(keys, token, 0) == FirstBeyond(keys, token, i)
      {
        if Less(token, keys[i]) {
          start := i;
          return;
        }
      }
    }
  }

  datatype Page = Page(ids: seq<GoString>, next: GoString)

  /** PersistenceIDs: the token of a page is the last id it returned. */
  function PageOf(keys: seq<GoString>, size: nat, token: GoString): Page {
    var start := StartOf(keys, token);
    var end := if start + size > |keys| then |keys| else start + size;
    var ids := keys[start..end];
    Page(ids, if end < |keys| && ids != [] then ids[|ids| - 1] else [])
  }

  /** The ids a token leaves to return. */
  predicate Pending(token: GoString, id: GoString) {
    token == [] || Less(token, id)
  }

  /** Exactly the keys from start on are pending. */
  ghost predicate PendingFrom(keys: seq<GoString>, token: GoString, start: nat) {
    forall j :: 0 <= j < |keys| ==> (Pending(token, keys[j]) <==> j >= start)
  }

  lemma PageStart(keys: seq<GoString>, token: GoString)
    requires Increasing(keys) && (token != [] ==> exists j :: 0 <= j < |keys| && Less(token, keys[j]))
    ensures PendingFrom(keys, token, StartOf(keys, token))
    ensures token != [] ==> StartOf(keys, token) < |keys|
  {
    var start := StartOf(keys, token);
    if token != [] {
      forall j | start < j < |keys| ensures Less(token, keys[j]) {
        LessTransitive(token, keys[start], keys[j]);
      }
    }
  }

  /** A page's token is its last id, beyond the old token and below some key. */
  lemma PageToken(keys: seq<GoString>, size: nat, token: GoString)
    requires Increasing(keys) && (token != [] ==> exists j :: 0 <= j < |keys| && Less(token, keys[j])) && size > 0
    ensures var p := PageOf(keys, size, token);
            && (forall i :: 0 <= i < |p.ids| ==> p.ids[i] in keys && Pending(token, p.ids[i]))
            && Increasing(p.ids)
            && (p.next != [] ==> && p.ids != [] && p.next == p.ids[|p.ids| - 1]
                                 && p.next in keys && Pending(token, p.next)
                                 && exists j :: 0 <= j < |keys| && Less(p.next, keys[j]))
  {
    PageStart(keys, token);
    var start, p := StartOf(keys, token), PageOf(keys, size, token);
    if p.next != [] { assert Less(keys[start + |p.ids| - 1], keys[start + |p.ids|]); }
  }

  /** What a page returns together with what its token leaves is everything the
      old token left, unless the page ended in the empty id too early. */
  lemma PageCovers(keys: seq<GoString>, size: nat, token: GoString, id: GoString)
    requires Increasing(keys) && (token != [] ==> exists j :: 0 <= j < |keys| && Less(token, keys[j])) && size > 0
    requires id in keys && Pending(token, id)
    requires !(token == [] && size == 1 && keys[0] == [] && |keys| > 1)
    ensures var p := PageOf(keys, size, token); id in p.ids || (p.next != [] && Less(p.next, id))
  {
    PageStart(keys, token);
    var start, p := StartOf(keys, token), PageOf(keys, size, token);
    var j :| 0 <= j < |keys| && keys[j] == id;
    if j < start + |p.ids| {
      assert p.ids[j - start] == id;
    } else {
      LastNotEmpty(keys, size, token);
      assert Less(keys[start + |p.ids| - 1], keys[j]);
    }
  }

  /** A page that stops before the end does not end in the empty id. */
  lemma LastNotEmpty(keys: seq<GoString>, size: nat, token: GoString)
    requires Increasing(keys) && (token != [] ==> exists j :: 0 <= j < |keys| && Less(token, keys[j])) && size > 0
    requires StartOf(keys, token) + size < |keys| && !(token == [] && size == 1 && keys[0] == [] && |keys| > 1)
    ensures keys[StartOf(keys, token) + size - 1] != []
  {
    var last := StartOf(keys, token) + size - 1;
    PageStart(keys, token);
    if token == [] && last > 0 { assert Less(keys[0], keys[last]); }
  }

  // ------------------------------------------------------ what a page means

  ghost predicate HasBeyond(s: set<GoString>, token: GoString) {
    token != [] ==> exists x :: x in s && Less(token, x)
  }

  /** A token no id is beyond starts over. */
  ghost function Effective(s: set<GoString>, token: GoString): GoString {
    if HasBeyond(s, token) then token else []
  }

  /** The first of the pending ids, in increasing order. */
  ghost predicate Earliest(s: set<GoString>, token: GoString, ids: seq<GoString>) {
    && Increasing(ids)
    && (forall x :: x in ids ==> x in s && Pending(token, x))
    && (forall x, y :: x in s && Pending(token, x) && y in ids && Less(x, y) ==> x in ids)
  }

  /** A page of s from a token: the first pending ids, as many as fit, or all of
      them; and a token, the last id, exactly when some id is beyond it. */
  ghost predicate IsPage(s: set<GoString>, size: nat, token: GoString, p: Page) {
    && Earliest(s, token, p.ids)
    && |p.ids| <= size
    && (|p.ids| == size || forall x :: x in s && Pending(token, x) ==> x in p.ids)
    && p.next == if HasLater(s, p.ids) then p.ids[|p.ids| - 1] else []
  }

  ghost predicate HasLater(s: set<GoString>, ids: seq<GoString>) {
    ids != [] && exists x :: x in s && Less(ids[|ids| - 1], x)
  }

  lemma KeyIn(keys: seq<GoString>, token: GoString, start: nat, end: nat, x: GoString)
    requires start <= end <= |keys|
    requires PendingFrom(keys, token, start)
    ensures x in keys[start..end] ==> x in keys && Pending(token, x)
    ensures end == |keys| && x in keys && Pending(token, x) ==> x in keys[start..end]
  {
    if end == |keys| && x in keys && Pending(token, x) {
      var a :| 0 <= a < |keys| && keys[a] == x;
      assert keys[start..end][a - start] == x;
    }
  }

  lemma EarlierIn(keys: seq<GoString>, token: GoString, start: nat, end: nat, x: GoString, y: GoString)
    requires Increasing(keys) && start <= end <= |keys|
    requires PendingFrom(keys, token, start)
    requires x in keys && Pending(token, x) && y in keys[start..end] && Less(x, y)
    ensures x in keys[start..end]
  {
    var a :| 0 <= a < |keys| && keys[a] == x;
    var b :| start <= b < end && keys[b] == y;
    LessTotal(x, y);
    LessTotal(x, x);
    assert a < end;
    assert keys[start..end][a - start] == x;
  }

  lemma SliceIsEarliest(s: set<GoString>, token: GoString, start: nat, end: nat)
    requires start <= end <= |Ordered(s)| && PendingFrom(Ordered(s), token, start)
    ensures Earliest(s, token, Ordered(s)[start..end])
  {
    var keys := Ordered(s);
    var ids := keys[start..end];
    forall x | x in ids ensures x in s && Pending(token, x) {
      KeyIn(keys, token, start, end, x);
    }
    forall x, y | x in s && Pending(token, x) && y in ids && Less(x, y) ensures x in ids {
      EarlierIn(keys, token, start, end, x, y);
    }
  }

  lemma PageIds(s: set<GoString>, size: nat, token: GoString)
    requires HasBeyond(s, token)
    ensures Earliest(s, token, PageOf(Ordered(s), size, token).ids)
  {
    var keys := Ordered(s);
    BeyondKey(s, token);
    PageStart(keys, token);
    var start := StartOf(keys, token);
    SliceIsEarliest(s, token, start, if start + size > |keys| then |keys| else start + size);
  }

  lemma BeyondKey(s: set<GoString>, token: GoString)
    requires HasBeyond(s, token)
    ensures var keys := Ordered(s); token != [] ==> exists j :: 0 <= j < |keys| && Less(token, keys[j])
  {
    if token != [] {
      var x :| x in s && Less(token, x);
      assert x in Ordered(s);
    }
  }

  lemma PageIsFull(s: set<GoString>, size: nat, token: GoString)
    requires HasBeyond(s, token)
    ensures var ids := PageOf(Ordered(s), size, token).ids;
            |ids| == size || (|ids| < size && forall x :: x in s && Pending(token, x) ==> x in ids)
  {
    var keys := Ordered(s);
    BeyondKey(s, token);
    PageStart(keys, token);
    var ids := PageOf(keys, size, token).ids;
    if |ids| < size {
      forall x | x in s && Pending(token, x) ensures x in ids {
        KeyIn(keys, token, StartOf(keys, token), |keys|, x);
      }
    }
  }

  lemma LaterIff(s: set<GoString>, keys: seq<GoString>, start: nat, end: nat)
    requires Increasing(keys) && start < end <= |keys| && forall x :: x in keys <==> x in s
    ensures HasLater(s, keys[start..end]) <==> end < |keys|
  {
    assert keys[start..end][end - start - 1] == keys[end - 1];
    if end < |keys| {
      assert Less(keys[end - 1], keys[end]) && keys[end] in s;
    } else {
      forall x | x in s ensures !Less(keys[end - 1], x) {
        NoneBeyondLast(keys, x);
      }
    }
  }

  lemma PageNext(s: set<GoString>, keys: seq<GoString>, size: nat, token: GoString)
    requires Increasing(keys) && forall x :: x in keys <==> x in s
    ensures var p := PageOf(keys, size, token);
            p.next == if HasLater(s, p.ids) then p.ids[|p.ids| - 1] else []
  {
    var start := StartOf(keys, token);
    var end := if start + size > |keys| then |keys| else start + size;
    if start < end { LaterIff(s, keys, start, end); }
  }

  lemma NoneBeyondLast(keys: seq<GoString>, x: GoString)
    requires Increasing(keys) && x in keys
    ensures !Less(keys[|keys| - 1], x)
  {
    var a :| 0 <= a < |keys| && keys[a] == x;
    LessTotal(keys[|keys| - 1], x);
  }

  lemma FoundBeyond(s: set<GoString>, keys: seq<GoString>, token: GoString)
    requires FirstBeyond(keys, token, 0) < |keys| && forall x :: x in keys ==> x in s
    ensures HasBeyond(s, token)
  {
    var x := keys[FirstBeyond(keys, token, 0)];
    assert x in s;
  }

  lemma StaleStartsOver(s: set<GoString>, size: nat, token: GoString)
    requires !HasBeyond(s, token)
    ensures PageOf(Ordered(s), size, token) == PageOf(Ordered(s), size, [])
  {
    if FirstBeyond(Ordered(s), token, 0) < |Ordered(s)| { FoundBeyond(s, Ordered(s), token); }
  }

  /** The arithmetic of PersistenceIDs computes the page. */
  lemma PageOfIsPage(s: set<GoString>, size: nat, token: GoString)
    ensures IsPage(s, size, Effective(s, token), PageOf(Ordered(s), size, token))
  {
    if !HasBeyond(s, token) { StaleStartsOver(s, size, token); }
    var effective := Effective(s, token);
    PageIds(s, size, effective);
    PageIsFull(s, size, effective);
    PageNext(s, Ordered(s), size, effective);
  }

  ghost function Members(keys: seq<GoString>): set<GoString> {
    set x | x in keys
  }

  ghost predicate SameIds(a: seq<GoString>, b: seq<GoString>) {
    forall x :: x in a <==> x in b
  }

  lemma {:induction false} IncreasingUnique(a: seq<GoString>, b: seq<GoString>)
    requires Increasing(a) && Increasing(b) && SameIds(a, b)
    ensures a == b
  {
    assert |a| == |b| by {
      IncreasingSize(a);
      IncreasingSize(b);
      assert Members(a) == Members(b);
    }
    if |a| > 0 {
      var x, y := a[|a| - 1], b[|b| - 1];
      assert x in a && y in b;
      LastIsGreatest(a, y);
      LastIsGreatest(b, x);
      LessTotal(x, y);
      var front, back := a[..|a| - 1], b[..|b| - 1];
      FrontHolds(a, front);
      FrontHolds(b, back);
      IncreasingUnique(front, back);
      assert a == front + [x] && b == back + [x];
    }
  }

  lemma LastIsGreatest(a: seq<GoString>, x: GoString)
    requires Increasing(a) && x in a
    ensures x == a[|a| - 1] || Less(x, a[|a| - 1])
  {
    var i :| 0 <= i < |a| && a[i] == x;
  }

  lemma FrontHolds(a: seq<GoString>, front: seq<GoString>)
    requires Increasing(a) && a != [] && front == a[..|a| - 1]
    ensures forall x :: x in front <==> x in a && x != a[|a| - 1]
  {
    assert a == front + [a[|a| - 1]];
    forall x | x in front ensures x != a[|a| - 1] {
      var i :| 0 <= i < |front| && front[i] == x;
      assert Less(a[i], a[|a| - 1]);
      LessTotal(x, x);
    }
  }

  lemma {:induction false} IncreasingSize(a: seq<GoString>)
    requires Increasing(a)
    ensures |Members(a)| == |a|
  {
    if a != [] {
      var front := a[..|a| - 1];
      IncreasingSize(front);
      FrontHolds(a, front);
      assert Members(a) == Members(front) + {a[|a| - 1]};
    }
  }

  /** Of two pages one holds everything the other does. */
  lemma PageIncludes(s: set<GoString>, size: nat, token: GoString, p: Page, q: Page)
    requires IsPage(s, size, token, p) && IsPage(s, size, token, q)
    requires exists x :: x in p.ids && x !in q.ids
    ensures Members(q.ids) < Members(p.ids)
  {
    var x :| x in p.ids && x !in q.ids;
    assert x in Members(p.ids) && x !in Members(q.ids);
    forall y | y in q.ids ensures y in p.ids {
      LessTotal(x, y);
    }
  }

  /** A page is determined by what it means. */
  lemma PageUnique(s: set<GoString>, size: nat, token: GoString, p: Page, q: Page)
    requires IsPage(s, size, token, p) && IsPage(s, size, token, q)
    ensures p == q
  {
    NotMore(s, size, token, p, q);
    NotMore(s, size, token, q, p);
    IncreasingUnique(p.ids, q.ids);
  }

  lemma NotMore(s: set<GoString>, size: nat, token: GoString, p: Page, q: Page)
    requires IsPage(s, size, token, p) && IsPage(s, size, token, q)
    ensures forall x :: x in p.ids ==> x in q.ids
  {
    if exists x :: x in p.ids && x !in q.ids {
      PageIncludes(s, size, token, p, q);
      IncreasingSize(p.ids);
      IncreasingSize(q.ids);
      SmallerSet(Members(q.ids), Members(p.ids));
      assert false;
    }
  }

  lemma SmallerSet(a: set<GoString>, b: set<GoString>)
    requires a < b
    ensures |a| < |b|
  {
    assert b == a + (b - a) && b - a != {};
  }

  lemma SliceEnd(start: nat, size: U64)
    requires start <= MAX_INT
    ensures start + size <= MAX_INT ==> Wrap(start + AsInt(size)) == start + size
    ensures start + size > MAX_INT ==> Wrap(start + AsInt(size)) < start
  {
  }

  lemma SortedPage(keys: seq<GoString>, size: nat, token: GoString)
    requires Increasing(keys)
    ensures var s := Members(keys); IsPage(s, size, Effective(s, token), PageOf(keys, size, token))
  {
    IncreasingUnique(Ordered(Members(keys)), keys);
    PageOfIsPage(Members(keys), size, token);
  }

  /** PersistenceIDs on the sorted keys, in the platform's arithmetic; nothing when
      the end of the page wraps around, and slicing panics. */
  method Paginate(keys: seq<GoString>, size: U64, token: GoString) returns (page: Option<Page>)
    requires Increasing(keys) && |keys| <= MAX_INT
    ensures page.None? <==> StartOf(keys, token) + size > MAX_INT
    ensures page.Some? ==> var s := Members(keys); IsPage(s, size, Effective(s, token), page.value)
  {
    var start := StartIndex(keys, token);
    SliceEnd(start, size);
    var end := Wrap(start + AsInt(size));
    if end > |keys| { end := |keys|; }
    if end < start { return None; }
    var ids := keys[start..end];
    page := Some(Page(ids, if end < |keys| && |ids| > 0 then ids[|ids| - 1] else []));
    assert page == Some(PageOf(keys, size, token));
    SortedPage(keys, size, token);
  }

  // --------------------------------------------------- following the tokens

  /** The ids in the store at the n-th call; ids are added, never removed. */
  ghost predicate Grows(snap: nat -> set<GoString>, universe: set<GoString>) {
    && (forall i, j :: 0 <= i <= j ==> snap(i) <= snap(j))
    && (forall i :: snap(i) <= universe)
  }

  ghost function Rest(universe: set<GoString>, token: GoString): set<GoString> {
    set x | x in universe && Pending(token, x)
  }

  lemma TokenAdvances(snap: nat -> set<GoString>, universe: set<GoString>, n: nat, size: nat, token: GoString)
    requires Grows(snap, universe) && HasBeyond(snap(n), token) && size > 0
    ensures var p := PageOf(Ordered(snap(n)), size, token);
            p.next != [] ==> HasBeyond(snap(n + 1), p.next) && Rest(universe, p.next) < Rest(universe, token)
  {
    var keys := Ordered(snap(n));
    var p := PageOf(keys, size, token);
    if token != [] {
      var x :| x in snap(n) && Less(token, x);
      assert x in keys;
    }
    PageToken(keys, size, token);
    if p.next != [] {
      assert snap(n) <= snap(n + 1);
      var j :| 0 <= j < |keys| && Less(p.next, keys[j]);
      assert keys[j] in snap(n + 1);
      LessTotal(p.next, p.next);
      assert p.next in Rest(universe, token) && p.next !in Rest(universe, p.next);
      forall x | x in Rest(universe, p.next) ensures x in Rest(universe, token) {
        if token != [] { LessTransitive(token, p.next, x); }
      }
    }
  }

  /** All ids returned by following tokens from the n-th call on. */
  ghost function Follow(snap: nat -> set<GoString>, universe: set<GoString>, n: nat, size: nat,
                        token: GoString): seq<GoString>
    requires Grows(snap, universe) && HasBeyond(snap(n), token) && size > 0
    decreases Rest(universe, token)
  {
    var p := PageOf(Ordered(snap(n)), size, token);
    TokenAdvances(snap, universe, n, size, token);
    if p.next == [] then p.ids else p.ids + Follow(snap, universe, n + 1, size, p.next)
  }

  lemma ConcatIncreasing(a: seq<GoString>, b: seq<GoString>)
    requires Increasing(a) && Increasing(b) && a != [] && forall i :: 0 <= i < |b| ==> Less(a[|a| - 1], b[i])
    ensures Increasing(a + b)
  {
    forall i, j | 0 <= i < |a| && 0 <= j < |b| ensures Less(a[i], b[j]) {
      if i < |a| - 1 { LessTransitive(a[i], a[|a| - 1], b[j]); }
    }
  }

  /** Ids of the universe beyond the token, each once. */
  ghost predicate OnceBeyond(all: seq<GoString>, universe: set<GoString>, token: GoString) {
    Increasing(all) && forall i :: 0 <= i < |all| ==> all[i] in universe && Pending(token, all[i])
  }

  lemma PageThenRest(page: seq<GoString>, rest: seq<GoString>, universe: set<GoString>, token: GoString)
    requires page != [] && page[|page| - 1] != [] && OnceBeyond(page, universe, token)
             && OnceBeyond(rest, universe, page[|page| - 1])
    ensures OnceBeyond(page + rest, universe, token)
  {
    ConcatIncreasing(page, rest);
    forall i | 0 <= i < |rest| ensures Pending(token, rest[i]) {
      if token != [] { LessTransitive(token, page[|page| - 1], rest[i]); }
    }
  }

  lemma PageOnce(snap: nat -> set<GoString>, universe: set<GoString>, n: nat, size: nat, token: GoString)
    requires Grows(snap, universe) && HasBeyond(snap(n), token) && size > 0
    ensures var p := PageOf(Ordered(snap(n)), size, token);
            OnceBeyond(p.ids, universe, token) && (p.next != [] ==> p.ids != [] && p.next == p.ids[|p.ids| - 1])
  {
    var keys := Ordered(snap(n));
    if token != [] { var x :| x in snap(n) && Less(token, x); assert x in keys; }
    PageToken(keys, size, token);
    assert snap(n) <= universe;
  }

  /** No id is returned twice, and none that was not there. */
  lemma {:induction false} FollowOnce(snap: nat -> set<GoString>, universe: set<GoString>, n: nat, size: nat,
                                      token: GoString)
    requires Grows(snap, universe) && HasBeyond(snap(n), token) && size > 0
    ensures OnceBeyond(Follow(snap, universe, n, size, token), universe, token)
    decreases Rest(universe, token)
  {
    var p := PageOf(Ordered(snap(n)), size, token);
    TokenAdvances(snap, universe, n, size, token);
    PageOnce(snap, universe, n, size, token);
    if p.next != [] {
      FollowOnce(snap, universe, n + 1, size, p.next);
      PageThenRest(p.ids, Follow(snap, universe, n + 1, size, p.next), universe, token);
    }
  }

  /** An id present at the n-th call and not yet returned will be. */
  lemma {:induction false} FollowCovers(snap: nat -> set<GoString>, universe: set<GoString>, n: nat, size: nat,
                                        token: GoString, id: GoString)
    requires Grows(snap, universe) && HasBeyond(snap(n), token) && size > 0 && id in snap(n) && Pending(token, id)
    requires !(token == [] && size == 1 && [] in snap(n) && |snap(n)| > 1)
    ensures id in Follow(snap, universe, n, size, token)
    decreases Rest(universe, token)
  {
    var keys := Ordered(snap(n));
    var p := PageOf(keys, size, token);
    TokenAdvances(snap, universe, n, size, token);
    if token != [] { var x :| x in snap(n) && Less(token, x); assert x in keys; }
    assert id in keys;
    assert keys[0] in keys;
    PageCovers(keys, size, token, id);
    if id !in p.ids {
      assert snap(n) <= snap(n + 1);
      FollowCovers(snap, universe, n + 1, size, p.next, id);
    }
  }

  lemma EmptyIdStops(snap: nat -> set<GoString>, universe: set<GoString>)
    requires Grows(snap, universe) && [] in snap(0) && |snap(0)| > 1
    ensures Follow(snap, universe, 0, 1, []) == [[]]
    ensures exists id :: id in snap(0) && id != []
  {
    var keys := Ordered(snap(0));
    assert [] in keys;
    var j :| 0 <= j < |keys| && keys[j] == [];
    assert !Less(keys[0], keys[j]);
    assert Less(keys[0], keys[1]) && keys[1] in keys;
    assert PageOf(keys, 1, []) == Page([[]], []);
  }

  /** Following tokens from the empty one returns ids in increasing order, so none
      twice, and returns every id present from the start, while others are
      being added, exactly when pages hold more than one id, or no stored id is
      empty, or the empty id is the only one. */
  lemma EnumerationCovers(snap: nat -> set<GoString>, universe: set<GoString>, size: nat)
    requires Grows(snap, universe) && size > 0
    ensures var all := Follow(snap, universe, 0, size, []);
            && Increasing(all) && (forall i :: 0 <= i < |all| ==> all[i] in universe)
            && ((forall id :: id in snap(0) ==> id in all) <==> !(size == 1 && [] in snap(0) && |snap(0)| > 1))
  {
    FollowOnce(snap, universe, 0, size, []);
    if size == 1 && [] in snap(0) && |snap(0)| > 1 {
      EmptyIdStops(snap, universe);
    } else {
      forall id | id in snap(0) ensures id in Follow(snap, universe, 0, size, []) {
        FollowCovers(snap, universe, 0, size, [], id);
      }
    }
  }

  // ----------------------------------------------- the adopter's enumeration

  predicate NoRepeats(s: seq<GoString>) {
    forall i, j :: 0 <= i < j < |s| ==> s[i] != s[j]
  }

  function Add(ids: seq<GoString>, id: GoString): seq<GoString> {
    if id in ids then ids else ids + [id]
  }

  function AddAll(ids: seq<GoString>, more: seq<GoString>): seq<GoString> {
    if more == [] then ids else Add(AddAll(ids, more[..|more| - 1]), more[|more| - 1])
  }

  lemma {:induction false} AddAllHolds(ids: seq<GoString>, more: seq<GoString>)
    requires NoRepeats(ids)
    ensures NoRepeats(AddAll(ids, more)) && forall x :: x in AddAll(ids, more) <==> x in ids || x in more
  {
    if more != [] {
      AddAllHolds(ids, more[..|more| - 1]);
      assert more == more[..|more| - 1] + [more[|more| - 1]];
    }
  }

  lemma {:induction false} AddAllConcat(ids: seq<GoString>, a: seq<GoString>, b: seq<GoString>)
    ensures AddAll(AddAll(ids, a), b) == AddAll(ids, a + b)
  {
    if b == [] {
      assert a + b == a;
    } else {
      AddAllConcat(ids, a, b[..|b| - 1]);
      assert (a + b)[..|a + b| - 1] == a + b[..|b| - 1];
    }
  }

  /** The add closure of collectPersistenceIDs, over one list. */
  method AddNew(seen: set<GoString>, ids: seq<GoString>, more: seq<GoString>)
    returns (seen': set<GoString>, ids': seq<GoString>)
    requires forall x :: x in seen <==> x in ids
    ensures ids' == AddAll(ids, more)
    ensures forall x :: x in seen' <==> x in ids'
  {
    seen', ids' := seen, ids;
    for i := 0 to |more|
      invariant ids' == AddAll(ids, more[..i])
      invariant forall x :: x in seen' <==> x in ids'
    {
      assert more[..i + 1][..i] == more[..i];
      if more[i] !in seen' {
        seen', ids' := seen' + {more[i]}, ids' + [more[i]];
      }
    }
    assert more[..|more|] == more;
  }

  /** `got` was returned before the n-th call, which is due with this token. */
  ghost predicate Midway(snap: nat -> set<GoString>, universe: set<GoString>, size: nat, got: seq<GoString>, n: nat,
                         token: GoString)
    requires Grows(snap, universe) && size > 0
  {
    HasBeyond(snap(n), token) && Follow(snap, universe, 0, size, []) == got + Follow(snap, universe, n, size, token)
  }

  lemma NextPage(snap: nat -> set<GoString>, universe: set<GoString>, size: nat, got: seq<GoString>, n: nat,
                 token: GoString)
    requires Grows(snap, universe) && size > 0 && Midway(snap, universe, size, got, n, token)
    ensures var p := PageOf(Ordered(snap(n)), size, token);
            if p.next == [] then Follow(snap, universe, 0, size, []) == got + p.ids
            else && p.ids != [] && Midway(snap, universe, size, got + p.ids, n + 1, p.next)
                 && Rest(universe, p.next) < Rest(universe, token)
  {
    FollowUnfolds(snap, universe, n, size, token);
    var p := PageOf(Ordered(snap(n)), size, token);
    if p.next != [] { Reassociate(got, p.ids, Follow(snap, universe, n + 1, size, p.next)); }
  }

  lemma FollowUnfolds(snap: nat -> set<GoString>, universe: set<GoString>, n: nat, size: nat, token: GoString)
    requires Grows(snap, universe) && HasBeyond(snap(n), token) && size > 0
    ensures var p := PageOf(Ordered(snap(n)), size, token);
            if p.next == [] then Follow(snap, universe, n, size, token) == p.ids
            else && p.ids != [] && HasBeyond(snap(n + 1), p.next) && Rest(universe, p.next) < Rest(universe, token)
                 && Follow(snap, universe, n, size, token) == p.ids + Follow(snap, universe, n + 1, size, p.next)
  {
    TokenAdvances(snap, universe, n, size, token);
    PageOnce(snap, universe, n, size, token);
  }

  lemma Reassociate(a: seq<GoString>, b: seq<GoString>, c: seq<GoString>)
    ensures a + (b + c) == a + b + c
  {
  }

  /** collectPersistenceIDs over an events store: page after page, then the
      explicit ids, first occurrences only. */
  method CollectPersistenceIds(snap: nat -> set<GoString>, ghost universe: set<GoString>, size: nat,
                               explicit: seq<GoString>)
    returns (ids: seq<GoString>)
    requires Grows(snap, universe) && size > 0
    ensures ids == AddAll([], Follow(snap, universe, 0, size, []) + explicit)
  {
    var seen: set<GoString> := {};
    ids := [];
    var n, token: GoString := 0, [];
    ghost var got: seq<GoString> := [];
    while true
      invariant Midway(snap, universe, size, got, n, token)
      invariant ids == AddAll([], got) && forall x :: x in seen <==> x in ids
      decreases Rest(universe, token)
    {
      var p := PageOf(Ordered(snap(n)), size, token);
      NextPage(snap, universe, size, got, n, token);
      AddAllConcat([], got, p.ids);
      seen, ids := AddNew(seen, ids, p.ids);
      got := got + p.ids;
      if p.next == [] || |p.ids| == 0 { break; }
      n, token := n + 1, p.next;
    }
    AddAllConcat([], got, explicit);
    seen, ids := AddNew(seen, ids, explicit);
  }

  /** The collected list has no repeats, holds the explicit ids and every id
      present from the start, and nothing else but ids the store came to hold. */
  lemma CollectedIds(snap: nat -> set<GoString>, universe: set<GoString>, size: nat, explicit: seq<GoString>)
    requires Grows(snap, universe) && size > 0 && !(size == 1 && [] in snap(0) && |snap(0)| > 1)
    ensures var ids := AddAll([], Follow(snap, universe, 0, size, []) + explicit);
            && NoRepeats(ids)
            && (forall x :: x in snap(0) || x in explicit ==> x in ids)
            && (forall x :: x in ids ==> x in universe || x in explicit)
  {
    EnumerationCovers(snap, universe, size);
    AddAllHolds([], Follow(snap, universe, 0, size, []) + explicit);
  }
}
