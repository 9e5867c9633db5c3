/** The runner's recovery policies, its constant-delay retries and its store
    backoff. */
module Recovery {
  import opened GoText

  datatype Policy = Fail | RetryAndFail | Skip | RetryAndSkip | Other

  /** What became of one event. Undecodable events never reach the handler. */
  datatype Verdict = Handled | Skipped | Failed | Undecodable

  predicate Skips(p: Policy) {
    p == Skip || p == RetryAndSkip
  }

  predicate Retries(p: Policy) {
    p == RetryAndFail || p == RetryAndSkip
  }

  const DEFAULT_TRIES := 5
  const DEFAULT_DELAY := 200_000_000

  function Tries(maxTries: int): (n: int)
    ensures n > 0
  {
    if maxTries <= 0 then DEFAULT_TRIES else maxTries
  }

  /** The number of attempts retryOn makes when attempt i succeeds iff works(i) and
      the context ends in the wait after it iff ends(i): up to the first success or
      the first wait cut short, or all of them. */
  function Attempts(works: nat -> bool, ends: nat -> bool, tries: nat, i: nat): nat
    requires 1 <= i <= tries
    decreases tries - i
  {
    if works(i) || i == tries || ends(i) then i else Attempts(works, ends, tries, i + 1)
  }

  /** No wait from i up to j is cut short. */
  predicate Lasts(ends: nat -> bool, i: nat, j: nat) {
    forall k: nat :: i <= k < j ==> !ends(k)
  }

  lemma {:induction false} AttemptsStopAtSuccess(works: nat -> bool, ends: nat -> bool, tries: nat, i: nat)
    requires 1 <= i <= tries
    ensures var n := Attempts(works, ends, tries, i);
            && i <= n <= tries && (forall j :: i <= j < n ==> !works(j)) && Lasts(ends, i, n)
            && (works(n) || ends(n) || n == tries)
            && (works(n) <==> exists j :: i <= j <= tries && works(j) && Lasts(ends, i, j))
    decreases tries - i
  {
    if !works(i) && i < tries && !ends(i) {
      AttemptsStopAtSuccess(works, ends, tries, i + 1);
      forall j: nat ensures Lasts(ends, i, j) <==> Lasts(ends, i + 1, j) {
      }
    } else if works(i) {
      assert Lasts(ends, i, i);
    }
  }

  /** A handler that never works on a context that never ends uses every try. */
  lemma {:induction false} AttemptsRunOut(works: nat -> bool, ends: nat -> bool, tries: nat, i: nat)
    requires 1 <= i <= tries && (forall k: nat :: !works(k)) && forall k: nat :: !ends(k)
    ensures Attempts(works, ends, tries, i) == tries
    decreases tries - i
  {
    if i < tries { AttemptsRunOut(works, ends, tries, i + 1); }
  }

  /** retryOn: `waited` is the total of the full waits between attempts. */
  method RetryOn(works: nat -> bool, ends: nat -> bool, maxTries: int, delay: int)
    returns (ok: bool, attempts: nat, waited: int)
    ensures attempts == Attempts(works, ends, Tries(maxTries), 1)
    ensures ok == works(attempts)
    ensures waited == (attempts - 1) * (if delay <= 0 then 200_000_000 else delay)
    ensures 1 <= attempts <= if maxTries > 0 then maxTries else 5
    ensures (forall k: nat :: !works(k)) && (forall k: nat :: !ends(k)) ==>
            attempts == if maxTries > 0 then maxTries else 5
  {
    AttemptsStopAtSuccess(works, ends, Tries(maxTries), 1);
    if (forall k: nat :: !works(k)) && (forall k: nat :: !ends(k)) {
      AttemptsRunOut(works, ends, Tries(maxTries), 1);
    }
    var tries := if maxTries <= 0 then DEFAULT_TRIES else maxTries;
    var pause := if delay <= 0 then DEFAULT_DELAY else delay;
    attempts, waited := 1, 0;
    while true
      invariant 1 <= attempts <= tries
      invariant Attempts(works, ends, tries, 1) == Attempts(works, ends, tries, attempts)
      invariant waited == (attempts - 1) * pause
      decreases tries - attempts
    {
      ok := works(attempts);
      if ok { return; }
      if attempts >= tries { return; }
      if ends(attempts) { return; }
      waited := waited + pause;
      attempts := attempts + 1;
    }
  }

  /** The background context, which the recovery policies retry on. */
  predicate Never(i: nat) {
    false
  }

  /** handleWithPolicy: the event is handled iff some allowed attempt works, and
      is otherwise skipped or failed as the policy says. */
  method HandleWithPolicy(policy: Policy, works: nat -> bool, retries: U64, delay: int)
    returns (v: Verdict, attempts: nat, deadLettered: bool)
    ensures var tries := if Retries(policy) then Tries(AsInt(retries)) else 1;
            && attempts == Attempts(works, Never, tries, 1)
            && (v == Handled <==> exists j :: 1 <= j <= tries && works(j))
            && (v != Handled ==> v == if Skips(policy) then Skipped else Failed)
    ensures deadLettered <==> v == Skipped
    ensures v == Skipped ==> policy == Skip || policy == RetryAndSkip
    ensures v == Failed ==> policy != Skip && policy != RetryAndSkip
    ensures v == Handled || v == Skipped || v == Failed
    ensures policy != RetryAndFail && policy != RetryAndSkip ==> attempts == 1
    ensures (policy == RetryAndFail || policy == RetryAndSkip) && (forall k: nat :: !works(k)) ==>
            attempts == if 0 < retries <= MAX_INT then retries else 5
  {
    deadLettered := false;
    var ok: bool;
    if policy == RetryAndFail || policy == RetryAndSkip {
      var waited;
      ok, attempts, waited := RetryOn(works, Never, AsInt(retries), delay);
      AttemptsStopAtSuccess(works, Never, Tries(AsInt(retries)), 1);
      assert forall j: nat :: Lasts(Never, 1, j);
    } else {
      ok, attempts := works(1), 1;
    }
    if ok { return Handled, attempts, false; }
    match policy {
      case RetryAndSkip => v, deadLettered := Skipped, true;
      case Skip => v, deadLettered := Skipped, true;
      case _ => v := Failed;
    }
  }

  // -------------------------------------------------------- store backoff

  const INITIAL_DELAY := 1_000_000_000
  const MAX_DELAY := 30_000_000_000

  function Pow2(n: nat): nat {
    if n == 0 then 1 else 2 * Pow2(n - 1)
  }

  /** storeRetryDelay: the shift wraps around, and drops every bit from 64 on. */
  function StoreRetryDelay(failures: nat): int
    requires failures >= 1
  {
    var delay := Wrap(INITIAL_DELAY * Pow2(failures - 1));
    if delay <= 0 || delay > MAX_DELAY then MAX_DELAY else delay
  }

  lemma {:induction false} Pow2Adds(a: nat, b: nat)
    ensures Pow2(a + b) == Pow2(a) * Pow2(b)
  {
    if a > 0 { Pow2Adds(a - 1, b); }
  }

  lemma {:induction false} Pow2Grows(a: nat, b: nat)
    requires a <= b
    ensures Pow2(a) <= Pow2(b)
  {
    if a < b { Pow2Grows(a, b - 1); }
  }

  const TWO_43: int := 0x800_0000_0000

  lemma Pow2Of34()
    ensures INITIAL_DELAY * Pow2(34) == TWO_43 * 1_953_125
  {
    Pow2Adds(4, 4);
    Pow2Adds(8, 8);
    Pow2Adds(16, 16);
    Pow2Adds(32, 2);
  }

  /** Whatever is left of a wrapped multiple of 2^43 is one too. */
  lemma WrapKeepsMultiples(y: int)
    ensures exists z :: Wrap(TWO_43 * y) == TWO_43 * z
  {
    var x := TWO_43 * y;
    var q := x / U64_LIMIT;
    var z := y - q * 0x20_0000;
    assert x % U64_LIMIT == TWO_43 * z;
    if x % U64_LIMIT >= U64_LIMIT / 2 { assert Wrap(x) == TWO_43 * (z - 0x20_0000); }
  }

  /** From the 35th failure on, the shifted delay is a wrapped multiple of 2^43
      nanoseconds, so never in the accepted range. */
  lemma LateShiftsAreRejected(failures: nat)
    requires failures >= 35
    ensures exists z :: Wrap(INITIAL_DELAY * Pow2(failures - 1)) == TWO_43 * z
    ensures StoreRetryDelay(failures) == MAX_DELAY
  {
    var k := failures - 35;
    Pow2Adds(34, k);
    Pow2Of34();
    assert INITIAL_DELAY * Pow2(failures - 1) == TWO_43 * (1_953_125 * Pow2(k));
    WrapKeepsMultiples(1_953_125 * Pow2(k));
  }

  /** The backoff is min(1s * 2^(n-1), 30s) for every failure count: positive and
      capped, although the shift overflows. */
  lemma BackoffIsCapped(failures: nat)
    requires failures >= 1
    ensures var exact := INITIAL_DELAY * Pow2(failures - 1);
            StoreRetryDelay(failures) == if exact <= MAX_DELAY then exact else MAX_DELAY
    ensures 0 < StoreRetryDelay(failures) <= MAX_DELAY
  {
    assert Pow2(4) == 16 && Pow2(5) == 32;
    if failures <= 5 {
      Pow2Grows(failures - 1, 4);
      Pow2Positive(failures - 1);
    } else {
      Pow2Grows(5, failures - 1);
      if failures <= 34 {
        Pow2Grows(failures - 1, 33);
        Pow2Of34();
        assert Pow2(34) == 2 * Pow2(33);
      } else {
        LateShiftsAreRejected(failures);
      }
    }
  }

  lemma {:induction false} Pow2Positive(n: nat)
    ensures Pow2(n) >= 1
  {
    if n > 0 { Pow2Positive(n - 1); }
  }

  lemma BackoffNeverShrinks(failures: nat)
    requires failures >= 1
    ensures StoreRetryDelay(failures) <= StoreRetryDelay(failures + 1)
  {
    BackoffIsCapped(failures);
    BackoffIsCapped(failures + 1);
    Pow2Positive(failures - 1);
  }
}
