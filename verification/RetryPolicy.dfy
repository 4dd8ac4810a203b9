/**
 * The retry policy of a saga and its backoff arithmetic (src/saga/retry-policy.ts,
 * src/saga/saga-definition.ts). Numbers are integers; the lemmas show that every product the
 * program forms stays below 2^53, where its floating point is exact.
 */
module RetryPolicy {
  import opened Common

  datatype ErrorKind = LockTimeout | Deadlock | Serialization | StaleState

  datatype Jitter = Full | Equal | NoJitter

  datatype Policy = Policy(
    on: seq<ErrorKind>, attempts: int, backoffMs: int, maxBackoffMs: Option<int>, jitter: Option<Jitter>)

  const MAX_RETRY_ATTEMPTS := 20
  const MAX_BACKOFF_MS := 2_147_483_647
  const DEFAULT_MAX_BACKOFF_FACTOR := 32
  const EXACT := 0x20_0000_0000_0000

  predicate IsIntegerIn(value: int, min: int, max: int) { min <= value <= max }

  /** What `validateRetryPolicy` accepts. */
  predicate ValidPolicy(p: Policy)
  {
    && p.on != []
    && (forall i, j :: 0 <= i < j < |p.on| ==> p.on[i] != p.on[j])
    && IsIntegerIn(p.attempts, 1, MAX_RETRY_ATTEMPTS)
    && IsIntegerIn(p.backoffMs, 0, MAX_BACKOFF_MS)
    && (p.maxBackoffMs.Some? ==> IsIntegerIn(p.maxBackoffMs.value, p.backoffMs, MAX_BACKOFF_MS))
  }

  lemma {:induction false} DistinctBySize(kinds: seq<ErrorKind>)
    ensures |KindSet(kinds)| == |kinds| <==> forall i, j :: 0 <= i < j < |kinds| ==> kinds[i] != kinds[j]
    ensures |KindSet(kinds)| <= |kinds|
  {
    if kinds != [] {
      var init, last := kinds[..|kinds| - 1], kinds[|kinds| - 1];
      DistinctBySize(init);
      OneMoreKind(kinds);
    }
  }

  lemma OneMoreKind(kinds: seq<ErrorKind>)
    requires kinds != []
    ensures var init, last := kinds[..|kinds| - 1], kinds[|kinds| - 1];
      |KindSet(kinds)| == |KindSet(init)| + if last in init then 0 else 1
  {
    assert KindSet(kinds) == KindSet(kinds[..|kinds| - 1]) + {kinds[|kinds| - 1]};
  }

  function KindSet(kinds: seq<ErrorKind>): set<ErrorKind> { set k | k in kinds }

  /** `validateRetryPolicy`: the kinds, then the backoff. */
  method ValidateRetryPolicy(p: Policy) returns (ok: bool)
    ensures ok <==> ValidPolicy(p)
    ensures ok <==>
      && p.on != [] && (forall i, j :: 0 <= i < j < |p.on| ==> p.on[i] != p.on[j])
      && 1 <= p.attempts <= 20 && 0 <= p.backoffMs <= 2_147_483_647
      && (p.maxBackoffMs.Some? ==> p.backoffMs <= p.maxBackoffMs.value <= 2_147_483_647)
  {
    DistinctBySize(p.on);
    if |p.on| == 0 || |KindSet(p.on)| != |p.on| { return false; }
    if !(1 <= p.attempts <= MAX_RETRY_ATTEMPTS && 0 <= p.backoffMs <= MAX_BACKOFF_MS) { return false; }
    ok := p.maxBackoffMs.None? || p.backoffMs <= p.maxBackoffMs.value <= MAX_BACKOFF_MS;
  }

  function Min(a: int, b: int): int { if a <= b then a else b }

  function Pow2(n: nat): (r: nat)
    ensures r >= 1
  {
    if n == 0 then 1 else 2 * Pow2(n - 1)
  }

  function Cap(p: Policy): int
  {
    Min(if p.maxBackoffMs.Some? then p.maxBackoffMs.value else p.backoffMs * DEFAULT_MAX_BACKOFF_FACTOR, MAX_BACKOFF_MS)
  }

  /** The delay before jitter, after `attempt` failed. */
  function Undithered(p: Policy, attempt: int): int
    requires attempt >= 1
  {
    Min(Cap(p), p.backoffMs * Pow2(attempt - 1))
  }

  /** Backoff before attempt `attempt + 1`; `random(n)` is what the source of randomness returns below `n`. */
  function DelayFor(p: Policy, attempt: int, random: int -> int): int
    requires attempt >= 1
  {
    var d := Undithered(p, attempt);
    match p.jitter
    case Some(NoJitter) => d
    case Some(Equal) => d / 2 + random((d + 1) / 2 + 1)
    case _ => random(d + 1)
  }

  /** What the source of randomness promises: an integer in [0, n). */
  ghost predicate Uniform(random: int -> int)
  {
    forall n :: n > 0 ==> 0 <= random(n) < n
  }

  lemma {:induction false} Pow2Grows(m: nat, n: nat)
    requires m <= n
    ensures Pow2(m) <= Pow2(n)
  {
    if m < n { Pow2Grows(m, n - 1); }
  }

  lemma {:induction false} MulGrows(a: nat, b: nat, c: nat)
    requires b <= c
    ensures a * b <= a * c
  {
  }

  /** The delay before jitter never shrinks, and never exceeds the cap, which a timer can hold. */
  lemma BackoffGrowsToCap(p: Policy, attempt: int, later: int)
    requires ValidPolicy(p) && 1 <= attempt <= later
    ensures 0 <= Undithered(p, attempt) <= Undithered(p, later) <= Cap(p) <= MAX_BACKOFF_MS
    ensures p.maxBackoffMs.Some? ==> Cap(p) == p.maxBackoffMs.value
  {
    Pow2Grows(attempt - 1, later - 1);
    MulGrows(p.backoffMs, Pow2(attempt - 1), Pow2(later - 1));
    MulGrows(p.backoffMs, 0, Pow2(attempt - 1));
  }

  /**
   * The first delay is the base, and each next one is double the one before until it meets the cap: the
   * one configured, or 32 times the base, and never more than a timer can hold.
   */
  lemma BackoffDoubles(p: Policy, attempt: int)
    requires ValidPolicy(p) && attempt >= 1
    ensures Undithered(p, 1) == p.backoffMs
    ensures 2 * Undithered(p, attempt) <= Cap(p) ==> Undithered(p, attempt + 1) == 2 * Undithered(p, attempt)
    ensures 2 * Undithered(p, attempt) > Cap(p) ==> Undithered(p, attempt + 1) == Cap(p)
    ensures p.maxBackoffMs.None? && 32 * p.backoffMs <= MAX_BACKOFF_MS ==> Cap(p) == 32 * p.backoffMs
    ensures p.maxBackoffMs.None? && 32 * p.backoffMs > MAX_BACKOFF_MS ==> Cap(p) == MAX_BACKOFF_MS
  {
    var half := p.backoffMs * Pow2(attempt - 1);
    assert p.backoffMs * Pow2(attempt) == 2 * half;
    assert Pow2(0) == 1;
    MulGrows(p.backoffMs, 0, Pow2(attempt - 1));
  }

  /** Jitter stays inside its band: [0, d] when full, [floor(d/2), d] when equal. */
  lemma JitterBand(p: Policy, attempt: int, random: int -> int)
    requires ValidPolicy(p) && attempt >= 1 && Uniform(random)
    ensures var d, ms := Undithered(p, attempt), DelayFor(p, attempt, random);
      && 0 <= ms <= d
      && (p.jitter == Some(Equal) ==> d / 2 <= ms)
      && (p.jitter == Some(NoJitter) ==> ms == d)
  {
    BackoffGrowsToCap(p, attempt, attempt);
    var d := Undithered(p, attempt);
    assert d / 2 + (d + 1) / 2 == d;
  }

  /** And every delay of the band can come: without a jitter setting it is the full one. */
  lemma JitterReaches(p: Policy, attempt: int, ms: int) returns (random: int -> int)
    requires ValidPolicy(p) && attempt >= 1 && ms <= Undithered(p, attempt)
    requires match p.jitter
             case Some(NoJitter) => ms == Undithered(p, attempt)
             case Some(Equal) => Undithered(p, attempt) / 2 <= ms
             case _ => 0 <= ms
    ensures Uniform(random) && DelayFor(p, attempt, random) == ms
  {
    var d := Undithered(p, attempt);
    BackoffGrowsToCap(p, attempt, attempt);
    assert d / 2 + (d + 1) / 2 == d;
    var draw := match p.jitter
                case Some(NoJitter) => 0
                case Some(Equal) => ms - d / 2
                case _ => ms;
    random := (n: int) => if 0 <= draw < n then draw else 0;
  }

  // ---- The sleep of a whole unit.

  /** The least that the first `n` delays can take together. */
  function Shortest(p: Policy, n: nat): int
  {
    if n == 0 then 0 else Shortest(p, n - 1) + Least(p, n)
  }

  function Least(p: Policy, attempt: int): int
    requires attempt >= 1
  {
    var d := Undithered(p, attempt);
    match p.jitter
    case Some(NoJitter) => d
    case Some(Equal) => d / 2
    case _ => 0
  }

  /** The most that they can take. */
  function Longest(p: Policy, n: nat): int
  {
    if n == 0 then 0 else Longest(p, n - 1) + Undithered(p, n)
  }

  /** At most the cap for each delay; exactly the sum without jitter. */
  lemma {:induction false} SleepIsBounded(p: Policy, n: nat)
    requires ValidPolicy(p)
    ensures 0 <= Shortest(p, n) <= Longest(p, n) <= n * Cap(p)
    ensures p.jitter == Some(NoJitter) ==> Shortest(p, n) == Longest(p, n)
  {
    if n > 0 {
      SleepIsBounded(p, n - 1);
      BackoffGrowsToCap(p, n, n);
      assert n * Cap(p) == (n - 1) * Cap(p) + Cap(p);
    }
  }

  lemma {:induction false} Pow2Adds(m: nat, n: nat)
    ensures Pow2(m + n) == Pow2(m) * Pow2(n)
  {
    if n > 0 { Pow2Adds(m, n - 1); }
  }

  lemma Pow2Eighteen()
    ensures Pow2(18) == 262144
  {
    assert Pow2(1) == 2;
    Pow2Adds(1, 1);
    Pow2Adds(2, 1);
    Pow2Adds(3, 3);
    Pow2Adds(6, 6);
    Pow2Adds(12, 6);
  }

  /** Every product of the computation is an exact floating-point integer. */
  lemma ProductsAreExact(p: Policy, attempt: int)
    requires ValidPolicy(p) && 1 <= attempt < p.attempts
    ensures p.backoffMs * DEFAULT_MAX_BACKOFF_FACTOR < EXACT
    ensures Pow2(attempt - 1) < EXACT && p.backoffMs * Pow2(attempt - 1) < EXACT
  {
    Pow2Grows(attempt - 1, 18);
    Pow2Eighteen();
    MulGrows(p.backoffMs, Pow2(attempt - 1), 262144);
  }
}
