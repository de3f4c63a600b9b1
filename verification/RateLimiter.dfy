/** The per-host token bucket, with real numbers for floats and the clock
    readings as arguments. */
module RateLimiter {
  datatype Bucket = Bucket(rps: real, capacity: int, tokens: real, updated: real)

  datatype Limiter = Limiter(rps: real, burst: int, buckets: map<string, Bucket>)

  function Max(x: real, y: real): real { if x < y then y else x }

  function Min(x: real, y: real): real { if x < y then x else y }

  function Rate(rps: real): real { Max(0.1, rps) }

  function Capacity(burst: int): int { if burst < 1 then 1 else burst }

  function NewBucket(rps: real, burst: int, now: real): Bucket {
    Bucket(Rate(rps), Capacity(burst), Capacity(burst) as real, now)
  }

  /** Tokens earned between two instants. */
  function Earned(rate: real, from: real, to: real): (r: real)
    ensures rate > 0.0 && from <= to ==> r >= 0.0
  {
    (to - from) * rate
  }

  function Refill(b: Bucket, now: real): Bucket {
    if now - b.updated > 0.0
    then b.(tokens := Min(b.capacity as real, b.tokens + Earned(b.rps, b.updated, now)), updated := now)
    else b
  }

  predicate Admits(b: Bucket, now: real) { Refill(b, now).tokens >= 1.0 }

  function Wait(b: Bucket, now: real): real
    requires b.rps > 0.0
  {
    if Admits(b, now) then 0.0 else (1.0 - Refill(b, now).tokens) / b.rps
  }

  function Attempted(b: Bucket, now: real): Bucket {
    var r := Refill(b, now);
    if r.tokens >= 1.0 then r.(tokens := r.tokens - 1.0) else r
  }

  function BucketOf(l: Limiter, host: string, now: real): Bucket {
    if host in l.buckets then l.buckets[host] else NewBucket(l.rps, l.burst, now)
  }

  predicate Admitted(l: Limiter, host: string, now: real) { Admits(BucketOf(l, host, now), now) }

  function After(l: Limiter, host: string, now: real): Limiter {
    l.(buckets := l.buckets[host := Attempted(BucketOf(l, host, now), now)])
  }

  ghost predicate BucketOk(b: Bucket) {
    b.rps > 0.0 && b.capacity >= 1 && 0.0 <= b.tokens <= b.capacity as real
  }

  // --- the classes ---

  class HostBucket {
    const rps: real
    const capacity: int
    var tokens: real
    var updated: real

    function View(): Bucket
      reads this
    {
      Bucket(rps, capacity, tokens, updated)
    }

    constructor (rps: real, burst: int, now: real)
      ensures View() == NewBucket(rps, burst, now)
    {
      this.rps := Max(0.1, rps);
      this.capacity := if burst < 1 then 1 else burst;
      this.tokens := (if burst < 1 then 1 else burst) as real;
      this.updated := now;
    }

    method DoRefill(now: real)
      modifies this
      ensures View() == Refill(old(View()), now)
    {
      var dt := now - updated;
      if dt > 0.0 {
        tokens := Min(capacity as real, tokens + dt * rps);
        updated := now;
      }
    }

    method TimeUntilToken(now: real) returns (wait: real)
      requires rps > 0.0
      modifies this
      ensures View() == Refill(old(View()), now)
      ensures wait == Wait(old(View()), now)
      ensures wait <= 0.0 <==> Admits(old(View()), now)
    {
      DoRefill(now);
      if tokens >= 1.0 {
        return 0.0;
      }
      var need := 1.0 - tokens;
      PositiveQuotient(need, rps);
      return need / rps;
    }

    /** Takes a token if there is one. */
    method Take(now: real) returns (wait: real)
      requires rps > 0.0
      modifies this
      ensures View() == Attempted(old(View()), now)
      ensures wait <= 0.0 <==> Admits(old(View()), now)
    {
      wait := TimeUntilToken(now);
      if wait <= 0.0 {
        tokens := tokens - 1.0;
      }
    }
  }

  lemma TakenIsAfter(l: Limiter, host: string, now: real, known: map<string, Bucket>, taken: map<string, Bucket>)
    requires known == l.buckets[host := BucketOf(l, host, now)]
    requires taken == known[host := Attempted(known[host], now)]
    ensures l.(buckets := taken) == After(l, host, now)
    ensures Admits(known[host], now) <==> Admitted(l, host, now)
  {
  }

  lemma PositiveQuotient(x: real, y: real)
    requires x > 0.0 && y > 0.0
    ensures x / y > 0.0
  {
  }

  class HostRateLimiter {
    const rps: real
    const burst: int
    var buckets: map<string, HostBucket>
    ghost var repr: set<HostBucket>

    ghost predicate Valid()
      reads this, repr
    {
      && rps > 0.0 && burst >= 1
      && (forall h <- buckets :: buckets[h] in repr && BucketOk(buckets[h].View()))
      && (forall h, k | h in buckets && k in buckets && h != k :: buckets[h] != buckets[k])
    }

    ghost function View(): Limiter
      requires Valid()
      reads this, repr
    {
      Limiter(rps, burst, map h | h in buckets :: buckets[h].View())
    }

    /** Raises `ValueError` otherwise. */
    constructor (rps: real, burst: int)
      requires rps > 0.0 && burst >= 1
      ensures Valid() && View() == Limiter(rps, burst, map[])
    {
      this.rps := rps;
      this.burst := burst;
      this.buckets := map[];
      this.repr := {};
    }

    /** A host's first attempt creates its bucket, full. */
    method EnsureBucket(host: string, now: real)
      requires Valid()
      modifies this`buckets, this`repr
      ensures Valid() && fresh(repr - old(repr))
      ensures host in buckets
      ensures View().buckets == old(View()).buckets[host := BucketOf(old(View()), host, now)]
    {
      if host !in buckets {
        var bucket := new HostBucket(rps, burst, now);
        buckets := buckets[host := bucket];
        repr := repr + {bucket};
      }
    }

    /** Takes a token of one host's bucket; the other buckets stay as they are. */
    method TakeFrom(host: string, now: real) returns (wait: real)
      requires Valid() && host in buckets
      modifies buckets[host]
      ensures Valid()
      ensures View().buckets == old(View()).buckets[host := Attempted(old(View()).buckets[host], now)]
      ensures wait <= 0.0 <==> Admits(old(View()).buckets[host], now)
    {
      var bucket := buckets[host];
      RefillIsOk(bucket.View(), now);
      wait := bucket.Take(now);
      assert forall h <- buckets :: h != host ==> buckets[h] != bucket;
    }

    /** One turn of the loop of `acquire`, under the lock; a positive `wait` is
        how long to sleep before the next. */
    method TryAcquire(host: string, now: real) returns (wait: real)
      requires Valid()
      modifies this, repr
      ensures Valid() && fresh(repr - old(repr))
      ensures View() == After(old(View()), host, now)
      ensures wait <= 0.0 <==> Admitted(old(View()), host, now)
    {
      EnsureBucket(host, now);
      ghost var known := View().buckets;
      wait := TakeFrom(host, now);
      TakenIsAfter(old(View()), host, now, known, View().buckets);
    }

    /** `acquire`, given the clock readings its turns see. An empty host is let
        through without a bucket. */
    method Acquire(host: string, readings: seq<real>) returns (admitted: bool)
      requires Valid()
      modifies this, repr
      ensures Valid() && fresh(repr - old(repr))
      ensures host == "" ==> admitted && View() == old(View())
      ensures host != "" ==> (View(), admitted) == Acquired(old(View()), host, readings)
    {
      if host == "" {
        return true;
      }
      for turn := 0 to |readings|
        invariant Valid() && fresh(repr - old(repr))
        invariant Acquired(View(), host, readings[turn..]) == Acquired(old(View()), host, readings)
      {
        assert readings[turn..][0] == readings[turn] && readings[turn..][1..] == readings[turn + 1..];
        var wait := TryAcquire(host, readings[turn]);
        if wait <= 0.0 {
          return true;
        }
      }
      return false;
    }
  }

  /** The limiter after one caller has looped until it found a token or ran
      out of clock readings, and whether it found one. */
  function Acquired(l: Limiter, host: string, readings: seq<real>): (Limiter, bool)
    decreases |readings|
  {
    if readings == [] then (l, false)
    else if Admitted(l, host, readings[0]) then (After(l, host, readings[0]), true)
    else Acquired(After(l, host, readings[0]), host, readings[1..])
  }

  lemma RefillIsOk(b: Bucket, now: real)
    requires BucketOk(b)
    ensures BucketOk(Refill(b, now)) && BucketOk(Attempted(b, now))
  {
    assert b.capacity as real >= 1.0;
  }

  // --- traces of attempts by any workers over any hosts ---

  datatype Attempt = Attempt(host: string, now: real)

  /** `time.monotonic` never goes back. */
  ghost predicate InOrder(trace: seq<Attempt>) {
    forall i, j :: 0 <= i < j < |trace| ==> trace[i].now <= trace[j].now
  }

  function Exec(l: Limiter, trace: seq<Attempt>): Limiter
    decreases |trace|
  {
    if trace == [] then l else Exec(After(l, trace[0].host, trace[0].now), trace[1..])
  }

  predicate Counts(l: Limiter, a: Attempt, host: string, from: real, to: real) {
    a.host == host && from <= a.now <= to && Admitted(l, a.host, a.now)
  }

  /** How many attempts for a host are admitted between two instants. */
  function Admissions(l: Limiter, trace: seq<Attempt>, host: string, from: real, to: real): nat
    decreases |trace|
  {
    if trace == [] then 0
    else
      var a := trace[0];
      (if Counts(l, a, host, from, to) then 1 else 0) +
      Admissions(After(l, a.host, a.now), trace[1..], host, from, to)
  }

  ghost predicate LimiterOk(l: Limiter) {
    forall h <- l.buckets ::
      BucketOk(l.buckets[h]) && l.buckets[h].rps == Rate(l.rps) && l.buckets[h].capacity == Capacity(l.burst)
  }

  /** Tokens stay between zero and the capacity, and an attempt leaves the
      buckets of the other hosts alone. */
  lemma AttemptTouchesOneBucket(l: Limiter, host: string, now: real, other: string)
    requires LimiterOk(l)
    ensures LimiterOk(After(l, host, now))
    ensures other != host ==>
              (other in After(l, host, now).buckets <==> other in l.buckets) &&
              (other in l.buckets ==> After(l, host, now).buckets[other] == l.buckets[other])
  {
    RefillIsOk(BucketOf(l, host, now), now);
  }

  /** What one host can still be granted up to `to`, counting from `from`. */
  function Allowance(b: Bucket, from: real, to: real): real {
    Refill(b, from).tokens + Earned(b.rps, Max(from, b.updated), to)
  }

  lemma Spread(rate: real, x: real, y: real, z: real)
    requires rate > 0.0 && x <= y
    ensures Earned(rate, x, z) == Earned(rate, x, y) + Earned(rate, y, z) && Earned(rate, x, y) >= 0.0
  {
  }

  /** Refilling late yields no more than refilling early and again late. */
  lemma RefillGrowsAtMost(b: Bucket, from: real, t: real)
    requires BucketOk(b) && b.updated <= t && from <= t
    ensures Refill(b, t).tokens <= Refill(b, from).tokens + Earned(b.rps, Max(from, b.updated), t)
  {
    Spread(b.rps, b.updated, Max(from, b.updated), t);
  }

  lemma EarlyAttemptGainsNothing(b: Bucket, from: real, t: real)
    requires BucketOk(b) && b.updated <= t < from
    ensures Refill(Attempted(b, t), from).tokens <= Refill(b, from).tokens
  {
    Spread(b.rps, b.updated, t, from);
  }

  lemma AttemptSpendsAllowance(b: Bucket, from: real, to: real, t: real)
    requires BucketOk(b) && b.updated <= t && from <= to
    requires t <= to
    ensures (if from <= t && Admits(b, t) then 1.0 else 0.0) + Allowance(Attempted(b, t), from, to) <=
            Allowance(b, from, to)
  {
    if t < from {
      EarlyAttemptGainsNothing(b, from, t);
    } else {
      RefillGrowsAtMost(b, from, t);
      Spread(b.rps, Max(from, b.updated), t, to);
    }
  }

  lemma {:induction false} LateAttemptsCountNothing(l: Limiter, trace: seq<Attempt>, host: string,
                                                    from: real, to: real)
    requires forall a <- trace :: a.now > to
    ensures Admissions(l, trace, host, from, to) == 0
    decreases |trace|
  {
    if trace != [] {
      LateAttemptsCountNothing(After(l, trace[0].host, trace[0].now), trace[1..], host, from, to);
    }
  }

  /** The host's bucket, or the full one its first attempt would create. */
  ghost predicate CoversHost(l: Limiter, host: string, b: Bucket) {
    BucketOk(b) && b.rps == Rate(l.rps) && b.capacity == Capacity(l.burst) &&
    (host in l.buckets ==> b == l.buckets[host]) &&
    (host !in l.buckets ==> b.tokens == b.capacity as real)
  }

  lemma FreshBucketCovers(l: Limiter, host: string, b: Bucket, now: real)
    requires CoversHost(l, host, b) && b.updated <= now
    ensures Attempted(BucketOf(l, host, now), now) == Attempted(b, now)
    ensures Admitted(l, host, now) <==> Admits(b, now)
  {
    if host !in l.buckets {
      Spread(b.rps, b.updated, now, now);
      var full := NewBucket(l.rps, l.burst, now);
      assert Refill(full, now) == full;
      assert Refill(b, now).tokens == full.tokens;
      assert Refill(b, now) == full;
    }
  }

  lemma AttemptedCovers(l: Limiter, host: string, b: Bucket, now: real)
    requires CoversHost(l, host, b) && b.updated <= now
    ensures CoversHost(After(l, host, now), host, Attempted(b, now))
    ensures Attempted(b, now).updated == now
  {
    FreshBucketCovers(l, host, b, now);
    RefillIsOk(b, now);
  }

  /** One attempt, for this host or another: what it admits comes out of the
      allowance. */
  lemma AttemptWithinAllowance(l: Limiter, a: Attempt, host: string, b: Bucket, from: real, to: real)
    returns (b': Bucket)
    requires LimiterOk(l) && CoversHost(l, host, b) && from <= to && b.updated <= a.now <= to
    ensures LimiterOk(After(l, a.host, a.now)) && CoversHost(After(l, a.host, a.now), host, b')
    ensures b'.updated <= a.now
    ensures (if Counts(l, a, host, from, to) then 1.0 else 0.0) + Allowance(b', from, to) <= Allowance(b, from, to)
  {
    AttemptTouchesOneBucket(l, a.host, a.now, host);
    if a.host == host {
      b' := Attempted(b, a.now);
      FreshBucketCovers(l, host, b, a.now);
      AttemptedCovers(l, host, b, a.now);
      AttemptSpendsAllowance(b, from, to, a.now);
    } else {
      b' := b;
    }
  }

  lemma AllowanceIsPositive(b: Bucket, from: real, to: real)
    requires BucketOk(b) && from <= to && b.updated <= to
    ensures Allowance(b, from, to) >= 0.0
  {
    RefillIsOk(b, from);
    assert Earned(b.rps, Max(from, b.updated), to) >= 0.0;
  }

  lemma {:induction false} AdmissionsWithinAllowance(l: Limiter, trace: seq<Attempt>, host: string, b: Bucket,
                                                     from: real, to: real, allowance: real)
    requires LimiterOk(l) && InOrder(trace) && from <= to && CoversHost(l, host, b)
    requires b.updated <= to && forall a <- trace :: b.updated <= a.now
    requires Allowance(b, from, to) <= allowance
    ensures Admissions(l, trace, host, from, to) as real <= allowance
    decreases |trace|
  {
    if trace == [] || trace[0].now > to {
      AllowanceIsPositive(b, from, to);
      LateAttemptsCountNothing(l, trace, host, from, to);
    } else {
      var b' := AttemptWithinAllowance(l, trace[0], host, b, from, to);
      var counted := if Counts(l, trace[0], host, from, to) then 1 else 0;
      AdmissionsWithinAllowance(After(l, trace[0].host, trace[0].now), trace[1..], host, b', from, to,
                                allowance - counted as real);
    }
  }

  lemma FullAllowance(rps: real, burst: int, start: real, from: real, to: real)
    requires start <= from <= to
    ensures Allowance(NewBucket(rps, burst, start), from, to) <=
            Capacity(burst) as real + Earned(Rate(rps), from, to)
  {
    var b := NewBucket(rps, burst, start);
    RefillIsOk(b, from);
    assert Max(from, b.updated) == from && b.rps == Rate(rps);
    assert Refill(b, from).tokens <= b.capacity as real;
  }

  lemma EarnedFaster(x: real, y: real, from: real, to: real)
    requires x <= y && from <= to
    ensures Earned(x, from, to) <= Earned(y, from, to)
  {
    Product(to - from, x, y);
  }

  lemma Product(a: real, x: real, y: real)
    requires a >= 0.0 && x <= y
    ensures a * x <= a * y
  {
  }

  lemma RateIsBoundedBy(rps: real, burst: int, rate: real, trace: seq<Attempt>, host: string, from: real, to: real)
    requires InOrder(trace) && from <= to && Rate(rps) <= rate
    ensures Admissions(Limiter(rps, burst, map[]), trace, host, from, to) as real <=
            Capacity(burst) as real + (to - from) * rate
  {
    var start := if trace == [] then from else Min(from, trace[0].now);
    FullAllowance(rps, burst, start, from, to);
    EarnedFaster(Rate(rps), rate, from, to);
    AdmissionsWithinAllowance(Limiter(rps, burst, map[]), trace, host, NewBucket(rps, burst, start), from, to,
                              Capacity(burst) as real + Earned(rate, from, to));
  }

  /** For every trace of attempts by any workers over any hosts, and every
      window of it, one host is admitted at most capacity + rate * length times,
      where the rate is the configured one raised to 0.1. */
  lemma RateIsBounded(rps: real, burst: int, trace: seq<Attempt>, host: string, from: real, to: real)
    requires InOrder(trace) && from <= to
    ensures Admissions(Limiter(rps, burst, map[]), trace, host, from, to) as real <=
            Capacity(burst) as real + (to - from) * Rate(rps)
  {
    RateIsBoundedBy(rps, burst, Rate(rps), trace, host, from, to);
  }

  /** No trace has a window with more admissions than capacity + rate * length. */
  ghost predicate Respects(rps: real, burst: int, rate: real) {
    forall trace: seq<Attempt>, host: string, from: real, to: real | InOrder(trace) && from <= to ::
      Admissions(Limiter(rps, burst, map[]), trace, host, from, to) as real <=
      Capacity(burst) as real + (to - from) * rate
  }

  /** One attempt for a host every `gap` seconds, `n` of them, after the instant `at`. */
  function Steadily(at: real, gap: real, n: nat): seq<Attempt>
    decreases n
  {
    if n == 0 then [] else [Attempt("host", at + gap)] + Steadily(at + gap, gap, n - 1)
  }

  /** So many attempts at once, and then one every `gap` seconds. */
  function BurstThenSteadily(burst: nat, gap: real, n: nat): seq<Attempt>
    decreases burst
  {
    if burst == 0 then Steadily(0.0, gap, n) else [Attempt("host", 0.0)] + BurstThenSteadily(burst - 1, gap, n)
  }

  lemma {:induction false} SteadilyInOrder(at: real, gap: real, n: nat)
    requires gap > 0.0
    ensures InOrder(Steadily(at, gap, n)) && forall a <- Steadily(at, gap, n) :: at <= a.now
    decreases n
  {
    if n > 0 {
      SteadilyInOrder(at + gap, gap, n - 1);
    }
  }

  lemma {:induction false} BurstInOrder(burst: nat, gap: real, n: nat)
    requires gap > 0.0
    ensures InOrder(BurstThenSteadily(burst, gap, n)) && forall a <- BurstThenSteadily(burst, gap, n) :: 0.0 <= a.now
  {
    if burst == 0 {
      SteadilyInOrder(0.0, gap, n);
    } else {
      BurstInOrder(burst - 1, gap, n);
    }
  }

  lemma NextGap(at: real, gap: real, n: nat)
    requires n > 0
    ensures at + gap + (n - 1) as real * gap == at + n as real * gap
  {
  }

  /** An empty bucket earns one token in each gap and spends it. */
  lemma {:induction false} SteadyIsAdmitted(l: Limiter, rate: real, capacity: int, at: real, gap: real, n: nat,
                                            to: real)
    requires rate > 0.0 && gap > 0.0 && gap * rate == 1.0 && capacity >= 1 && 0.0 <= at
    requires "host" in l.buckets && l.buckets["host"] == Bucket(rate, capacity, 0.0, at)
    requires to == at + n as real * gap
    ensures Admissions(l, Steadily(at, gap, n), "host", 0.0, to) == n
    decreases n
  {
    if n > 0 {
      var trace, rest := Steadily(at, gap, n), After(l, "host", at + gap);
      assert trace[1..] == Steadily(at + gap, gap, n - 1);
      assert Refill(l.buckets["host"], at + gap) == Bucket(rate, capacity, 1.0, at + gap);
      NextGap(at, gap, n);
      assert at + gap <= to by {
        assert (n - 1) as real * gap >= 0.0;
      }
      SteadyIsAdmitted(rest, rate, capacity, at + gap, gap, n - 1, to);
    }
  }

  /** A full bucket is emptied at once. */
  lemma {:induction false} BurstIsAdmitted(l: Limiter, rate: real, capacity: int, burst: nat, gap: real, n: nat,
                                           to: real)
    requires rate > 0.0 && gap > 0.0 && gap * rate == 1.0 && burst <= capacity && 1 <= capacity
    requires BucketOf(l, "host", 0.0) == Bucket(rate, capacity, burst as real, 0.0)
    requires burst == 0 ==> "host" in l.buckets
    requires to == n as real * gap
    ensures Admissions(l, BurstThenSteadily(burst, gap, n), "host", 0.0, to) == burst + n
    decreases burst
  {
    if burst == 0 {
      SteadyIsAdmitted(l, rate, capacity, 0.0, gap, n, to);
    } else {
      var rest := After(l, "host", 0.0);
      assert BurstThenSteadily(burst, gap, n)[1..] == BurstThenSteadily(burst - 1, gap, n);
      assert to >= 0.0;
      assert rest.buckets["host"] == Bucket(rate, capacity, (burst - 1) as real, 0.0);
      BurstIsAdmitted(rest, rate, capacity, burst - 1, gap, n, to);
    }
  }

  lemma Gap(rate: real, n: real) returns (gap: real)
    requires rate > 0.0
    ensures gap > 0.0 && gap * rate == 1.0 && n / rate == n * gap
  {
    gap := 1.0 / rate;
    var q := n / rate;
    assert q * rate == n;
    assert (q - n * gap) * rate == q * rate - n * (gap * rate) == 0.0;
  }

  lemma BoundIsMetAt(rps: real, burst: int, n: nat, gap: real, to: real) returns (trace: seq<Attempt>)
    requires gap > 0.0 && gap * (if rps < 0.1 then 0.1 else rps) == 1.0 && to == n as real * gap
    ensures InOrder(trace)
    ensures Admissions(Limiter(rps, burst, map[]), trace, "host", 0.0, to) == (if burst < 1 then 1 else burst) + n
  {
    var rate, capacity := if rps < 0.1 then 0.1 else rps, if burst < 1 then 1 else burst;
    trace := BurstThenSteadily(capacity, gap, n);
    BurstInOrder(capacity, gap, n);
    BurstIsAdmitted(Limiter(rps, burst, map[]), rate, capacity, capacity, gap, n, to);
  }

  /** The bound is met: some trace has as many admissions in a window as it
      allows, the burst at once and then one for every token earned. */
  lemma BoundIsMet(rps: real, burst: int, n: nat) returns (trace: seq<Attempt>)
    ensures InOrder(trace)
    ensures var rate := if rps < 0.1 then 0.1 else rps;
            Admissions(Limiter(rps, burst, map[]), trace, "host", 0.0, n as real / rate) ==
            (if burst < 1 then 1 else burst) + n
  {
    var rate := if rps < 0.1 then 0.1 else rps;
    var gap := Gap(rate, n as real);
    trace := BoundIsMetAt(rps, burst, n, gap, n as real / rate);
  }

  lemma Slower(gap: real, rate: real, x: real)
    requires gap > 0.0 && gap * rate == 1.0 && x < rate
    ensures gap * x < 1.0
  {
    var p, q := gap * rate, gap * x;
    assert p == 1.0;
    assert p - q > 0.0 by {
      assert gap * (rate - x) == p - q;
    }
    assert q < 1.0;
  }

  lemma SlowerIsExceeded(rps: real, burst: int, rate: real)
    requires rate < if rps < 0.1 then 0.1 else rps
    ensures !Respects(rps, burst, rate)
  {
    var actual := if rps < 0.1 then 0.1 else rps;
    var gap := Gap(actual, 1.0);
    var trace := BoundIsMetAt(rps, burst, 1, gap, gap);
    Slower(gap, actual, rate);
    assert Admissions(Limiter(rps, burst, map[]), trace, "host", 0.0, gap) == Capacity(burst) + 1;
    assert (gap - 0.0) * rate < 1.0;
  }

  /** So the rate that holds on every trace is the configured one raised to 0.1,
      and no smaller one. */
  lemma RateIsExact(rps: real, burst: int, rate: real)
    ensures Respects(rps, burst, rate) <==> rate >= if rps < 0.1 then 0.1 else rps
  {
    if rate < if rps < 0.1 then 0.1 else rps {
      SlowerIsExceeded(rps, burst, rate);
    } else {
      forall trace: seq<Attempt>, host: string, from: real, to: real | InOrder(trace) && from <= to
        ensures Admissions(Limiter(rps, burst, map[]), trace, host, from, to) as real <=
                Capacity(burst) as real + (to - from) * rate
      {
        RateIsBoundedBy(rps, burst, rate, trace, host, from, to);
      }
    }
  }

  /** In particular the configured rate is respected on every trace exactly when
      it is not one the limiter raises. */
  lemma ConfiguredRateIsRespectedIff(rps: real, burst: int)
    ensures Respects(rps, burst, rps) <==> rps >= 0.1
  {
    RateIsExact(rps, burst, rps);
  }

  /** The wait is exact: with no other attempt for the host meanwhile, a refused
      caller is admitted at a later instant if and only if it slept that long. */
  lemma AdmittedOnceWaitedIff(b: Bucket, now: real, later: real)
    requires BucketOk(b) && b.updated <= now <= later && !Admits(b, now)
    ensures Admits(Attempted(b, now), later) <==> later - now >= Wait(b, now)
  {
    RefillIsOk(b, now);
    var need := 1.0 - Refill(b, now).tokens;
    QuotientBounds(later - now, need, b.rps);
  }

  lemma QuotientBounds(x: real, need: real, rate: real)
    requires rate > 0.0
    ensures x >= need / rate <==> x * rate >= need
  {
    var q := need / rate;
    assert q * rate == need;
    assert x * rate - q * rate == (x - q) * rate;
  }

  function TurnsUsed(l: Limiter, host: string, readings: seq<real>): nat
    decreases |readings|
  {
    if readings == [] then 0
    else if Admitted(l, host, readings[0]) then 1
    else 1 + TurnsUsed(After(l, host, readings[0]), host, readings[1..])
  }

  function TurnsOf(host: string, readings: seq<real>): seq<Attempt> {
    if readings == [] then [] else [Attempt(host, readings[0])] + TurnsOf(host, readings[1..])
  }

  /** The caller's k-th turn, after the turns before it, finds a token. */
  predicate TurnAdmits(l: Limiter, host: string, readings: seq<real>, k: nat)
    requires k < |readings|
  {
    Admitted(Exec(l, TurnsOf(host, readings[..k])), host, readings[k])
  }

  lemma TurnAfterFirst(l: Limiter, host: string, readings: seq<real>, k: nat)
    requires 0 < k < |readings|
    ensures TurnAdmits(l, host, readings, k) <==>
            TurnAdmits(After(l, host, readings[0]), host, readings[1..], k - 1)
  {
    assert readings[..k][1..] == readings[1..][..k - 1];
    assert TurnsOf(host, readings[..k])[1..] == TurnsOf(host, readings[1..][..k - 1]);
  }

  /** A caller's loop is a trace of attempts, so the window bound covers it. It
      ends with the first admission: every turn but the last is refused, and the
      last is admitted exactly when the caller gets through. */
  lemma {:induction false} AcquireIsATrace(l: Limiter, host: string, readings: seq<real>)
    ensures TurnsUsed(l, host, readings) <= |readings|
    ensures Acquired(l, host, readings).0 ==
            Exec(l, TurnsOf(host, readings[..TurnsUsed(l, host, readings)]))
    ensures var n := TurnsUsed(l, host, readings);
            && (forall k :: 0 <= k < n - 1 ==> !TurnAdmits(l, host, readings, k))
            && (Acquired(l, host, readings).1 <==> n > 0 && TurnAdmits(l, host, readings, n - 1))
            && (!Acquired(l, host, readings).1 ==> n == |readings|)
    decreases |readings|
  {
    var n := TurnsUsed(l, host, readings);
    if readings != [] {
      var l', rest := After(l, host, readings[0]), readings[1..];
      assert TurnAdmits(l, host, readings, 0) <==> Admitted(l, host, readings[0]) by {
        assert readings[..0] == [];
      }
      if Admitted(l, host, readings[0]) {
        assert TurnsOf(host, readings[..1])[1..] == TurnsOf(host, readings[..1][1..]) == [];
      } else {
        AcquireIsATrace(l', host, rest);
        assert readings[..n][1..] == rest[..n - 1];
        assert TurnsOf(host, readings[..n])[1..] == TurnsOf(host, rest[..n - 1]);
        forall k | 0 < k < n
          ensures TurnAdmits(l, host, readings, k) <==> TurnAdmits(l', host, rest, k - 1)
        {
          TurnAfterFirst(l, host, readings, k);
        }
      }
    }
  }
}
