/**
 * The PHP-FPM worker sizing of internal/autotune/calculator.go: from a memory limit, a CPU count,
 * a memory threshold and a profile to pm.max_children and the spare-server settings. The floating
 * point thresholds and ratios are real numbers here.
 */
module WorkerSizing {
  import opened Arithmetic
  import opened Options

  datatype Mode = Static | Dynamic | OnDemand

  datatype Profile = Profile(
    mode: Mode, perWorker: int, opcache: int, reserved: int, minWorkers: int, maxWorkers: int,
    spareMinRatio: real, spareMaxRatio: real, startRatio: real, maxMemoryUsage: real)

  datatype Warning = CpuCapped | ProfileCapped | RaisedToMinimum | Clamped | OverCommitted

  datatype Sizing = Sized(maxChildren: int, warnings: seq<Warning>) | TooSmall(needed: int)

  /** A conversion to int drops the fraction. */
  function Truncate(x: real): int {
    if x >= 0.0 then x.Floor else -(-x).Floor
  }

  function Ceil(x: real): (c: int)
    ensures x <= c as real < x + 1.0
  {
    -(-x).Floor
  }

  function Overhead(p: Profile): int {
    p.reserved + p.opcache
  }

  // ----- what a worker count has to satisfy

  /** `n` workers and the overhead fit the real limit. */
  predicate Fits(limit: int, p: Profile, n: int) {
    n * p.perWorker + Overhead(p) <= limit
  }

  /** The threshold, the cores and the profile's maximum would all grant `n` workers. */
  predicate Granted(limit: int, cpus: int, threshold: real, p: Profile, n: int) {
    && n * p.perWorker + Overhead(p) <= Truncate(limit as real * threshold)
    && (cpus >= 1 ==> 2 * n <= cpus * 5)
    && (p.maxWorkers > 0 ==> n <= p.maxWorkers)
  }

  /** Up to the profile's minimum is asked for in any case. */
  predicate Wanted(limit: int, cpus: int, threshold: real, p: Profile, n: int) {
    n <= p.minWorkers || Granted(limit, cpus, threshold, p, n)
  }

  predicate Runnable(limit: int, cpus: int, threshold: real, p: Profile, n: int) {
    Wanted(limit, cpus, threshold, p, n) && Fits(limit, p, n)
  }

  /** `n` is the largest worker count that is both wanted and fits, or one if there is none. */
  ghost predicate IsSizing(limit: int, cpus: int, threshold: real, p: Profile, n: int) {
    && n >= 1
    && (n > 1 ==> Runnable(limit, cpus, threshold, p, n))
    && forall m :: m > n ==> !Runnable(limit, cpus, threshold, p, m)
  }

  /** Something is wanted that the real limit cannot hold. */
  ghost predicate Misfit(limit: int, cpus: int, threshold: real, p: Profile) {
    exists n :: n >= 1 && Wanted(limit, cpus, threshold, p, n) && !Fits(limit, p, n)
  }

  /** A profile that was accepted has a positive worker size and threshold. */
  predicate Accepted(p: Profile) {
    p.perWorker > 0 && p.maxMemoryUsage > 0.0
  }

  function SmallestBootableLimit(p: Profile): int {
    p.minWorkers * p.perWorker + p.reserved + p.opcache
  }

  // ----- the sizing

  /** How many workers of one size go into the room there is. */
  function Pool(room: int, perWorker: int): nat
    requires perWorker > 0
  {
    if room > 0 then room / perWorker else 0
  }

  /** The quotient is exactly the number of workers that fit. */
  lemma PoolHolds(room: int, perWorker: int, n: int)
    requires perWorker > 0 && n >= 1
    ensures n <= Pool(room, perWorker) <==> n * perWorker <= room
  {
    if room > 0 {
      var q := room / perWorker;
      if n <= q {
        ProductOrdered(n, q, perWorker);
      } else {
        ProductOrdered(q + 1, n, perWorker);
      }
    } else {
      ProductOrdered(1, n, perWorker);
    }
  }

  /** The count the threshold budget, the cores and the profile suggest. */
  method Suggested(limit: int, cpus: int, threshold: real, p: Profile)
      returns (desired: int, warnings: seq<Warning>)
    requires Accepted(p)
    ensures desired >= 0 && desired >= p.minWorkers
    ensures forall n :: n >= 1 ==> (n <= desired <==> Wanted(limit, cpus, threshold, p, n))
    ensures Clamped !in warnings && OverCommitted !in warnings
    ensures CpuCapped in warnings <==>
            cpus >= 1 && (cpus * 5 / 2 + 1) * p.perWorker + Overhead(p) <= Truncate(limit as real * threshold)
    ensures ProfileCapped in warnings <==>
            && p.maxWorkers > 0 && (cpus >= 1 ==> 2 * (p.maxWorkers + 1) <= cpus * 5)
            && (p.maxWorkers + 1) * p.perWorker + Overhead(p) <= Truncate(limit as real * threshold)
    ensures RaisedToMinimum in warnings <==>
            p.minWorkers >= 1 && !Granted(limit, cpus, threshold, p, p.minWorkers)
  {
    warnings := [];
    var softPool := Truncate(limit as real * threshold) - Overhead(p);
    desired := Pool(softPool, p.perWorker);
    forall n | n >= 1
      ensures n <= desired <==> n * p.perWorker + Overhead(p) <= Truncate(limit as real * threshold)
    {
      PoolHolds(softPool, p.perWorker, n);
    }
    hide Pool, Truncate;
    var cpuCap := cpus * 5 / 2;
    if cpuCap > 1 && desired > cpuCap {
      warnings := warnings + [CpuCapped];
      desired := cpuCap;
    }
    if p.maxWorkers > 0 && desired > p.maxWorkers {
      warnings := warnings + [ProfileCapped];
      desired := p.maxWorkers;
    }
    if desired < p.minWorkers {
      warnings := warnings + [RaisedToMinimum];
      desired := p.minWorkers;
    }
  }

  method SizeWorkers(limit: int, cpus: int, threshold: real, p: Profile, strict: bool) returns (r: Sizing)
    requires Accepted(p)
    ensures r.TooSmall? <==> strict && Misfit(limit, cpus, threshold, p)
    ensures r.TooSmall? ==> r.needed == SmallestBootableLimit(p)
    ensures r.Sized? ==> IsSizing(limit, cpus, threshold, p, r.maxChildren)
    ensures r.Sized? && p.minWorkers >= 1 ==> (OverCommitted in r.warnings <==> !Fits(limit, p, r.maxChildren))
    ensures r.Sized? ==> (Clamped in r.warnings <==> Misfit(limit, cpus, threshold, p) && Fits(limit, p, 1))
  {
    var desired, warnings := Suggested(limit, cpus, threshold, p);
    var hardMax := Pool(limit - Overhead(p), p.perWorker);
    forall n | n >= 1 ensures n <= hardMax <==> Fits(limit, p, n) {
      PoolHolds(limit - Overhead(p), p.perWorker, n);
    }
    hide Fits, Wanted, Pool, SmallestBootableLimit, Overhead;
    assert Fits(limit, p, 1) <==> 1 <= hardMax;
    if desired <= hardMax {
      return Sized(if desired < 1 then 1 else desired, warnings);
    }
    assert Wanted(limit, cpus, threshold, p, desired) && !Fits(limit, p, desired);
    if strict {
      return TooSmall(SmallestBootableLimit(p));
    }
    if hardMax >= 1 {
      return Sized(hardMax, warnings + [Clamped]);
    }
    return Sized(1, warnings + [OverCommitted]);
  }

  // ----- what the sizing promises

  lemma SizingIsUnique(limit: int, cpus: int, threshold: real, p: Profile, n: int, m: int)
    requires IsSizing(limit, cpus, threshold, p, n) && IsSizing(limit, cpus, threshold, p, m)
    ensures n == m
  {
  }

  /** The pool fits the real limit, whatever the threshold, as soon as one worker does. */
  lemma SizingFits(limit: int, cpus: int, threshold: real, p: Profile, n: int)
    requires IsSizing(limit, cpus, threshold, p, n)
    ensures Fits(limit, p, n) <==> Fits(limit, p, 1) || n > 1
    ensures n > 1 && p.perWorker > 0 ==> Fits(limit, p, 1)
  {
    if n > 1 && p.perWorker > 0 {
      ProductOrdered(1, n, p.perWorker);
    }
  }

  /** More memory never means fewer workers. */
  lemma SizingMonotone(limit: int, more: int, cpus: int, threshold: real, p: Profile, n: int, m: int)
    requires limit <= more && threshold >= 0.0
    requires IsSizing(limit, cpus, threshold, p, n) && IsSizing(more, cpus, threshold, p, m)
    ensures n <= m
  {
    if n > 1 {
      if Granted(limit, cpus, threshold, p, n) {
        GrantedMonotone(limit, more, cpus, threshold, p, n);
      }
      assert Runnable(more, cpus, threshold, p, n);
    }
  }

  /** With more memory the same count is still granted. */
  lemma GrantedMonotone(limit: int, more: int, cpus: int, threshold: real, p: Profile, n: int)
    requires limit <= more && threshold >= 0.0 && Granted(limit, cpus, threshold, p, n)
    ensures Granted(more, cpus, threshold, p, n)
  {
    assert limit as real * threshold <= more as real * threshold;
  }

  lemma WantedBelow(limit: int, cpus: int, threshold: real, p: Profile, n: int, m: int)
    requires p.perWorker > 0 && m <= n && Wanted(limit, cpus, threshold, p, n)
    ensures Wanted(limit, cpus, threshold, p, m)
  {
    ProductOrdered(m, n, p.perWorker);
  }

  /** Strict mode errors exactly when the first count that does not fit is wanted, whatever the threshold. */
  lemma MisfitExactly(limit: int, cpus: int, threshold: real, p: Profile)
    requires Accepted(p)
    ensures Misfit(limit, cpus, threshold, p) <==>
            Wanted(limit, cpus, threshold, p, Pool(limit - Overhead(p), p.perWorker) + 1)
  {
    var first := Pool(limit - Overhead(p), p.perWorker) + 1;
    PoolHolds(limit - Overhead(p), p.perWorker, first);
    if Misfit(limit, cpus, threshold, p) {
      var n :| n >= 1 && Wanted(limit, cpus, threshold, p, n) && !Fits(limit, p, n);
      PoolHolds(limit - Overhead(p), p.perWorker, n);
      WantedBelow(limit, cpus, threshold, p, n, first);
    }
  }

  /** The limit named in the error is the boundary of strict mode. */
  ghost predicate BoundaryHonest(cpus: int, threshold: real, p: Profile) {
    forall limit :: limit >= 0 ==> (Misfit(limit, cpus, threshold, p) <==> limit < SmallestBootableLimit(p))
  }

  /** The most workers the cores and the profile allow, if they set any bound. */
  function Cap(cpus: int, p: Profile): (cap: Option<int>)
    ensures cap.None? <==> cpus < 1 && p.maxWorkers <= 0
    ensures cap.Some? ==>
              forall n :: (n <= cap.value <==> (cpus >= 1 ==> 2 * n <= cpus * 5)
                                               && (p.maxWorkers > 0 ==> n <= p.maxWorkers))
  {
    if cpus < 1 then if p.maxWorkers > 0 then Some(p.maxWorkers) else None
    else if 0 < p.maxWorkers < cpus * 5 / 2 then Some(p.maxWorkers) else Some(cpus * 5 / 2)
  }

  /** Oversubscription reaches so far that more workers are granted than fit, beyond the profile's minimum. */
  predicate OverGrants(cpus: int, threshold: real, p: Profile) {
    && threshold > 1.0
    && (Cap(cpus, p).Some? ==>
          var n := Cap(cpus, p).value;
          && n > p.minWorkers
          && (n * p.perWorker + Overhead(p)) as real <= (n * p.perWorker + Overhead(p) - 1) as real * threshold)
  }

  /** Strict mode errors exactly below the limit it names, unless oversubscription grants too much. */
  lemma StrictBoundary(cpus: int, threshold: real, p: Profile)
    requires Accepted(p) && p.minWorkers >= 1 && threshold > 0.0
    ensures BoundaryHonest(cpus, threshold, p) <==> !OverGrants(cpus, threshold, p)
  {
    if OverGrants(cpus, threshold, p) {
      var limit := OversubscriptionRefused(cpus, threshold, p);
    } else {
      forall limit | limit >= 0
        ensures Misfit(limit, cpus, threshold, p) <==> limit < SmallestBootableLimit(p)
      {
        if limit < SmallestBootableLimit(p) {
          assert Wanted(limit, cpus, threshold, p, p.minWorkers) && !Fits(limit, p, p.minWorkers);
        } else {
          forall n | n >= 1 && Wanted(limit, cpus, threshold, p, n) ensures Fits(limit, p, n) {
            if n <= p.minWorkers {
              ProductOrdered(n, p.minWorkers, p.perWorker);
            } else {
              GrantedFits(limit, cpus, threshold, p, n);
            }
          }
        }
      }
    }
  }

  /** Without that, every granted count fits. */
  lemma GrantedFits(limit: int, cpus: int, threshold: real, p: Profile, n: int)
    requires limit >= 0 && p.perWorker > 0 && threshold > 0.0 && !OverGrants(cpus, threshold, p)
    requires n > p.minWorkers && Granted(limit, cpus, threshold, p, n)
    ensures Fits(limit, p, n)
  {
    hide Truncate;
    if threshold <= 1.0 {
      Shrinks(limit, threshold);
    } else if !Fits(limit, p, n) {
      var most := Cap(cpus, p).value;
      ProductOrdered(n, most, p.perWorker);
      Outgrows(limit, n * p.perWorker + Overhead(p), most * p.perWorker + Overhead(p), threshold);
    }
  }

  lemma Shrinks(limit: int, threshold: real)
    requires limit >= 0 && 0.0 <= threshold <= 1.0
    ensures Truncate(limit as real * threshold) <= limit
  {
    assert limit as real * threshold <= limit as real * 1.0;
  }

  lemma Outgrows(limit: int, x: int, y: int, threshold: real)
    requires 0 <= limit < x <= y && threshold > 1.0 && x <= Truncate(limit as real * threshold)
    ensures y as real <= (y - 1) as real * threshold
  {
    var room := (x - 1 - limit) as real;
    ScaledUp(room, threshold);
    assert (x - 1) as real == limit as real + room;
    Distributes(limit as real, room, threshold);
    GainGrows(x, y, threshold);
  }

  lemma ScaledUp(x: real, threshold: real)
    requires x >= 0.0 && threshold >= 1.0
    ensures x * threshold >= x
  {
    assert x * (threshold - 1.0) >= 0.0;
  }

  lemma Distributes(x: real, y: real, threshold: real)
    ensures (x + y) * threshold == x * threshold + y * threshold
  {
  }

  /** Above a threshold of one, what a count gains over its own size grows with the count. */
  lemma GainGrows(x: int, y: int, threshold: real)
    requires x <= y && threshold > 1.0 && x as real <= (x - 1) as real * threshold
    ensures y as real <= (y - 1) as real * threshold
  {
    var u, v := (x - 1) as real, (y - x) as real;
    assert (y - 1) as real == u + v && y as real == x as real + v;
    ScaledUp(v, threshold);
    Distributes(u, v, threshold);
  }

  /** A limit at or above the one named in the error that strict mode refuses all the same. */
  lemma OversubscriptionRefused(cpus: int, threshold: real, p: Profile) returns (limit: int)
    requires Accepted(p) && p.minWorkers >= 1 && OverGrants(cpus, threshold, p)
    ensures limit >= 0 && limit >= SmallestBootableLimit(p) && Misfit(limit, cpus, threshold, p)
  {
    hide Granted, Misfit, OverGrants;
    var n := OverGranted(cpus, threshold, p);
    limit := n * p.perWorker + Overhead(p) - 1;
    assert limit >= SmallestBootableLimit(p) by {
      ProductOrdered(p.minWorkers + 1, n, p.perWorker);
    }
    MisfitBy(limit, cpus, threshold, p, n);
  }

  lemma MisfitBy(limit: int, cpus: int, threshold: real, p: Profile, n: int)
    requires n >= 1 && Granted(limit, cpus, threshold, p, n) && !Fits(limit, p, n)
    ensures Misfit(limit, cpus, threshold, p)
  {
    hide Granted, Fits;
    assert Wanted(limit, cpus, threshold, p, n);
  }

  /** A count above the minimum that is granted one MB below what it needs. */
  lemma OverGranted(cpus: int, threshold: real, p: Profile) returns (n: int)
    requires Accepted(p) && OverGrants(cpus, threshold, p)
    ensures n > p.minWorkers && n * p.perWorker + Overhead(p) >= 1
    ensures Granted(n * p.perWorker + Overhead(p) - 1, cpus, threshold, p, n)
  {
    n := Outgrown(cpus, threshold, p);
    var x := n * p.perWorker + Overhead(p);
    NotNegative(x, threshold);
    TruncateAtLeast(x, (x - 1) as real * threshold);
    hide Truncate, OverGrants;
  }

  lemma Outgrown(cpus: int, threshold: real, p: Profile) returns (n: int)
    requires Accepted(p) && OverGrants(cpus, threshold, p)
    ensures threshold > 1.0 && n > p.minWorkers
    ensures (cpus >= 1 ==> 2 * n <= cpus * 5) && (p.maxWorkers > 0 ==> n <= p.maxWorkers)
    ensures (n * p.perWorker + Overhead(p)) as real <= (n * p.perWorker + Overhead(p) - 1) as real * threshold
  {
    hide Plenty;
    n := if Cap(cpus, p).Some? then Cap(cpus, p).value else Plenty(threshold, p);
  }

  /** Without a bound, enough workers outgrow any threshold above one. */
  function Plenty(threshold: real, p: Profile): (n: int)
    requires threshold > 1.0 && p.perWorker > 0
    ensures n > p.minWorkers
    ensures (n * p.perWorker + Overhead(p)) as real <= (n * p.perWorker + Overhead(p) - 1) as real * threshold
  {
    var enough := (threshold / (threshold - 1.0)).Floor + 1;
    var n := Max(p.minWorkers, Max(enough - Overhead(p), 0)) + 1;
    PlentyIsEnough(threshold, p, enough, n);
    n
  }

  function Max(a: int, b: int): int {
    if a < b then b else a
  }

  lemma AtLeastQuotient(x: real, a: real, b: real)
    requires b > 0.0 && x >= a / b
    ensures x * b >= a
  {
    var q := a / b;
    assert q * b == a;
    assert (x - q) * b >= 0.0;
  }

  lemma PlentyIsEnough(threshold: real, p: Profile, enough: int, n: int)
    requires threshold > 1.0 && p.perWorker > 0 && n >= 1 && n >= enough - Overhead(p)
    requires enough as real >= threshold / (threshold - 1.0)
    ensures (n * p.perWorker + Overhead(p)) as real <= (n * p.perWorker + Overhead(p) - 1) as real * threshold
  {
    assert n * p.perWorker >= n by {
      assert n * (p.perWorker - 1) >= 0;
    }
    AtLeastQuotient(enough as real, threshold, threshold - 1.0);
    Distributes(enough as real - 1.0, 1.0, threshold);
    assert (enough - 1) as real == enough as real - 1.0;
    GainGrows(enough, n * p.perWorker + Overhead(p), threshold);
  }

  lemma TruncateAtLeast(x: int, r: real)
    requires 0 <= x && x as real <= r
    ensures x <= Truncate(r)
  {
  }

  lemma NotNegative(x: int, threshold: real)
    requires threshold > 1.0 && x as real <= (x - 1) as real * threshold
    ensures x >= 1
  {
    if x <= 0 {
      var u := (1 - x) as real;
      ScaledUp(u, threshold);
      assert (x - 1) as real == -u;
      Distributes(u, -u, threshold);
    }
  }

  // ----- the pool settings

  datatype Config = Config(mode: Mode, maxChildren: int, start: int, minSpare: int, maxSpare: int, workerMemory: int)

  datatype Outcome = Configured(config: Config) | Refused(needed: int) | Rejected

  /** What PHP-FPM demands of a dynamic pool. */
  predicate WellOrdered(c: Config) {
    1 <= c.minSpare <= c.start <= c.maxSpare <= c.maxChildren
  }

  /** What the settings calculated for a dynamic pool satisfy in any case. */
  predicate Settled(c: Config) {
    1 <= c.minSpare <= c.start && c.maxSpare <= c.maxChildren && (c.start <= c.maxChildren ==> c.start <= c.maxSpare)
  }

  /** A count is its share of the pool, rounded up. */
  predicate ShareOf(v: int, n: int, ratio: real) {
    n as real * ratio <= v as real < n as real * ratio + 1.0
  }

  function Share(n: int, ratio: real): (v: int)
    ensures ShareOf(v, n, ratio)
  {
    Ceil(n as real * ratio)
  }

  lemma ShareWithin(n: int, ratio: real)
    requires n >= 1
    ensures Share(n, ratio) <= n <==> ratio <= 1.0
  {
    if ratio <= 1.0 {
      assert n as real * ratio <= n as real * 1.0;
    } else {
      assert n as real * ratio > n as real * 1.0;
    }
  }

  lemma SharesOrdered(n: int, r: real, s: real)
    requires n >= 1 && r <= s
    ensures Share(n, r) <= Share(n, s)
    ensures r > 0.0 ==> Share(n, r) >= 1
  {
    assert n as real * r <= n as real * s;
    if r > 0.0 {
      assert n as real * r > 0.0;
    }
  }

  /** The least count that is neither below `floor` nor below this share of the pool. */
  predicate LeastOver(v: int, floor: int, n: int, ratio: real) {
    v >= floor && v as real >= n as real * ratio && (v == floor || (v - 1) as real < n as real * ratio)
  }

  lemma ShareOver(n: int, ratio: real, floor: int)
    ensures LeastOver(if Share(n, ratio) < floor then floor else Share(n, ratio), floor, n, ratio)
  {
  }

  /** Each setting is its share rounded up, kept at or above the one before it, and the pool bounds the last. */
  ghost predicate Shares(p: Profile, n: int, start: int, minSpare: int, maxSpare: int) {
    && LeastOver(minSpare, 1, n, p.spareMinRatio) && LeastOver(start, minSpare, n, p.startRatio)
    && exists most :: LeastOver(most, start, n, p.spareMaxRatio) && maxSpare == if most > n then n else most
  }

  method DynamicSettings(p: Profile, n: int) returns (start: int, minSpare: int, maxSpare: int)
    requires n >= 1
    ensures 1 <= minSpare <= start && maxSpare <= n
    ensures start <= n <==> p.spareMinRatio <= 1.0 && p.startRatio <= 1.0
    ensures start <= n ==> start <= maxSpare
    ensures Shares(p, n, start, minSpare, maxSpare)
    ensures 0.0 < p.spareMinRatio <= p.startRatio <= p.spareMaxRatio <= 1.0 ==>
              ShareOf(minSpare, n, p.spareMinRatio) && ShareOf(start, n, p.startRatio)
              && ShareOf(maxSpare, n, p.spareMaxRatio)
  {
    hide Ceil, Share, ShareOf, LeastOver;
    start := Share(n, p.startRatio);
    minSpare := Share(n, p.spareMinRatio);
    maxSpare := Share(n, p.spareMaxRatio);
    ShareWithin(n, p.startRatio);
    ShareWithin(n, p.spareMinRatio);
    ShareWithin(n, p.spareMaxRatio);
    if 0.0 < p.spareMinRatio <= p.startRatio <= p.spareMaxRatio {
      SharesOrdered(n, p.spareMinRatio, p.startRatio);
      SharesOrdered(n, p.startRatio, p.spareMaxRatio);
    }
    ShareOver(n, p.spareMinRatio, 1);
    if minSpare < 1 {
      minSpare := 1;
    }
    ShareOver(n, p.startRatio, minSpare);
    if start < minSpare {
      start := minSpare;
    }
    ShareOver(n, p.spareMaxRatio, start);
    if maxSpare < start {
      maxSpare := start;
    }
    ghost var most := maxSpare;
    assert LeastOver(most, start, n, p.spareMaxRatio);
    if maxSpare > n {
      maxSpare := n;
    }
  }

  method ValidateConfig(c: Config) returns (ok: bool)
    ensures c.mode != Dynamic ==> ok
    ensures c.mode == Dynamic && Settled(c) ==> (ok <==> WellOrdered(c))
    ensures ok <==>
            (c.mode == Dynamic ==> c.minSpare <= c.maxSpare <= c.maxChildren && c.start <= c.maxChildren)
  {
    if c.mode == Dynamic {
      if c.minSpare > c.maxChildren {
        return false;
      }
      if c.maxSpare > c.maxChildren {
        return false;
      }
      if c.start > c.maxChildren {
        return false;
      }
      if c.minSpare > c.maxSpare {
        return false;
      }
    }
    return true;
  }

  /** `override` replaces the profile's threshold when it is positive. */
  method Calculate(limit: int, cpus: int, override: real, p: Profile, strict: bool) returns (o: Outcome)
    requires Accepted(p)
    ensures var threshold := if override > 0.0 then override else p.maxMemoryUsage;
            && (o.Refused? <==> strict && Misfit(limit, cpus, threshold, p))
            && (o.Refused? ==> o.needed == SmallestBootableLimit(p))
            && (o.Configured? ==> IsSizing(limit, cpus, threshold, p, o.config.maxChildren))
    ensures o.Rejected? ==> p.mode == Dynamic && (p.spareMinRatio > 1.0 || p.startRatio > 1.0)
    ensures o.Configured? && p.mode == Dynamic ==>
              WellOrdered(o.config) && p.spareMinRatio <= 1.0 && p.startRatio <= 1.0
    ensures o.Configured? && p.mode == Dynamic ==>
              Shares(p, o.config.maxChildren, o.config.start, o.config.minSpare, o.config.maxSpare)
    ensures o.Configured? && p.mode != Dynamic ==>
              && o.config.minSpare == 0 == o.config.maxSpare
              && o.config.start == if p.mode == Static then o.config.maxChildren else 0
    ensures o.Configured? && Fits(limit, p, 1) ==> o.config.workerMemory + p.opcache + p.reserved <= limit
    ensures o.Configured? ==> o.config.mode == p.mode && o.config.workerMemory == o.config.maxChildren * p.perWorker
  {
    var threshold := p.maxMemoryUsage;
    if override > 0.0 {
      threshold := override;
    }
    hide Misfit, IsSizing, Runnable, Wanted, ShareOf, Shares;
    var sized := SizeWorkers(limit, cpus, threshold, p, strict);
    if sized.TooSmall? {
      return Refused(sized.needed);
    }
    var n := sized.maxChildren;
    SizingFits(limit, cpus, threshold, p, n);
    AtLeastOne(limit, cpus, threshold, p, n);
    var start, minSpare, maxSpare := 0, 0, 0;
    match p.mode {
      case Dynamic =>
        start, minSpare, maxSpare := DynamicSettings(p, n);
      case Static =>
        start := n;
      case OnDemand =>
    }
    var config := Config(p.mode, n, start, minSpare, maxSpare, n * p.perWorker);
    var ok := ValidateConfig(config);
    if !ok {
      return Rejected;
    }
    return Configured(config);
  }

  lemma AtLeastOne(limit: int, cpus: int, threshold: real, p: Profile, n: int)
    requires IsSizing(limit, cpus, threshold, p, n)
    ensures n >= 1
  {
  }
}
