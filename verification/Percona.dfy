/**
 * The InnoDB sizing of internal/autotune/engine.go: how a container's memory limit becomes a
 * buffer pool, a chunk size, an instance count and a connection limit. All sizes are in MB.
 */
module Percona {
  import opened Arithmetic

  const RESERVED_FRACTION := 0.25
  const RESERVED_FLOOR := 256
  const WARM_CEILING := 512
  const CHUNK_SIZE := 128
  const MIN_POOL := 8
  const CONNECTION_MEMORY := 12
  const MIN_CONNECTIONS := 10

  datatype Warning = WarmCapped | LikelyTooSmall | ReserveTooSmall | LimitedByMemory

  datatype Settings = Settings(pool: nat, chunk: nat, instances: nat, redo: nat, maxConnections: nat)

  datatype Tuning =
    | Tuned(reserved: nat, budget: nat, settings: Settings, warnings: seq<Warning>)
    | TooLittleMemory(reserved: nat, pool: nat)

  function Min(a: int, b: int): int {
    if a < b then a else b
  }

  function Clamp(v: int, lo: int, hi: int): (r: int)
    ensures lo <= hi ==> lo <= r <= hi && (lo <= v <= hi ==> r == v)
  {
    if v < lo then lo else if v > hi then hi else v
  }

  /** Headroom kept back from the limit; never the whole of it. */
  function Reserved(limit: int, fraction: real, floor: int): (r: nat)
    requires limit >= 1 && fraction >= 0.0
    ensures r < limit
  {
    var share := (limit as real * fraction).Floor;
    var r := if share < floor then floor else share;
    if r >= limit then limit / 2 else r
  }

  function Budget(limit: int): nat
    requires limit >= 1
  {
    limit - Reserved(limit, RESERVED_FRACTION, RESERVED_FLOOR)
  }

  lemma ReservedInRange(limit: int)
    requires limit >= 1
    ensures Reserved(limit, RESERVED_FRACTION, RESERVED_FLOOR) ==
            if limit <= 256 then limit / 2 else if limit < 1024 then 256 else limit / 4
  {
    assert limit as real * 0.25 == limit as real / 4.0;
    assert (limit as real / 4.0).Floor == limit / 4;
  }

  /** Exactly these limits leave InnoDB the 8MB it needs to start: 257 to 263 do not. */
  lemma AcceptedLimits(limit: int)
    requires limit >= 1
    ensures Budget(limit) >= MIN_POOL <==> 15 <= limit <= 256 || 264 <= limit
  {
    ReservedInRange(limit);
  }

  /** One more MB of memory takes budget away at exactly one limit. */
  lemma BudgetDropsOnce(limit: int)
    requires limit >= 1
    ensures Budget(limit + 1) < Budget(limit) <==> limit == 256
  {
    ReservedInRange(limit);
    ReservedInRange(limit + 1);
  }

  lemma MoreMemoryRefused()
    ensures Budget(256) == 128 >= MIN_POOL && Budget(257) == 1 < MIN_POOL
  {
    ReservedInRange(256);
    ReservedInRange(257);
  }

  /** What InnoDB makes of a requested pool size: it rounds up to a whole number of chunks per instance. */
  function InnodbRoundsTo(pool: nat, granularity: nat): (r: nat)
    requires granularity > 0
    ensures r % granularity == 0 && pool <= r < pool + granularity
  {
    assert ((pool + granularity - 1) / granularity * granularity) % granularity == 0 by {
      MultipleOf((pool + granularity - 1) / granularity, granularity);
    }
    (pool + granularity - 1) / granularity * granularity
  }

  lemma MultipleIsKept(pool: nat, granularity: nat)
    requires granularity > 0 && pool % granularity == 0
    ensures InnodbRoundsTo(pool, granularity) == pool
  {
    var r := InnodbRoundsTo(pool, granularity);
    hide InnodbRoundsTo;
    var a, b := pool / granularity, r / granularity;
    QuotientOrdered(a, 0, b, 0, granularity);
    QuotientOrdered(b, 0, a, granularity - 1, granularity);
  }

  /** The pool the engine is given when it may have `want` MB. */
  function PoolFor(want: nat): nat {
    if want < CHUNK_SIZE then want
    else
      var granularity := Clamp(want / 1024, 1, 8) * CHUNK_SIZE;
      want / granularity * granularity
  }

  lemma PoolForBounds(want: nat)
    ensures PoolFor(want) <= want < PoolFor(want) + 1024
    ensures want >= CHUNK_SIZE ==> PoolFor(want) >= CHUNK_SIZE
  {
    if want >= CHUNK_SIZE {
      var granularity := Clamp(want / 1024, 1, 8) * CHUNK_SIZE;
      assert granularity <= want;
      assert want / granularity >= 1;
    }
  }

  /** Coarser rounding on larger machines never costs a larger container pool memory. */
  lemma PoolForMonotone(want: nat, more: nat)
    requires want <= more
    ensures PoolFor(want) <= PoolFor(more)
  {
    PoolForBounds(want);
    PoolForBounds(more);
    if CHUNK_SIZE <= want {
      var i, j := Clamp(want / 1024, 1, 8), Clamp(more / 1024, 1, 8);
      if i == j {
        DivideOrdered(want, more, i * CHUNK_SIZE);
      } else {
        assert want < 1024 * j <= more;
        MultipleOf(8, j * CHUNK_SIZE);
        DivideOrdered(8 * (j * CHUNK_SIZE), more, j * CHUNK_SIZE);
      }
    }
  }

  function Wanted(limit: int, warm: bool): nat
    requires limit >= 1
  {
    if warm then Min(Budget(limit), WARM_CEILING) else Budget(limit)
  }

  /**
   * A larger limit gets a smaller pool exactly across the drop after 256MB, until what the larger one
   * exceeds it by has caught up with half of the smaller one.
   */
  lemma PoolGrowsWithLimit(limit: int, more: int, warm: bool)
    requires 1 <= limit <= more
    ensures PoolFor(Wanted(more, warm)) < PoolFor(Wanted(limit, warm)) <==>
            limit <= 256 < more < 256 + (limit - limit / 2)
  {
    ReservedInRange(limit);
    ReservedInRange(more);
    hide Reserved;
    PoolForBounds(Wanted(more, warm));
    if limit <= 256 < more {
      assert PoolFor(Wanted(limit, warm)) == limit - limit / 2 <= 128 by {
        SmallPool(limit - limit / 2);
      }
    } else {
      PoolForMonotone(Wanted(limit, warm), Wanted(more, warm));
    }
  }

  lemma SmallPool(want: nat)
    requires want <= CHUNK_SIZE
    ensures PoolFor(want) == want
  {
  }

  /** What the settings promise the container and the engine. */
  ghost predicate Sound(limit: int, warm: bool, reserved: nat, s: Settings) {
    var granularity := s.instances * s.chunk;
    && s.pool >= MIN_POOL
    && 1 <= s.instances <= 8 && 0 < granularity <= s.pool
    && InnodbRoundsTo(s.pool, granularity) == s.pool
    && s.pool + reserved <= limit
    && (warm ==> s.pool <= WARM_CEILING)
    && s.chunk == Min(s.pool, CHUNK_SIZE)
    && (s.instances == 1 || 1024 * s.instances <= s.pool)
    && (s.instances == 8 || s.pool < 1024 * (s.instances + 1))
    && (if s.pool < 192 then s.redo == 48 else if s.pool > 8192 then s.redo == 2048
        else 4 * s.redo <= s.pool < 4 * s.redo + 4)
  }

  /** The cores and the reserve both allow `n` connections. */
  predicate Allows(reserved: nat, cpus: int, n: int) {
    n <= cpus * 75 && CONNECTION_MEMORY * n <= reserved
  }

  /** As many connections as both allow, up to 1000; the minimum whether they allow it or not. */
  ghost predicate MostConnections(reserved: nat, cpus: int, m: nat) {
    && MIN_CONNECTIONS <= m <= 1000
    && (m > MIN_CONNECTIONS ==> Allows(reserved, cpus, m))
    && forall n :: m < n <= 1000 ==> !Allows(reserved, cpus, n)
  }

  method TunePercona(limit: int, cpus: int, warm: bool) returns (t: Tuning)
    requires limit >= 1 && cpus >= 1
    ensures t.Tuned? <==> 15 <= limit <= 256 || 264 <= limit
    ensures t.Tuned? ==> t.budget + t.reserved == limit && Sound(limit, warm, t.reserved, t.settings)
    ensures t.Tuned? ==> t.settings.pool == PoolFor(Wanted(limit, warm))
    ensures t.Tuned? ==>
              (ReserveTooSmall !in t.warnings
               <==> CONNECTION_MEMORY * MIN_CONNECTIONS <= t.reserved)
    ensures t.Tuned? && ReserveTooSmall !in t.warnings ==>
              t.settings.pool + CONNECTION_MEMORY * t.settings.maxConnections <= limit
    ensures t.Tuned? ==> MostConnections(t.reserved, cpus, t.settings.maxConnections)
    ensures t.Tuned? ==>
              (LimitedByMemory in t.warnings
               <==> ReserveTooSmall !in t.warnings && !Allows(t.reserved, cpus, cpus * 75))
    ensures t.Tuned? ==> (WarmCapped in t.warnings <==> warm && t.budget > WARM_CEILING)
    ensures t.Tuned? ==> (LikelyTooSmall in t.warnings <==> t.budget < 128)
    ensures t.TooLittleMemory? ==> t.pool == limit - t.reserved < MIN_POOL
  {
    hide Reserved, PoolFor, InnodbRoundsTo;
    var reserved := Reserved(limit, RESERVED_FRACTION, RESERVED_FLOOR);
    var budget := limit - reserved;
    var warnings := [];
    AcceptedLimits(limit);

    var pool := budget;
    if warm && pool > WARM_CEILING {
      warnings := warnings + [WarmCapped];
      pool := WARM_CEILING;
    }
    if pool < 128 {
      warnings := warnings + [LikelyTooSmall];
    }
    ghost var want := pool;

    var instances := Clamp(pool / 1024, 1, 8);
    var chunk := CHUNK_SIZE;
    if instances * chunk > pool {
      instances := 1;
      chunk := pool;
    }
    var granularity := instances * chunk;
    if granularity > 0 {
      pool := pool / granularity * granularity;
    }
    PoolIsRounded(want, chunk, instances);
    assert pool == PoolFor(want) && granularity == instances * chunk;
    PoolForBounds(want);
    InstancesFitPool(want);

    if pool < MIN_POOL {
      return TooLittleMemory(reserved, pool);
    }

    var redo := Clamp(pool / 4, 48, 2048);
    var byCpu := cpus * 75;
    var byMemory := reserved / CONNECTION_MEMORY;
    var maxConnections := Clamp(Min(byCpu, byMemory), MIN_CONNECTIONS, 1000);
    if byMemory < MIN_CONNECTIONS {
      warnings := warnings + [ReserveTooSmall];
    } else if byMemory < byCpu {
      warnings := warnings + [LimitedByMemory];
    }
    t := Tuned(reserved, budget, Settings(pool, chunk, instances, redo, maxConnections), warnings);
  }

  lemma InstancesFitPool(want: nat)
    ensures var i := Clamp(want / 1024, 1, 8);
            && (i == 1 || 1024 * i <= PoolFor(want))
            && (i == 8 || PoolFor(want) < 1024 * (i + 1))
  {
    PoolForBounds(want);
    var i := Clamp(want / 1024, 1, 8);
    if i > 1 {
      PoolForMonotone(1024 * i, want);
      MultipleOf(8, i * CHUNK_SIZE);
    }
  }

  lemma PoolIsRounded(want: nat, chunk: nat, instances: nat)
    requires want >= 1
    requires var i := Clamp(want / 1024, 1, 8);
             if i * CHUNK_SIZE > want then instances == 1 && chunk == want
             else instances == i && chunk == CHUNK_SIZE
    ensures 0 < instances * chunk <= want
    ensures want / (instances * chunk) * (instances * chunk) == PoolFor(want)
    ensures instances * chunk <= PoolFor(want)
    ensures InnodbRoundsTo(PoolFor(want), instances * chunk) == PoolFor(want)
    ensures want < CHUNK_SIZE ==> PoolFor(want) == want
  {
    PoolForBounds(want);
    var g := instances * chunk;
    assert 0 < g <= want;
    if want < CHUNK_SIZE {
      assert g == want && want / g == 1;
    }
    MultipleOf(want / g, g);
    assert want / g >= 1;
    MultipleIsKept(PoolFor(want), g);
  }
}
