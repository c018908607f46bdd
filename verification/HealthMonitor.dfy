/**
 * HealthMonitor (internal/process/healthcheck.go): probe results, generations, and the fast-start
 * window that must not shorten the time to an unhealthy verdict. Times are in nanoseconds.
 */
module HealthMonitor {
  import opened Options

  const SECOND := 1_000_000_000
  const FAST_START_INTERVAL := 100_000_000
  const DEFAULT_PERIOD := 10 * SECOND

  /** The health_check settings, in seconds and counts, as configured. */
  datatype Config = Config(period: int, initialDelay: int, failureThreshold: int, successThreshold: int)

  function Period(cfg: Config): (p: int)
    ensures p > 0
  {
    if cfg.period > 0 then cfg.period * SECOND else DEFAULT_PERIOD
  }

  function FastWindow(cfg: Config): int {
    (if cfg.failureThreshold > 0 then cfg.failureThreshold else 1) * Period(cfg)
  }

  function Delay(cfg: Config): (d: int)
    ensures d >= 0
  {
    if cfg.initialDelay > 0 then cfg.initialDelay * SECOND else 0
  }

  /** A probe result. The zero time is None throughout. */
  datatype Status = Status(suppress: bool, generation: nat, healthy: bool, lastCheckSucceeded: bool)

  datatype Monitor = Monitor(
    fails: nat,
    successes: nat,
    healthy: bool,
    graceUntil: Option<int>,
    everSucceeded: bool,
    fastUntil: Option<int>,
    lastCountedFail: Option<int>,
    paused: bool,
    generation: nat)

  const FRESH := Monitor(0, 0, true, None, false, None, None, false, 0)

  predicate Before(now: int, t: Option<int>) {
    t.Some? && now < t.value
  }

  /** armFastStart. */
  function Armed(cfg: Config, m: Monitor, now: int): Monitor {
    m.(everSucceeded := false, lastCountedFail := None, fastUntil := Some(now + FastWindow(cfg)))
  }

  /** resetLocked. */
  function Reset(cfg: Config, m: Monitor, now: int): Monitor {
    Monitor(0, 0, true,
            if cfg.initialDelay > 0 then Some(now + cfg.initialDelay * SECOND) else None,
            false, Some(now + FastWindow(cfg)), None, m.paused, m.generation + 1)
  }

  predicate InGrace(m: Monitor, now: int) {
    m.paused || Before(now, m.graceUntil)
  }

  function NextInterval(cfg: Config, m: Monitor, now: int): int {
    if !m.everSucceeded && Before(now, m.fastUntil) && Period(cfg) > FAST_START_INTERVAL then FAST_START_INTERVAL
    else Period(cfg)
  }

  predicate Accepts(m: Monitor, status: Status) {
    !m.paused && !status.suppress && status.generation == m.generation
  }

  /** The part of performCheck after the probe has returned. */
  function Finished(cfg: Config, m: Monitor, generation: nat, ok: bool, now: int): (Monitor, Status) {
    if m.paused || generation != m.generation then (m, Status(true, 0, false, false))
    else if ok then FinishedOk(cfg, m, generation)
    else if Throttled(cfg, m, now) then (m, Status(true, generation, true, false))
    else FinishedFail(cfg, m, generation, now)
  }

  predicate InFastWindow(m: Monitor, now: int) {
    !m.everSucceeded && Before(now, m.fastUntil)
  }

  predicate Throttled(cfg: Config, m: Monitor, now: int) {
    InFastWindow(m, now) && m.lastCountedFail.Some? && now - m.lastCountedFail.value < Period(cfg)
  }

  function FinishedFail(cfg: Config, m: Monitor, generation: nat, now: int): (Monitor, Status) {
    var counted := m.(fails := m.fails + 1, successes := 0,
                      lastCountedFail := if InFastWindow(m, now) then Some(now) else m.lastCountedFail);
    if counted.fails >= cfg.failureThreshold then
      (counted.(healthy := false), Status(false, generation, false, false))
    else
      (counted, Status(false, generation, true, false))
  }

  function FinishedOk(cfg: Config, m: Monitor, generation: nat): (Monitor, Status) {
    var counted := m.(everSucceeded := true, successes := m.successes + 1, fails := 0);
    if m.healthy then (counted, Status(false, generation, true, true))
    else if counted.successes >= (if cfg.successThreshold <= 0 then 1 else cfg.successThreshold) then
      (counted.(healthy := true), Status(false, generation, true, true))
    else
      (counted, Status(false, generation, false, true))
  }

  /** The object itself: each method does to its fields what the functions above say. */
  class Watcher {
    const cfg: Config
    var fails: nat
    var successes: nat
    var healthy: bool
    var graceUntil: Option<int>
    var everSucceeded: bool
    var fastUntil: Option<int>
    var lastCountedFail: Option<int>
    var paused: bool
    var generation: nat

    constructor (cfg: Config)
      ensures this.cfg == cfg && Now() == FRESH
    {
      this.cfg := cfg;
      fails, successes, healthy := 0, 0, true;
      graceUntil, everSucceeded, fastUntil, lastCountedFail := None, false, None, None;
      paused, generation := false, 0;
    }

    function Now(): Monitor
      reads this
    {
      Monitor(fails, successes, healthy, graceUntil, everSucceeded, fastUntil, lastCountedFail, paused, generation)
    }

    method ResetLocked(now: int)
      modifies this
      ensures Now() == Reset(cfg, old(Now()), now)
    {
      generation := generation + 1;
      graceUntil := None;
      fails, successes, healthy := 0, 0, true;
      if cfg.initialDelay > 0 {
        graceUntil := Some(now + cfg.initialDelay * SECOND);
      }
      everSucceeded, lastCountedFail := false, None;
      fastUntil := Some(now + FastWindow(cfg));
    }

    method Rearm(now: int)
      modifies this
      ensures Now() == Reset(cfg, old(Now()), now)
    {
      ResetLocked(now);
    }

    method Pause()
      modifies this
      ensures Now() == old(Now()).(paused := true, generation := old(generation) + 1)
    {
      paused := true;
      generation := generation + 1;
    }

    method Resume(now: int)
      modifies this
      ensures Now() == Reset(cfg, old(Now()).(paused := false), now)
    {
      paused := false;
      ResetLocked(now);
    }

    method ArmFastStart(now: int)
      modifies this
      ensures Now() == Armed(cfg, old(Now()), now)
    {
      everSucceeded, lastCountedFail := false, None;
      fastUntil := Some(now + FastWindow(cfg));
    }

    /** performCheck from the moment the probe has returned. */
    method FinishCheck(gen: nat, ok: bool, now: int) returns (status: Status)
      modifies this
      ensures (Now(), status) == Finished(cfg, old(Now()), gen, ok, now)
    {
      if paused || gen != generation {
        return Status(true, 0, false, false);
      }
      var successThreshold := cfg.successThreshold;
      if successThreshold <= 0 {
        successThreshold := 1;
      }
      if !ok {
        if !everSucceeded && fastUntil.Some? && now < fastUntil.value {
          if lastCountedFail.Some? && now - lastCountedFail.value < Period(cfg) {
            return Status(true, gen, true, false);
          }
          lastCountedFail := Some(now);
        }
        fails := fails + 1;
        successes := 0;
        if fails >= cfg.failureThreshold {
          healthy := false;
          return Status(false, gen, false, false);
        }
        return Status(false, gen, true, false);
      }
      everSucceeded := true;
      successes := successes + 1;
      fails := 0;
      if !healthy {
        if successes >= successThreshold {
          healthy := true;
          return Status(false, gen, true, true);
        }
        return Status(false, gen, false, true);
      }
      return Status(false, gen, true, true);
    }
  }

  // ----- the monitor loop and the calls that interrupt it

  /**
   * Where the loop of Start is: waiting out the initial delay, in the first probe or just past it, about
   * to set the timer, waiting for it, past the grace test but not yet in performCheck, or in a probe. A
   * probe remembers the generation it began in and when.
   */
  datatype Loop =
    | BeforeFirst(until: int)
    | FirstProbe(generation: nat, since: int)
    | FirstDone
    | Rest
    | Timer(due: int)
    | Checked
    | Probe(generation: nat, since: int)

  /** A result that left the monitor: its status, and when the probe began and ended. */
  datatype Emission = Emission(status: Status, since: int, at: int)

  /**
   * `resetAt` is the time of the last Rearm or Resume (the start, before any), and `credit` says that a
   * failure of the very first probe was counted since then. The fast window was last opened at
   * `armedAt`, when `armedFrom` results had left the monitor.
   */
  datatype System = System(
    m: Monitor, now: int, loop: Loop, resetAt: int, credit: bool, emitted: seq<Emission>, armedAt: int, armedFrom: nat)

  datatype Action =
    | Tick(to: int)
    | BeginFirst
    | FinishFirst(ok: bool)
    | Arm
    | SetTimer
    | Fire
    | Begin
    | Finish(ok: bool)
    | Rearm
    | Pause
    | Resume

  ghost predicate Init(cfg: Config, s: System) {
    s == System(FRESH, s.now, BeforeFirst(s.now + Delay(cfg)), s.now, false, [], s.now, 0)
  }

  ghost predicate Possible(s: System, a: Action) {
    match a
    case Tick(to) => s.now <= to
    case BeginFirst => s.loop.BeforeFirst? && s.loop.until <= s.now
    case FinishFirst(_) => s.loop.FirstProbe?
    case Arm => s.loop.FirstDone?
    case SetTimer => s.loop.Rest?
    case Fire => s.loop.Timer? && s.loop.due <= s.now
    case Begin => s.loop.Checked?
    case Finish(_) => s.loop.Probe?
    case Rearm => true
    case Pause => true
    case Resume => true
  }

  ghost function Next(cfg: Config, s: System, a: Action): System
    requires Possible(s, a)
  {
    match a
    case Tick(to) => s.(now := to)
    case BeginFirst => s.(loop := if s.m.paused then FirstDone else FirstProbe(s.m.generation, s.now))
    case FinishFirst(ok) =>
      var (m, status) := Finished(cfg, s.m, s.loop.generation, ok, s.now);
      s.(m := m, loop := FirstDone, emitted := s.emitted + [Emission(status, s.loop.since, s.now)],
         credit := s.credit || m.fails > s.m.fails)
    case Arm => s.(m := Armed(cfg, s.m, s.now), loop := Rest, armedAt := s.now, armedFrom := |s.emitted|)
    case SetTimer => s.(loop := Timer(s.now + NextInterval(cfg, s.m, s.now)))
    case Fire => s.(loop := if InGrace(s.m, s.now) then Rest else Checked)
    case Begin => s.(loop := if s.m.paused then Rest else Probe(s.m.generation, s.now))
    case Finish(ok) =>
      var (m, status) := Finished(cfg, s.m, s.loop.generation, ok, s.now);
      s.(m := m, loop := Rest, emitted := s.emitted + [Emission(status, s.loop.since, s.now)])
    case Rearm => Renewed(s, Reset(cfg, s.m, s.now))
    case Pause => s.(m := s.m.(paused := true, generation := s.m.generation + 1))
    case Resume => Renewed(s, Reset(cfg, s.m.(paused := false), s.now))
  }

  function Renewed(s: System, m: Monitor): System {
    s.(m := m, resetAt := s.now, credit := false, armedAt := s.now, armedFrom := |s.emitted|)
  }

  /** `k` periods after the last reset. */
  ghost function After(cfg: Config, resetAt: int, k: int): int {
    resetAt + k * Period(cfg)
  }

  lemma AfterMonotone(cfg: Config, resetAt: int, j: int, k: int)
    requires j <= k
    ensures After(cfg, resetAt, j) <= After(cfg, resetAt, k)
  {
    assert j * Period(cfg) <= k * Period(cfg);
  }

  lemma AfterNext(cfg: Config, resetAt: int, k: int)
    ensures After(cfg, resetAt, k) + Period(cfg) == After(cfg, resetAt, k + 1)
    ensures After(cfg, resetAt, 0) == resetAt
  {
    assert (k + 1) * Period(cfg) == k * Period(cfg) + Period(cfg);
  }

  /** How much sooner the verdict may come after a counted first probe: what the initial delay lacks of a period. */
  function Shortfall(cfg: Config): (d: int)
    ensures d >= 0
  {
    if Delay(cfg) < Period(cfg) then Period(cfg) - Delay(cfg) else 0
  }

  function Advance(cfg: Config, s: System): (d: int)
    ensures d >= 0
  {
    if s.credit then Shortfall(cfg) else 0
  }

  /** Enough time has passed for an unhealthy verdict. */
  ghost predicate Late(cfg: Config, s: System) {
    s.now >= After(cfg, s.resetAt, cfg.failureThreshold - 1) - Advance(cfg, s)
  }

  /** After a success the loop is back on the steady period, so failures cannot come faster than that. */
  ghost predicate Paced(cfg: Config, s: System) {
    match s.loop
    case Rest => s.now >= After(cfg, s.resetAt, s.m.fails)
    case Timer(due) => due >= After(cfg, s.resetAt, s.m.fails + 1)
    case Checked => s.now >= After(cfg, s.resetAt, s.m.fails + 1)
    case Probe(_, _) => s.now >= After(cfg, s.resetAt, s.m.fails + 1)
    case _ => true
  }

  /** Before a success the throttle keeps counted failures a period apart. */
  ghost predicate Spaced(cfg: Config, s: System) {
    match s.m.lastCountedFail
    case None => s.m.fails <= if s.credit then 1 else 0
    case Some(last) => last >= After(cfg, s.resetAt, s.m.fails - 1) - Advance(cfg, s)
  }

  ghost predicate InFirstPhase(loop: Loop) {
    loop.BeforeFirst? || loop.FirstProbe? || loop.FirstDone?
  }

  ghost predicate Early(cfg: Config, s: System) {
    && s.m.fails < cfg.failureThreshold
    && s.m.healthy
    && if InFirstPhase(s.loop) then s.m.fails <= (if s.credit then 1 else 0)
       else s.m.fastUntil.Some? && if s.m.everSucceeded then Paced(cfg, s) else Spaced(cfg, s)
  }

  /** The initial delay keeps later probes away, as a wait at the start and as a grace window after a reset. */
  ghost predicate Delayed(cfg: Config, s: System) {
    && (match s.m.graceUntil
        case Some(until) => until == s.resetAt + Delay(cfg)
        case None => (if s.loop.BeforeFirst? then s.loop.until else s.now) >= s.resetAt + Delay(cfg) || Delay(cfg) == 0)
    && (s.credit && (s.loop.Checked? || s.loop.Probe?) ==> s.now >= s.resetAt + Delay(cfg))
  }

  ghost predicate Timely(cfg: Config, s: System) {
    && s.resetAt <= s.now
    && (s.loop.BeforeFirst? || s.loop.FirstProbe? ==>
          s.m.fails == 0 && !s.credit && s.m.lastCountedFail.None? && !s.m.everSucceeded)
    && (s.m.fastUntil.Some? ==> s.m.fastUntil.value >= After(cfg, s.resetAt, cfg.failureThreshold))
    && Delayed(cfg, s)
    && (Late(cfg, s) || Early(cfg, s))
  }

  /** Probes and statuses of the present generation belong to the time since the last reset. */
  ghost predicate Generations(s: System) {
    && (s.loop.FirstProbe? || s.loop.Probe? ==>
          s.loop.generation <= s.m.generation && (s.loop.generation == s.m.generation ==> s.loop.since >= s.resetAt))
    && forall i :: 0 <= i < |s.emitted| ==> EmissionOk(s, s.emitted[i])
  }

  ghost predicate EmissionOk(s: System, e: Emission) {
    !e.status.suppress ==>
      && e.status.generation <= s.m.generation
      && (e.status.generation == s.m.generation ==> e.since >= s.resetAt)
  }

  ghost predicate VerdictsLate(cfg: Config, s: System) {
    forall i :: 0 <= i < |s.emitted| ==> VerdictLate(cfg, s, s.emitted[i])
  }

  ghost predicate VerdictLate(cfg: Config, s: System, e: Emission) {
    !e.status.suppress && !e.status.healthy && e.status.generation == s.m.generation ==> Late(cfg, s)
  }

  ghost predicate Inv(cfg: Config, s: System) {
    Timely(cfg, s) && Generations(s) && VerdictsLate(cfg, s)
  }

  lemma InitInv(cfg: Config, s: System)
    requires Init(cfg, s)
    ensures Inv(cfg, s)
  {
    AfterNext(cfg, s.resetAt, 0);
    if cfg.failureThreshold <= 0 {
      AfterMonotone(cfg, s.resetAt, cfg.failureThreshold - 1, 0);
    }
  }

  lemma GenerationsStep(cfg: Config, s: System, a: Action)
    requires Generations(s) && s.resetAt <= s.now && Possible(s, a)
    ensures Generations(Next(cfg, s, a))
  {
    var t := Next(cfg, s, a);
    forall i | 0 <= i < |t.emitted| ensures EmissionOk(t, t.emitted[i]) {
      if i < |s.emitted| {
        assert EmissionOk(s, s.emitted[i]);
      }
    }
  }

  /** The first probe's result: its failure is the one that is counted without a period before it. */
  lemma FinishFirstTimely(cfg: Config, s: System, t: System, ok: bool)
    requires Timely(cfg, s) && Possible(s, FinishFirst(ok)) && t == Next(cfg, s, FinishFirst(ok))
    ensures Timely(cfg, t)
    ensures !t.m.healthy ==> Late(cfg, t)
    ensures VerdictLate(cfg, t, t.emitted[|s.emitted|])
  {
    hide After, Period, Shortfall;
    var k := cfg.failureThreshold;
    AfterNext(cfg, s.resetAt, 0);
    if k <= 1 {
      AfterMonotone(cfg, s.resetAt, k - 1, 0);
    }
  }

  /** A later probe's result: what it may do to the count and to the health flag. */
  lemma FinishTimely(cfg: Config, s: System, t: System, ok: bool)
    requires Timely(cfg, s) && Possible(s, Finish(ok)) && t == Next(cfg, s, Finish(ok))
    ensures Timely(cfg, t)
    ensures !t.m.healthy ==> Late(cfg, t)
    ensures VerdictLate(cfg, t, t.emitted[|s.emitted|])
  {
    hide After, Period, Shortfall, Delay;
    var k := cfg.failureThreshold;
    AfterNext(cfg, s.resetAt, 0);
    AfterMonotone(cfg, s.resetAt, k - 1, k);
    if !Late(cfg, s) {
      AfterNext(cfg, s.resetAt, s.m.fails);
      AfterNext(cfg, s.resetAt, s.m.fails - 1);
      SecondFailure(cfg, s.resetAt);
      if k <= s.m.fails + 1 {
        AfterMonotone(cfg, s.resetAt, k - 1, s.m.fails);
      }
    }
  }

  lemma SecondFailure(cfg: Config, resetAt: int)
    ensures resetAt + Delay(cfg) >= After(cfg, resetAt, 1) - Shortfall(cfg)
  {
  }

  lemma TimelyStep(cfg: Config, s: System, a: Action)
    requires Timely(cfg, s) && Possible(s, a)
    ensures Timely(cfg, Next(cfg, s, a))
  {
    hide Finished;
    var t := Next(cfg, s, a);
    match a
    case FinishFirst(ok) => FinishFirstTimely(cfg, s, t, ok);
    case Finish(ok) => FinishTimely(cfg, s, t, ok);
    case Arm =>
      WindowLong(cfg, t, s.now);
    case SetTimer =>
      AfterNext(cfg, s.resetAt, s.m.fails);
    case Fire =>
      AfterNext(cfg, s.resetAt, s.m.fails);
    case Begin =>
      AfterNext(cfg, s.resetAt, s.m.fails);
    case Rearm =>
      ResetTimely(cfg, t);
    case Resume =>
      ResetTimely(cfg, t);
    case _ =>
  }

  lemma WindowLong(cfg: Config, t: System, from: int)
    requires t.resetAt <= from
    ensures from + FastWindow(cfg) >= After(cfg, t.resetAt, cfg.failureThreshold)
  {
    AfterMonotone(cfg, t.resetAt, cfg.failureThreshold, if cfg.failureThreshold > 0 then cfg.failureThreshold else 1);
  }

  lemma ResetTimely(cfg: Config, t: System)
    requires t.resetAt == t.now && !t.credit && Delayed(cfg, t)
    requires t.m.fails == 0 && t.m.healthy && !t.m.everSucceeded && t.m.lastCountedFail.None?
    requires t.m.fastUntil == Some(t.now + FastWindow(cfg))
    ensures Timely(cfg, t)
  {
    AfterNext(cfg, t.resetAt, 0);
    WindowLong(cfg, t, t.now);
    if cfg.failureThreshold <= 0 {
      AfterMonotone(cfg, t.resetAt, cfg.failureThreshold - 1, 0);
    }
  }

  lemma VerdictsStep(cfg: Config, s: System, a: Action)
    requires Inv(cfg, s) && Possible(s, a)
    ensures VerdictsLate(cfg, Next(cfg, s, a))
  {
    var t := Next(cfg, s, a);
    if a.FinishFirst? {
      FinishFirstTimely(cfg, s, t, a.ok);
    }
    if a.Finish? {
      FinishTimely(cfg, s, t, a.ok);
    }
    forall i | 0 <= i < |t.emitted| ensures VerdictLate(cfg, t, t.emitted[i]) {
      if i < |s.emitted| {
        assert EmissionOk(s, s.emitted[i]) && VerdictLate(cfg, s, s.emitted[i]);
      }
    }
  }

  lemma StepInv(cfg: Config, s: System, a: Action)
    requires Inv(cfg, s) && Possible(s, a)
    ensures Inv(cfg, Next(cfg, s, a))
  {
    TimelyStep(cfg, s, a);
    GenerationsStep(cfg, s, a);
    VerdictsStep(cfg, s, a);
  }

  // ----- runs

  ghost predicate CanRun(cfg: Config, s: System, actions: seq<Action>)
    decreases |actions|
  {
    actions == [] || (Possible(s, actions[0]) && CanRun(cfg, Next(cfg, s, actions[0]), actions[1..]))
  }

  ghost function Run(cfg: Config, s: System, actions: seq<Action>): System
    requires CanRun(cfg, s, actions)
    decreases |actions|
  {
    if actions == [] then s else Run(cfg, Next(cfg, s, actions[0]), actions[1..])
  }

  ghost predicate Reachable(cfg: Config, s: System) {
    exists start, actions :: Init(cfg, start) && CanRun(cfg, start, actions) && Run(cfg, start, actions) == s
  }

  lemma {:induction false} RunInv(cfg: Config, s: System, actions: seq<Action>)
    requires Inv(cfg, s) && CanRun(cfg, s, actions)
    ensures Inv(cfg, Run(cfg, s, actions))
    decreases |actions|
  {
    if actions != [] {
      StepInv(cfg, s, actions[0]);
      RunInv(cfg, Next(cfg, s, actions[0]), actions[1..]);
    }
  }

  lemma ReachableInv(cfg: Config, s: System)
    requires Reachable(cfg, s)
    ensures Inv(cfg, s)
  {
    var start, actions :| Init(cfg, start) && CanRun(cfg, start, actions) && Run(cfg, start, actions) == s;
    InitInv(cfg, start);
    RunInv(cfg, start, actions);
  }

  /** The supervisor would act on this status now. */
  ghost predicate AcceptedUnhealthy(s: System, e: Emission) {
    e in s.emitted && Accepts(s.m, e.status) && !e.status.healthy
  }

  /**
   * Whatever the probes answer and whenever they do, an unhealthy verdict takes the threshold's number
   * of periods less one, and a counted failure of the first probe takes off only what the initial delay
   * lacks of a period.
   */
  lemma NoEarlyVerdict(cfg: Config, s: System, e: Emission)
    requires Reachable(cfg, s) && AcceptedUnhealthy(s, e)
    ensures s.now >= After(cfg, s.resetAt, cfg.failureThreshold - 1) - Shortfall(cfg)
    ensures !s.credit ==> s.now >= After(cfg, s.resetAt, cfg.failureThreshold - 1)
    ensures e.since >= s.resetAt
  {
    ReachableInv(cfg, s);
    var i :| 0 <= i < |s.emitted| && s.emitted[i] == e;
    assert VerdictLate(cfg, s, s.emitted[i]) && EmissionOk(s, s.emitted[i]);
  }

  /** Every verdict takes the full time since the last reset, first start included. */
  ghost predicate CleanBound(cfg: Config) {
    forall s, e :: Reachable(cfg, s) && AcceptedUnhealthy(s, e) ==>
                     s.now >= After(cfg, s.resetAt, cfg.failureThreshold - 1)
  }

  /** That is so exactly for a threshold of one or an initial delay of at least a period. */
  lemma CleanBoundExactly(cfg: Config)
    ensures CleanBound(cfg) <==> cfg.failureThreshold <= 1 || Delay(cfg) >= Period(cfg)
  {
    forall s, e | Reachable(cfg, s) && AcceptedUnhealthy(s, e)
                  && (cfg.failureThreshold <= 1 || Delay(cfg) >= Period(cfg))
      ensures s.now >= After(cfg, s.resetAt, cfg.failureThreshold - 1)
    {
      NoEarlyVerdict(cfg, s, e);
      ReachableInv(cfg, s);
      AfterNext(cfg, s.resetAt, 0);
      if cfg.failureThreshold <= 1 {
        AfterMonotone(cfg, s.resetAt, cfg.failureThreshold - 1, 0);
      }
    }
    if cfg.failureThreshold > 1 && Delay(cfg) < Period(cfg) {
      var s, e := FirstStartIsShort(cfg);
      assert Reachable(cfg, s) && AcceptedUnhealthy(s, e);
    }
  }

  ghost predicate NoResets(actions: seq<Action>) {
    forall i :: 0 <= i < |actions| ==> !actions[i].Rearm? && !actions[i].Resume?
  }

  /** The first probe has begun, and if it is still under way its result is stale. */
  ghost predicate FirstProbePast(s: System) {
    !s.loop.BeforeFirst? && (s.loop.FirstProbe? ==> s.loop.generation < s.m.generation)
  }

  lemma {:induction false} CreditStays(cfg: Config, s: System, actions: seq<Action>)
    requires CanRun(cfg, s, actions) && NoResets(actions) && FirstProbePast(s)
    ensures Run(cfg, s, actions).credit == s.credit && Run(cfg, s, actions).resetAt == s.resetAt
    decreases |actions|
  {
    if actions != [] {
      assert !actions[0].Rearm? && !actions[0].Resume?;
      CreditStays(cfg, Next(cfg, s, actions[0]), actions[1..]);
    }
  }

  /** After a Rearm or Resume at any time since the first probe began the full bound holds, counted from that moment. */
  lemma VerdictAfterReset(cfg: Config, s: System, reset: Action, actions: seq<Action>, e: Emission)
    requires Reachable(cfg, s) && !s.loop.BeforeFirst? && (reset.Rearm? || reset.Resume?)
    requires NoResets(actions) && CanRun(cfg, s, [reset] + actions)
    requires AcceptedUnhealthy(Run(cfg, s, [reset] + actions), e)
    ensures Run(cfg, s, [reset] + actions).now >= s.now + (cfg.failureThreshold - 1) * Period(cfg)
    ensures e.since >= s.now
  {
    var all := [reset] + actions;
    assert all[1..] == actions;
    var t := Next(cfg, s, reset);
    ReachableInv(cfg, s);
    StepInv(cfg, s, reset);
    RunInv(cfg, t, actions);
    CreditStays(cfg, t, actions);
    var end := Run(cfg, t, actions);
    var i :| 0 <= i < |end.emitted| && end.emitted[i] == e;
    assert VerdictLate(cfg, end, end.emitted[i]) && EmissionOk(end, end.emitted[i]);
  }

  /** Only a probe begun since the last reset changes the counters, and only its status is accepted. */
  lemma StaleProbesIgnored(cfg: Config, s: System, ok: bool)
    requires Reachable(cfg, s) && (s.loop.Probe? || s.loop.FirstProbe?)
    ensures var t := Next(cfg, s, if s.loop.Probe? then Finish(ok) else FinishFirst(ok));
            s.loop.since < s.resetAt ==> t.m == s.m && t.emitted[|s.emitted|].status.suppress
    ensures forall e :: e in s.emitted && Accepts(s.m, e.status) ==> e.since >= s.resetAt
  {
    ReachableInv(cfg, s);
    forall e | e in s.emitted && Accepts(s.m, e.status) ensures e.since >= s.resetAt {
      var i :| 0 <= i < |s.emitted| && s.emitted[i] == e;
      assert EmissionOk(s, s.emitted[i]);
    }
  }

  /**
   * The first start with every probe failing: the first result is counted at the end of the initial
   * delay, the next a tenth of a second later, and the others a period apart.
   */
  lemma FirstStartIsShort(cfg: Config) returns (s: System, e: Emission)
    requires cfg.failureThreshold > 1
    ensures Reachable(cfg, s) && AcceptedUnhealthy(s, e)
    ensures s.now == After(cfg, s.resetAt, cfg.failureThreshold - 2) + Delay(cfg) + FAST_START_INTERVAL
    ensures Delay(cfg) < Period(cfg) ==> s.now < After(cfg, s.resetAt, cfg.failureThreshold - 1)
  {
    s := TwoFailures(cfg);
    AfterNext(cfg, 0, 0);
    hide Reachable, Failing, After, Period, Delay;
    for k := 2 to cfg.failureThreshold
      invariant Reachable(cfg, s) && Failing(cfg, s, k)
      invariant s.resetAt == 0 && s.now == After(cfg, 0, k - 2) + Delay(cfg) + FAST_START_INTERVAL
    {
      AfterNext(cfg, 0, k - 2);
      s := FailAgain(cfg, s, k);
    }
    e := TheVerdict(cfg, s, cfg.failureThreshold);
    AfterNext(cfg, 0, cfg.failureThreshold - 2);
    WholeSeconds(cfg);
  }

  /** `k` failures counted so far, the last of them reported, and nothing in the way of the next. */
  ghost predicate Failing(cfg: Config, s: System, k: nat) {
    && s.loop.Rest? && s.m.fails == k && !s.m.paused && s.m.graceUntil.None? && !s.m.everSucceeded
    && (s.m.lastCountedFail.Some? ==> s.m.lastCountedFail.value <= s.now)
    && s.emitted != []
    && s.emitted[|s.emitted| - 1].status == Status(false, s.m.generation, k < cfg.failureThreshold, false)
  }

  lemma TheVerdict(cfg: Config, s: System, k: nat) returns (e: Emission)
    requires Failing(cfg, s, k) && cfg.failureThreshold <= k
    ensures AcceptedUnhealthy(s, e)
  {
    e := s.emitted[|s.emitted| - 1];
  }

  lemma WholeSeconds(cfg: Config)
    ensures Delay(cfg) < Period(cfg) ==> Delay(cfg) + FAST_START_INTERVAL < Period(cfg)
    ensures FAST_START_INTERVAL < Period(cfg)
  {
  }

  lemma TwoFailures(cfg: Config) returns (s: System)
    requires cfg.failureThreshold > 1
    ensures Reachable(cfg, s) && Failing(cfg, s, 2)
    ensures s.resetAt == 0 && s.now == Delay(cfg) + FAST_START_INTERVAL
  {
    WholeSeconds(cfg);
    s := System(FRESH, 0, BeforeFirst(Delay(cfg)), 0, false, [], 0, 0);
    assert CanRun(cfg, s, []) && Run(cfg, s, []) == s;
    hide Reachable, Period, Delay;
    s := Extend(cfg, s, Tick(Delay(cfg)));
    s := Extend(cfg, s, BeginFirst);
    s := Extend(cfg, s, FinishFirst(false));
    s := Extend(cfg, s, Arm);
    s := Extend(cfg, s, SetTimer);
    assert s.loop.due == s.now + FAST_START_INTERVAL;
    s := ProbeFails(cfg, s, s.loop.due);
  }

  lemma FailAgain(cfg: Config, s: System, k: nat) returns (t: System)
    requires Reachable(cfg, s) && Failing(cfg, s, k)
    ensures Reachable(cfg, t) && Failing(cfg, t, k + 1)
    ensures t.now == s.now + Period(cfg) && t.resetAt == s.resetAt
  {
    WholeSeconds(cfg);
    hide Reachable, Period;
    t := Extend(cfg, s, SetTimer);
    t := ProbeFails(cfg, t, s.now + Period(cfg));
  }

  /** The timer fires at `at` and the probe fails at once. */
  lemma ProbeFails(cfg: Config, s: System, at: int) returns (t: System)
    requires Reachable(cfg, s) && s.loop.Timer? && s.loop.due <= at && s.now <= at
    requires !s.m.paused && s.m.graceUntil.None? && !Throttled(cfg, s.m, at)
    ensures Reachable(cfg, t) && t.now == at && t.resetAt == s.resetAt && t.loop.Rest?
    ensures (t.m, t.emitted) == (FinishedFail(cfg, s.m, s.m.generation, at).0,
                                 s.emitted + [Emission(FinishedFail(cfg, s.m, s.m.generation, at).1, at, at)])
  {
    t := Extend(cfg, s, Tick(at));
    t := Extend(cfg, t, Fire);
    t := Extend(cfg, t, Begin);
    t := Extend(cfg, t, Finish(false));
  }

  lemma Extend(cfg: Config, s: System, a: Action) returns (t: System)
    requires Reachable(cfg, s) && Possible(s, a)
    ensures t == Next(cfg, s, a) && Reachable(cfg, t)
  {
    t := Next(cfg, s, a);
    var start, actions :| Init(cfg, start) && CanRun(cfg, start, actions) && Run(cfg, start, actions) == s;
    RunSnoc(cfg, start, actions, a);
  }

  lemma {:induction false} RunSnoc(cfg: Config, s: System, actions: seq<Action>, a: Action)
    requires CanRun(cfg, s, actions) && Possible(Run(cfg, s, actions), a)
    ensures CanRun(cfg, s, actions + [a]) && Run(cfg, s, actions + [a]) == Next(cfg, Run(cfg, s, actions), a)
    decreases |actions|
  {
    var all := actions + [a];
    if actions == [] {
      assert all[1..] == [];
    } else {
      assert all[1..] == actions[1..] + [a];
      RunSnoc(cfg, Next(cfg, s, actions[0]), actions[1..], a);
    }
  }

  // ----- which verdicts the results add up to

  /** The results counted in one generation, in order. */
  function Results(emitted: seq<Emission>, generation: nat): seq<bool>
    decreases |emitted|
  {
    if emitted == [] then []
    else
      var front, status := Results(emitted[..|emitted| - 1], generation), emitted[|emitted| - 1].status;
      if !status.suppress && status.generation == generation then front + [status.lastCheckSucceeded] else front
  }

  function AtLeastOne(n: int): nat {
    if n < 1 then 1 else n
  }

  /** The `n` results up to and including the one at `i` are all `v`. */
  ghost predicate Streak(h: seq<bool>, i: int, n: nat, v: bool) {
    n <= i + 1 <= |h| && forall k :: i - n < k <= i ==> h[k] == v
  }

  ghost predicate Fails(cfg: Config, h: seq<bool>, i: int) {
    Streak(h, i, AtLeastOne(cfg.failureThreshold), false)
  }

  ghost predicate Recovers(cfg: Config, h: seq<bool>, i: int) {
    Streak(h, i, AtLeastOne(cfg.successThreshold), true)
  }

  /** There were enough failures in a row, and since then not enough successes in a row. */
  ghost predicate Condemned(cfg: Config, h: seq<bool>) {
    exists i :: Fails(cfg, h, i) && forall j :: i < j < |h| ==> !Recovers(cfg, h, j)
  }

  /** How many of the last results are all `v`. */
  function Tail(h: seq<bool>, v: bool): nat
    decreases |h|
  {
    if h == [] || h[|h| - 1] != v then 0 else 1 + Tail(h[..|h| - 1], v)
  }

  lemma {:induction false} TailStreak(h: seq<bool>, v: bool, n: nat)
    ensures Tail(h, v) >= n <==> Streak(h, |h| - 1, n, v)
    decreases |h|
  {
    if n > 0 && h != [] && h[|h| - 1] == v {
      var front := h[..|h| - 1];
      TailStreak(front, v, n - 1);
      if Streak(front, |front| - 1, n - 1, v) {
        assert forall k :: |h| - 1 - n < k <= |h| - 1 ==> k < |front| ==> h[k] == front[k];
      }
      if Streak(h, |h| - 1, n, v) {
        assert forall k :: |front| - 1 - (n - 1) < k <= |front| - 1 ==> front[k] == h[k];
      }
    }
  }

  lemma StreakBefore(h: seq<bool>, x: bool, i: int, n: nat, v: bool)
    requires i < |h|
    ensures Streak(h + [x], i, n, v) <==> Streak(h, i, n, v)
  {
    assert forall k :: 0 <= k < |h| ==> (h + [x])[k] == h[k];
  }

  /** One more result condemns if it completes the failures, and acquits if it completes the successes. */
  lemma CondemnedSnoc(cfg: Config, h: seq<bool>, x: bool)
    ensures Condemned(cfg, h + [x]) <==>
            if x then Condemned(cfg, h) && !Recovers(cfg, h + [x], |h|)
            else Condemned(cfg, h) || Fails(cfg, h + [x], |h|)
  {
    var g := h + [x];
    forall i | i < |h|
      ensures Fails(cfg, g, i) <==> Fails(cfg, h, i)
      ensures Recovers(cfg, g, i) <==> Recovers(cfg, h, i)
    {
      StreakBefore(h, x, i, AtLeastOne(cfg.failureThreshold), false);
      StreakBefore(h, x, i, AtLeastOne(cfg.successThreshold), true);
    }
    assert g[|h|] == x;
    assert x ==> !Fails(cfg, g, |h|);
    assert !x ==> !Recovers(cfg, g, |h|);
    if Condemned(cfg, g) {
      var i :| Fails(cfg, g, i) && forall j :: i < j < |g| ==> !Recovers(cfg, g, j);
      if i < |h| {
        assert Fails(cfg, h, i) && forall j :: i < j < |h| ==> !Recovers(cfg, h, j);
      }
    }
    if Condemned(cfg, h) {
      var i :| Fails(cfg, h, i) && forall j :: i < j < |h| ==> !Recovers(cfg, h, j);
      assert Fails(cfg, g, i);
      assert forall j :: i < j < |h| ==> !Recovers(cfg, g, j);
    }
    if !x && Fails(cfg, g, |h|) {
      assert forall j :: |h| < j < |g| ==> !Recovers(cfg, g, j);
    }
  }

  /** The counters and the flag are those of the results of this generation. */
  ghost predicate Counts(cfg: Config, s: System) {
    !s.m.paused ==>
      var h := Results(s.emitted, s.m.generation);
      && s.m.fails == Tail(h, false) && s.m.successes == Tail(h, true)
      && (s.m.healthy <==> !Condemned(cfg, h))
  }

  lemma ResultsSnoc(emitted: seq<Emission>, e: Emission, generation: nat)
    ensures Results(emitted + [e], generation) ==
            if !e.status.suppress && e.status.generation == generation
            then Results(emitted, generation) + [e.status.lastCheckSucceeded] else Results(emitted, generation)
  {
    assert (emitted + [e])[..|emitted|] == emitted;
  }

  lemma {:induction false} NoResultsYet(emitted: seq<Emission>, generation: nat)
    requires forall i :: 0 <= i < |emitted| && !emitted[i].status.suppress ==> emitted[i].status.generation < generation
    ensures Results(emitted, generation) == []
    decreases |emitted|
  {
    if emitted != [] {
      NoResultsYet(emitted[..|emitted| - 1], generation);
    }
  }

  lemma TailSnoc(h: seq<bool>, x: bool, v: bool)
    ensures Tail(h + [x], v) == if x == v then Tail(h, v) + 1 else 0
  {
    assert (h + [x])[..|h|] == h;
  }

  lemma NothingCondemned(cfg: Config)
    ensures !Condemned(cfg, []) && Tail([], true) == Tail([], false) == 0
  {
  }

  /** What a result of the present generation is reported as, and what it makes of the counters. */
  lemma FinishCounts(cfg: Config, m: Monitor, h: seq<bool>, ok: bool, now: int)
    requires !m.paused && m.fails == Tail(h, false) && m.successes == Tail(h, true)
    requires m.healthy <==> !Condemned(cfg, h)
    ensures var (m', status) := Finished(cfg, m, m.generation, ok, now);
            var g := if status.suppress then h else h + [ok];
            && m'.generation == status.generation == m.generation && !m'.paused && (status.suppress ==> m' == m)
            && (ok ==> !status.suppress && (status.healthy <==> !Condemned(cfg, g)))
            && (!ok && !status.suppress ==> (status.healthy <==> !Fails(cfg, g, |h|)))
            && (!status.suppress ==> status.lastCheckSucceeded == ok)
            && m'.fails == Tail(g, false) && m'.successes == Tail(g, true) && (m'.healthy <==> !Condemned(cfg, g))
  {
    var g := h + [ok];
    TailSnoc(h, ok, true);
    TailSnoc(h, ok, false);
    TailStreak(g, false, AtLeastOne(cfg.failureThreshold));
    TailStreak(g, true, AtLeastOne(cfg.successThreshold));
    CondemnedSnoc(cfg, h, ok);
    hide Condemned, Tail, Streak;
  }

  lemma CountsStep(cfg: Config, s: System, a: Action)
    requires Counts(cfg, s) && Generations(s) && Possible(s, a)
    ensures Counts(cfg, Next(cfg, s, a))
  {
    hide Condemned, Tail, Results, Finished, Throttled;
    var t := Next(cfg, s, a);
    if a.Finish? || a.FinishFirst? {
      var e := t.emitted[|s.emitted|];
      if !s.m.paused && s.loop.generation == s.m.generation {
        FinishCounts(cfg, s.m, Results(s.emitted, s.m.generation), a.ok, s.now);
      } else {
        StaleIsSuppressed(cfg, s.m, s.loop.generation, a.ok, s.now);
      }
      ResultsSnoc(s.emitted, e, s.m.generation);
    } else if a.Rearm? || a.Resume? {
      forall i | 0 <= i < |s.emitted| && !s.emitted[i].status.suppress
        ensures s.emitted[i].status.generation < t.m.generation
      {
        assert EmissionOk(s, s.emitted[i]);
      }
      NoResultsYet(s.emitted, t.m.generation);
      NothingCondemned(cfg);
    }
  }

  lemma StaleIsSuppressed(cfg: Config, m: Monitor, generation: nat, ok: bool, now: int)
    requires m.paused || generation != m.generation
    ensures var (m', status) := Finished(cfg, m, generation, ok, now);
            m' == m && status.suppress
  {
  }

  lemma {:induction false} RunCounts(cfg: Config, s: System, actions: seq<Action>)
    requires Inv(cfg, s) && Counts(cfg, s) && CanRun(cfg, s, actions)
    ensures Counts(cfg, Run(cfg, s, actions))
    decreases |actions|
  {
    hide Counts;
    if actions != [] {
      StepInv(cfg, s, actions[0]);
      CountsStep(cfg, s, actions[0]);
      RunCounts(cfg, Next(cfg, s, actions[0]), actions[1..]);
    }
  }

  lemma ReachableCounts(cfg: Config, s: System)
    requires Reachable(cfg, s)
    ensures Counts(cfg, s)
  {
    var start, actions :| Init(cfg, start) && CanRun(cfg, start, actions) && Run(cfg, start, actions) == s;
    InitInv(cfg, start);
    NothingCondemned(cfg);
    RunCounts(cfg, start, actions);
  }

  /**
   * Of a monitor that is not paused: the process counts as unhealthy exactly if, since the last reset,
   * the failure threshold was reached by counted failures in a row and the success threshold has not
   * been reached by successes in a row since.
   */
  lemma HealthExactly(cfg: Config, s: System)
    requires Reachable(cfg, s) && !s.m.paused
    ensures s.m.healthy <==> !Condemned(cfg, Results(s.emitted, s.m.generation))
  {
    ReachableCounts(cfg, s);
  }

  /**
   * A probe of the present generation that succeeds is reported, as healthy exactly if the process then
   * counts as healthy; one that fails is reported, unless it is passed over, as unhealthy exactly if it
   * completes the threshold. A stale one is never reported.
   */
  lemma ReportedExactly(cfg: Config, s: System, ok: bool)
    requires Reachable(cfg, s) && (s.loop.Probe? || s.loop.FirstProbe?)
    ensures var t := Next(cfg, s, if s.loop.Probe? then Finish(ok) else FinishFirst(ok));
            var e, h := t.emitted[|s.emitted|], Results(s.emitted, s.m.generation);
            && t.emitted == s.emitted + [e] && e.since == s.loop.since && e.at == s.now
            && if s.m.paused || s.loop.generation != s.m.generation then e.status.suppress && t.m == s.m
               else if ok then e.status == Status(false, s.m.generation, !Condemned(cfg, h + [true]), true)
               else e.status.suppress || e.status == Status(false, s.m.generation, !Fails(cfg, h + [false], |h|), false)
  {
    ReachableCounts(cfg, s);
    if !s.m.paused && s.loop.generation == s.m.generation {
      FinishCounts(cfg, s.m, Results(s.emitted, s.m.generation), ok, s.now);
    }
    hide Condemned, Tail, Fails;
  }

  // ----- which failures are passed over, and how soon the next probe comes

  /** A success was counted since the fast window was opened. */
  ghost predicate SucceededSince(emitted: seq<Emission>, from: nat) {
    exists i :: from <= i < |emitted| && !emitted[i].status.suppress && emitted[i].status.lastCheckSucceeded
  }

  predicate IsCountedFailure(e: Emission) {
    !e.status.suppress && !e.status.lastCheckSucceeded
  }

  /** The last failure counted since the fast window was opened. */
  ghost predicate LastFailure(emitted: seq<Emission>, from: nat, i: int) {
    && from <= i < |emitted| && IsCountedFailure(emitted[i])
    && forall j :: i < j < |emitted| ==> !IsCountedFailure(emitted[j])
  }

  /** The window that armFastStart or a reset opened is still open, and no success has closed it. */
  ghost predicate InWindow(cfg: Config, s: System) {
    && s.m.fastUntil.Some? && s.now < s.armedAt + AtLeastOne(cfg.failureThreshold) * Period(cfg)
    && !SucceededSince(s.emitted, s.armedFrom)
  }

  lemma WindowLength(cfg: Config)
    ensures FastWindow(cfg) == AtLeastOne(cfg.failureThreshold) * Period(cfg)
  {
  }

  ghost predicate WindowOk(cfg: Config, s: System) {
    && s.armedFrom <= |s.emitted| && s.armedAt <= s.now
    && (s.m.fastUntil.Some? ==> s.m.fastUntil.value == s.armedAt + FastWindow(cfg))
    && (s.m.fastUntil.Some? ==> (s.m.everSucceeded <==> SucceededSince(s.emitted, s.armedFrom)))
    && (InWindow(cfg, s) ==>
          forall i :: LastFailure(s.emitted, s.armedFrom, i) ==> s.m.lastCountedFail == Some(s.emitted[i].at))
    && (InWindow(cfg, s) && s.m.lastCountedFail.Some? ==> exists i :: LastFailure(s.emitted, s.armedFrom, i))
  }

  lemma SucceededSnoc(emitted: seq<Emission>, e: Emission, from: nat)
    requires from <= |emitted|
    ensures SucceededSince(emitted + [e], from) <==>
            SucceededSince(emitted, from) || (!e.status.suppress && e.status.lastCheckSucceeded)
  {
    var all := emitted + [e];
    if SucceededSince(emitted, from) {
      var i :| from <= i < |emitted| && !emitted[i].status.suppress && emitted[i].status.lastCheckSucceeded;
      assert all[i] == emitted[i];
    }
    assert all[|emitted|] == e;
  }

  lemma LastFailureSnoc(emitted: seq<Emission>, e: Emission, from: nat, i: int)
    requires from <= |emitted|
    ensures LastFailure(emitted + [e], from, i) <==>
            if IsCountedFailure(e) then i == |emitted| else LastFailure(emitted, from, i)
  {
    var all := emitted + [e];
    assert all[|emitted|] == e;
    assert forall j :: 0 <= j < |emitted| ==> all[j] == emitted[j];
  }

  /** What a result does to the window's fields. */
  lemma FinishWindow(cfg: Config, m: Monitor, generation: nat, ok: bool, now: int)
    ensures var (m', status) := Finished(cfg, m, generation, ok, now);
            && m'.fastUntil == m.fastUntil
            && (m'.everSucceeded <==> m.everSucceeded || (!status.suppress && status.lastCheckSucceeded))
            && m'.lastCountedFail ==
               if !status.suppress && !status.lastCheckSucceeded && !m.everSucceeded && Before(now, m.fastUntil)
               then Some(now) else m.lastCountedFail
  {
  }

  lemma WindowStep(cfg: Config, s: System, a: Action)
    requires WindowOk(cfg, s) && Possible(s, a)
    ensures WindowOk(cfg, Next(cfg, s, a))
  {
    WindowLength(cfg);
    var t := Next(cfg, s, a);
    if a.Finish? || a.FinishFirst? {
      FinishWindow(cfg, s.m, s.loop.generation, a.ok, s.now);
      WindowFinish(cfg, s, t, t.emitted[|s.emitted|]);
    } else if a.Arm? || a.Rearm? || a.Resume? {
      hide FastWindow;
      assert !SucceededSince(t.emitted, t.armedFrom);
    } else {
      hide FastWindow, SucceededSince, LastFailure;
    }
  }

  lemma WindowFinish(cfg: Config, s: System, t: System, e: Emission)
    requires WindowOk(cfg, s) && t.emitted == s.emitted + [e] && t.now == s.now == e.at
    requires t.armedAt == s.armedAt && t.armedFrom == s.armedFrom && t.m.fastUntil == s.m.fastUntil
    requires t.m.everSucceeded <==> s.m.everSucceeded || (!e.status.suppress && e.status.lastCheckSucceeded)
    requires t.m.lastCountedFail ==
             if IsCountedFailure(e) && !s.m.everSucceeded && Before(s.now, s.m.fastUntil) then Some(s.now)
             else s.m.lastCountedFail
    ensures WindowOk(cfg, t)
  {
    WindowLength(cfg);
    SucceededSnoc(s.emitted, e, s.armedFrom);
    forall i ensures LastFailure(t.emitted, t.armedFrom, i) <==>
                     if IsCountedFailure(e) then i == |s.emitted| else LastFailure(s.emitted, s.armedFrom, i)
    {
      LastFailureSnoc(s.emitted, e, s.armedFrom, i);
    }
    hide SucceededSince, LastFailure, FastWindow, Period;
    if InWindow(cfg, t) {
      assert InWindow(cfg, s);
      if IsCountedFailure(e) {
        assert LastFailure(t.emitted, t.armedFrom, |s.emitted|);
      } else if s.m.lastCountedFail.Some? {
        var i :| LastFailure(s.emitted, s.armedFrom, i);
        assert LastFailure(t.emitted, t.armedFrom, i);
      }
    }
  }

  lemma {:induction false} RunWindow(cfg: Config, s: System, actions: seq<Action>)
    requires WindowOk(cfg, s) && CanRun(cfg, s, actions)
    ensures WindowOk(cfg, Run(cfg, s, actions))
    decreases |actions|
  {
    hide WindowOk;
    if actions != [] {
      WindowStep(cfg, s, actions[0]);
      RunWindow(cfg, Next(cfg, s, actions[0]), actions[1..]);
    }
  }

  lemma ReachableWindow(cfg: Config, s: System)
    requires Reachable(cfg, s)
    ensures WindowOk(cfg, s)
  {
    var start, actions :| Init(cfg, start) && CanRun(cfg, start, actions) && Run(cfg, start, actions) == s;
    RunWindow(cfg, start, actions);
  }

  /**
   * A failed probe of the present generation is passed over exactly if the fast window is open, no
   * success has been counted in it, and less than a period has passed since the last failure counted.
   */
  lemma PassedOverExactly(cfg: Config, s: System)
    requires Reachable(cfg, s) && (s.loop.Probe? || s.loop.FirstProbe?)
    requires !s.m.paused && s.loop.generation == s.m.generation
    ensures var t := Next(cfg, s, if s.loop.Probe? then Finish(false) else FinishFirst(false));
            t.emitted[|s.emitted|].status.suppress <==>
            InWindow(cfg, s)
            && exists i :: LastFailure(s.emitted, s.armedFrom, i) && s.now - s.emitted[i].at < Period(cfg)
  {
    ReachableWindow(cfg, s);
    WindowLength(cfg);
    hide SucceededSince, LastFailure, FastWindow, Period;
  }

  /** The loop probes fast exactly as long as that window is open, and once a period otherwise. */
  lemma IntervalExactly(cfg: Config, s: System)
    requires Reachable(cfg, s) && Possible(s, SetTimer)
    ensures Next(cfg, s, SetTimer).loop ==
            Timer(s.now + if InWindow(cfg, s) then FAST_START_INTERVAL else Period(cfg))
  {
    ReachableWindow(cfg, s);
    WindowLength(cfg);
    WholeSeconds(cfg);
    hide SucceededSince, LastFailure, FastWindow, Period;
  }

  /** A timer leads to a probe exactly if the monitor is not paused and the delay since the last reset is over. */
  lemma GraceExactly(cfg: Config, s: System)
    requires Reachable(cfg, s) && Possible(s, Fire)
    ensures Next(cfg, s, Fire).loop == if !s.m.paused && s.now >= s.resetAt + Delay(cfg) then Checked else Rest
  {
    ReachableInv(cfg, s);
  }

  /** A Pause makes every probe under way and every status so far stale, for good. */
  lemma PauseInvalidates(cfg: Config, s: System)
    requires Reachable(cfg, s)
    ensures var t := Next(cfg, s, Pause);
            && t.m.paused && t.emitted == s.emitted && t.loop == s.loop
            && (s.loop.Probe? || s.loop.FirstProbe? ==> s.loop.generation < t.m.generation)
            && forall e :: e in t.emitted && !e.status.suppress ==> e.status.generation < t.m.generation
  {
    ReachableInv(cfg, s);
    forall e | e in s.emitted && !e.status.suppress ensures e.status.generation <= s.m.generation {
      var i :| 0 <= i < |s.emitted| && s.emitted[i] == e;
      assert EmissionOk(s, s.emitted[i]);
    }
  }

  ghost predicate NoResume(actions: seq<Action>) {
    forall i :: 0 <= i < |actions| ==> !actions[i].Resume?
  }

  /** Until it is resumed, a paused monitor accepts nothing and reports nothing. */
  lemma {:induction false} PausedIsSilent(cfg: Config, s: System, actions: seq<Action>)
    requires s.m.paused && NoResume(actions) && CanRun(cfg, s, actions)
    ensures var t := Run(cfg, s, actions);
            && t.m.paused && s.emitted <= t.emitted
            && (forall e :: e in t.emitted ==> !Accepts(t.m, e.status))
            && forall i :: |s.emitted| <= i < |t.emitted| ==> t.emitted[i].status.suppress
    decreases |actions|
  {
    if actions != [] {
      assert !actions[0].Resume?;
      PausedIsSilent(cfg, Next(cfg, s, actions[0]), actions[1..]);
    }
  }

  /** While the monitor is paused no probe of the present generation is under way. */
  ghost predicate QuietWhilePaused(s: System) {
    s.m.paused && (s.loop.Probe? || s.loop.FirstProbe?) ==> s.loop.generation != s.m.generation
  }

  lemma {:induction false} RunQuiet(cfg: Config, s: System, actions: seq<Action>)
    requires Inv(cfg, s) && QuietWhilePaused(s) && CanRun(cfg, s, actions)
    ensures QuietWhilePaused(Run(cfg, s, actions))
    decreases |actions|
  {
    if actions != [] {
      StepInv(cfg, s, actions[0]);
      hide Timely, VerdictsLate, Finished;
      RunQuiet(cfg, Next(cfg, s, actions[0]), actions[1..]);
    }
  }

  lemma NoProbeWhilePaused(cfg: Config, s: System)
    requires Reachable(cfg, s)
    ensures QuietWhilePaused(s)
  {
    var start, actions :| Init(cfg, start) && CanRun(cfg, start, actions) && Run(cfg, start, actions) == s;
    InitInv(cfg, start);
    RunQuiet(cfg, start, actions);
  }

  /** A Rearm or Resume starts afresh, with the window open; only a Resume ends a pause. */
  lemma ResetStartsAfresh(cfg: Config, s: System, reset: Action)
    requires Reachable(cfg, s) && (reset.Rearm? || reset.Resume?)
    ensures var t := Next(cfg, s, reset);
            && t.m.healthy && Results(t.emitted, t.m.generation) == [] && t.emitted == s.emitted && t.loop == s.loop
            && (t.m.paused <==> reset.Rearm? && s.m.paused)
            && InWindow(cfg, t) && (forall i :: !LastFailure(t.emitted, t.armedFrom, i))
            && (s.loop.Probe? || s.loop.FirstProbe? ==> s.loop.generation < t.m.generation)
  {
    ReachableInv(cfg, s);
    ReachableCounts(cfg, s);
    CountsStep(cfg, s, reset);
    WindowLength(cfg);
    var t := Next(cfg, s, reset);
    forall i | 0 <= i < |s.emitted| && !s.emitted[i].status.suppress
      ensures s.emitted[i].status.generation < t.m.generation
    {
      assert EmissionOk(s, s.emitted[i]);
    }
    NoResultsYet(s.emitted, t.m.generation);
    hide Results, Condemned;
  }
}
