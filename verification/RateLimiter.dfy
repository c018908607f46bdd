/**
 * The API rate limiter (internal/api/server.go): a token bucket per client, and a cleanup that drops
 * clients idle for more than ten minutes. Times are in seconds, token counts are reals.
 */
module RateLimiter {
  datatype Limits = Limits(rate: nat, burst: nat)

  const IDLE_LIMIT: real := 600.0

  datatype Bucket = Bucket(tokens: real, lastRefill: real)

  function Full(l: Limits, now: real): Bucket {
    Bucket(l.burst as real, now)
  }

  function Min(a: real, b: real): real {
    if a < b then a else b
  }

  /** The tokens that come in over a stretch of time. */
  function Gain(l: Limits, elapsed: real): real {
    elapsed * l.rate as real
  }

  lemma GainSum(l: Limits, x: real, y: real)
    ensures Gain(l, x) + Gain(l, y) == Gain(l, x + y)
  {
    assert x * l.rate as real + y * l.rate as real == (x + y) * l.rate as real;
  }

  lemma GainMonotone(l: Limits, x: real, y: real)
    requires x <= y
    ensures Gain(l, x) <= Gain(l, y) && Gain(l, 0.0) == 0.0
  {
    var d := y - x;
    assert d * l.rate as real >= 0.0;
    GainSum(l, x, d);
  }

  /** The tokens available at `now`, before a request takes one. */
  function Refilled(l: Limits, b: Bucket, now: real): real {
    Min(b.tokens + Gain(l, now - b.lastRefill), l.burst as real)
  }

  predicate Grants(l: Limits, b: Bucket, now: real) {
    Refilled(l, b, now) >= 1.0
  }

  function Charged(l: Limits, b: Bucket, now: real): Bucket {
    Bucket(Refilled(l, b, now) - (if Grants(l, b, now) then 1.0 else 0.0), now)
  }

  class TokenBucket {
    const limits: Limits
    var tokens: real
    var lastRefill: real

    constructor (limits: Limits, now: real)
      ensures this.limits == limits && State() == Full(limits, now)
    {
      this.limits := limits;
      tokens, lastRefill := limits.burst as real, now;
    }

    function State(): Bucket
      reads this
    {
      Bucket(tokens, lastRefill)
    }

    method Allow(now: real) returns (ok: bool)
      modifies this
      ensures ok == Grants(limits, old(State()), now)
      ensures State() == Charged(limits, old(State()), now)
    {
      hide Gain;
      var elapsed := now - lastRefill;
      tokens := tokens + Gain(limits, elapsed);
      if tokens > limits.burst as real {
        tokens := limits.burst as real;
      }
      lastRefill := now;
      if tokens >= 1.0 {
        tokens := tokens - 1.0;
        return true;
      }
      return false;
    }
  }

  // ----- one client: how many requests get through

  ghost predicate Rising(times: seq<real>) {
    forall i, j :: 0 <= i < j < |times| ==> times[i] <= times[j]
  }

  ghost predicate Sound(l: Limits, b: Bucket) {
    0.0 <= b.tokens <= l.burst as real
  }

  /** The bucket after a series of requests. */
  function After(l: Limits, b: Bucket, times: seq<real>): Bucket
    decreases |times|
  {
    if times == [] then b else Charged(l, After(l, b, times[..|times| - 1]), times[|times| - 1])
  }

  /** How many of the requests are granted. */
  function Granted(l: Limits, b: Bucket, times: seq<real>): nat
    decreases |times|
  {
    if times == [] then 0
    else
      var front, now := times[..|times| - 1], times[|times| - 1];
      Granted(l, b, front) + if Grants(l, After(l, b, front), now) then 1 else 0
  }

  lemma RefillBounds(l: Limits, b: Bucket, now: real)
    requires Sound(l, b) && b.lastRefill <= now
    ensures 0.0 <= Refilled(l, b, now) <= l.burst as real
    ensures b.tokens <= Refilled(l, b, now) <= b.tokens + Gain(l, now - b.lastRefill)
    ensures Sound(l, Charged(l, b, now))
  {
    GainMonotone(l, 0.0, now - b.lastRefill);
    hide Gain;
  }

  /** Grants plus tokens left never exceed the tokens at the first request plus the refill since. */
  lemma {:induction false} TokenBalance(l: Limits, b: Bucket, times: seq<real>)
    requires Sound(l, b) && times != [] && Rising(times) && b.lastRefill <= times[0]
    ensures var t := After(l, b, times);
            && Sound(l, t) && t.lastRefill == times[|times| - 1]
            && Granted(l, b, times) as real + t.tokens
               <= l.burst as real + Gain(l, times[|times| - 1] - times[0])
    decreases |times|
  {
    GainMonotone(l, 0.0, 0.0);
    hide Gain, Refilled;
    var front, now := times[..|times| - 1], times[|times| - 1];
    var mid := After(l, b, front);
    if front == [] {
      RefillBounds(l, b, now);
    } else {
      assert front[0] == times[0] && front[|front| - 1] == times[|times| - 2];
      TokenBalance(l, b, front);
      RefillBounds(l, mid, now);
      GainSum(l, mid.lastRefill - times[0], now - mid.lastRefill);
    }
  }

  /** The requests granted within a time window, when `times` are all the requests of one client. */
  function GrantedIn(l: Limits, b: Bucket, times: seq<real>, from: real, to: real): nat
    decreases |times|
  {
    if times == [] then 0
    else
      var front, now := times[..|times| - 1], times[|times| - 1];
      GrantedIn(l, b, front, from, to) +
      if from <= now <= to && Grants(l, After(l, b, front), now) then 1 else 0
  }

  lemma {:induction false} AfterConcat(l: Limits, b: Bucket, p: seq<real>, q: seq<real>)
    ensures After(l, b, p + q) == After(l, After(l, b, p), q)
    decreases |q|
  {
    if q == [] {
      assert p + q == p;
    } else {
      var last := |q| - 1;
      assert (p + q)[..|p| + last] == p + q[..last];
      AfterConcat(l, b, p, q[..last]);
    }
  }

  /** Counting in a window means counting the run of requests that fall into it. */
  lemma {:induction false} WindowIsRun(l: Limits, b: Bucket, times: seq<real>, from: real, to: real, i: nat, j: nat)
    requires i <= j <= |times|
    requires forall k :: 0 <= k < |times| ==> (from <= times[k] <= to <==> i <= k < j)
    ensures GrantedIn(l, b, times, from, to) == Granted(l, After(l, b, times[..i]), times[i..j])
    decreases |times|
  {
    hide Refilled, Charged, Grants, Granted;
    if times == [] {
      assert times[i..j] == [] && times[..i] == [];
      NoneGranted(l, b);
    } else {
      var last := |times| - 1;
      var front := times[..last];
      if i < j == |times| {
        WindowIsRun(l, b, front, from, to, i, j - 1);
        assert front[..i] == times[..i] && front[i..j - 1] == times[i..j - 1];
        LastGranted(l, b, times, i);
      } else if j == |times| {
        assert times[i..j] == [] && front[last..last] == [];
        WindowIsRun(l, b, front, from, to, last, last);
        NoneGranted(l, After(l, b, times[..i]));
        NoneGranted(l, After(l, b, front[..last]));
      } else {
        WindowIsRun(l, b, front, from, to, i, j);
        assert front[..i] == times[..i] && front[i..j] == times[i..j];
      }
    }
  }

  lemma NoneGranted(l: Limits, b: Bucket)
    ensures Granted(l, b, []) == 0
  {
  }

  lemma AfterSplit(l: Limits, b: Bucket, times: seq<real>, i: nat)
    requires i < |times|
    ensures After(l, b, times[..|times| - 1]) == After(l, After(l, b, times[..i]), times[i..|times| - 1])
  {
    var last := |times| - 1;
    assert times[..last] == times[..i] + times[i..last];
    AfterConcat(l, b, times[..i], times[i..last]);
  }

  lemma LastGranted(l: Limits, b: Bucket, times: seq<real>, i: nat)
    requires i < |times|
    ensures var last := |times| - 1;
            Granted(l, After(l, b, times[..i]), times[i..]) ==
            Granted(l, After(l, b, times[..i]), times[i..last]) +
            if Grants(l, After(l, b, times[..last]), times[last]) then 1 else 0
    ensures times[i..|times|] == times[i..]
  {
    hide Grants, Charged, Refilled;
    var last := |times| - 1;
    AfterSplit(l, b, times, i);
    assert times[i..][..last - i] == times[i..last];
  }

  lemma {:induction false} FirstAtLeast(times: seq<real>, x: real, strict: bool) returns (i: nat)
    requires Rising(times)
    ensures i <= |times|
    ensures forall k :: 0 <= k < i ==> if strict then times[k] <= x else times[k] < x
    ensures forall k :: i <= k < |times| ==> if strict then times[k] > x else times[k] >= x
  {
    i := 0;
    while i < |times| && if strict then times[i] <= x else times[i] < x
      invariant i <= |times|
      invariant forall k :: 0 <= k < i ==> if strict then times[k] <= x else times[k] < x
    {
      i := i + 1;
    }
  }

  /** In any window of length `span` a client gets at most burst + rate * span requests through. */
  lemma WindowBound(l: Limits, created: real, times: seq<real>, from: real, span: real)
    requires Rising(times) && (times != [] ==> created <= times[0]) && span >= 0.0
    ensures GrantedIn(l, Full(l, created), times, from, from + span) as real <= l.burst as real + Gain(l, span)
  {
    GainMonotone(l, 0.0, span);
    hide Gain, Refilled, Granted, GrantedIn, Charged;
    var b := Full(l, created);
    var i := FirstAtLeast(times, from, false);
    var j := FirstAtLeast(times, from + span, true);
    assert j < |times| ==> times[j] > from;
    WindowIsRun(l, b, times, from, from + span, i, j);
    var start, window := After(l, b, times[..i]), times[i..j];
    if window == [] {
      NoneGranted(l, start);
    } else {
      if i > 0 {
        TokenBalance(l, b, times[..i]);
      }
      TokenBalance(l, start, window);
      GainMonotone(l, window[|window| - 1] - window[0], span);
    }
  }

  // ----- many clients, with and without the cleanup

  datatype Visitor = Visitor(bucket: Bucket, lastSeen: real)

  type Visitors = map<string, Visitor>

  datatype Event = Request(ip: string, now: real) | Cleanup(now: real)

  /** The bucket a request meets: the client's own, or a full one for a client not known. */
  function Meets(l: Limits, v: Visitors, ip: string, now: real): Bucket {
    if ip in v then v[ip].bucket else Full(l, now)
  }

  class Limiter {
    const limits: Limits
    var visitors: Visitors

    constructor (limits: Limits)
      ensures this.limits == limits && visitors == map[]
    {
      this.limits, visitors := limits, map[];
    }

    method Allow(ip: string, now: real) returns (ok: bool)
      modifies this
      ensures ok == Answer(limits, old(visitors), Request(ip, now))
      ensures visitors == Handled(limits, true, old(visitors), Request(ip, now))
    {
      if ip !in visitors {
        visitors := visitors[ip := Visitor(Full(limits, now), now)];
      }
      var bucket := visitors[ip].bucket;
      ok := Grants(limits, bucket, now);
      visitors := visitors[ip := Visitor(Charged(limits, bucket, now), now)];
    }

    method CleanupVisitors(now: real)
      modifies this
      ensures visitors == Handled(limits, true, old(visitors), Cleanup(now))
    {
      var ips := visitors.Keys;
      ghost var before := visitors;
      while ips != {}
        invariant ips <= before.Keys
        invariant visitors == map ip | ip in before && (ip in ips || !Idle(before[ip], now)) :: before[ip]
      {
        var ip :| ip in ips;
        ips := ips - {ip};
        if now - visitors[ip].lastSeen > IDLE_LIMIT {
          visitors := visitors - {ip};
        }
      }
    }
  }

  predicate Idle(v: Visitor, now: real) {
    now - v.lastSeen > IDLE_LIMIT
  }

  predicate Answer(l: Limits, v: Visitors, e: Event) {
    e.Request? && Grants(l, Meets(l, v, e.ip, e.now), e.now)
  }

  /** The visitors after an event; a limiter that does not evict ignores cleanups. */
  function Handled(l: Limits, evicts: bool, v: Visitors, e: Event): Visitors {
    match e
    case Request(ip, now) => v[ip := Visitor(Charged(l, Meets(l, v, ip, now), now), now)]
    case Cleanup(now) => if evicts then map ip | ip in v && !Idle(v[ip], now) :: v[ip] else v
  }

  function Answers(l: Limits, evicts: bool, v: Visitors, events: seq<Event>): seq<bool>
    decreases |events|
  {
    if events == [] then []
    else [Answer(l, v, events[0])] + Answers(l, evicts, Handled(l, evicts, v, events[0]), events[1..])
  }

  ghost predicate InOrder(events: seq<Event>) {
    forall i, j :: 0 <= i < j < |events| ==> events[i].now <= events[j].now
  }

  /** The evicting limiter lacks only clients that have been away long enough to be full again. */
  ghost predicate Matches(l: Limits, evicting: Visitors, keeping: Visitors, now: real) {
    && evicting.Keys <= keeping.Keys
    && forall ip {:trigger keeping[ip]} :: ip in keeping ==> MatchesAt(l, evicting, keeping[ip], ip, now)
  }

  ghost predicate MatchesAt(l: Limits, evicting: Visitors, v: Visitor, ip: string, now: real) {
    && Sound(l, v.bucket) && v.lastSeen == v.bucket.lastRefill <= now
    && (ip in evicting ==> evicting[ip] == v)
    && (ip !in evicting ==> now - v.lastSeen > IDLE_LIMIT)
  }

  /** A bucket idle for the limit is as good as new. */
  lemma IdleIsFull(l: Limits, b: Bucket, now: real)
    requires Sound(l, b) && l.burst as real <= Gain(l, IDLE_LIMIT) && now - b.lastRefill > IDLE_LIMIT
    ensures Refilled(l, b, now) == Refilled(l, Full(l, now), now) == l.burst as real
  {
    GainMonotone(l, IDLE_LIMIT, now - b.lastRefill);
    GainMonotone(l, 0.0, 0.0);
    assert now - now == 0.0;
  }

  lemma MatchesStep(l: Limits, evicting: Visitors, keeping: Visitors, from: real, e: Event)
    requires l.burst as real <= Gain(l, IDLE_LIMIT)
    requires Matches(l, evicting, keeping, from) && from <= e.now
    ensures Answer(l, evicting, e) == Answer(l, keeping, e)
    ensures Matches(l, Handled(l, true, evicting, e), Handled(l, false, keeping, e), e.now)
  {
    hide Gain, Refilled;
    var evicting', keeping' := Handled(l, true, evicting, e), Handled(l, false, keeping, e);
    if e.Request? {
      var b, b' := Meets(l, evicting, e.ip, e.now), Meets(l, keeping, e.ip, e.now);
      if e.ip in keeping {
        assert MatchesAt(l, evicting, keeping[e.ip], e.ip, from);
        if e.ip !in evicting {
          IdleIsFull(l, b', e.now);
        }
      }
      assert Sound(l, b') && b'.lastRefill <= e.now;
      RefillBounds(l, b', e.now);
      assert Charged(l, b, e.now) == Charged(l, b', e.now);
    }
    forall ip | ip in keeping' ensures MatchesAt(l, evicting', keeping'[ip], ip, e.now) {
      if ip in keeping {
        assert MatchesAt(l, evicting, keeping[ip], ip, from);
      }
    }
  }

  lemma {:induction false} SameAnswers(l: Limits, evicting: Visitors, keeping: Visitors, from: real, events: seq<Event>)
    requires l.burst as real <= Gain(l, IDLE_LIMIT)
    requires Matches(l, evicting, keeping, from) && InOrder(events) && (events != [] ==> from <= events[0].now)
    ensures Answers(l, true, evicting, events) == Answers(l, false, keeping, events)
    decreases |events|
  {
    if events != [] {
      var e := events[0];
      MatchesStep(l, evicting, keeping, from, e);
      SameAnswers(l, Handled(l, true, evicting, e), Handled(l, false, keeping, e), e.now, events[1..]);
    }
  }

  /** No history of requests and cleanups lets a client see that idle clients are dropped. */
  ghost predicate EvictionInvisible(l: Limits) {
    forall events :: InOrder(events) ==> Answers(l, true, map[], events) == Answers(l, false, map[], events)
  }

  /** Eviction is invisible exactly when ten minutes refill a whole burst. */
  lemma EvictionInvisibleExactly(l: Limits)
    ensures EvictionInvisible(l) <==> l.burst as real <= Gain(l, IDLE_LIMIT)
  {
    if l.burst as real <= Gain(l, IDLE_LIMIT) {
      forall events: seq<Event> | InOrder(events)
        ensures Answers(l, true, map[], events) == Answers(l, false, map[], events)
      {
        SameAnswers(l, map[], map[], if events == [] then 0.0 else events[0].now, events);
      }
    } else {
      var events := SeenEviction(l);
      assert InOrder(events);
    }
  }

  /** The limits the server uses, 100 requests a second with bursts of 200. */
  lemma ServerLimitsInvisible()
    ensures EvictionInvisible(Limits(100, 200))
  {
    EvictionInvisibleExactly(Limits(100, 200));
  }

  // ----- a history that shows the eviction when the burst is too large

  function HandledAll(l: Limits, evicts: bool, v: Visitors, events: seq<Event>): Visitors
    decreases |events|
  {
    if events == [] then v
    else Handled(l, evicts, HandledAll(l, evicts, v, events[..|events| - 1]), events[|events| - 1])
  }

  lemma {:induction false} HandledFirst(l: Limits, evicts: bool, v: Visitors, events: seq<Event>)
    requires events != []
    ensures HandledAll(l, evicts, v, events) == HandledAll(l, evicts, Handled(l, evicts, v, events[0]), events[1..])
    decreases |events|
  {
    var last := |events| - 1;
    if last == 0 {
      assert events[..0] == [] && events[1..] == [];
    } else {
      HandledFirst(l, evicts, v, events[..last]);
      assert events[..last][1..] == events[1..][..last - 1];
    }
  }

  lemma {:induction false} LastAnswer(l: Limits, evicts: bool, v: Visitors, events: seq<Event>, e: Event)
    ensures var answers := Answers(l, evicts, v, events + [e]);
            |answers| == |events| + 1 && answers[|events|] == Answer(l, HandledAll(l, evicts, v, events), e)
    decreases |events|
  {
    var all := events + [e];
    if events == [] {
      assert all[1..] == [];
    } else {
      assert all[1..] == events[1..] + [e];
      LastAnswer(l, evicts, Handled(l, evicts, v, events[0]), events[1..], e);
      HandledFirst(l, evicts, v, events);
    }
  }

  function Storm(now: real, k: nat): seq<Event> {
    seq(k, _ => Request("a", now))
  }

  /** Requests that all arrive at once take one token each while there is one. */
  lemma {:induction false} StormDrains(l: Limits, evicts: bool, v: Visitors, before: seq<Event>, now: real, k: nat)
    requires var w := HandledAll(l, evicts, v, before);
             Sound(l, Meets(l, w, "a", now)) && Meets(l, w, "a", now).lastRefill <= now
    ensures var x := Refilled(l, Meets(l, HandledAll(l, evicts, v, before), "a", now), now);
            var w := HandledAll(l, evicts, v, before + Storm(now, k));
            && (k > 0 ==> "a" in w && w["a"].bucket == Meets(l, w, "a", now) && w["a"].lastSeen == now)
            && Sound(l, Meets(l, w, "a", now)) && Meets(l, w, "a", now).lastRefill <= now
            && (k > 0 ==> w["a"].bucket.lastRefill == now)
            && Refilled(l, Meets(l, w, "a", now), now) <= l.burst as real
            && (k as real <= x ==> Refilled(l, Meets(l, w, "a", now), now) == x - k as real)
            && (x < k as real ==> Refilled(l, Meets(l, w, "a", now), now) < 1.0)
    decreases k
  {
    hide Refilled, Charged, Meets;
    var w := HandledAll(l, evicts, v, before + Storm(now, k));
    if k == 0 {
      assert before + Storm(now, 0) == before;
      RefillBounds(l, Meets(l, w, "a", now), now);
    } else {
      StormDrains(l, evicts, v, before, now, k - 1);
      var u := HandledAll(l, evicts, v, before + Storm(now, k - 1));
      StormStep(l, evicts, v, before, now, k);
      MetAgain(l, u, w, now);
      TakeOne(l, Meets(l, u, "a", now), now);
    }
  }

  /** One request more at the same moment takes one token, if there is one. */
  lemma TakeOne(l: Limits, b: Bucket, now: real)
    requires Sound(l, b) && b.lastRefill <= now
    ensures var c := Charged(l, b, now);
            && Sound(l, c) && c.lastRefill == now && Refilled(l, c, now) <= l.burst as real
            && Refilled(l, c, now) == Refilled(l, b, now) - if Refilled(l, b, now) >= 1.0 then 1.0 else 0.0
  {
    RefillBounds(l, b, now);
    RefillBounds(l, Charged(l, b, now), now);
    GainMonotone(l, 0.0, 0.0);
    assert now - now == 0.0;
    hide Gain;
  }

  lemma StormStep(l: Limits, evicts: bool, v: Visitors, before: seq<Event>, now: real, k: nat)
    requires k > 0
    ensures HandledAll(l, evicts, v, before + Storm(now, k)) ==
            Handled(l, evicts, HandledAll(l, evicts, v, before + Storm(now, k - 1)), Request("a", now))
  {
    var events := before + Storm(now, k);
    assert events[..|events| - 1] == before + Storm(now, k - 1);
    assert events[|events| - 1] == Request("a", now);
  }

  lemma MetAgain(l: Limits, u: Visitors, w: Visitors, now: real)
    requires w == u["a" := Visitor(Charged(l, Meets(l, u, "a", now), now), now)]
    ensures "a" in w && w["a"].lastSeen == now && w["a"].bucket == Meets(l, w, "a", now)
    ensures Meets(l, w, "a", now) == Charged(l, Meets(l, u, "a", now), now)
  {
  }

  /** Where a stretch of time does not bring in a burst, neither does one that is a little longer. */
  lemma NotYetFull(l: Limits, elapsed: real) returns (longer: real)
    requires Gain(l, elapsed) < l.burst as real
    ensures elapsed < longer && Gain(l, longer) < l.burst as real
  {
    if l.rate == 0 {
      longer := elapsed + 1.0;
    } else {
      var r := l.rate as real;
      var spare := l.burst as real - Gain(l, elapsed);
      var extra := spare / (2.0 * r);
      assert extra > 0.0 && extra * r == spare / 2.0;
      longer := elapsed + extra;
      GainSum(l, elapsed, extra);
    }
  }

  lemma SeenEviction(l: Limits) returns (events: seq<Event>)
    requires Gain(l, IDLE_LIMIT) < l.burst as real
    ensures InOrder(events) && Answers(l, true, map[], events) != Answers(l, false, map[], events)
  {
    GainMonotone(l, 0.0, IDLE_LIMIT);
    hide Gain, Refilled, HandledAll, Handled, Answers, Meets, Sound, InOrder, Storm;
    var now := NotYetFull(l, IDLE_LIMIT);
    var n := l.burst;
    var first := Storm(0.0, n) + [Cleanup(now)];
    events := first + Storm(now, n - 1) + [Request("a", now)];
    AfterCleanup(l, true, now);
    AfterCleanup(l, false, now);
    StormDrains(l, true, map[], first, now, n - 1);
    StormDrains(l, false, map[], first, now, n - 1);
    LastAnswer(l, true, map[], first + Storm(now, n - 1), Request("a", now));
    LastAnswer(l, false, map[], first + Storm(now, n - 1), Request("a", now));
    StormsInOrder(n, now, events);
  }

  lemma StormsInOrder(n: nat, now: real, events: seq<Event>)
    requires n > 0 && now >= 0.0
    requires events == Storm(0.0, n) + [Cleanup(now)] + Storm(now, n - 1) + [Request("a", now)]
    ensures InOrder(events)
  {
    forall i | 0 <= i < |events| ensures events[i].now == if i < n then 0.0 else now {
    }
  }

  /** Where the two limiters stand after a burst at time 0 and the cleanup. */
  lemma AfterCleanup(l: Limits, evicts: bool, now: real)
    requires l.burst > 0 && now > IDLE_LIMIT && Gain(l, now) < l.burst as real
    ensures var w := HandledAll(l, evicts, map[], Storm(0.0, l.burst) + [Cleanup(now)]);
            && Sound(l, Meets(l, w, "a", now)) && Meets(l, w, "a", now).lastRefill <= now
            && Refilled(l, Meets(l, w, "a", now), now) == if evicts then l.burst as real else Gain(l, now)
  {
    var storm := Storm(0.0, l.burst);
    var first := storm + [Cleanup(now)];
    GainMonotone(l, 0.0, 0.0);
    GainMonotone(l, 0.0, now);
    StormDrains(l, evicts, map[], [], 0.0, l.burst);
    assert [] + storm == storm;
    assert first[..|first| - 1] == storm;
    var v := HandledAll(l, evicts, map[], storm);
    assert v["a"].bucket == Bucket(0.0, 0.0);
    assert now - now == 0.0;
  }

  // ----- the window bound for a client of the limiter

  /** How many requests of one client are granted within a time window. */
  function GrantedTo(l: Limits, evicts: bool, events: seq<Event>, ip: string, from: real, to: real): nat
    decreases |events|
  {
    if events == [] then 0
    else
      var front, e := events[..|events| - 1], events[|events| - 1];
      GrantedTo(l, evicts, front, ip, from, to) +
      if Counts(e, ip, from, to) && Answer(l, HandledAll(l, evicts, map[], front), e) then 1 else 0
  }

  predicate Counts(e: Event, ip: string, from: real, to: real) {
    e.Request? && e.ip == ip && from <= e.now <= to
  }

  /** No client ever gets more than burst + rate * span requests through within a window of length `span`. */
  ghost predicate WindowsBounded(l: Limits) {
    forall events, ip, from, span :: InOrder(events) && span >= 0.0 ==> WindowBounded(l, events, ip, from, span)
  }

  ghost predicate WindowBounded(l: Limits, events: seq<Event>, ip: string, from: real, span: real) {
    GrantedTo(l, true, events, ip, from, from + span) as real <= l.burst as real + Gain(l, span)
  }

  /** With eviction, that too holds exactly when ten minutes refill a whole burst. */
  lemma WindowsBoundedExactly(l: Limits)
    ensures WindowsBounded(l) <==> l.burst as real <= Gain(l, IDLE_LIMIT)
  {
    if l.burst as real <= Gain(l, IDLE_LIMIT) {
      forall events: seq<Event>, ip, from, span: real | InOrder(events) && span >= 0.0
        ensures WindowBounded(l, events, ip, from, span)
      {
        SameGrants(l, events, ip, from, from + span);
        ClientBound(l, events, ip, from, span);
      }
    } else {
      var events, span := SecondBurst(l);
      assert !WindowBounded(l, events, "a", 0.0, span);
    }
  }

  lemma InOrderFront(events: seq<Event>)
    requires InOrder(events) && events != []
    ensures InOrder(events[..|events| - 1])
  {
  }

  /** The two limiters stand alike after the same events. */
  lemma {:induction false} MatchesAll(l: Limits, events: seq<Event>)
    requires l.burst as real <= Gain(l, IDLE_LIMIT) && InOrder(events) && events != []
    ensures Matches(l, HandledAll(l, true, map[], events), HandledAll(l, false, map[], events),
                    events[|events| - 1].now)
    decreases |events|
  {
    hide Gain, Matches, Handled;
    var last := |events| - 1;
    var front, e := events[..last], events[last];
    if front == [] {
      NobodyMatches(l, e.now);
      MatchesStep(l, map[], map[], e.now, e);
    } else {
      InOrderFront(events);
      MatchesAll(l, front);
      MatchesStep(l, HandledAll(l, true, map[], front), HandledAll(l, false, map[], front), events[last - 1].now, e);
    }
  }

  lemma NobodyMatches(l: Limits, now: real)
    ensures Matches(l, map[], map[], now)
  {
  }

  lemma {:induction false} SameGrants(l: Limits, events: seq<Event>, ip: string, from: real, to: real)
    requires l.burst as real <= Gain(l, IDLE_LIMIT) && InOrder(events)
    ensures GrantedTo(l, true, events, ip, from, to) == GrantedTo(l, false, events, ip, from, to)
    decreases |events|
  {
    hide Gain, Matches, Handled, HandledAll, Answer;
    if events != [] {
      var last := |events| - 1;
      var front, e := events[..last], events[last];
      InOrderFront(events);
      SameGrants(l, front, ip, from, to);
      if front == [] {
        NobodyHandled(l);
      } else {
        MatchesAll(l, front);
        MatchesStep(l, HandledAll(l, true, map[], front), HandledAll(l, false, map[], front), front[last - 1].now, e);
      }
    }
  }

  lemma NobodyHandled(l: Limits)
    ensures HandledAll(l, true, map[], []) == HandledAll(l, false, map[], [])
  {
  }

  /** When a client's requests arrive. */
  function TimesOf(events: seq<Event>, ip: string): seq<real>
    decreases |events|
  {
    if events == [] then []
    else WithTime(TimesOf(events[..|events| - 1], ip), events[|events| - 1], ip)
  }

  function WithTime(times: seq<real>, e: Event, ip: string): seq<real> {
    if e.Request? && e.ip == ip then times + [e.now] else times
  }

  lemma {:induction false} TimesRise(events: seq<Event>, ip: string)
    requires InOrder(events)
    ensures Rising(TimesOf(events, ip))
    ensures forall i :: 0 <= i < |TimesOf(events, ip)| ==> TimesOf(events, ip)[i] <= events[|events| - 1].now
    decreases |events|
  {
    if events != [] {
      InOrderFront(events);
      TimesRise(events[..|events| - 1], ip);
    }
  }

  /** The client's bucket is the one its requests so far make of a full one. */
  ghost predicate HasBucket(l: Limits, v: Visitors, ip: string, times: seq<real>, created: real) {
    && (ip in v <==> times != [])
    && (times != [] ==> created == times[0] && v[ip].bucket == After(l, Full(l, created), times))
  }

  lemma BucketStep(l: Limits, v: Visitors, ip: string, times: seq<real>, created: real, e: Event)
    requires HasBucket(l, v, ip, times, created)
    requires WithTime(times, e, ip) != [] ==> created == WithTime(times, e, ip)[0]
    ensures HasBucket(l, Handled(l, false, v, e), ip, WithTime(times, e, ip), created)
    ensures e.Request? && e.ip == ip ==> (Answer(l, v, e) <==> Grants(l, After(l, Full(l, created), times), e.now))
  {
    hide Charged, Grants, After;
    var full := Full(l, created);
    NoneIn(l, full, 0.0, 0.0);
    OneMoreTime(l, full, times, e.now, 0.0, 0.0);
    if e.Request? && e.ip == ip {
      assert WithTime(times, e, ip)[0] == if times == [] then e.now else times[0];
      assert Meets(l, v, ip, e.now) == After(l, full, times);
    }
  }

  /** Without eviction a client has one bucket, from its first request on. */
  lemma {:induction false} OneBucket(l: Limits, events: seq<Event>, ip: string, created: real, from: real, to: real)
    requires TimesOf(events, ip) != [] ==> created == TimesOf(events, ip)[0]
    ensures HasBucket(l, HandledAll(l, false, map[], events), ip, TimesOf(events, ip), created)
    ensures GrantedTo(l, false, events, ip, from, to) ==
            GrantedIn(l, Full(l, created), TimesOf(events, ip), from, to)
    decreases |events|
  {
    if events == [] {
      NoneIn(l, Full(l, created), from, to);
    } else {
      hide Grants, Answer, Charged, After, GrantedIn, HasBucket, Handled;
      var front, e := events[..|events| - 1], events[|events| - 1];
      OneBucket(l, front, ip, created, from, to);
      BucketStep(l, HandledAll(l, false, map[], front), ip, TimesOf(front, ip), created, e);
      OneMoreTime(l, Full(l, created), TimesOf(front, ip), e.now, from, to);
    }
  }

  lemma NoneIn(l: Limits, b: Bucket, from: real, to: real)
    ensures GrantedIn(l, b, [], from, to) == 0 && After(l, b, []) == b
  {
  }

  lemma OneMoreTime(l: Limits, b: Bucket, times: seq<real>, now: real, from: real, to: real)
    ensures After(l, b, times + [now]) == Charged(l, After(l, b, times), now)
    ensures GrantedIn(l, b, times + [now], from, to) ==
            GrantedIn(l, b, times, from, to) +
            if from <= now <= to && Grants(l, After(l, b, times), now) then 1 else 0
  {
    assert (times + [now])[..|times|] == times;
  }

  lemma ClientBound(l: Limits, events: seq<Event>, ip: string, from: real, span: real)
    requires InOrder(events) && span >= 0.0
    ensures GrantedTo(l, false, events, ip, from, from + span) as real <= l.burst as real + Gain(l, span)
  {
    var times := TimesOf(events, ip);
    var created := if times == [] then 0.0 else times[0];
    TimesRise(events, ip);
    OneBucket(l, events, ip, created, from, from + span);
    WindowBound(l, created, times, from, span);
  }

  /** A storm that finds a token for each of its requests is granted whole. */
  lemma {:induction false} StormGranted(l: Limits, evicts: bool, before: seq<Event>, now: real, k: nat,
                                        from: real, to: real)
    requires var b := Meets(l, HandledAll(l, evicts, map[], before), "a", now);
             Sound(l, b) && b.lastRefill <= now && k as real <= Refilled(l, b, now)
    requires from <= now <= to
    ensures GrantedTo(l, evicts, before + Storm(now, k), "a", from, to) ==
            GrantedTo(l, evicts, before, "a", from, to) + k
    decreases k
  {
    hide Refilled, Meets, Sound, HandledAll;
    var events := before + Storm(now, k);
    if k == 0 {
      assert events == before;
    } else {
      assert events[..|events| - 1] == before + Storm(now, k - 1);
      assert events[|events| - 1] == Request("a", now);
      StormGranted(l, evicts, before, now, k - 1, from, to);
      StormDrains(l, evicts, map[], before, now, k - 1);
    }
  }

  /** An eviction hands out a second burst before the first has come back. */
  lemma SecondBurst(l: Limits) returns (events: seq<Event>, span: real)
    requires Gain(l, IDLE_LIMIT) < l.burst as real
    ensures InOrder(events) && span >= 0.0
    ensures GrantedTo(l, true, events, "a", 0.0, 0.0 + span) as real > l.burst as real + Gain(l, span)
  {
    GainMonotone(l, 0.0, IDLE_LIMIT);
    hide Gain, Refilled, HandledAll, Handled, Meets, Sound, InOrder, Storm, Answer, GrantedTo;
    span := NotYetFull(l, IDLE_LIMIT);
    var n := l.burst;
    var first := Storm(0.0, n) + [Cleanup(span)];
    events := first + Storm(span, n);
    FirstBurst(l, span);
    AfterCleanup(l, true, span);
    StormGranted(l, true, first, span, n, 0.0, span);
    TwoStorms(n, span, events);
  }

  lemma FirstBurst(l: Limits, span: real)
    requires span >= 0.0
    ensures GrantedTo(l, true, Storm(0.0, l.burst) + [Cleanup(span)], "a", 0.0, span) == l.burst
  {
    var storm := Storm(0.0, l.burst);
    var first := storm + [Cleanup(span)];
    FirstMeets(l);
    assert [] + storm == storm;
    hide Refilled, HandledAll, Handled, Meets, Sound, Storm, Answer;
    StormGranted(l, true, [], 0.0, l.burst, 0.0, span);
    assert first[..|first| - 1] == storm && first[|first| - 1] == Cleanup(span);
  }

  lemma FirstMeets(l: Limits)
    ensures var b := Meets(l, HandledAll(l, true, map[], []), "a", 0.0);
            Sound(l, b) && b.lastRefill <= 0.0 && l.burst as real <= Refilled(l, b, 0.0)
  {
    GainMonotone(l, 0.0, 0.0);
  }

  lemma TwoStorms(n: nat, now: real, events: seq<Event>)
    requires now >= 0.0 && events == Storm(0.0, n) + [Cleanup(now)] + Storm(now, n)
    ensures InOrder(events)
  {
    forall i | 0 <= i < |events| ensures events[i].now == if i < n then 0.0 else now {
    }
  }
}
