/**
 * rateLimiter.allow in small steps (internal/api/server.go): a request looks up its client's visitor
 * under the map's lock, then stamps it as seen, then takes a token under the bucket's lock. The cleanup
 * and other requests may come between any two of these.
 */
module LimiterRace {
  import opened Options
  import opened RateLimiter

  type Thread = nat

  /** Stands for the pointer to a visitor. */
  type Id = nat

  datatype Move =
    | LookUp(t: Thread, ip: string, now: real)
    | Stamp(t: Thread, now: real)
    | Take(t: Thread, now: real)
    | Sweep(now: real)

  /** A request under way: its client, the visitor it has looked up, and when it stamped it. */
  datatype Held = Held(ip: string, id: Id, stamped: Option<real>)

  /** `entries` are all visitors ever made, `known` the map of the limiter, `held` the requests under way. */
  datatype State = State(entries: seq<Visitor>, known: map<string, Id>, held: map<Thread, Held>)

  const NOBODY := State([], map[], map[])

  predicate InRange(s: State) {
    && (forall ip :: ip in s.known ==> s.known[ip] < |s.entries|)
    && forall t :: t in s.held ==> s.held[t].id < |s.entries|
  }

  predicate Possible(s: State, m: Move) {
    && InRange(s)
    && match m
       case LookUp(t, _, _) => t !in s.held
       case Stamp(t, _) => t in s.held && s.held[t].stamped.None?
       case Take(t, _) => t in s.held && s.held[t].stamped.Some?
       case Sweep(_) => true
  }

  function Next(l: Limits, s: State, m: Move): State
    requires Possible(s, m)
  {
    match m
    case LookUp(t, ip, now) =>
      if ip in s.known then s.(held := s.held[t := Held(ip, s.known[ip], None)])
      else
        var id := |s.entries|;
        State(s.entries + [Visitor(Full(l, now), now)], s.known[ip := id], s.held[t := Held(ip, id, None)])
    case Stamp(t, now) =>
      var h := s.held[t];
      s.(entries := s.entries[h.id := s.entries[h.id].(lastSeen := now)], held := s.held[t := h.(stamped := Some(now))])
    case Take(t, now) =>
      var e := s.entries[s.held[t].id];
      s.(entries := s.entries[s.held[t].id := e.(bucket := Charged(l, e.bucket, now))], held := s.held - {t})
    case Sweep(now) =>
      s.(known := map ip | ip in s.known && !Idle(s.entries[s.known[ip]], now) :: s.known[ip])
  }

  /** The cleanup drops a visitor that a request under way has looked up. */
  predicate Tears(s: State, m: Move)
    requires InRange(s)
  {
    m.Sweep? && exists t :: t in s.held && Idle(s.entries[s.held[t].id], m.now)
  }

  /** A request takes its token more than `gap` after it stamped the visitor. */
  predicate Stalls(s: State, m: Move, gap: real)
    requires Possible(s, m)
  {
    m.Take? && m.now - s.held[m.t].stamped.value > gap
  }

  // ----- runs

  predicate CanRun(l: Limits, moves: seq<Move>)
    decreases |moves|, 0
  {
    moves == [] ||
    (CanRun(l, moves[..|moves| - 1]) && Possible(Reached(l, moves[..|moves| - 1]), moves[|moves| - 1]))
  }

  function Reached(l: Limits, moves: seq<Move>): State
    requires CanRun(l, moves)
    decreases |moves|, 1
  {
    if moves == [] then NOBODY else Next(l, Reached(l, moves[..|moves| - 1]), moves[|moves| - 1])
  }

  ghost predicate InTime(moves: seq<Move>) {
    forall i, j :: 0 <= i < j < |moves| ==> moves[i].now <= moves[j].now
  }

  /** No cleanup drops a visitor under a request, and no request stalls for longer than `gap` before its token. */
  ghost predicate Orderly(l: Limits, moves: seq<Move>, gap: real)
    requires CanRun(l, moves)
    decreases |moves|
  {
    moves == [] ||
    var s, m := Reached(l, moves[..|moves| - 1]), moves[|moves| - 1];
    Orderly(l, moves[..|moves| - 1], gap) && !Tears(s, m) && !Stalls(s, m, gap)
  }

  /** The request that a move answers, as a limiter in one step per request sees it. */
  function Seen(s: State, m: Move): seq<Event>
    requires Possible(s, m)
  {
    if m.Take? then [Request(s.held[m.t].ip, m.now)] else []
  }

  function Requests(l: Limits, moves: seq<Move>): seq<Event>
    requires CanRun(l, moves)
    decreases |moves|
  {
    if moves == [] then []
    else Requests(l, moves[..|moves| - 1]) + Seen(Reached(l, moves[..|moves| - 1]), moves[|moves| - 1])
  }

  predicate Passes(l: Limits, s: State, m: Move, ip: string, from: real, to: real)
    requires Possible(s, m)
  {
    m.Take? && s.held[m.t].ip == ip && from <= m.now <= to && Grants(l, s.entries[s.held[m.t].id].bucket, m.now)
  }

  /** How many requests of one client are granted within a time window. */
  function GrantedOver(l: Limits, moves: seq<Move>, ip: string, from: real, to: real): nat
    requires CanRun(l, moves)
    decreases |moves|
  {
    if moves == [] then 0
    else
      var front, m := moves[..|moves| - 1], moves[|moves| - 1];
      GrantedOver(l, front, ip, from, to) + if Passes(l, Reached(l, front), m, ip, from, to) then 1 else 0
  }

  // ----- orderly runs do what a limiter does that never drops anybody

  /** A bucket that is full by `now`. */
  ghost predicate FullAt(l: Limits, b: Bucket, now: real) {
    Sound(l, b) && b.lastRefill <= now && Refilled(l, b, now) == l.burst as real
  }

  lemma FullStays(l: Limits, b: Bucket, now: real, later: real)
    requires FullAt(l, b, now) && now <= later
    ensures FullAt(l, b, later)
  {
    GainMonotone(l, now - b.lastRefill, later - b.lastRefill);
    hide Gain;
  }

  lemma NewIsFull(l: Limits, now: real)
    ensures FullAt(l, Full(l, now), now)
  {
    GainMonotone(l, 0.0, 0.0);
    assert now - now == 0.0;
    hide Gain;
  }

  /** Within what is left of the idle limit after a stall, a whole burst comes back. */
  predicate Refills(l: Limits, gap: real) {
    l.burst == 0 || l.burst as real <= Gain(l, IDLE_LIMIT - gap)
  }

  lemma LongAgoIsFull(l: Limits, b: Bucket, gap: real, now: real)
    requires Refills(l, gap) && Sound(l, b) && b.lastRefill <= now && now - b.lastRefill > IDLE_LIMIT - gap
    ensures FullAt(l, b, now)
  {
    GainMonotone(l, IDLE_LIMIT - gap, now - b.lastRefill);
    GainMonotone(l, 0.0, now - b.lastRefill);
    hide Gain;
  }

  /** Two buckets that no later request can tell apart. */
  ghost predicate Alike(l: Limits, b: Bucket, c: Bucket, now: real) {
    Sound(l, c) && c.lastRefill <= now && (b == c || (FullAt(l, b, now) && FullAt(l, c, now)))
  }

  lemma AlikeStays(l: Limits, b: Bucket, c: Bucket, now: real, later: real)
    requires Alike(l, b, c, now) && now <= later
    ensures Alike(l, b, c, later)
  {
    hide FullAt;
    if FullAt(l, b, now) && FullAt(l, c, now) {
      FullStays(l, b, now, later);
      FullStays(l, c, now, later);
    }
  }

  lemma AlikeAnswer(l: Limits, b: Bucket, c: Bucket, now: real)
    requires Alike(l, b, c, now)
    ensures Charged(l, b, now) == Charged(l, c, now) && (Grants(l, b, now) <==> Grants(l, c, now))
    ensures Alike(l, Charged(l, b, now), Charged(l, c, now), now)
  {
    RefillBounds(l, c, now);
  }

  /** The visitor has the client's bucket of the limiter that keeps everybody, or one as good. */
  ghost predicate EntryOk(l: Limits, gap: real, s: State, v: Visitors, ip: string, now: real)
    requires ip in s.known
  {
    && s.known[ip] < |s.entries|
    && var e := s.entries[s.known[ip]];
       && e.lastSeen <= now && e.bucket.lastRefill <= e.lastSeen + gap
       && if ip in v then Alike(l, e.bucket, v[ip].bucket, now) else FullAt(l, e.bucket, now)
  }

  /** A visitor looked up is still the client's, and was seen no earlier than the request stamped it. */
  ghost predicate HeldOk(s: State, t: Thread)
    requires t in s.held
  {
    var h := s.held[t];
    && h.ip in s.known && s.known[h.ip] == h.id < |s.entries|
    && (h.stamped.Some? ==> h.stamped.value <= s.entries[h.id].lastSeen)
  }

  ghost predicate Simulates(l: Limits, gap: real, s: State, v: Visitors, now: real) {
    && InRange(s)
    && (forall ip {:trigger EntryOk(l, gap, s, v, ip, now)} :: ip in s.known ==> EntryOk(l, gap, s, v, ip, now))
    && (forall ip {:trigger v[ip]} :: ip in v && ip !in s.known ==> FullAt(l, v[ip].bucket, now))
    && (forall t {:trigger HeldOk(s, t)} :: t in s.held ==> HeldOk(s, t))
    && forall x, y {:trigger s.known[x], s.known[y]} ::
         x in s.known && y in s.known && x != y ==> s.known[x] != s.known[y]
  }

  lemma EntryStays(l: Limits, gap: real, s: State, v: Visitors, ip: string, now: real, s': State, later: real)
    requires ip in s.known && EntryOk(l, gap, s, v, ip, now) && now <= later
    requires ip in s'.known && s'.known[ip] == s.known[ip] < |s'.entries|
    requires s'.entries[s.known[ip]] == s.entries[s.known[ip]]
    ensures EntryOk(l, gap, s', v, ip, later)
  {
    hide FullAt, Alike;
    var b := s.entries[s.known[ip]].bucket;
    if ip in v {
      AlikeStays(l, b, v[ip].bucket, now, later);
    } else {
      FullStays(l, b, now, later);
    }
  }

  lemma MissingStay(l: Limits, gap: real, s: State, v: Visitors, now: real, ip: string, later: real)
    requires Simulates(l, gap, s, v, now) && ip in v && ip !in s.known && now <= later
    ensures FullAt(l, v[ip].bucket, later)
  {
    FullStays(l, v[ip].bucket, now, later);
  }

  lemma LookUpSimulates(l: Limits, gap: real, s: State, v: Visitors, from: real, m: Move)
    requires Simulates(l, gap, s, v, from) && Possible(s, m) && m.LookUp? && from <= m.now && gap >= 0.0
    ensures Simulates(l, gap, Next(l, s, m), v, m.now)
  {
    hide FullAt, Alike;
    var s' := Next(l, s, m);
    forall ip | ip in s'.known ensures EntryOk(l, gap, s', v, ip, m.now) {
      if ip in s.known {
        assert EntryOk(l, gap, s, v, ip, from);
        EntryStays(l, gap, s, v, ip, from, s', m.now);
      } else {
        EntryMade(l, gap, s, v, from, s', ip, m.now);
      }
    }
    forall ip | ip in v && ip !in s'.known ensures FullAt(l, v[ip].bucket, m.now) {
      MissingStay(l, gap, s, v, from, ip, m.now);
    }
    forall t | t in s'.held ensures HeldOk(s', t) {
      assert t != m.t ==> HeldOk(s, t);
    }
    hide EntryOk, HeldOk;
  }

  lemma EntryMade(l: Limits, gap: real, s: State, v: Visitors, from: real, s': State, ip: string, now: real)
    requires Simulates(l, gap, s, v, from) && from <= now && gap >= 0.0
    requires ip !in s.known && ip in s'.known && s'.known[ip] < |s'.entries|
    requires s'.entries[s'.known[ip]] == Visitor(Full(l, now), now)
    ensures EntryOk(l, gap, s', v, ip, now)
  {
    NewIsFull(l, now);
    hide FullAt, Alike;
    if ip in v {
      MissingStay(l, gap, s, v, from, ip, now);
      FullsAlike(l, Full(l, now), v[ip].bucket, now);
    }
  }

  lemma FullsAlike(l: Limits, b: Bucket, c: Bucket, now: real)
    requires FullAt(l, b, now) && FullAt(l, c, now)
    ensures Alike(l, b, c, now)
  {
  }

  lemma StampSimulates(l: Limits, gap: real, s: State, v: Visitors, from: real, m: Move)
    requires Simulates(l, gap, s, v, from) && Possible(s, m) && m.Stamp? && from <= m.now
    ensures Simulates(l, gap, Next(l, s, m), v, m.now)
  {
    hide FullAt, Alike;
    var s', h := Next(l, s, m), s.held[m.t];
    assert HeldOk(s, m.t);
    forall ip | ip in s'.known ensures EntryOk(l, gap, s', v, ip, m.now) {
      assert EntryOk(l, gap, s, v, ip, from);
      EntryStays(l, gap, s, v, ip, from, s, m.now);
    }
    forall ip | ip in v && ip !in s'.known ensures FullAt(l, v[ip].bucket, m.now) {
      MissingStay(l, gap, s, v, from, ip, m.now);
    }
    forall t | t in s'.held ensures HeldOk(s', t) {
      assert HeldOk(s, t) && EntryOk(l, gap, s, v, s.held[t].ip, from);
    }
  }

  /** A token taken without a stall counts as a request to the limiter that keeps everybody, and is granted alike. */
  lemma TakeSimulates(l: Limits, gap: real, s: State, v: Visitors, from: real, m: Move)
    requires Simulates(l, gap, s, v, from) && Possible(s, m) && m.Take? && from <= m.now && !Stalls(s, m, gap)
    ensures var e := Request(s.held[m.t].ip, m.now);
            && Simulates(l, gap, Next(l, s, m), Handled(l, false, v, e), m.now)
            && (Answer(l, v, e) <==> Grants(l, s.entries[s.held[m.t].id].bucket, m.now))
  {
    var me, id := s.held[m.t].ip, s.held[m.t].id;
    var s', v' := Next(l, s, m), Handled(l, false, v, Request(me, m.now));
    assert HeldOk(s, m.t) && EntryOk(l, gap, s, v, me, from);
    EntryStays(l, gap, s, v, me, from, s, m.now);
    var b, c := s.entries[id].bucket, Meets(l, v, me, m.now);
    NewIsFull(l, m.now);
    assert Alike(l, b, c, m.now);
    AlikeAnswer(l, b, c, m.now);
    hide FullAt, Alike, Charged, Grants;
    forall ip | ip in s'.known ensures EntryOk(l, gap, s', v', ip, m.now) {
      assert EntryOk(l, gap, s, v, ip, from);
      if ip != me {
        EntryStays(l, gap, s, v, ip, from, s', m.now);
      } else {
        ChargedAt(l, b, m.now);
      }
    }
    forall ip | ip in v' && ip !in s'.known ensures FullAt(l, v'[ip].bucket, m.now) {
      MissingStay(l, gap, s, v, from, ip, m.now);
    }
    forall t | t in s'.held ensures HeldOk(s', t) {
      assert HeldOk(s, t);
    }
  }

  lemma ChargedAt(l: Limits, b: Bucket, now: real)
    ensures Charged(l, b, now).lastRefill == now
  {
  }

  /** A cleanup that drops no visitor under a request drops only clients whose buckets are full again. */
  lemma SweepSimulates(l: Limits, gap: real, s: State, v: Visitors, from: real, m: Move)
    requires Simulates(l, gap, s, v, from) && Possible(s, m) && m.Sweep? && from <= m.now && !Tears(s, m)
    requires Refills(l, gap)
    ensures Simulates(l, gap, Next(l, s, m), v, m.now)
  {
    hide FullAt, Refills;
    var s' := Next(l, s, m);
    forall ip | ip in s'.known ensures EntryOk(l, gap, s', v, ip, m.now) {
      assert EntryOk(l, gap, s, v, ip, from);
      EntryStays(l, gap, s, v, ip, from, s', m.now);
    }
    forall ip | ip in v && ip !in s'.known ensures FullAt(l, v[ip].bucket, m.now) {
      if ip in s.known {
        assert EntryOk(l, gap, s, v, ip, from);
        EntryStays(l, gap, s, v, ip, from, s, m.now);
        if s.entries[s.known[ip]].bucket == v[ip].bucket {
          LongAgoIsFull(l, v[ip].bucket, gap, m.now);
        }
      } else {
        MissingStay(l, gap, s, v, from, ip, m.now);
      }
    }
    forall t | t in s'.held ensures HeldOk(s', t) {
      assert HeldOk(s, t) && !Idle(s.entries[s.held[t].id], m.now);
    }
  }

  /** One step of the simulation: the limiter in whole requests follows, and grants alike. */
  lemma AgreeStep(l: Limits, gap: real, s: State, events: seq<Event>, before: real, m: Move,
                  ip: string, from: real, to: real)
    requires InOrder(events) && (forall e :: e in events ==> e.now <= before) && before <= m.now && gap >= 0.0
    requires Simulates(l, gap, s, HandledAll(l, false, map[], events), before) && Possible(s, m)
    requires !Tears(s, m) && !Stalls(s, m, gap) && Refills(l, gap)
    ensures var events' := events + Seen(s, m);
            && InOrder(events') && (forall e :: e in events' ==> e.now <= m.now)
            && Simulates(l, gap, Next(l, s, m), HandledAll(l, false, map[], events'), m.now)
            && GrantedTo(l, false, events', ip, from, to) ==
               GrantedTo(l, false, events, ip, from, to) + if Passes(l, s, m, ip, from, to) then 1 else 0
  {
    hide Simulates, Handled, Grants, Tears, Stalls, Refills, HandledAll, GrantedTo, Next, Answer, InOrder;
    var v := HandledAll(l, false, map[], events);
    if m.Take? {
      TakeSimulates(l, gap, s, v, before, m);
      OneMoreEvent(l, events, Request(s.held[m.t].ip, m.now), ip, from, to);
    } else {
      assert events + [] == events;
      match m {
        case LookUp(_, _, _) => LookUpSimulates(l, gap, s, v, before, m);
        case Stamp(_, _) => StampSimulates(l, gap, s, v, before, m);
        case Sweep(_) => SweepSimulates(l, gap, s, v, before, m);
      }
    }
  }

  lemma OneMoreEvent(l: Limits, events: seq<Event>, e: Event, ip: string, from: real, to: real)
    requires InOrder(events) && forall f :: f in events ==> f.now <= e.now
    ensures InOrder(events + [e])
    ensures HandledAll(l, false, map[], events + [e]) == Handled(l, false, HandledAll(l, false, map[], events), e)
    ensures GrantedTo(l, false, events + [e], ip, from, to) ==
            GrantedTo(l, false, events, ip, from, to) +
            if Counts(e, ip, from, to) && Answer(l, HandledAll(l, false, map[], events), e) then 1 else 0
  {
    assert (events + [e])[..|events|] == events;
  }

  lemma NobodySimulates(l: Limits, gap: real, now: real)
    ensures Simulates(l, gap, NOBODY, HandledAll(l, false, map[], []), now)
  {
  }

  lemma Unfolds(l: Limits, gap: real, moves: seq<Move>, ip: string, from: real, to: real)
    requires CanRun(l, moves) && InTime(moves) && Orderly(l, moves, gap) && moves != []
    ensures var front, m := moves[..|moves| - 1], moves[|moves| - 1];
            && CanRun(l, front) && Possible(Reached(l, front), m) && Reached(l, moves) == Next(l, Reached(l, front), m)
            && InTime(front) && (front != [] ==> front[|front| - 1].now <= m.now)
            && Orderly(l, front, gap) && !Tears(Reached(l, front), m) && !Stalls(Reached(l, front), m, gap)
            && Requests(l, moves) == Requests(l, front) + Seen(Reached(l, front), m)
            && GrantedOver(l, moves, ip, from, to) ==
               GrantedOver(l, front, ip, from, to) + if Passes(l, Reached(l, front), m, ip, from, to) then 1 else 0
  {
    hide Next, Seen, Tears, Stalls, Passes, Possible;
  }

  /** An orderly run grants exactly what a limiter that never drops anybody grants. */
  lemma {:induction false} SmallStepsAgree(l: Limits, gap: real, moves: seq<Move>, now: real,
                                           ip: string, from: real, to: real)
    requires CanRun(l, moves) && InTime(moves) && Orderly(l, moves, gap) && Refills(l, gap) && gap >= 0.0
    requires moves != [] ==> now == moves[|moves| - 1].now
    ensures InOrder(Requests(l, moves)) && forall e :: e in Requests(l, moves) ==> e.now <= now
    ensures Simulates(l, gap, Reached(l, moves), HandledAll(l, false, map[], Requests(l, moves)), now)
    ensures GrantedOver(l, moves, ip, from, to) == GrantedTo(l, false, Requests(l, moves), ip, from, to)
    decreases |moves|
  {
    if moves == [] {
      NobodySimulates(l, gap, now);
    } else {
      var last := |moves| - 1;
      var front, m := moves[..last], moves[last];
      var before := if front == [] then now else front[last - 1].now;
      Unfolds(l, gap, moves, ip, from, to);
      hide CanRun, Reached, Requests, Orderly, InTime, GrantedOver, Simulates, Next, Seen, Tears, Stalls, HandledAll,
           GrantedTo, InOrder, Passes, Refills;
      SmallStepsAgree(l, gap, front, before, ip, from, to);
      AgreeStep(l, gap, Reached(l, front), Requests(l, front), before, m, ip, from, to);
    }
  }

  // ----- when the window bound holds

  ghost predicate Bounded(l: Limits, moves: seq<Move>, ip: string, from: real, span: real)
    requires CanRun(l, moves)
  {
    GrantedOver(l, moves, ip, from, from + span) as real <= l.burst as real + Gain(l, span)
  }

  /** The window bound holds in every orderly run with stalls of at most `gap`. */
  ghost predicate OrderlyBounded(l: Limits, gap: real) {
    forall moves, ip, from, span ::
      CanRun(l, moves) && InTime(moves) && Orderly(l, moves, gap) && span >= 0.0 ==> Bounded(l, moves, ip, from, span)
  }

  /** The window bound holds whatever the interleaving. */
  ghost predicate AlwaysBounded(l: Limits) {
    forall moves, ip, from, span ::
      CanRun(l, moves) && InTime(moves) && span >= 0.0 ==> Bounded(l, moves, ip, from, span)
  }

  /** That is so exactly when the idle limit less the longest stall refills a whole burst. */
  lemma OrderlyBoundedExactly(l: Limits, gap: real)
    requires gap >= 0.0
    ensures OrderlyBounded(l, gap) <==> Refills(l, gap)
  {
    if Refills(l, gap) {
      forall moves: seq<Move>, ip, from, span
        | CanRun(l, moves) && InTime(moves) && Orderly(l, moves, gap) && span >= 0.0
        ensures Bounded(l, moves, ip, from, span)
      {
        hide CanRun, Orderly, Requests, GrantedOver, GrantedTo, InTime, InOrder, HandledAll, Simulates, Reached, Gain,
             Refills;
        SmallStepsAgree(l, gap, moves, if moves == [] then 0.0 else moves[|moves| - 1].now, ip, from, from + span);
        ClientBound(l, Requests(l, moves), ip, from, span);
      }
    } else {
      var moves, span := LateTokens(l, gap);
      assert !Bounded(l, moves, "a", gap, span);
    }
  }

  /** With the limits of the server, a stall of 598 seconds is still harmless and no longer one is. */
  lemma ServerStall(gap: real)
    requires gap >= 0.0
    ensures OrderlyBounded(Limits(100, 200), gap) <==> gap <= 598.0
  {
    OrderlyBoundedExactly(Limits(100, 200), gap);
  }

  /** Over all interleavings it holds only for a limiter that grants nothing. */
  lemma AlwaysBoundedExactly(l: Limits)
    ensures AlwaysBounded(l) <==> l.burst == 0
  {
    if l.burst == 0 {
      forall moves, ip, from, span | CanRun(l, moves) && InTime(moves) && span >= 0.0
        ensures Bounded(l, moves, ip, from, span)
      {
        NothingGranted(l, moves, ip, from, from + span);
        GainMonotone(l, 0.0, span);
      }
    } else {
      var gap := IDLE_LIMIT + 1.0;
      GainMonotone(l, IDLE_LIMIT - gap, 0.0);
      var moves, span := LateTokens(l, gap);
      assert !Bounded(l, moves, "a", gap, span);
    }
  }

  lemma {:induction false} NothingGranted(l: Limits, moves: seq<Move>, ip: string, from: real, to: real)
    requires l.burst == 0 && CanRun(l, moves)
    ensures GrantedOver(l, moves, ip, from, to) == 0
    decreases |moves|
  {
    if moves != [] {
      NothingGranted(l, moves[..|moves| - 1], ip, from, to);
    }
  }

  // ----- runs that break the bound

  /** The run leads to `s` and grants client "a" `n` requests from `from` to `to`; it is orderly if so asked. */
  ghost predicate Leads(l: Limits, orderly: bool, gap: real, moves: seq<Move>, s: State, from: real, to: real, n: nat) {
    && CanRun(l, moves) && Reached(l, moves) == s && (orderly ==> Orderly(l, moves, gap))
    && GrantedOver(l, moves, "a", from, to) == n
  }

  lemma LeadsNowhere(l: Limits, orderly: bool, gap: real, from: real, to: real)
    ensures Leads(l, orderly, gap, [], NOBODY, from, to, 0)
  {
  }

  lemma LeadsOn(l: Limits, orderly: bool, gap: real, moves: seq<Move>, s: State, from: real, to: real, n: nat, m: Move)
    requires Leads(l, orderly, gap, moves, s, from, to, n) && Possible(s, m)
    requires orderly ==> !Tears(s, m) && !Stalls(s, m, gap)
    ensures Leads(l, orderly, gap, moves + [m], Next(l, s, m), from, to,
                  n + if Passes(l, s, m, "a", from, to) then 1 else 0)
  {
    hide Next, Passes, Possible, Tears, Stalls;
    assert (moves + [m])[..|moves|] == moves;
  }

  /** One request from start to end at a single moment. */
  function Shot(now: real): seq<Move> {
    [LookUp(0, "a", now), Stamp(0, now), Take(0, now)]
  }

  function Volley(now: real, k: nat): seq<Move> {
    if k == 0 then [] else Volley(now, k - 1) + Shot(now)
  }

  /** Client "a" has `tokens` at `now` (a full new bucket, if it is not known), and no request is under way. */
  ghost predicate Has(l: Limits, s: State, now: real, tokens: real) {
    && InRange(s) && s.held == map[]
    && if "a" in s.known then s.entries[s.known["a"]].bucket == Bucket(tokens, now) else tokens == l.burst as real
  }

  lemma ShotPasses(l: Limits, orderly: bool, gap: real, moves: seq<Move>, s: State, from: real, to: real, n: nat,
                   now: real, tokens: real) returns (s': State)
    requires Leads(l, orderly, gap, moves, s, from, to, n) && from <= now <= to && gap >= 0.0
    requires Has(l, s, now, tokens) && 1.0 <= tokens <= l.burst as real
    ensures Leads(l, orderly, gap, moves + Shot(now), s', from, to, n + 1) && Has(l, s', now, tokens - 1.0)
  {
    hide Leads;
    TakesOne(l, tokens, now);
    hide Grants, Charged;
    var shot := Shot(now);
    LeadsOn(l, orderly, gap, moves, s, from, to, n, shot[0]);
    s' := Next(l, s, shot[0]);
    LeadsOn(l, orderly, gap, moves + [shot[0]], s', from, to, n, shot[1]);
    s' := Next(l, s', shot[1]);
    LeadsOn(l, orderly, gap, moves + [shot[0]] + [shot[1]], s', from, to, n, shot[2]);
    s' := Next(l, s', shot[2]);
    assert moves + shot == moves + [shot[0]] + [shot[1]] + [shot[2]];
  }

  lemma TakesOne(l: Limits, tokens: real, now: real)
    requires 1.0 <= tokens <= l.burst as real
    ensures Grants(l, Bucket(tokens, now), now) && Charged(l, Bucket(tokens, now), now) == Bucket(tokens - 1.0, now)
  {
    GainMonotone(l, 0.0, 0.0);
    assert now - now == 0.0;
    hide Gain;
  }

  /** As many requests at one moment as there are tokens all go through. */
  lemma {:induction false} VolleyPasses(l: Limits, orderly: bool, gap: real, moves: seq<Move>, s: State,
                                        from: real, to: real, n: nat, now: real, k: nat) returns (s': State)
    requires Leads(l, orderly, gap, moves, s, from, to, n) && from <= now <= to && gap >= 0.0
    requires Has(l, s, now, l.burst as real) && k <= l.burst
    ensures Leads(l, orderly, gap, moves + Volley(now, k), s', from, to, n + k)
    ensures Has(l, s', now, (l.burst - k) as real)
    decreases k
  {
    hide Leads, Has;
    if k == 0 {
      assert moves + Volley(now, 0) == moves;
      s' := s;
    } else {
      s' := VolleyPasses(l, orderly, gap, moves, s, from, to, n, now, k - 1);
      s' := ShotPasses(l, orderly, gap, moves + Volley(now, k - 1), s', from, to, n + k - 1, now,
                       (l.burst - (k - 1)) as real);
      assert moves + Volley(now, k) == moves + Volley(now, k - 1) + Shot(now);
      assert (l.burst - (k - 1)) as real - 1.0 == (l.burst - k) as real;
    }
  }

  /** `k` requests look up and stamp the visitor at time 0. */
  function Gather(k: nat): seq<Move> {
    if k == 0 then [] else Gather(k - 1) + [LookUp(k - 1, "a", 0.0), Stamp(k - 1, 0.0)]
  }

  /** The first `k` of them take their tokens. */
  function Takes(now: real, k: nat): seq<Move> {
    if k == 0 then [] else Takes(now, k - 1) + [Take(k - 1, now)]
  }

  /** Request `t` has not had its turn when `j` of them have. */
  predicate Due(t: Thread, j: nat) {
    j <= t
  }

  function Waiting(j: nat, k: nat): map<Thread, Held> {
    map t: Thread | 0 <= t < k && Due(t, j) :: Held("a", 0, Some(0.0))
  }

  function Gathered(b: Bucket, j: nat, k: nat): State {
    State([Visitor(b, 0.0)], map["a" := 0], Waiting(j, k))
  }

  lemma {:induction false} GatherLeads(l: Limits, gap: real, from: real, to: real, k: nat)
    requires k >= 1
    ensures Leads(l, true, gap, Gather(k), Gathered(Full(l, 0.0), 0, k), from, to, 0)
    decreases k
  {
    hide Leads;
    var first, second := LookUp(k - 1, "a", 0.0), Stamp(k - 1, 0.0);
    var s, before := NOBODY, Gather(k - 1);
    if k == 1 {
      LeadsNowhere(l, true, gap, from, to);
    } else {
      GatherLeads(l, gap, from, to, k - 1);
      s := Gathered(Full(l, 0.0), 0, k - 1);
    }
    LeadsOn(l, true, gap, before, s, from, to, 0, first);
    s := Next(l, s, first);
    LeadsOn(l, true, gap, before + [first], s, from, to, 0, second);
    assert Gather(k) == before + [first] + [second];
    var end := Next(l, s, second);
    assert end.held == Waiting(0, k);
    assert end.entries == [Visitor(Full(l, 0.0), 0.0)];
  }

  /** What is left of the bucket when `j` tokens have been taken `gap` after the stamps. */
  function Drained(l: Limits, gap: real, j: nat): Bucket {
    if j == 0 then Full(l, 0.0) else Bucket(l.burst as real - j as real, gap)
  }

  lemma DrainedTakes(l: Limits, gap: real, j: nat)
    requires 1 <= j <= l.burst && gap >= 0.0
    ensures Grants(l, Drained(l, gap, j - 1), gap) && Charged(l, Drained(l, gap, j - 1), gap) == Drained(l, gap, j)
  {
    if j == 1 {
      NewIsFull(l, 0.0);
      FullStays(l, Full(l, 0.0), 0.0, gap);
    } else {
      TakesOne(l, l.burst as real - (j - 1) as real, gap);
    }
  }

  lemma {:induction false} TakesLead(l: Limits, gap: real, from: real, to: real, j: nat)
    requires 1 <= l.burst && j <= l.burst && gap >= 0.0 && from <= gap <= to
    ensures Leads(l, true, gap, Gather(l.burst) + Takes(gap, j), Gathered(Drained(l, gap, j), j, l.burst), from, to, j)
    decreases j
  {
    hide Leads;
    if j == 0 {
      GatherLeads(l, gap, from, to, l.burst);
      assert Gather(l.burst) + Takes(gap, 0) == Gather(l.burst);
    } else {
      TakesLead(l, gap, from, to, j - 1);
      DrainedTakes(l, gap, j);
      hide Grants, Charged, Drained;
      var s, m := Gathered(Drained(l, gap, j - 1), j - 1, l.burst), Take(j - 1, gap);
      LeadsOn(l, true, gap, Gather(l.burst) + Takes(gap, j - 1), s, from, to, j - 1, m);
      assert Gather(l.burst) + Takes(gap, j) == Gather(l.burst) + Takes(gap, j - 1) + [m];
      var end := Next(l, s, m);
      assert end.held == Waiting(j, l.burst);
      assert end.entries == [Visitor(Drained(l, gap, j), 0.0)];
    }
  }

  /** Tokens taken long after the stamps: the cleanup drops the bucket too soon, and a second burst follows. */
  lemma LateTokens(l: Limits, gap: real) returns (moves: seq<Move>, span: real)
    requires gap >= 0.0 && !Refills(l, gap)
    ensures CanRun(l, moves) && InTime(moves) && Orderly(l, moves, gap) && span >= 0.0
    ensures GrantedOver(l, moves, "a", gap, gap + span) as real > l.burst as real + Gain(l, span)
  {
    span := NotYetFull(l, IDLE_LIMIT - gap);
    if span < 0.0 {
      span := 0.0;
      GainMonotone(l, 0.0, 0.0);
    }
    var now := gap + span;
    var s := TakenAndDropped(l, gap, now);
    moves := Gather(l.burst) + Takes(gap, l.burst) + [Sweep(now)];
    hide Gain, Refills, Has;
    var s' := VolleyPasses(l, true, gap, moves, s, gap, now, l.burst, now, l.burst);
    moves := moves + Volley(now, l.burst);
    hide CanRun, Reached, Orderly, GrantedOver, InTime;
    LateInTime(l.burst, gap, now);
  }

  lemma TakenAndDropped(l: Limits, gap: real, now: real) returns (s: State)
    requires l.burst >= 1 && 0.0 <= gap <= now && now > IDLE_LIMIT
    ensures Leads(l, true, gap, Gather(l.burst) + Takes(gap, l.burst) + [Sweep(now)], s, gap, now, l.burst)
    ensures Has(l, s, now, l.burst as real)
  {
    hide Leads, Drained;
    TakesLead(l, gap, gap, now, l.burst);
    s := Gathered(Drained(l, gap, l.burst), l.burst, l.burst);
    assert s.held == map[];
    LeadsOn(l, true, gap, Gather(l.burst) + Takes(gap, l.burst), s, gap, now, l.burst, Sweep(now));
    s := Next(l, s, Sweep(now));
  }

  ghost predicate AllAt(moves: seq<Move>, now: real) {
    forall m :: m in moves ==> m.now == now
  }

  lemma {:induction false} VolleyAt(now: real, k: nat)
    ensures AllAt(Volley(now, k), now)
  {
    if k > 0 {
      VolleyAt(now, k - 1);
    }
  }

  lemma {:induction false} GatherAt(k: nat)
    ensures AllAt(Gather(k), 0.0)
  {
    if k > 0 {
      GatherAt(k - 1);
    }
  }

  lemma {:induction false} TakesAt(now: real, k: nat)
    ensures AllAt(Takes(now, k), now)
  {
    if k > 0 {
      TakesAt(now, k - 1);
    }
  }

  lemma OneMoment(moves: seq<Move>, now: real)
    requires AllAt(moves, now)
    ensures InTime(moves)
  {
  }

  lemma LaterMoves(a: seq<Move>, b: seq<Move>, now: real)
    requires InTime(a) && InTime(b) && (forall m :: m in a ==> m.now <= now) && forall m :: m in b ==> now <= m.now
    ensures InTime(a + b)
  {
  }

  lemma LateInTime(k: nat, gap: real, now: real)
    requires 0.0 <= gap <= now
    ensures InTime(Gather(k) + Takes(gap, k) + [Sweep(now)] + Volley(now, k))
  {
    GatherAt(k);
    TakesAt(gap, k);
    VolleyAt(now, k);
    OneMoment(Gather(k), 0.0);
    OneMoment(Takes(gap, k), gap);
    OneMoment([Sweep(now)], now);
    OneMoment(Volley(now, k), now);
    hide InTime;
    LaterMoves(Gather(k), Takes(gap, k), 0.0);
    LaterMoves(Gather(k) + Takes(gap, k), [Sweep(now)], gap);
    LaterMoves(Gather(k) + Takes(gap, k) + [Sweep(now)], Volley(now, k), now);
  }

  /** A request after a long pause looks up its visitor, and the cleanup drops it before the token is taken. */
  function Torn(now: real): seq<Move> {
    Shot(0.0) + [LookUp(1, "a", now), Sweep(now), Stamp(1, now), Take(1, now)]
  }

  /** Without any stall, one request more than a burst goes through in a moment. */
  lemma TornLookup(l: Limits) returns (moves: seq<Move>, now: real)
    requires l.burst >= 1 && l.rate >= 1
    ensures CanRun(l, moves) && InTime(moves) && GrantedOver(l, moves, "a", now, now) == l.burst + 1
  {
    now := IDLE_LIMIT + 1.0;
    var s := TornPasses(l, now);
    hide Has;
    var s' := VolleyPasses(l, false, 0.0, Torn(now), s, now, now, 1, now, l.burst);
    moves := Torn(now) + Volley(now, l.burst);
    hide CanRun, Reached, Orderly, GrantedOver;
    VolleyAt(now, l.burst);
    OneMoment(Volley(now, l.burst), now);
    LaterMoves(Torn(now), Volley(now, l.burst), now);
  }

  /** The request goes through on the dropped visitor, and the client is unknown afterwards. */
  lemma TornPasses(l: Limits, now: real) returns (s: State)
    requires l.burst >= 1 && l.rate >= 1 && now > IDLE_LIMIT
    ensures Leads(l, false, 0.0, Torn(now), s, now, now, 1) && Has(l, s, now, l.burst as real)
  {
    hide Leads;
    AfterPause(l, now);
    hide Charged, Grants;
    LeadsNowhere(l, false, 0.0, now, now);
    var all, moves := Torn(now), [];
    s := NOBODY;
    var n := 0;
    for i := 0 to 7
      invariant moves == all[..i] && Leads(l, false, 0.0, moves, s, now, now, n)
      invariant s == TornState(l, now, i) && n == if i == 7 then 1 else 0
    {
      LeadsOn(l, false, 0.0, moves, s, now, now, n, all[i]);
      n := n + if Passes(l, s, all[i], "a", now, now) then 1 else 0;
      s, moves := Next(l, s, all[i]), moves + [all[i]];
    }
    assert all[..7] == all;
  }

  /** Where that run stands after `i` moves. */
  function TornState(l: Limits, now: real, i: nat): State {
    var used := Charged(l, Full(l, 0.0), 0.0);
    match i
    case 0 => NOBODY
    case 1 => State([Visitor(Full(l, 0.0), 0.0)], map["a" := 0], map[0 := Held("a", 0, None)])
    case 2 => State([Visitor(Full(l, 0.0), 0.0)], map["a" := 0], map[0 := Held("a", 0, Some(0.0))])
    case 3 => State([Visitor(used, 0.0)], map["a" := 0], map[])
    case 4 => State([Visitor(used, 0.0)], map["a" := 0], map[1 := Held("a", 0, None)])
    case 5 => State([Visitor(used, 0.0)], map[], map[1 := Held("a", 0, None)])
    case 6 => State([Visitor(used, now)], map[], map[1 := Held("a", 0, Some(now))])
    case _ => State([Visitor(Charged(l, used, now), now)], map[], map[])
  }

  lemma AfterPause(l: Limits, now: real)
    requires l.burst >= 1 && l.rate >= 1 && now > IDLE_LIMIT
    ensures Grants(l, Charged(l, Full(l, 0.0), 0.0), now)
  {
    assert now * l.rate as real >= now * 1.0;
  }
}
