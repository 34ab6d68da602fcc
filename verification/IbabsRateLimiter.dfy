/** Pacing and circuit breaking of iBabs requests within a process (src/ibabs/rate_limit.ts), over
    reals. A call of acquire waits twice, and anything may happen while it waits; calls are served
    one at a time. */
module IbabsRateLimiter {
  import opened Basics

  const BUDGET_HEADROOM: real := 0.8

  /** Intervals and cooldowns in milliseconds. */
  datatype Config = Config(minInterval: real, cooldown: real, maxCooldown: real)

  function CooldownFor(c: Config, consecutive: nat): real {
    if consecutive == 0 then 0.0 else Lesser(c.cooldown * PowerOfTwo(consecutive - 1) as real, c.maxCooldown)
  }

  /** Requests per second of one worker's share of a budget per minute. */
  function PacePerSecond(perMinute: real, workers: nat): real
    requires workers > 0
  {
    perMinute * BUDGET_HEADROOM / workers as real / 60.0
  }

  function MinIntervalMs(perSecond: real): real { if perSecond > 0.0 then 1000.0 / perSecond else 0.0 }

  // ----- the state and its steps -----

  /** Where the acquire being served stands: it reads the shared breaker, sleeps until the breaker it
      saw ends, then sleeps until the slot it saw. */
  datatype Stage = Idle | Refreshing | Blocked(until: real) | Pacing(until: real)

  /** `grants` lists when requests were let through. */
  datatype Pacer = Pacer(nextSlotAt: real, blockedUntil: real, throttles: nat, queued: nat, stage: Stage, now: real,
                         grants: seq<real>)

  function Init(now: real): Pacer { Pacer(0.0, 0.0, 0, 0, Idle, now, []) }

  datatype Action =
    | Tick(ms: real)
    | Acquire
    | Start
    | Refreshed(shared: Option<real>)
    | Wake
    | Throttle
    | Success

  predicate Enabled(p: Pacer, a: Action) {
    match a
    case Tick(ms) => ms >= 0.0
    case Start => p.stage.Idle? && p.queued > 0
    case Refreshed(_) => p.stage.Refreshing?
    case Wake => (p.stage.Blocked? || p.stage.Pacing?) && p.now >= p.stage.until
    case _ => true
  }

  function Grant(c: Config, p: Pacer): Pacer {
    p.(nextSlotAt := Greater(p.now, p.nextSlotAt) + c.minInterval, stage := Idle, grants := p.grants + [p.now])
  }

  function CheckSlot(c: Config, p: Pacer): Pacer {
    if p.nextSlotAt - p.now > 0.0 then p.(stage := Pacing(p.now + (p.nextSlotAt - p.now))) else Grant(c, p)
  }

  function CheckBreaker(c: Config, p: Pacer): Pacer {
    if p.blockedUntil - p.now > 0.0 then p.(stage := Blocked(p.now + (p.blockedUntil - p.now))) else CheckSlot(c, p)
  }

  function Share(p: Pacer, shared: Option<real>): Pacer {
    if shared.Some? then p.(blockedUntil := Greater(p.blockedUntil, shared.value)) else p
  }

  function Open(c: Config, p: Pacer): Pacer {
    p.(throttles := p.throttles + 1, blockedUntil := Greater(p.blockedUntil, p.now + CooldownFor(c, p.throttles + 1)))
  }

  function Step(c: Config, p: Pacer, a: Action): Pacer
    requires Enabled(p, a)
  {
    match a
    case Tick(ms) => p.(now := p.now + ms)
    case Acquire => p.(queued := p.queued + 1)
    case Start => p.(queued := p.queued - 1, stage := Refreshing)
    case Refreshed(shared) => CheckBreaker(c, Share(p, shared))
    case Wake => if p.stage.Blocked? then CheckSlot(c, p) else Grant(c, p)
    case Throttle => Open(c, p)
    case Success => p.(throttles := 0)
  }

  /** Run a schedule; an action that is not enabled does nothing. */
  function Exec(c: Config, p: Pacer, actions: seq<Action>): Pacer
    decreases |actions|
  {
    if actions == [] then p
    else Exec(c, if Enabled(p, actions[0]) then Step(c, p, actions[0]) else p, actions[1..])
  }

  // ----- grants keep their distance -----

  ghost predicate Spaced(times: seq<real>, d: real) {
    forall i | 0 < i < |times| :: times[i] - times[i - 1] >= d
  }

  ghost predicate Paced(c: Config, p: Pacer) {
    && Spaced(p.grants, c.minInterval)
    && (p.grants != [] ==> p.nextSlotAt >= p.grants[|p.grants| - 1] + c.minInterval)
    && (p.stage.Pacing? ==> p.stage.until >= p.nextSlotAt)
  }

  lemma GrantKeepsPaced(c: Config, p: Pacer)
    requires c.minInterval >= 0.0 && Paced(c, p) && p.now >= p.nextSlotAt
    ensures Paced(c, Grant(c, p))
  {
  }

  lemma StepKeepsPaced(c: Config, p: Pacer, a: Action)
    requires c.minInterval >= 0.0 && Paced(c, p) && Enabled(p, a)
    ensures Paced(c, Step(c, p, a))
  {
    match a
    case Refreshed(shared) =>
      var q := Share(p, shared);
      if q.blockedUntil - q.now <= 0.0 && q.nextSlotAt - q.now <= 0.0 { GrantKeepsPaced(c, q); }
    case Wake =>
      if p.nextSlotAt - p.now <= 0.0 { GrantKeepsPaced(c, p); }
    case _ =>
  }

  lemma {:induction false} ExecKeepsPaced(c: Config, p: Pacer, actions: seq<Action>)
    requires c.minInterval >= 0.0 && Paced(c, p)
    ensures Paced(c, Exec(c, p, actions))
    decreases |actions|
  {
    if actions != [] {
      if Enabled(p, actions[0]) { StepKeepsPaced(c, p, actions[0]); }
      ExecKeepsPaced(c, if Enabled(p, actions[0]) then Step(c, p, actions[0]) else p, actions[1..]);
    }
  }

  /** However acquires, throttles and sleeps interleave, requests are at least the interval apart. */
  lemma GrantsAreSpaced(c: Config, now: real, actions: seq<Action>)
    requires c.minInterval >= 0.0
    ensures Spaced(Exec(c, Init(now), actions).grants, c.minInterval)
  {
    ExecKeepsPaced(c, Init(now), actions);
  }

  // ----- the breaker -----

  /** Neither the breaker nor the list of grants goes back. */
  ghost predicate Onward(p: Pacer, q: Pacer) {
    p.blockedUntil <= q.blockedUntil && p.now <= q.now && p.grants <= q.grants
  }

  lemma {:induction false} BreakerNeverRetreats(c: Config, p: Pacer, actions: seq<Action>)
    ensures Onward(p, Exec(c, p, actions))
    decreases |actions|
  {
    if actions != [] {
      BreakerNeverRetreats(c, if Enabled(p, actions[0]) then Step(c, p, actions[0]) else p, actions[1..]);
    }
  }

  predicate PastTheCheck(p: Pacer) { p.stage.Blocked? || p.stage.Pacing? }

  /** From grant number `first` on, nothing is let through before `until`. */
  ghost predicate HeldBack(p: Pacer, first: nat, until: real) {
    && p.blockedUntil >= until
    && (forall k | first <= k < |p.grants| :: p.grants[k] >= until)
    && (if |p.grants| >= first
        then (p.stage.Blocked? ==> p.stage.until >= until) && (p.stage.Pacing? ==> p.now >= until)
        else |p.grants| + 1 == first && PastTheCheck(p))
  }

  lemma StepKeepsHeldBack(c: Config, p: Pacer, a: Action, first: nat, until: real)
    requires HeldBack(p, first, until) && Enabled(p, a)
    ensures HeldBack(Step(c, p, a), first, until)
  {
  }

  lemma {:induction false} ExecKeepsHeldBack(c: Config, p: Pacer, actions: seq<Action>, first: nat, until: real)
    requires HeldBack(p, first, until)
    ensures HeldBack(Exec(c, p, actions), first, until)
    decreases |actions|
  {
    if actions != [] {
      if Enabled(p, actions[0]) { StepKeepsHeldBack(c, p, actions[0], first, until); }
      ExecKeepsHeldBack(c, if Enabled(p, actions[0]) then Step(c, p, actions[0]) else p, actions[1..], first, until);
    }
  }

  /** After a throttle, at most one request is let through before the breaker it set ends: the one
      whose acquire had already looked at the breaker, if there is such a one. The breaker holds for
      at least the cooldown. */
  lemma ThrottleHoldsBack(c: Config, p: Pacer, actions: seq<Action>)
    ensures var tripped := Step(c, p, Throttle); var until := tripped.blockedUntil;
      var after := Exec(c, tripped, actions);
      && until >= p.now + CooldownFor(c, p.throttles + 1)
      && p.grants <= after.grants
      && forall k | |p.grants| + (if PastTheCheck(p) then 1 else 0) <= k < |after.grants| :: after.grants[k] >= until
  {
    var tripped := Step(c, p, Throttle);
    var first := |p.grants| + if PastTheCheck(p) then 1 else 0;
    assert HeldBack(tripped, first, tripped.blockedUntil);
    ExecKeepsHeldBack(c, tripped, actions, first, tripped.blockedUntil);
    BreakerNeverRetreats(c, tripped, actions);
  }

  /** `x` doubled `n` times. */
  function Doubled(x: real, n: nat): (y: real)
    ensures x >= 0.0 ==> y >= x
  {
    if n == 0 then x else 2.0 * Doubled(x, n - 1)
  }

  lemma {:induction false} DoubledIs(x: real, n: nat)
    ensures Doubled(x, n) == x * PowerOfTwo(n) as real
  {
    if n > 0 {
      DoubledIs(x, n - 1);
      assert PowerOfTwo(n) as real == 2.0 * PowerOfTwo(n - 1) as real;
    }
  }

  /** Capping early or late makes no difference. */
  lemma {:induction false} DoubledCapped(x: real, cap: real, n: nat, k: nat)
    requires x >= 0.0 && cap >= 0.0
    ensures Lesser(Doubled(Lesser(Doubled(x, n), cap), k), cap) == Lesser(Doubled(x, n + k), cap)
  {
    if k > 0 { DoubledCapped(x, cap, n, k - 1); }
  }

  /** Each further throttle in a row doubles the cooldown, up to the cap. */
  lemma CooldownDoubles(c: Config, n: nat, m: nat)
    requires 0 < n <= m && c.cooldown >= 0.0 && c.maxCooldown >= 0.0
    ensures CooldownFor(c, m) == Lesser(Doubled(CooldownFor(c, n), m - n), c.maxCooldown)
    ensures CooldownFor(c, n) <= CooldownFor(c, m) <= c.maxCooldown
  {
    CooldownIs(c, n);
    CooldownIs(c, m);
    CappedDoubles(c.cooldown, c.maxCooldown, n - 1, m - n, CooldownFor(c, n), CooldownFor(c, m));
  }

  lemma CooldownIs(c: Config, n: nat)
    requires n > 0
    ensures CooldownFor(c, n) == Lesser(Doubled(c.cooldown, n - 1), c.maxCooldown)
  {
    DoubledIs(c.cooldown, n - 1);
  }

  lemma CappedDoubles(x: real, cap: real, n: nat, k: nat, a: real, b: real)
    requires x >= 0.0 && cap >= 0.0 && a == Lesser(Doubled(x, n), cap) && b == Lesser(Doubled(x, n + k), cap)
    ensures b == Lesser(Doubled(a, k), cap) && a <= b <= cap
  {
    DoubledCapped(x, cap, n, k);
    assert Doubled(a, k) >= a;
  }

  /** Throttles since the last success. */
  function InARow(actions: seq<Action>): nat {
    if actions == [] then 0
    else
      match actions[|actions| - 1]
      case Throttle => InARow(actions[..|actions| - 1]) + 1
      case Success => 0
      case _ => InARow(actions[..|actions| - 1])
  }

  lemma {:induction false} ExecLast(c: Config, p: Pacer, actions: seq<Action>)
    requires actions != []
    ensures var before, a := Exec(c, p, actions[..|actions| - 1]), actions[|actions| - 1];
      Exec(c, p, actions) == if Enabled(before, a) then Step(c, before, a) else before
    decreases |actions|
  {
    if |actions| > 1 {
      var next := if Enabled(p, actions[0]) then Step(c, p, actions[0]) else p;
      ExecLast(c, next, actions[1..]);
      assert actions[1..][..|actions| - 2] == actions[..|actions| - 1][1..];
    }
  }

  lemma {:induction false} ThrottlesAre(c: Config, now: real, actions: seq<Action>)
    ensures Exec(c, Init(now), actions).throttles == InARow(actions)
    decreases |actions|
  {
    if actions != [] {
      ExecLast(c, Init(now), actions);
      ThrottlesAre(c, now, actions[..|actions| - 1]);
    }
  }

  /** A throttle opens the breaker for the base cooldown, doubled for each throttle before it since the
      last success, up to the cap; the breaker does not close earlier than it would have. */
  lemma BreakerIs(c: Config, now: real, actions: seq<Action>)
    ensures var p := Exec(c, Init(now), actions);
      Step(c, p, Throttle).blockedUntil
        == Greater(p.blockedUntil, p.now + Lesser(Doubled(c.cooldown, InARow(actions)), c.maxCooldown))
  {
    ThrottlesAre(c, now, actions);
    CooldownIs(c, InARow(actions) + 1);
  }

  // ----- an acquire is let through as soon as it may be -----

  /** Serve the next acquire, each sleep lasting as long as asked for and nothing else happening. */
  function Serving(p: Pacer, shared: Option<real>, blocked: real): seq<Action> {
    var free := Greater(p.now, blocked);
    [Start, Refreshed(shared), Tick(free - p.now), Wake, Tick(Greater(free, p.nextSlotAt) - free), Wake]
  }

  function LaterOf(a: real, b: Option<real>): real { if b.Some? && b.value > a then b.value else a }

  /** It is let through at the latest of now, the end of the breaker, shared or own, and the slot; the
      next slot is an interval later. */
  lemma LetThroughWhenDue(c: Config, p: Pacer, shared: Option<real>)
    requires p.stage.Idle? && p.queued > 0
    ensures var blocked := LaterOf(p.blockedUntil, shared); var q := Exec(c, p, Serving(p, shared, blocked));
      var due := Greater(Greater(p.now, blocked), p.nextSlotAt);
      && q.grants == p.grants + [due] && q.nextSlotAt == due + c.minInterval
      && q.stage.Idle? && q.queued == p.queued - 1 && q.now == due && q.blockedUntil == blocked
  {
    var blocked := LaterOf(p.blockedUntil, shared);
    var free := Greater(p.now, blocked);
    var q := p.(queued := p.queued - 1, stage := Refreshing, blockedUntil := blocked);
    var last := [Tick(Greater(free, p.nextSlotAt) - free), Wake];
    LooksUp(c, p, shared, [Tick(free - p.now), Wake] + last);
    assert Serving(p, shared, blocked) == [Start, Refreshed(shared)] + ([Tick(free - p.now), Wake] + last);
    BreakerWait(c, q, last);
    SlotWait(c, q.(now := free));
  }

  /** The one request a throttle does not hold back there can be: an acquire looks at the breaker once,
      so one that sleeps until the breaker it saw ends is let through then, whatever opened meanwhile. */
  lemma OneGetsThrough(c: Config, p: Pacer)
    requires p.stage.Idle? && p.queued > 0 && p.blockedUntil > p.now && p.nextSlotAt <= p.blockedUntil
    requires CooldownFor(c, p.throttles + 1) > p.blockedUntil - p.now
    ensures var looked := Exec(c, p, [Start, Refreshed(None)]);
      var after := Exec(c, Step(c, looked, Throttle), [Tick(p.blockedUntil - p.now), Wake]);
      after.grants == p.grants + [p.blockedUntil] && after.blockedUntil > after.now == p.blockedUntil
  {
    ExecTwo(c, p, Start, Refreshed(None), []);
    assert [Start, Refreshed(None)] + [] == [Start, Refreshed(None)];
    var looked := CheckBreaker(c, p.(queued := p.queued - 1, stage := Refreshing));
    var tripped, tick := Step(c, looked, Throttle), Tick(p.blockedUntil - p.now);
    ExecTwo(c, tripped, tick, Wake, []);
    assert [tick, Wake] + [] == [tick, Wake];
  }

  /** The shared breaker is read and the later one of both counts. */
  lemma LooksUp(c: Config, p: Pacer, shared: Option<real>, rest: seq<Action>)
    requires p.stage.Idle? && p.queued > 0
    ensures var q := p.(queued := p.queued - 1, stage := Refreshing, blockedUntil := LaterOf(p.blockedUntil, shared));
      Exec(c, p, [Start, Refreshed(shared)] + rest) == Exec(c, CheckBreaker(c, q), rest)
  {
    ExecTwo(c, p, Start, Refreshed(shared), rest);
  }

  lemma BreakerWait(c: Config, q: Pacer, rest: seq<Action>)
    requires q.stage.Refreshing?
    ensures var free := Greater(q.now, q.blockedUntil);
      Exec(c, CheckBreaker(c, q), [Tick(free - q.now), Wake] + rest) == Exec(c, CheckSlot(c, q.(now := free)), rest)
  {
    ExecTwo(c, CheckBreaker(c, q), Tick(Greater(q.now, q.blockedUntil) - q.now), Wake, rest);
  }

  lemma SlotWait(c: Config, q: Pacer)
    requires q.stage.Refreshing?
    ensures var due := Greater(q.now, q.nextSlotAt);
      Exec(c, CheckSlot(c, q), [Tick(due - q.now), Wake]) == Grant(c, q.(now := due))
  {
    var due := Greater(q.now, q.nextSlotAt);
    ExecTwo(c, CheckSlot(c, q), Tick(due - q.now), Wake, []);
    assert [Tick(due - q.now), Wake] + [] == [Tick(due - q.now), Wake];
  }

  lemma ExecTwo(c: Config, p: Pacer, a: Action, b: Action, rest: seq<Action>)
    ensures var q := if Enabled(p, a) then Step(c, p, a) else p;
      Exec(c, p, [a, b] + rest) == Exec(c, if Enabled(q, b) then Step(c, q, b) else q, rest)
  {
    assert ([a, b] + rest)[1..] == [b] + rest && ([b] + rest)[1..] == rest;
  }

  // ----- a budget per minute -----

  /** How many of the times lie in [from, to]. */
  function CountIn(times: seq<real>, from: real, to: real): nat {
    if times == [] then 0
    else CountIn(times[..|times| - 1], from, to) + if from <= times[|times| - 1] <= to then 1 else 0
  }

  lemma {:induction false} Ascends(times: seq<real>, d: real, i: nat, j: nat)
    requires Spaced(times, d) && d >= 0.0 && i <= j < |times|
    ensures times[i] <= times[j]
    decreases j
  {
    if i < j { Ascends(times, d, i, j - 1); }
  }

  /** n times d, as a sum. */
  function Times(n: nat, d: real): real { if n == 0 then 0.0 else Times(n - 1, d) + d }

  lemma {:induction false} TimesIs(n: nat, d: real)
    ensures Times(n, d) == n as real * d
  {
    if n > 0 { TimesIs(n - 1, d); }
  }

  lemma {:induction false} CountSpans(times: seq<real>, d: real, from: real, to: real) returns (first: nat, last: nat)
    requires Spaced(times, d) && d >= 0.0 && CountIn(times, from, to) > 0
    ensures first <= last < |times| && from <= times[first] && times[last] <= to
    ensures times[last] - times[first] >= Times(CountIn(times, from, to) - 1, d)
  {
    var n := |times| - 1;
    var p := times[..n];
    assert Spaced(p, d) by { assert forall i | 0 <= i < n :: p[i] == times[i]; }
    if CountIn(p, from, to) == 0 {
      first, last := n, n;
    } else {
      first, last := CountSpans(p, d, from, to);
      if from <= times[n] <= to {
        Ascends(times, d, last, n - 1);
        last := n;
      }
    }
  }

  lemma Cancel(a: real, b: real, d: real)
    requires d > 0.0 && a * d <= b * d
    ensures a <= b
  {
    assert a > b ==> (a - b) * d > 0.0;
  }

  lemma CountBound(k: nat, d: real, length: real)
    requires d > 0.0 && length >= 0.0 && (k > 0 ==> Times(k - 1, d) <= length)
    ensures k as real <= length / d + 1.0
  {
    var q := length / d;
    assert q * d == length;
    if k > 0 {
      TimesIs(k - 1, d);
      Cancel((k - 1) as real, q, d);
    } else {
      Cancel(0.0, q, d);
    }
  }

  /** Times at least `d` apart: a closed interval holds at most its length over `d`, plus one. */
  lemma SpacedCount(times: seq<real>, d: real, from: real, to: real)
    requires Spaced(times, d) && d > 0.0 && from <= to
    ensures CountIn(times, from, to) as real <= (to - from) / d + 1.0
  {
    if CountIn(times, from, to) > 0 { var first, last := CountSpans(times, d, from, to); }
    CountBound(CountIn(times, from, to), d, to - from);
  }

  function TotalIn(fleet: seq<seq<real>>, from: real, to: real): nat {
    if fleet == [] then 0 else TotalIn(fleet[..|fleet| - 1], from, to) + CountIn(fleet[|fleet| - 1], from, to)
  }

  lemma {:induction false} FleetCount(fleet: seq<seq<real>>, from: real, to: real, each: real)
    requires forall w | 0 <= w < |fleet| :: CountIn(fleet[w], from, to) as real <= each
    ensures TotalIn(fleet, from, to) as real <= Times(|fleet|, each)
  {
    if fleet != [] { FleetCount(fleet[..|fleet| - 1], from, to, each); }
  }

  /** The interval is as short as the budget allows: at that pace the workers together make exactly
      four fifths of it in a minute. */
  lemma PaceIsExact(perMinute: real, workers: nat)
    requires perMinute > 0.0 && workers > 0
    ensures MinIntervalMs(PacePerSecond(perMinute, workers)) * (0.8 * perMinute) == 60_000.0 * workers as real
  {
    var w, share := workers as real, perMinute * 0.8;
    var x := share / w;
    assert x * w == share && x > 0.0;
    var d := 1000.0 / (x / 60.0);
    assert d * (x / 60.0) == 1000.0;
    assert d * x == 60_000.0;
    assert d * share == d * x * w;
  }

  /** One worker process: its own limiter, started at some time, and its schedule. */
  datatype Worker = Worker(config: Config, start: real, actions: seq<Action>)

  function GrantsOf(w: Worker): seq<real> { Exec(w.config, Init(w.start), w.actions).grants }

  function GrantsOfAll(fleet: seq<Worker>): (g: seq<seq<real>>)
    ensures |g| == |fleet|
  {
    seq(|fleet|, w requires 0 <= w < |fleet| => GrantsOf(fleet[w]))
  }

  /** Workers sharing a budget per minute, each paced to its share of four fifths of it, stay within
      those plus one request each in any minute, whatever their schedules. */
  lemma FleetStaysInBudget(fleet: seq<Worker>, perMinute: real, from: real)
    requires fleet != [] && perMinute > 0.0
    requires forall w | w in fleet :: w.config.minInterval == MinIntervalMs(PacePerSecond(perMinute, |fleet|))
    ensures TotalIn(GrantsOfAll(fleet), from, from + 60_000.0) as real <= 0.8 * perMinute + |fleet| as real
  {
    var d, each := IntervalIs(perMinute, |fleet|);
    forall w | 0 <= w < |fleet| ensures Spaced(GrantsOfAll(fleet)[w], d) {
      assert fleet[w] in fleet;
      GrantsAreSpaced(fleet[w].config, fleet[w].start, fleet[w].actions);
    }
    FleetTotal(GrantsOfAll(fleet), d, from, each);
    TimesIs(|fleet|, each);
  }

  lemma FleetTotal(fleet: seq<seq<real>>, d: real, from: real, each: real)
    requires d > 0.0 && each == 60_000.0 / d + 1.0 && forall w | 0 <= w < |fleet| :: Spaced(fleet[w], d)
    ensures TotalIn(fleet, from, from + 60_000.0) as real <= Times(|fleet|, each)
  {
    forall w | 0 <= w < |fleet| ensures CountIn(fleet[w], from, from + 60_000.0) as real <= each {
      SpacedCount(fleet[w], d, from, from + 60_000.0);
    }
    FleetCount(fleet, from, from + 60_000.0, each);
  }

  lemma IntervalIs(perMinute: real, workers: nat) returns (d: real, each: real)
    requires perMinute > 0.0 && workers > 0
    ensures d == MinIntervalMs(PacePerSecond(perMinute, workers)) && d > 0.0 && each == 60_000.0 / d + 1.0
    ensures workers as real * each == BUDGET_HEADROOM * perMinute + workers as real
  {
    var w, share := workers as real, perMinute * BUDGET_HEADROOM;
    var x := share / w;
    assert x * w == share;
    assert x > 0.0;
    var pace := x / 60.0;
    d := 1000.0 / pace;
    assert d * pace == 1000.0;
    assert d > 0.0;
    var q := 60_000.0 / d;
    assert q * d == 60_000.0;
    assert q * d == x * d;
    SameFactor(q, x, d);
    each := q + 1.0;
    assert w * (x + 1.0) == w * x + w;
  }

  lemma SameFactor(a: real, b: real, d: real)
    requires d > 0.0 && a * d == b * d
    ensures a == b
  {
    Cancel(a, b, d);
    Cancel(b, a, d);
  }

  // ----- the limiter's own fields -----

  /** The stretches of code between two waits. The clock and the queue of callers are the process's. */
  class Limiter {
    const config: Config
    var nextSlotAt: real
    var blockedUntil: real
    var consecutiveThrottles: nat

    function View(queued: nat, stage: Stage, now: real, grants: seq<real>): Pacer
      reads this
    {
      Pacer(nextSlotAt, blockedUntil, consecutiveThrottles, queued, stage, now, grants)
    }

    constructor (config: Config)
      ensures forall now :: View(0, Idle, now, []) == Init(now)
      ensures this.config == config
    {
      this.config := config;
      nextSlotAt, blockedUntil, consecutiveThrottles := 0.0, 0.0, 0;
    }

    /** reserve, from the shared breaker being read to the first wait or the grant. */
    method AfterRefresh(shared: Option<real>, now: real, ghost p: Pacer) returns (stage: Stage)
      requires p.stage.Refreshing? && p.now == now && p == View(p.queued, p.stage, now, p.grants)
      modifies this
      ensures var q := Step(config, p, Refreshed(shared)); stage == q.stage && View(p.queued, stage, now, q.grants) == q
    {
      if shared.Some? {
        blockedUntil := Greater(blockedUntil, shared.value);
      }
      var blockedFor := blockedUntil - now;
      if blockedFor > 0.0 {
        return Blocked(now + blockedFor);
      }
      stage := ForSlot(now);
    }

    /** reserve, from the end of the breaker wait. */
    method ForSlot(now: real) returns (stage: Stage)
      modifies this`nextSlotAt
      ensures var wait := old(nextSlotAt) - now;
        if wait > 0.0 then stage == Pacing(now + wait) && nextSlotAt == old(nextSlotAt)
        else stage == Idle && nextSlotAt == Greater(now, old(nextSlotAt)) + config.minInterval
    {
      var waitForSlot := nextSlotAt - now;
      if waitForSlot > 0.0 {
        return Pacing(now + waitForSlot);
      }
      TakeSlot(now);
      return Idle;
    }

    /** reserve, from the end of the slot wait. */
    method TakeSlot(now: real)
      modifies this`nextSlotAt
      ensures nextSlotAt == Greater(now, old(nextSlotAt)) + config.minInterval
    {
      nextSlotAt := Greater(now, nextSlotAt) + config.minInterval;
    }

    method AfterWait(waited: Stage, now: real, ghost p: Pacer) returns (stage: Stage)
      requires Enabled(p, Wake) && p.stage == waited && p.now == now && p == View(p.queued, p.stage, now, p.grants)
      modifies this`nextSlotAt
      ensures var q := Step(config, p, Wake); q.stage == stage && View(p.queued, q.stage, now, q.grants) == q
    {
      if waited.Blocked? {
        stage := ForSlot(now);
      } else {
        TakeSlot(now);
        stage := Idle;
      }
    }

    method RecordThrottle(now: real, ghost p: Pacer)
      requires p.now == now && p == View(p.queued, p.stage, now, p.grants)
      modifies this`consecutiveThrottles, this`blockedUntil
      ensures View(p.queued, p.stage, now, p.grants) == Step(config, p, Throttle)
    {
      consecutiveThrottles := consecutiveThrottles + 1;
      var cooldown := CooldownFor(config, consecutiveThrottles);
      blockedUntil := Greater(blockedUntil, now + cooldown);
    }

    method RecordSuccess(ghost p: Pacer)
      requires p == View(p.queued, p.stage, p.now, p.grants)
      modifies this`consecutiveThrottles
      ensures View(p.queued, p.stage, p.now, p.grants) == Step(config, p, Success)
    {
      consecutiveThrottles := 0;
    }
  }
}
