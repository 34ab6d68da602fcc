/** The token bucket of the public API (web/rate_limit.ts), over reals and a clock that does not go
    back. `Never` is the limiter that keeps every bucket for ever. */
module RateLimiter {
  import opened Basics

  const SWEEP_EVERY_MS: real := 60_000.0
  const IDLE_MS: real := 120_000.0
  const LOG_EVERY_MS: real := 60_000.0

  datatype Bucket = Bucket(tokens: real, updatedAt: real, loggedAt: real)
  datatype Request = Request(key: string, cost: real, now: real)
  datatype Verdict = Verdict(allowed: bool, limit: real, remaining: int, resetSeconds: int, retryAfterSeconds: int,
                             shouldLog: bool)

  function Rate(capacity: real): real { capacity / 60_000.0 }

  // ----- one bucket -----

  function Refilled(capacity: real, b: Bucket, now: real): real {
    Lesser(capacity, b.tokens + (now - b.updatedAt) * Rate(capacity))
  }

  /** The bucket a request finds. */
  function Found(capacity: real, buckets: map<string, Bucket>, r: Request): Bucket {
    if r.key in buckets then buckets[r.key] else Bucket(capacity, r.now, 0.0)
  }

  predicate Allows(capacity: real, b: Bucket, r: Request) { Refilled(capacity, b, r.now) >= r.cost }

  predicate MayLog(b: Bucket, r: Request) { r.now - b.loggedAt >= LOG_EVERY_MS }

  /** The bucket a request leaves. */
  function Left(capacity: real, b: Bucket, r: Request): Bucket {
    Bucket(Charged(Refilled(capacity, b, r.now), r.cost), r.now,
           if !Allows(capacity, b, r) && MayLog(b, r) then r.now else b.loggedAt)
  }

  function Charged(have: real, cost: real): real { if have >= cost then have - cost else have }

  /** Whole seconds until `need` tokens have flowed in. */
  function SecondsFor(capacity: real, need: real): int
    requires capacity > 0.0
  {
    Ceiling(need / Rate(capacity) / 1000.0)
  }

  /** The verdict on a request that costs `cost` with `have` tokens there. */
  function Answer(capacity: real, have: real, cost: real, mayLog: bool): Verdict
    requires capacity > 0.0
  {
    var allowed, tokens := have >= cost, Charged(have, cost);
    var wait := SecondsFor(capacity, cost - tokens);
    Verdict(allowed, capacity, if tokens.Floor < 0 then 0 else tokens.Floor, SecondsFor(capacity, capacity - tokens),
            if allowed then 0 else if wait < 1 then 1 else wait, !allowed && mayLog)
  }

  function Judge(capacity: real, b: Bucket, r: Request): Verdict
    requires capacity > 0.0
  {
    Answer(capacity, Refilled(capacity, b, r.now), r.cost, MayLog(b, r))
  }

  // ----- the limiter that never evicts -----

  function Never(capacity: real, rs: seq<Request>): map<string, Bucket> {
    if rs == [] then map[]
    else
      var before, r := Never(capacity, rs[..|rs| - 1]), rs[|rs| - 1];
      before[r.key := Left(capacity, Found(capacity, before, r), r)]
  }

  /** What the n-th request finds there. */
  function FoundAt(capacity: real, rs: seq<Request>, n: nat): Bucket
    requires n < |rs|
  {
    Found(capacity, Never(capacity, rs[..n]), rs[n])
  }

  predicate Admitted(capacity: real, rs: seq<Request>, n: nat)
    requires n < |rs|
  {
    Allows(capacity, FoundAt(capacity, rs, n), rs[n])
  }

  /** Costs are not negative and the clock does not go back. */
  ghost predicate Proper(rs: seq<Request>) {
    && (forall i | 0 <= i < |rs| :: rs[i].cost >= 0.0 && rs[i].now >= 0.0)
    && (forall i, j | 0 <= i < j < |rs| :: rs[i].now <= rs[j].now)
  }

  ghost predicate SoundBucket(capacity: real, b: Bucket, clock: real) {
    0.0 <= b.tokens <= capacity && b.loggedAt <= b.updatedAt <= clock && 0.0 <= b.updatedAt
  }

  lemma RefillGrows(capacity: real, b: Bucket, s: real, t: real)
    requires capacity > 0.0 && s <= t
    ensures Refilled(capacity, b, s) <= Refilled(capacity, b, t) <= Refilled(capacity, b, s) + (t - s) * Rate(capacity)
  {
    var rate := Rate(capacity);
    assert rate > 0.0;
    assert (t - b.updatedAt) * rate == (s - b.updatedAt) * rate + (t - s) * rate;
    assert (t - s) * rate >= 0.0;
  }

  lemma LeftIsSound(capacity: real, b: Bucket, r: Request, clock: real)
    requires capacity > 0.0 && SoundBucket(capacity, b, clock) && clock <= r.now && r.cost >= 0.0
    ensures SoundBucket(capacity, Left(capacity, b, r), r.now)
    ensures Refilled(capacity, b, r.now) >= b.tokens
  {
    RefillGrows(capacity, b, b.updatedAt, r.now);
  }

  lemma FreshIsSound(capacity: real, r: Request)
    requires capacity > 0.0 && r.cost >= 0.0 && r.now >= 0.0
    ensures SoundBucket(capacity, Bucket(capacity, r.now, 0.0), r.now)
    ensures Refilled(capacity, Bucket(capacity, r.now, 0.0), r.now) == capacity
  {
  }

  /** Equal but for log times both too old to matter. */
  ghost predicate Alike(b: Bucket, kept: Bucket) {
    && b.tokens == kept.tokens && b.updatedAt == kept.updatedAt
    && (b.loggedAt == kept.loggedAt
        || (b.loggedAt + LOG_EVERY_MS <= b.updatedAt && kept.loggedAt + LOG_EVERY_MS <= b.updatedAt))
  }

  /** A bucket idle for two minutes is back at capacity and past its log interval, so a fresh one
      in its place judges the same and leaves the same. */
  lemma IdleIsFresh(capacity: real, b: Bucket, r: Request)
    requires capacity > 0.0 && SoundBucket(capacity, b, r.now) && b.updatedAt + IDLE_MS < r.now
    ensures Refilled(capacity, b, r.now) == capacity
    ensures Judge(capacity, b, r) == Judge(capacity, Bucket(capacity, r.now, 0.0), r)
    ensures Alike(Left(capacity, Bucket(capacity, r.now, 0.0), r), Left(capacity, b, r))
  {
    assert (r.now - b.updatedAt) * Rate(capacity) >= IDLE_MS * Rate(capacity) by {
      RefillGrows(capacity, b, b.updatedAt + IDLE_MS, r.now);
      assert Rate(capacity) > 0.0;
    }
    assert IDLE_MS * Rate(capacity) == 2.0 * capacity;
  }

  // ----- how much one key can spend -----

  /** The tokens of `key` at time `t`, after the first `n` requests. */
  function Level(capacity: real, rs: seq<Request>, n: nat, key: string, t: real): real
    requires n <= |rs|
  {
    var buckets := Never(capacity, rs[..n]);
    if key in buckets then Refilled(capacity, buckets[key], t) else capacity
  }

  lemma {:induction false} NeverIsSound(capacity: real, rs: seq<Request>, n: nat, t: real)
    requires capacity > 0.0 && Proper(rs) && n <= |rs| && forall i | 0 <= i < n :: rs[i].now <= t
    ensures forall k | k in Never(capacity, rs[..n]) :: SoundBucket(capacity, Never(capacity, rs[..n])[k], t)
    decreases n
  {
    if n > 0 {
      assert rs[..n][..n - 1] == rs[..n - 1];
      NeverIsSound(capacity, rs, n - 1, rs[n - 1].now);
      FreshIsSound(capacity, rs[n - 1]);
      LeftIsSound(capacity, FoundAt(capacity, rs, n - 1), rs[n - 1], rs[n - 1].now);
    }
  }

  lemma NeverStep(capacity: real, rs: seq<Request>, n: nat)
    requires n < |rs|
    ensures Never(capacity, rs[..n + 1])
        == Never(capacity, rs[..n])[rs[n].key := Left(capacity, FoundAt(capacity, rs, n), rs[n])]
  {
    assert rs[..n + 1][..n] == rs[..n];
  }

  function SpentAt(capacity: real, rs: seq<Request>, key: string, n: nat): real
    requires n < |rs|
  {
    if rs[n].key == key && Admitted(capacity, rs, n) then rs[n].cost else 0.0
  }

  /** Cost admitted for `key` among requests `i` up to `j`. */
  function Spent(capacity: real, rs: seq<Request>, key: string, i: nat, j: nat): real
    requires i <= j <= |rs|
    decreases j
  {
    if i == j then 0.0 else Spent(capacity, rs, key, i, j - 1) + SpentAt(capacity, rs, key, j - 1)
  }

  lemma LevelStep(capacity: real, rs: seq<Request>, n: nat, key: string)
    requires capacity > 0.0 && Proper(rs) && n < |rs|
    ensures Level(capacity, rs, n + 1, key, rs[n].now)
        == Level(capacity, rs, n, key, rs[n].now) - SpentAt(capacity, rs, key, n)
    ensures 0.0 <= Level(capacity, rs, n + 1, key, rs[n].now)
    ensures Level(capacity, rs, n, key, rs[n].now) <= capacity
  {
    NeverStep(capacity, rs, n);
    NeverIsSound(capacity, rs, n + 1, rs[n].now);
    var after := Never(capacity, rs[..n + 1]);
    if key in after { RefillGrows(capacity, after[key], after[key].updatedAt, rs[n].now); }
    if key == rs[n].key {
      var b := FoundAt(capacity, rs, n);
      FreshIsSound(capacity, rs[n]);
      assert Refilled(capacity, Left(capacity, b, rs[n]), rs[n].now) == Left(capacity, b, rs[n]).tokens;
      assert Refilled(capacity, b, rs[n].now) == Level(capacity, rs, n, key, rs[n].now);
    }
  }

  lemma LevelGrows(capacity: real, rs: seq<Request>, n: nat, key: string, s: real, t: real)
    requires capacity > 0.0 && n <= |rs| && s <= t
    ensures Level(capacity, rs, n, key, t) <= Level(capacity, rs, n, key, s) + Gain(capacity, s, t)
  {
    var buckets := Never(capacity, rs[..n]);
    if key in buckets { RefillGrows(capacity, buckets[key], s, t); }
    assert Gain(capacity, s, t) >= 0.0;
  }

  function Total(xs: seq<real>, i: nat, j: nat): real
    requires i <= j <= |xs|
    decreases j
  {
    if i == j then 0.0 else Total(xs, i, j - 1) + xs[j - 1]
  }

  function Gain(capacity: real, s: real, t: real): real { (t - s) * Rate(capacity) }

  lemma GainAdds(capacity: real, s: real, t: real, u: real)
    ensures Gain(capacity, s, t) + Gain(capacity, t, u) == Gain(capacity, s, u) && Gain(capacity, s, s) == 0.0
  {
  }

  /** The levels of one key just before and just after each of the first `m` requests, what each
      paid, and what flowed in before it. */
  function Befores(capacity: real, rs: seq<Request>, key: string, m: nat): seq<real>
    requires m <= |rs|
  {
    if m == 0 then [] else Befores(capacity, rs, key, m - 1) + [Level(capacity, rs, m - 1, key, rs[m - 1].now)]
  }

  function Afters(capacity: real, rs: seq<Request>, key: string, m: nat): seq<real>
    requires m <= |rs|
  {
    if m == 0 then [] else Afters(capacity, rs, key, m - 1) + [Level(capacity, rs, m, key, rs[m - 1].now)]
  }

  function Payments(capacity: real, rs: seq<Request>, key: string, m: nat): seq<real>
    requires m <= |rs|
  {
    if m == 0 then [] else Payments(capacity, rs, key, m - 1) + [SpentAt(capacity, rs, key, m - 1)]
  }

  function Flows(capacity: real, rs: seq<Request>, m: nat): seq<real>
    requires m <= |rs|
  {
    if m == 0 then []
    else Flows(capacity, rs, m - 1) + [if m == 1 then 0.0 else Gain(capacity, rs[m - 2].now, rs[m - 1].now)]
  }

  ghost predicate Books(capacity: real, before: seq<real>, after: seq<real>, paid: seq<real>, flow: seq<real>) {
    && |before| == |after| == |paid| == |flow|
    && (forall n | 0 <= n < |before| :: after[n] == before[n] - paid[n] && 0.0 <= after[n] && before[n] <= capacity)
    && (forall n | 0 < n < |before| :: before[n] <= after[n - 1] + flow[n])
  }

  lemma BooksGrow(capacity: real, before: seq<real>, after: seq<real>, paid: seq<real>, flow: seq<real>, b: real,
                  a: real, p: real, f: real)
    requires Books(capacity, before, after, paid, flow) && a == b - p && 0.0 <= a && b <= capacity
    requires before != [] ==> b <= after[|after| - 1] + f
    ensures Books(capacity, before + [b], after + [a], paid + [p], flow + [f])
  {
  }

  lemma {:induction false} BooksAreKept(capacity: real, rs: seq<Request>, key: string, m: nat)
    requires capacity > 0.0 && Proper(rs) && m <= |rs|
    ensures |Befores(capacity, rs, key, m)| == m
    ensures Books(capacity, Befores(capacity, rs, key, m), Afters(capacity, rs, key, m),
                  Payments(capacity, rs, key, m), Flows(capacity, rs, m))
  {
    if m > 0 {
      BooksAreKept(capacity, rs, key, m - 1);
      LevelStep(capacity, rs, m - 1, key);
      if m > 1 { LevelGrows(capacity, rs, m - 1, key, rs[m - 2].now, rs[m - 1].now); }
      BooksGrow(capacity, Befores(capacity, rs, key, m - 1), Afters(capacity, rs, key, m - 1),
                Payments(capacity, rs, key, m - 1), Flows(capacity, rs, m - 1),
                Level(capacity, rs, m - 1, key, rs[m - 1].now), Level(capacity, rs, m, key, rs[m - 1].now),
                SpentAt(capacity, rs, key, m - 1),
                if m == 1 then 0.0 else Gain(capacity, rs[m - 2].now, rs[m - 1].now));
    }
  }

  /** What is paid comes out of what was there and what flowed in. */
  lemma {:induction false} Accounting(capacity: real, before: seq<real>, after: seq<real>, paid: seq<real>,
                                      flow: seq<real>, i: nat, j: nat)
    requires Books(capacity, before, after, paid, flow) && i < j <= |before|
    ensures Total(paid, i, j) + after[j - 1] <= before[i] + Total(flow, i + 1, j)
    ensures Total(paid, i, j) <= capacity + Total(flow, i + 1, j)
    decreases j
  {
    if i < j - 1 {
      Accounting(capacity, before, after, paid, flow, i, j - 1);
    } else {
      assert Total(paid, i, i) == 0.0;
    }
  }

  lemma {:induction false} PaymentsAre(capacity: real, rs: seq<Request>, key: string, m: nat)
    requires m <= |rs|
    ensures |Payments(capacity, rs, key, m)| == m
    ensures forall n | 0 <= n < m :: Payments(capacity, rs, key, m)[n] == SpentAt(capacity, rs, key, n)
  {
    if m > 0 { PaymentsAre(capacity, rs, key, m - 1); }
  }

  lemma {:induction false} FlowsAre(capacity: real, rs: seq<Request>, m: nat)
    requires m <= |rs|
    ensures |Flows(capacity, rs, m)| == m
    ensures forall n | 0 < n < m :: Flows(capacity, rs, m)[n] == Gain(capacity, rs[n - 1].now, rs[n].now)
  {
    if m > 0 { FlowsAre(capacity, rs, m - 1); }
  }

  lemma {:induction false} SumOfPayments(capacity: real, rs: seq<Request>, key: string, paid: seq<real>, i: nat, j: nat)
    requires i <= j <= |rs| == |paid| && forall n | 0 <= n < |rs| :: paid[n] == SpentAt(capacity, rs, key, n)
    ensures Total(paid, i, j) == Spent(capacity, rs, key, i, j)
    decreases j
  {
    if i < j { SumOfPayments(capacity, rs, key, paid, i, j - 1); }
  }

  lemma {:induction false} SumOfFlows(capacity: real, rs: seq<Request>, flow: seq<real>, i: nat, j: nat)
    requires i < j <= |rs| == |flow| && forall n | 0 < n < |rs| :: flow[n] == Gain(capacity, rs[n - 1].now, rs[n].now)
    ensures Total(flow, i + 1, j) == Gain(capacity, rs[i].now, rs[j - 1].now)
    decreases j
  {
    if i < j - 1 {
      SumOfFlows(capacity, rs, flow, i, j - 1);
      GainAdds(capacity, rs[i].now, rs[j - 2].now, rs[j - 1].now);
    } else {
      GainAdds(capacity, rs[i].now, rs[i].now, rs[i].now);
    }
  }

  lemma Totals(capacity: real, rs: seq<Request>, key: string, i: nat, j: nat) returns (paid: real, flow: real)
    requires capacity > 0.0 && Proper(rs) && i < j <= |rs|
    ensures paid == Spent(capacity, rs, key, i, j) && paid <= capacity + flow
    ensures flow == Gain(capacity, rs[i].now, rs[j - 1].now)
  {
    var payments, flows := Payments(capacity, rs, key, |rs|), Flows(capacity, rs, |rs|);
    BooksAreKept(capacity, rs, key, |rs|);
    Accounting(capacity, Befores(capacity, rs, key, |rs|), Afters(capacity, rs, key, |rs|), payments, flows, i, j);
    PaymentsAre(capacity, rs, key, |rs|);
    SumOfPayments(capacity, rs, key, payments, i, j);
    FlowsAre(capacity, rs, |rs|);
    SumOfFlows(capacity, rs, flows, i, j);
    paid, flow := Total(payments, i, j), Total(flows, i + 1, j);
  }

  /** In any interval one key is admitted at most the capacity plus a sixty-thousandth of it for every
      millisecond. */
  lemma AdmittedIsBounded(capacity: real, rs: seq<Request>, key: string, i: nat, j: nat)
    requires capacity > 0.0 && Proper(rs) && i < j <= |rs|
    ensures Spent(capacity, rs, key, i, j) <= capacity + capacity * (rs[j - 1].now - rs[i].now) / 60_000.0
  {
    var _, _ := SpentWithinGain(capacity, rs, key, i, j);
  }

  lemma SpentWithinGain(capacity: real, rs: seq<Request>, key: string, i: nat, j: nat)
    returns (spent: real, gain: real)
    requires capacity > 0.0 && Proper(rs) && i < j <= |rs|
    ensures spent == Spent(capacity, rs, key, i, j) && spent <= capacity + gain
    ensures gain == capacity * (rs[j - 1].now - rs[i].now) / 60_000.0
  {
    spent, gain := Totals(capacity, rs, key, i, j);
    gain := GainAs(capacity, rs[i].now, rs[j - 1].now, gain);
  }

  lemma GainAs(capacity: real, s: real, t: real, g: real) returns (gain: real)
    requires g == Gain(capacity, s, t)
    ensures gain == g && gain == capacity * (t - s) / 60_000.0
  {
    GainIs(capacity, s, t);
    gain := g;
  }

  lemma GainIs(capacity: real, s: real, t: real)
    ensures Gain(capacity, s, t) == capacity * (t - s) / 60_000.0
  {
    ShareOf(t - s, capacity);
  }

  lemma ShareOf(a: real, b: real)
    ensures a * (b / 60_000.0) == b * a / 60_000.0
  {
  }

  // ----- exactly which requests are admitted -----

  /** Time passing adds what flows in, up to the capacity. */
  lemma LevelLater(capacity: real, rs: seq<Request>, n: nat, key: string, s: real, t: real)
    requires capacity > 0.0 && n <= |rs| && s <= t
    ensures Level(capacity, rs, n, key, t) == Lesser(capacity, Level(capacity, rs, n, key, s) + Gain(capacity, s, t))
  {
    var buckets := Never(capacity, rs[..n]);
    LevelGrows(capacity, rs, n, key, s, t);
    if key in buckets {
      var b := buckets[key];
      assert (t - b.updatedAt) * Rate(capacity) == (s - b.updatedAt) * Rate(capacity) + Gain(capacity, s, t);
      GainPositive(capacity, s, t);
    } else {
      GainPositive(capacity, s, t);
    }
  }

  lemma GainPositive(capacity: real, s: real, t: real)
    requires capacity > 0.0 && s <= t
    ensures Gain(capacity, s, t) >= 0.0
  {
  }

  /** `x` more at time `t` keeps every stretch of time since one of the first `n` requests within its
      capacity and flow. */
  ghost predicate Fits(capacity: real, rs: seq<Request>, n: nat, key: string, t: real, x: real)
    requires n <= |rs|
  {
    && x <= capacity
    && forall i | 0 <= i < n :: Spent(capacity, rs, key, i, n) + x <= capacity + Gain(capacity, rs[i].now, t)
  }

  lemma {:induction false} LevelIff(capacity: real, rs: seq<Request>, n: nat, key: string, t: real, x: real)
    requires capacity > 0.0 && Proper(rs) && n <= |rs| && forall i | 0 <= i < n :: rs[i].now <= t
    ensures x <= Level(capacity, rs, n, key, t) <==> Fits(capacity, rs, n, key, t, x)
    decreases n
  {
    if n > 0 {
      var s := rs[n - 1].now;
      var paid := SpentAt(capacity, rs, key, n - 1);
      var y := x - Gain(capacity, s, t) + paid;
      LevelStep(capacity, rs, n - 1, key);
      LevelLater(capacity, rs, n, key, s, t);
      LevelIff(capacity, rs, n - 1, key, s, y);
      FitsOneMore(capacity, rs, n, key, t, x, y);
    }
  }

  lemma FitsOneMore(capacity: real, rs: seq<Request>, n: nat, key: string, t: real, x: real, y: real)
    requires 0 < n <= |rs| && y == x - Gain(capacity, rs[n - 1].now, t) + SpentAt(capacity, rs, key, n - 1)
    ensures Fits(capacity, rs, n, key, t, x) <==> x <= capacity && Fits(capacity, rs, n - 1, key, rs[n - 1].now, y)
  {
    var s := rs[n - 1].now;
    forall i | 0 <= i < n
      ensures Spent(capacity, rs, key, i, n) + x <= capacity + Gain(capacity, rs[i].now, t) <==>
                if i == n - 1 then y <= capacity
                else Spent(capacity, rs, key, i, n - 1) + y <= capacity + Gain(capacity, rs[i].now, s)
    {
      GainAdds(capacity, rs[i].now, s, t);
      assert Spent(capacity, rs, key, i, n) == Spent(capacity, rs, key, i, n - 1) + SpentAt(capacity, rs, key, n - 1);
    }
    assert Fits(capacity, rs, n, key, t, x) ==>
        Spent(capacity, rs, key, n - 1, n) + x <= capacity + Gain(capacity, rs[n - 1].now, t);
  }

  lemma AdmittedLevel(capacity: real, rs: seq<Request>, n: nat)
    requires capacity > 0.0 && Proper(rs) && n < |rs|
    ensures Admitted(capacity, rs, n) <==> rs[n].cost <= Level(capacity, rs, n, rs[n].key, rs[n].now)
  {
    FreshIsSound(capacity, rs[n]);
  }

  /** A request is admitted exactly when its cost is within the capacity and, for every earlier
      request, what its key was admitted since then and its own cost are together within the capacity
      and one sixty-thousandth of it per millisecond since. */
  ghost predicate WithinBudget(capacity: real, rs: seq<Request>, n: nat)
    requires n < |rs|
  {
    && rs[n].cost <= capacity
    && forall i | 0 <= i < n ::
         Spent(capacity, rs, rs[n].key, i, n) + rs[n].cost <= capacity + capacity * (rs[n].now - rs[i].now) / 60_000.0
  }

  lemma AdmittedIff(capacity: real, rs: seq<Request>, n: nat)
    requires capacity > 0.0 && Proper(rs) && n < |rs|
    ensures Admitted(capacity, rs, n) <==> WithinBudget(capacity, rs, n)
  {
    AdmittedLevel(capacity, rs, n);
    LevelIff(capacity, rs, n, rs[n].key, rs[n].now, rs[n].cost);
    forall i | 0 <= i < n
      ensures Gain(capacity, rs[i].now, rs[n].now) == capacity * (rs[n].now - rs[i].now) / 60_000.0
    {
      GainIs(capacity, rs[i].now, rs[n].now);
    }
  }

  /** A minute without use fills any bucket; half a minute from empty gives exactly half. */
  lemma MinuteFills(capacity: real, b: Bucket, now: real)
    requires capacity > 0.0 && 0.0 <= b.tokens <= capacity
    ensures now >= b.updatedAt + 60_000.0 ==> Refilled(capacity, b, now) == capacity
    ensures b.tokens == 0.0 && now == b.updatedAt + 30_000.0 ==> Refilled(capacity, b, now) == capacity / 2.0
  {
    var full := b.updatedAt + 60_000.0;
    RefillGrows(capacity, b, full, if now >= full then now else full);
    assert 60_000.0 * Rate(capacity) == capacity;
    assert 30_000.0 * Rate(capacity) == capacity / 2.0;
  }

  // ----- when a denial is logged -----

  predicate Logged(capacity: real, rs: seq<Request>, n: nat)
    requires n < |rs|
  {
    !Admitted(capacity, rs, n) && MayLog(FoundAt(capacity, rs, n), rs[n])
  }

  ghost predicate LogAt(capacity: real, rs: seq<Request>, key: string, i: int) {
    0 <= i < |rs| && rs[i].key == key && Logged(capacity, rs, i)
  }

  /** The time kept for a key is that of its last logged denial, or the epoch. */
  ghost predicate LastLog(capacity: real, rs: seq<Request>, n: nat, key: string, at: real) {
    || (at == 0.0 && forall i | 0 <= i < n :: !LogAt(capacity, rs, key, i))
    || exists i :: 0 <= i < n && LogAt(capacity, rs, key, i) && at == rs[i].now
                   && forall j | i < j < n :: !LogAt(capacity, rs, key, j)
  }

  lemma {:induction false} LoggedAtIs(capacity: real, rs: seq<Request>, n: nat, key: string)
    requires n <= |rs|
    ensures LastLog(capacity, rs, n, key, KeptLog(capacity, rs, n, key))
    decreases n
  {
    if n > 0 {
      LoggedAtIs(capacity, rs, n - 1, key);
      KeptLogStep(capacity, rs, n - 1, key);
      LastLogStep(capacity, rs, n - 1, key, KeptLog(capacity, rs, n - 1, key));
    }
  }

  /** The log time kept for a key after `n` requests. */
  function KeptLog(capacity: real, rs: seq<Request>, n: nat, key: string): real
    requires n <= |rs|
  {
    var kept := Never(capacity, rs[..n]);
    if key in kept then kept[key].loggedAt else 0.0
  }

  lemma KeptLogStep(capacity: real, rs: seq<Request>, n: nat, key: string)
    requires n < |rs|
    ensures KeptLog(capacity, rs, n + 1, key)
        == if rs[n].key == key && Logged(capacity, rs, n) then rs[n].now else KeptLog(capacity, rs, n, key)
  {
    NeverStep(capacity, rs, n);
  }

  lemma LastLogStep(capacity: real, rs: seq<Request>, n: nat, key: string, at: real)
    requires n < |rs| && LastLog(capacity, rs, n, key, at)
    ensures LastLog(capacity, rs, n + 1, key, if LogAt(capacity, rs, key, n) then rs[n].now else at)
  {
  }

  /** A denial is logged exactly when none of its key was in the last minute, so at most once in any
      minute; the first is, once the clock has shown a minute. */
  lemma LoggedIff(capacity: real, rs: seq<Request>, n: nat)
    requires capacity > 0.0 && Proper(rs) && n < |rs|
    ensures Judge(capacity, FoundAt(capacity, rs, n), rs[n]).shouldLog <==> Logged(capacity, rs, n)
    ensures Logged(capacity, rs, n) <==>
        && !Admitted(capacity, rs, n) && rs[n].now >= 60_000.0
        && forall i | i < n && LogAt(capacity, rs, rs[n].key, i) :: rs[n].now - rs[i].now >= 60_000.0
  {
    var key := rs[n].key;
    LoggedAtIs(capacity, rs, n, key);
  }

  // ----- what a denied client is told -----

  lemma {:induction false} Untouched(capacity: real, rs: seq<Request>, n: nat, m: nat)
    requires n < m <= |rs| && forall k | n < k < m :: rs[k].key != rs[n].key
    ensures rs[n].key in Never(capacity, rs[..m])
    ensures Never(capacity, rs[..m])[rs[n].key] == Left(capacity, FoundAt(capacity, rs, n), rs[n])
    decreases m
  {
    NeverStep(capacity, rs, m - 1);
    if n < m - 1 { Untouched(capacity, rs, n, m - 1); }
  }

  lemma WaitIsEnough(capacity: real, need: real, wait: real)
    requires capacity > 0.0
    ensures wait >= need / Rate(capacity) / 1000.0 <==> 1000.0 * wait * Rate(capacity) >= need
  {
    var rate := Rate(capacity);
    assert rate > 0.0;
    var x := need / rate / 1000.0;
    assert x * 1000.0 == need / rate;
    assert (need / rate) * rate == need;
    assert 1000.0 * wait * rate - need == 1000.0 * rate * (wait - x);
    if wait >= x { assert 1000.0 * rate * (wait - x) >= 0.0; } else { assert 1000.0 * rate * (x - wait) > 0.0; }
  }

  /** Enough tokens have flowed in after SecondsFor, and not a whole second before. */
  lemma SecondsAreRight(capacity: real, need: real, waited: real)
    requires capacity > 0.0
    ensures waited >= 1000.0 * SecondsFor(capacity, need) as real ==> waited * Rate(capacity) >= need
    ensures waited <= 1000.0 * (SecondsFor(capacity, need) - 1) as real ==> waited * Rate(capacity) < need
  {
    var seconds := SecondsFor(capacity, need);
    WaitIsEnough(capacity, need, waited / 1000.0);
    assert 1000.0 * (waited / 1000.0) == waited;
  }

  lemma AnswerIsRight(capacity: real, have: real, cost: real, mayLog: bool, waited: real)
    requires capacity > 0.0 && have < cost && waited >= 0.0
    ensures var retry := Answer(capacity, have, cost, mayLog).retryAfterSeconds;
      && retry >= 1
      && (waited >= 1000.0 * retry as real ==> have + waited * Rate(capacity) >= cost)
      && (waited <= 1000.0 * (retry - 1) as real ==> have + waited * Rate(capacity) < cost)
  {
    SecondsAreRight(capacity, cost - have, waited);
  }

  /** What the next request on the key finds. */
  lemma FoundLater(capacity: real, rs: seq<Request>, n: nat, m: nat)
    requires n < m < |rs| && (forall k | n < k < m :: rs[k].key != rs[n].key) && rs[m].key == rs[n].key
    ensures FoundAt(capacity, rs, m) == Left(capacity, FoundAt(capacity, rs, n), rs[n])
  {
    Untouched(capacity, rs, n, m);
  }

  /** A denied request that waits retryAfterSeconds, with no other use of its key, is admitted
      exactly when it could ever fit; a full second less is not enough. */
  lemma RetryAfterIsRight(capacity: real, rs: seq<Request>, n: nat, m: nat)
    requires capacity > 0.0 && Proper(rs) && n < m < |rs| && forall k | n < k < m :: rs[k].key != rs[n].key
    requires rs[m].key == rs[n].key && rs[m].cost == rs[n].cost && !Admitted(capacity, rs, n)
    ensures var retry := Judge(capacity, FoundAt(capacity, rs, n), rs[n]).retryAfterSeconds;
      && retry >= 1
      && (rs[m].now >= rs[n].now + 1000.0 * retry as real ==> (Admitted(capacity, rs, m) <==> rs[n].cost <= capacity))
      && (rs[m].now <= rs[n].now + 1000.0 * (retry - 1) as real ==> !Admitted(capacity, rs, m))
  {
    FoundLater(capacity, rs, n, m);
    DeniedThenWaits(capacity, FoundAt(capacity, rs, n), rs[n], rs[m].now);
  }

  lemma DeniedThenWaits(capacity: real, b: Bucket, r: Request, t: real)
    requires capacity > 0.0 && !Allows(capacity, b, r) && t >= r.now
    ensures var retry := Judge(capacity, b, r).retryAfterSeconds;
      var later := Refilled(capacity, Left(capacity, b, r), t);
      && retry >= 1
      && (t >= r.now + 1000.0 * retry as real ==> (later >= r.cost <==> r.cost <= capacity))
      && (t <= r.now + 1000.0 * (retry - 1) as real ==> later < r.cost)
  {
    var have, waited := Refilled(capacity, b, r.now), t - r.now;
    AnswerIsRight(capacity, have, r.cost, MayLog(b, r), waited);
    assert Refilled(capacity, Left(capacity, b, r), t) == Lesser(capacity, have + waited * Rate(capacity));
  }

  /** After resetSeconds without another use of the key its bucket is full, and not a second before. */
  lemma ResetIsRight(capacity: real, b: Bucket, r: Request, t: real)
    requires capacity > 0.0 && t >= r.now
    ensures var reset := Judge(capacity, b, r).resetSeconds; var later := Refilled(capacity, Left(capacity, b, r), t);
      && (t >= r.now + 1000.0 * reset as real ==> later == capacity)
      && (t <= r.now + 1000.0 * (reset - 1) as real ==> later < capacity)
  {
    SecondsAreRight(capacity, capacity - Left(capacity, b, r).tokens, t - r.now);
  }

  /** Straight after a request its key can spend a whole number of units exactly when it is within
      `remaining`. */
  lemma RemainingIsRight(capacity: real, b: Bucket, r: Request, units: nat)
    requires capacity > 0.0 && SoundBucket(capacity, b, r.now) && r.cost >= 0.0
    ensures Allows(capacity, Left(capacity, b, r), Request(r.key, units as real, r.now))
        <==> units <= Judge(capacity, b, r).remaining
  {
    LeftIsSound(capacity, b, r, r.now);
    assert Refilled(capacity, Left(capacity, b, r), r.now) == Left(capacity, b, r).tokens;
  }

  // ----- the limiter itself -----

  lemma VerdictIs(capacity: real, rs: seq<Request>, n: nat)
    requires capacity > 0.0 && Proper(rs) && n < |rs|
    ensures var v := Judge(capacity, FoundAt(capacity, rs, n), rs[n]);
      && v.limit == capacity && (v.allowed <==> WithinBudget(capacity, rs, n))
      && (v.retryAfterSeconds == 0 <==> v.allowed)
  {
    AdmittedIff(capacity, rs, n);
  }

  lemma AlikeJudges(capacity: real, b: Bucket, kept: Bucket, r: Request)
    requires capacity > 0.0 && Alike(b, kept) && b.updatedAt <= r.now
    ensures Judge(capacity, b, r) == Judge(capacity, kept, r)
    ensures Alike(Left(capacity, b, r), Left(capacity, kept, r))
  {
    assert Refilled(capacity, b, r.now) == Refilled(capacity, kept, r.now);
    assert MayLog(b, r) == MayLog(kept, r);
  }

  /** What is tracked is what the never-evicting limiter has; what is not had been idle for two
      minutes at the last sweep. */
  ghost predicate KeepsAll(buckets: map<string, Bucket>, kept: map<string, Bucket>, lastSweep: real) {
    && (forall k | k in buckets :: k in kept && Alike(buckets[k], kept[k]))
    && (forall k | k in kept && k !in buckets :: kept[k].updatedAt + IDLE_MS < lastSweep)
  }

  /** A request judged on the tracked buckets is judged as on all buckets ever. */
  lemma SameVerdict(capacity: real, buckets: map<string, Bucket>, kept: map<string, Bucket>, lastSweep: real,
                    r: Request)
    requires capacity > 0.0 && KeepsAll(buckets, kept, lastSweep) && lastSweep <= r.now
    requires forall k | k in kept :: SoundBucket(capacity, kept[k], r.now)
    ensures var b, k := Found(capacity, buckets, r), Found(capacity, kept, r);
      && Judge(capacity, b, r) == Judge(capacity, k, r)
      && KeepsAll(buckets[r.key := Left(capacity, b, r)], kept[r.key := Left(capacity, k, r)], lastSweep)
  {
    var b, k := Found(capacity, buckets, r), Found(capacity, kept, r);
    if r.key in buckets {
      AlikeJudges(capacity, b, k, r);
    } else if r.key in kept {
      IdleIsFresh(capacity, k, r);
    }
  }

  lemma OneMore(capacity: real, rs: seq<Request>, r: Request, clock: real)
    requires capacity > 0.0 && Proper(rs) && (forall i | 0 <= i < |rs| :: rs[i].now <= clock) && clock <= r.now
    requires r.cost >= 0.0 && clock >= 0.0
    ensures Proper(rs + [r])
    ensures FoundAt(capacity, rs + [r], |rs|) == Found(capacity, Never(capacity, rs), r)
    ensures Never(capacity, rs + [r])
        == Never(capacity, rs)[r.key := Left(capacity, Found(capacity, Never(capacity, rs), r), r)]
    ensures forall k | k in Never(capacity, rs) :: SoundBucket(capacity, Never(capacity, rs)[k], r.now)
    ensures forall k | k in Never(capacity, rs + [r]) :: SoundBucket(capacity, Never(capacity, rs + [r])[k], r.now)
  {
    var all := rs + [r];
    assert all[..|rs|] == rs && all[..|rs| + 1] == all;
    NeverIsSound(capacity, all, |rs|, r.now);
    NeverIsSound(capacity, all, |rs| + 1, r.now);
  }

  /** Look the bucket up, refill it, charge it if the cost fits, and store it back. */
  method Charge(capacity: real, buckets: map<string, Bucket>, key: string, cost: real, now: real)
    returns (v: Verdict, after: map<string, Bucket>)
    requires capacity > 0.0
    ensures var r := Request(key, cost, now); var found := Found(capacity, buckets, r);
      v == Judge(capacity, found, r) && after == buckets[key := Left(capacity, found, r)]
  {
    var bucket := if key in buckets then buckets[key] else Bucket(capacity, now, 0.0);
    var have := Refilled(capacity, bucket, now);
    var allowed := have >= cost;
    var mayLog := now - bucket.loggedAt >= LOG_EVERY_MS;
    v := Answer(capacity, have, cost, mayLog);
    bucket := Bucket(if allowed then have - cost else have, now, if !allowed && mayLog then now else bucket.loggedAt);
    after := buckets[key := bucket];
  }

  class RateLimiter {
    const capacity: real
    var buckets: map<string, Bucket>
    var lastSweep: real
    /** Every request so far, and the time of the last call. */
    ghost var requests: seq<Request>
    ghost var clock: real

    ghost predicate Valid()
      reads this
    {
      && capacity > 0.0 && 0.0 <= lastSweep <= clock
      && Proper(requests) && (forall i | 0 <= i < |requests| :: requests[i].now <= clock)
      && KeepsAll(buckets, Never(capacity, requests), lastSweep)
      && forall k | k in Never(capacity, requests) :: SoundBucket(capacity, Never(capacity, requests)[k], clock)
    }

    constructor (perMinute: real, now: real)
      requires perMinute > 0.0 && now >= 0.0
      ensures Valid() && capacity == perMinute && requests == [] && clock == now
    {
      capacity := perMinute;
      buckets, lastSweep := map[], now;
      requests, clock := [], now;
    }

    /** The verdict is the one of a limiter that never forgets a bucket. */
    method Consume(key: string, cost: real, now: real) returns (v: Verdict)
      requires Valid() && cost >= 0.0 && now >= clock
      modifies this
      ensures Valid() && clock == now && requests == old(requests) + [Request(key, cost, now)]
      ensures v == Judge(capacity, FoundAt(capacity, requests, |old(requests)|), requests[|old(requests)|])
      ensures v.limit == capacity && (v.allowed <==> WithinBudget(capacity, requests, |old(requests)|))
      ensures v.retryAfterSeconds == 0 <==> v.allowed
    {
      ghost var r := Request(key, cost, now);
      OneMore(capacity, requests, r, clock);
      Sweep(now);
      SameVerdict(capacity, buckets, Never(capacity, requests), lastSweep, r);
      v, buckets := Charge(capacity, buckets, key, cost, now);
      requests, clock := requests + [r], now;
      VerdictIs(capacity, requests, |requests| - 1);
    }

    method Sweep(now: real)
      requires Valid() && now >= clock
      modifies this`buckets, this`lastSweep
      ensures 0.0 <= lastSweep <= now && KeepsAll(buckets, Never(capacity, requests), lastSweep)
      ensures now - old(lastSweep) >= 60_000.0 ==>
          lastSweep == now && forall k | k in buckets :: now - buckets[k].updatedAt <= 120_000.0
      ensures forall k | k in old(buckets) ::
          now - old(lastSweep) < 60_000.0 || now - old(buckets)[k].updatedAt <= 120_000.0 ==>
          k in buckets && buckets[k] == old(buckets)[k]
    {
      if now - lastSweep < SWEEP_EVERY_MS {
        return;
      }
      lastSweep := now;
      buckets := map k | k in buckets && now - buckets[k].updatedAt <= IDLE_MS :: buckets[k];
    }
  }
}
