/** Persistent token buckets of the `rate_limit_buckets` table.

    Every call prunes expired rows of all keys before it looks at its own. `Take` is
    one transaction; `TakeForever` is the bucket that is never evicted. Token counts
    are reals, so floating-point rounding is not modelled. */
module RateBuckets {
  type Key = string
  type Table = map<Key, Bucket>

  datatype Bucket = Bucket(tokens: real, updated: int, expires: int)

  // The effective limit of one call. The lifetime of a row is a server setting.
  datatype Limit = Limit(capacity: int, rate: real)

  datatype Answer = Allowed | Denied(wait: int)

  function MinReal(a: real, b: real): (m: real)
    ensures m <= a && m <= b && (m == a || m == b)
  {
    if a < b then a else b
  }

  // Tokens that come in during some seconds.
  function Income(seconds: int, rate: real): real {
    seconds as real * rate
  }

  // Tokens a found bucket holds at `now`.
  function Refill(b: Bucket, now: int, l: Limit): real {
    if now > b.updated then MinReal(l.capacity as real, b.tokens + Income(now - b.updated, l.rate)) else b.tokens
  }

  function Wait(tokens: real, rate: real): int
    requires rate > 0.0
  {
    var wait := ((1.0 - tokens) / rate).Floor;
    if wait < 1 then 1 else wait
  }

  // Spend a token if there is one.
  function Spend(tokens: real, l: Limit): (real, Answer)
    requires l.rate > 0.0
  {
    if tokens < 1.0 then (tokens, Denied(Wait(tokens, l.rate))) else (tokens - 1.0, Allowed)
  }

  function Unexpired(t: Table, now: int): Table {
    map k | k in t && t[k].expires > now :: t[k]
  }

  // A call on a table from which nothing is evicted any more.
  function TakeForever(t: Table, key: Key, now: int, l: Limit, ttl: int): (Table, Answer)
    requires l.rate > 0.0
  {
    var tokens := if key in t then Refill(t[key], now, l) else l.capacity as real;
    var (left, answer) := Spend(tokens, l);
    (t[key := Bucket(left, now, now + ttl)], answer)
  }

  // One TakeRateLimit transaction.
  function Take(t: Table, key: Key, now: int, l: Limit, ttl: int): (Table, Answer)
    requires l.rate > 0.0
  {
    TakeForever(Unexpired(t, now), key, now, l, ttl)
  }

  class RateStore {
    var buckets: Table

    constructor ()
      ensures buckets == map[]
    {
      buckets := map[];
    }

    method TakeRateLimit(key: Key, now: int, capacity: int, refillPerSecond: real, ttl: int)
      returns (allowed: bool, wait: int)
      requires refillPerSecond > 0.0
      modifies this
      ensures var (t, answer) := Take(old(buckets), key, now, Limit(capacity, refillPerSecond), ttl);
        buckets == t && (allowed, wait) == if answer.Allowed? then (true, 0) else (false, answer.wait)
    {
      buckets := Unexpired(buckets, now);
      var tokens, updated := capacity as real, now;
      if key in buckets {
        tokens, updated := buckets[key].tokens, buckets[key].updated;
      }
      var elapsed := now - updated;
      if elapsed > 0 {
        tokens := MinReal(capacity as real, tokens + elapsed as real * refillPerSecond);
      }
      if tokens < 1.0 {
        wait := ((1.0 - tokens) / refillPerSecond).Floor;
        if wait < 1 {
          wait := 1;
        }
        Upsert(key, tokens, now, now + ttl);
        return false, wait;
      }
      tokens := tokens - 1.0;
      Upsert(key, tokens, now, now + ttl);
      return true, 0;
    }

    method Upsert(key: Key, tokens: real, updated: int, expires: int)
      modifies this
      ensures buckets == old(buckets)[key := Bucket(tokens, updated, expires)]
    {
      buckets := buckets[key := Bucket(tokens, updated, expires)];
    }
  }

  // ----- What a rate yields -----

  // The income of some seconds, in a form the solver need not multiply.
  function Yield(rate: real, seconds: nat): real {
    if seconds == 0 then 0.0 else Yield(rate, seconds - 1) + rate
  }

  lemma Distribute(a: real, rate: real)
    ensures (a + 1.0) * rate == a * rate + rate
  {
  }

  lemma {:induction false} YieldIsIncome(rate: real, seconds: nat)
    ensures Yield(rate, seconds) == Income(seconds, rate)
  {
    if seconds > 0 {
      YieldIsIncome(rate, seconds - 1);
      Distribute((seconds - 1) as real, rate);
      assert seconds as real == (seconds - 1) as real + 1.0;
    }
  }

  lemma {:induction false} YieldAdds(rate: real, a: nat, b: nat)
    ensures Yield(rate, a + b) == Yield(rate, a) + Yield(rate, b)
  {
    if b > 0 {
      YieldAdds(rate, a, b - 1);
    }
  }

  lemma {:induction false} YieldGrows(rate: real, seconds: nat)
    requires rate >= 0.0
    ensures Yield(rate, seconds) >= 0.0
  {
    if seconds > 0 {
      YieldGrows(rate, seconds - 1);
    }
  }

  lemma YieldMonotone(rate: real, a: nat, b: nat)
    requires rate >= 0.0 && a <= b
    ensures Yield(rate, a) <= Yield(rate, b)
  {
    YieldAdds(rate, a, b - a);
    YieldGrows(rate, b - a);
  }

  lemma {:induction false} YieldFaster(slow: real, fast: real, seconds: nat)
    requires slow <= fast
    ensures Yield(slow, seconds) <= Yield(fast, seconds)
  {
    if seconds > 0 {
      YieldFaster(slow, fast, seconds - 1);
    }
  }

  lemma RefillIsYield(b: Bucket, now: int, l: Limit)
    requires b.updated <= now
    ensures Refill(b, now, l) ==
      if now > b.updated then MinReal(l.capacity as real, b.tokens + Yield(l.rate, now - b.updated)) else b.tokens
  {
    YieldIsIncome(l.rate, now - b.updated);
  }

  lemma IncomeAtLeast(seconds: int, x: real, rate: real)
    requires rate > 0.0 && x <= seconds as real
    ensures x * rate <= Income(seconds, rate)
  {
  }

  lemma IncomeBelow(seconds: int, x: real, rate: real)
    requires rate > 0.0 && x > seconds as real
    ensures x * rate > Income(seconds, rate)
  {
  }

  // ----- Limits as configured: `capacity` tokens every `refill` seconds -----

  datatype Configured = Configured(capacity: int, refill: real)

  function RefillPerSecond(c: Configured): (rate: real)
    ensures rate > 0.0
  {
    if c.capacity <= 0 || c.refill <= 0.0 then 1.0 else c.capacity as real / c.refill
  }

  // An evicted bucket would have refilled by the time its row expires.
  predicate Refills(l: Limit, ttl: int) {
    l.capacity >= 0 && l.rate > 0.0 && ttl > 0 && Yield(l.rate, ttl) >= l.capacity as real
  }

  /** A configured limit refills within the row lifetime exactly when its refill period
      is no longer than that lifetime. */
  lemma ConfiguredRefills(c: Configured, ttl: int)
    requires c.capacity > 0 && c.refill > 0.0 && ttl > 0
    ensures Refills(Limit(c.capacity, RefillPerSecond(c)), ttl) <==> ttl as real >= c.refill
  {
    var rate := RefillPerSecond(c);
    assert c.refill * rate == c.capacity as real;
    YieldIsIncome(rate, ttl);
    if ttl as real >= c.refill {
      IncomeAtLeast(ttl, c.refill, rate);
    } else {
      IncomeBelow(ttl, c.refill, rate);
    }
  }

  /** One token comes in during the row lifetime exactly when its share of the refill period
      fits into it. */
  lemma ConfiguredYieldsOne(c: Configured, ttl: int)
    requires c.capacity > 0 && c.refill > 0.0 && ttl > 0
    ensures Yield(RefillPerSecond(c), ttl) >= 1.0 <==> ttl as real >= c.refill / c.capacity as real
  {
    var rate, share := RefillPerSecond(c), c.refill / c.capacity as real;
    ShareOfOne(c.refill, c.capacity as real);
    YieldIsIncome(rate, ttl);
    if ttl as real >= share {
      IncomeAtLeast(ttl, share, rate);
    } else {
      IncomeBelow(ttl, share, rate);
    }
  }

  lemma ShareOfOne(a: real, b: real)
    requires a > 0.0 && b > 0.0
    ensures (a / b) * (b / a) == 1.0
  {
    var q := a / b;
    assert q * b == a;
    assert q * (b / a) == (q * b) / a;
  }

  // ----- Runs of calls on any keys, with limits that may change from call to call -----

  datatype Call = Call(key: Key, now: int, limit: Limit)

  ghost predicate Ordered(calls: seq<Call>) {
    forall i, j :: 0 <= i < j < |calls| ==> calls[i].now <= calls[j].now
  }

  ghost predicate AllRefill(calls: seq<Call>, ttl: int) {
    forall i :: 0 <= i < |calls| ==> Refills(calls[i].limit, ttl)
  }

  predicate Positive(calls: seq<Call>) {
    forall i :: 0 <= i < |calls| ==> calls[i].limit.rate > 0.0
  }

  // The pruned table and the answers of a run.
  function Run(t: Table, calls: seq<Call>, ttl: int): (r: (Table, seq<Answer>))
    requires Positive(calls)
    ensures |r.1| == |calls|
  {
    if calls == [] then (t, [])
    else
      var n := |calls| - 1;
      var (u, answers) := Run(t, calls[..n], ttl);
      var (u', answer) := Take(u, calls[n].key, calls[n].now, calls[n].limit, ttl);
      (u', answers + [answer])
  }

  // The same run on buckets that are never evicted.
  function RunForever(t: Table, calls: seq<Call>, ttl: int): (r: (Table, seq<Answer>))
    requires Positive(calls)
    ensures |r.1| == |calls|
  {
    if calls == [] then (t, [])
    else
      var n := |calls| - 1;
      var (u, answers) := RunForever(t, calls[..n], ttl);
      var (u', answer) := TakeForever(u, calls[n].key, calls[n].now, calls[n].limit, ttl);
      (u', answers + [answer])
  }

  // `kept` never evicts; `pruned` has lost the row of `key` only if that has expired.
  ghost predicate Matches(pruned: Table, kept: Table, key: Key, clock: int, ttl: int) {
    && (key in pruned ==> key in kept && pruned[key] == kept[key])
    && (key in kept && key !in pruned ==> kept[key].expires <= clock)
    && (key in kept ==> kept[key].tokens >= 0.0 && kept[key].expires == kept[key].updated + ttl)
  }

  lemma ExpiredIsFull(b: Bucket, now: int, l: Limit, ttl: int)
    requires Refills(l, ttl) && b.tokens >= 0.0 && b.expires == b.updated + ttl <= now
    ensures Refill(b, now, l) == l.capacity as real
  {
    RefillIsYield(b, now, l);
    YieldMonotone(l.rate, ttl, now - b.updated);
  }

  lemma TakeMatches(pruned: Table, kept: Table, key: Key, c: Call, clock: int, ttl: int)
    requires Matches(pruned, kept, key, clock, ttl) && c.limit.rate > 0.0 && clock <= c.now
    requires c.key == key ==> Refills(c.limit, ttl)
    ensures var (p, a) := Take(pruned, c.key, c.now, c.limit, ttl);
      var (k, b) := TakeForever(kept, c.key, c.now, c.limit, ttl);
      (c.key == key ==> a == b) && Matches(p, k, key, c.now, ttl)
  {
    if c.key == key && key in kept {
      if key !in Unexpired(pruned, c.now) {
        ExpiredIsFull(kept[key], c.now, c.limit, ttl);
      }
      if c.now > kept[key].updated {
        RefillIsYield(kept[key], c.now, c.limit);
        YieldGrows(c.limit.rate, c.now - kept[key].updated);
      }
    }
  }

  ghost predicate KeyRefills(calls: seq<Call>, key: Key, ttl: int) {
    forall i :: 0 <= i < |calls| && calls[i].key == key ==> Refills(calls[i].limit, ttl)
  }

  ghost predicate SameFor(calls: seq<Call>, key: Key, a: seq<Answer>, b: seq<Answer>)
    requires |calls| == |a| == |b|
  {
    forall i :: 0 <= i < |calls| && calls[i].key == key ==> a[i] == b[i]
  }

  /** Eviction is unobservable: for every key whose limits refill within the row lifetime,
      pruning expired rows on every call of any key changes no answer and no wait. */
  lemma {:induction false} EvictionUnobservable(calls: seq<Call>, key: Key, ttl: int, clock: int)
    requires Ordered(calls) && Positive(calls) && KeyRefills(calls, key, ttl)
    requires forall i :: 0 <= i < |calls| ==> calls[i].now <= clock
    ensures SameFor(calls, key, Run(map[], calls, ttl).1, RunForever(map[], calls, ttl).1)
    ensures Matches(Run(map[], calls, ttl).0, RunForever(map[], calls, ttl).0, key, clock, ttl)
  {
    if calls != [] {
      var n := |calls| - 1;
      assert forall i :: 0 <= i < n ==> calls[..n][i] == calls[i];
      EvictionUnobservable(calls[..n], key, ttl, calls[n].now);
      TakeMatches(Run(map[], calls[..n], ttl).0, RunForever(map[], calls[..n], ttl).0, key, calls[n], calls[n].now, ttl);
    }
  }

  // ----- Window bound -----

  // Allowed calls of `key` at times in [from, to].
  function AllowedIn(calls: seq<Call>, answers: seq<Answer>, key: Key, from: int, to: int): nat
    requires |calls| == |answers|
  {
    if calls == [] then 0
    else
      var n := |calls| - 1;
      AllowedIn(calls[..n], answers[..n], key, from, to) +
      (if calls[n].key == key && from <= calls[n].now <= to && answers[n].Allowed? then 1 else 0)
  }

  // Every call of `key` stays within these maxima.
  ghost predicate Within(calls: seq<Call>, key: Key, capacity: nat, rate: real) {
    forall i :: 0 <= i < |calls| && calls[i].key == key ==>
      0 <= calls[i].limit.capacity <= capacity && calls[i].limit.rate <= rate
  }

  // What the kept bucket of a key owes to the calls allowed since `from`.
  ghost predicate Budget(t: Table, key: Key, allowed: nat, from: int, clock: int, capacity: nat, rate: real) {
    && (key in t ==> 0.0 <= t[key].tokens <= capacity as real && t[key].updated <= clock)
    && (if key in t && t[key].updated >= from
        then t[key].tokens + allowed as real <= capacity as real + Yield(rate, t[key].updated - from)
        else allowed == 0)
  }

  lemma RefillWithin(b: Bucket, now: int, l: Limit, rate: real)
    requires 0.0 < l.rate <= rate && b.updated <= now
    ensures Refill(b, now, l) <= b.tokens + Yield(rate, now - b.updated)
    ensures b.tokens >= 0.0 && l.capacity >= 0 ==> Refill(b, now, l) >= 0.0
  {
    RefillIsYield(b, now, l);
    YieldFaster(l.rate, rate, now - b.updated);
    YieldGrows(l.rate, now - b.updated);
  }

  lemma BudgetStep(t: Table, key: Key, allowed: nat, from: int, c: Call, capacity: nat, rate: real, ttl: int)
    requires Budget(t, key, allowed, from, c.now, capacity, rate) && c.limit.rate > 0.0
    requires c.key == key ==> 0 <= c.limit.capacity <= capacity && c.limit.rate <= rate
    ensures var (t', answer) := TakeForever(t, c.key, c.now, c.limit, ttl);
      var more := if c.key == key && from <= c.now && answer.Allowed? then 1 else 0;
      Budget(t', key, allowed + more, from, c.now, capacity, rate)
  {
    if c.key == key {
      if key in t {
        RefillWithin(t[key], c.now, c.limit, rate);
        if t[key].updated >= from {
          YieldAdds(rate, t[key].updated - from, c.now - t[key].updated);
        }
      }
      if c.now >= from {
        YieldGrows(rate, c.now - from);
      }
    }
  }

  // Calls are counted up to `to`; the run has only come as far as `clock`.
  lemma {:induction false} BudgetAt(calls: seq<Call>, key: Key, from: int, to: int, clock: int, capacity: nat, rate: real, ttl: int)
    requires Ordered(calls) && Positive(calls) && Within(calls, key, capacity, rate) && clock <= to
    requires forall i :: 0 <= i < |calls| ==> calls[i].now <= clock
    ensures var (t, answers) := RunForever(map[], calls, ttl);
      Budget(t, key, AllowedIn(calls, answers, key, from, to), from, clock, capacity, rate)
  {
    if calls != [] {
      var n := |calls| - 1;
      var c := calls[n];
      BudgetAt(calls[..n], key, from, to, c.now, capacity, rate, ttl);
      var (t, answers) := RunForever(map[], calls[..n], ttl);
      BudgetStep(t, key, AllowedIn(calls[..n], answers, key, from, to), from, c, capacity, rate, ttl);
      var all := RunForever(map[], calls, ttl).1;
      assert all[..n] == answers && all[n] == TakeForever(t, c.key, c.now, c.limit, ttl).1;
    }
  }

  // Calls after `to` are not counted, so the run can be cut there.
  lemma {:induction false} CutAfter(calls: seq<Call>, key: Key, from: int, to: int, capacity: nat, rate: real, ttl: int)
    requires Ordered(calls) && Positive(calls) && Within(calls, key, capacity, rate) && from <= to && rate >= 0.0
    ensures AllowedIn(calls, RunForever(map[], calls, ttl).1, key, from, to) as real
         <= capacity as real + Yield(rate, to - from)
  {
    YieldGrows(rate, to - from);
    if calls != [] {
      var n := |calls| - 1;
      var (t, answers) := RunForever(map[], calls, ttl);
      if calls[n].now > to {
        CutAfter(calls[..n], key, from, to, capacity, rate, ttl);
        assert answers[..n] == RunForever(map[], calls[..n], ttl).1;
      } else {
        BudgetAt(calls, key, from, to, to, capacity, rate, ttl);
        if key in t && t[key].updated >= from {
          YieldAdds(rate, t[key].updated - from, to - t[key].updated);
          YieldGrows(rate, to - t[key].updated);
        }
      }
    }
  }

  lemma SameAnswers(calls: seq<Call>, ttl: int)
    requires Ordered(calls) && AllRefill(calls, ttl)
    ensures Run(map[], calls, ttl).1 == RunForever(map[], calls, ttl).1
  {
    var a, b := Run(map[], calls, ttl).1, RunForever(map[], calls, ttl).1;
    forall i | 0 <= i < |calls|
      ensures a[i] == b[i]
    {
      EvictionUnobservable(calls, calls[i].key, ttl, calls[|calls| - 1].now);
    }
  }

  lemma {:induction false} SameAllowed(calls: seq<Call>, a: seq<Answer>, b: seq<Answer>, key: Key, from: int, to: int)
    requires |calls| == |a| == |b| && SameFor(calls, key, a, b)
    ensures AllowedIn(calls, a, key, from, to) == AllowedIn(calls, b, key, from, to)
  {
    if calls != [] {
      var n := |calls| - 1;
      SameAllowed(calls[..n], a[..n], b[..n], key, from, to);
    }
  }

  lemma WindowYield(calls: seq<Call>, key: Key, from: int, to: int, capacity: nat, rate: real, ttl: int)
    requires Ordered(calls) && Positive(calls) && KeyRefills(calls, key, ttl)
    requires Within(calls, key, capacity, rate) && from <= to && rate >= 0.0
    ensures AllowedIn(calls, Run(map[], calls, ttl).1, key, from, to) as real <= capacity as real + Yield(rate, to - from)
  {
    CutAfter(calls, key, from, to, capacity, rate, ttl);
    EvictionUnobservable(calls, key, ttl, if calls == [] then 0 else calls[|calls| - 1].now);
    SameAllowed(calls, Run(map[], calls, ttl).1, RunForever(map[], calls, ttl).1, key, from, to);
  }

  /** Window bound: even when capacity and rate differ from call to call (with maxima
      `capacity` and `rate`) and rows are evicted in between, at most
      capacity + (to - from) * rate calls of a key are allowed in [from, to]. */
  lemma WindowBound(calls: seq<Call>, key: Key, from: int, to: int, capacity: nat, rate: real, ttl: int)
    requires Ordered(calls) && Positive(calls) && KeyRefills(calls, key, ttl)
    requires Within(calls, key, capacity, rate) && from <= to && rate >= 0.0
    ensures AllowedIn(calls, Run(map[], calls, ttl).1, key, from, to) as real
         <= capacity as real + Income(to - from, rate)
  {
    WindowYield(calls, key, from, to, capacity, rate, ttl);
    YieldIsIncome(rate, to - from);
  }

  // ----- Denials are due -----

  // Every call of `key` is made under the limit `l`.
  ghost predicate FixedFor(calls: seq<Call>, key: Key, l: Limit) {
    forall i :: 0 <= i < |calls| && calls[i].key == key ==> calls[i].limit == l
  }

  // Since `start` the bucket of `key` has received its whole income and given a token to
  // each of the `allowed` calls; at `start` it was full.
  ghost predicate Accounted(t: Table, key: Key, l: Limit, start: int, allowed: nat) {
    key in t ==>
      && start <= t[key].updated
      && t[key].tokens >= l.capacity as real + Yield(l.rate, t[key].updated - start) - allowed as real
  }

  // Whether the bucket is found full, so that the account starts anew.
  predicate FoundFull(t: Table, key: Key, now: int, l: Limit) {
    key !in Unexpired(t, now) || (now > t[key].updated && Refill(t[key], now, l) == l.capacity as real)
  }

  lemma AccountedStep(t: Table, key: Key, c: Call, l: Limit, ttl: int, start: int, allowed: nat)
    requires Accounted(t, key, l, start, allowed) && c.key == key && c.limit == l && l.rate > 0.0
    requires key in t ==> t[key].updated <= c.now
    ensures var (u, answer) := Take(t, key, c.now, l, ttl);
      var spent := if answer.Allowed? then 1 else 0;
      if FoundFull(t, key, c.now, l) then Accounted(u, key, l, c.now, spent)
      else Accounted(u, key, l, start, allowed + spent)
  {
    if !FoundFull(t, key, c.now, l) && c.now > t[key].updated {
      RefillIsYield(t[key], c.now, l);
      YieldAdds(l.rate, t[key].updated - start, c.now - t[key].updated);
    }
  }

  lemma {:induction false} RunAccounts(calls: seq<Call>, key: Key, l: Limit, ttl: int, to: int) returns (start: int)
    requires Ordered(calls) && Positive(calls) && FixedFor(calls, key, l) && l.rate > 0.0
    requires forall i :: 0 <= i < |calls| ==> calls[i].now <= to
    ensures var (t, answers) := Run(map[], calls, ttl);
      && Accounted(t, key, l, start, AllowedIn(calls, answers, key, start, to))
      && (key in t ==> t[key].updated <= to)
  {
    start := to;
    if calls != [] {
      var n := |calls| - 1;
      var c := calls[n];
      start := RunAccounts(calls[..n], key, l, ttl, c.now);
      var (t, answers) := Run(map[], calls[..n], ttl);
      var all := Run(map[], calls, ttl).1;
      assert all[..n] == answers && all[n] == Take(t, c.key, c.now, c.limit, ttl).1;
      CountUpTo(calls[..n], answers, key, start, c.now, to);
      if c.key == key {
        AccountedStep(t, key, c, l, ttl, start, AllowedIn(calls[..n], answers, key, start, to));
        start := if FoundFull(t, key, c.now, l) then c.now else start;
      }
    }
  }

  lemma {:induction false} CountUpTo(calls: seq<Call>, answers: seq<Answer>, key: Key, from: int, a: int, b: int)
    requires |calls| == |answers| && a <= b && forall i :: 0 <= i < |calls| ==> calls[i].now <= a
    ensures AllowedIn(calls, answers, key, from, a) == AllowedIn(calls, answers, key, from, b)
  {
    if calls != [] {
      var n := |calls| - 1;
      CountUpTo(calls[..n], answers[..n], key, from, a, b);
    }
  }

  // There is no room for another call in the window from `start` to `now`.
  ghost predicate NoRoom(calls: seq<Call>, answers: seq<Answer>, key: Key, l: Limit, start: int, now: int)
    requires |calls| == |answers|
  {
    start <= now &&
    AllowedIn(calls, answers, key, start, now) as real + 1.0 > l.capacity as real + Income(now - start, l.rate)
  }

  // `c` comes after `calls`; its key has had the same limit all the time.
  ghost predicate ComesNext(calls: seq<Call>, c: Call) {
    && Ordered(calls) && Positive(calls) && FixedFor(calls, c.key, c.limit) && c.limit.rate > 0.0
    && forall i :: 0 <= i < |calls| ==> calls[i].now <= c.now
  }

  // A run with one more call.
  lemma OneMoreCall(calls: seq<Call>, c: Call, ttl: int, from: int, to: int)
    requires ComesNext(calls, c) && from <= c.now <= to
    ensures Ordered(calls + [c]) && Positive(calls + [c]) && FixedFor(calls + [c], c.key, c.limit)
    ensures var (t, answers) := Run(map[], calls, ttl);
      var (u, answer) := Take(t, c.key, c.now, c.limit, ttl);
      && Run(map[], calls + [c], ttl) == (u, answers + [answer])
      && AllowedIn(calls + [c], answers + [answer], c.key, from, to)
         == AllowedIn(calls, answers, c.key, from, to) + (if answer.Allowed? then 1 else 0)
  {
    assert (calls + [c])[..|calls|] == calls;
    var answers := Run(map[], calls, ttl).1;
    assert forall a: Answer :: (answers + [a])[..|calls|] == answers;
  }

  /** No call is denied without cause, also when rows are evicted: some window that ends with
      a denied call of a key under a fixed limit has no room for it. */
  lemma DenialHasCause(calls: seq<Call>, c: Call, ttl: int) returns (start: int)
    requires ComesNext(calls, c)
    requires Take(Run(map[], calls, ttl).0, c.key, c.now, c.limit, ttl).1.Denied?
    ensures NoRoom(calls, Run(map[], calls, ttl).1, c.key, c.limit, start, c.now)
  {
    OneMoreCall(calls, c, ttl, c.now, c.now);
    start := RunAccounts(calls + [c], c.key, c.limit, ttl, c.now);
    OneMoreCall(calls, c, ttl, start, c.now);
    YieldIsIncome(c.limit.rate, c.now - start);
  }

  lemma StillWithin(calls: seq<Call>, c: Call, ttl: int)
    requires ComesNext(calls, c) && Refills(c.limit, ttl)
    ensures Ordered(calls + [c]) && Positive(calls + [c])
    ensures KeyRefills(calls + [c], c.key, ttl) && Within(calls + [c], c.key, c.limit.capacity, c.limit.rate)
  {
  }

  lemma BoundWithCall(calls: seq<Call>, c: Call, ttl: int, start: int)
    requires ComesNext(calls, c) && Refills(c.limit, ttl) && start <= c.now && Positive(calls + [c])
    ensures AllowedIn(calls + [c], Run(map[], calls + [c], ttl).1, c.key, start, c.now) as real
         <= c.limit.capacity as real + Income(c.now - start, c.limit.rate)
  {
    StillWithin(calls, c, ttl);
    WindowBound(calls + [c], c.key, start, c.now, c.limit.capacity, c.limit.rate, ttl);
  }

  lemma RoomWhenAllowed(calls: seq<Call>, c: Call, ttl: int, start: int)
    requires ComesNext(calls, c) && Refills(c.limit, ttl)
    requires Take(Run(map[], calls, ttl).0, c.key, c.now, c.limit, ttl).1.Allowed?
    ensures !NoRoom(calls, Run(map[], calls, ttl).1, c.key, c.limit, start, c.now)
  {
    if start <= c.now {
      OneMoreCall(calls, c, ttl, start, c.now);
      BoundWithCall(calls, c, ttl, start);
    }
  }

  /** The bucket is a sliding window. Under a fixed limit that refills within the row
      lifetime, a call is denied if and only if some window that ends with it has no room:
      with it, more than C + r (now - start) calls would be allowed in [start, now]. */
  lemma DeniedIffNoRoom(calls: seq<Call>, c: Call, ttl: int)
    requires ComesNext(calls, c) && Refills(c.limit, ttl)
    ensures Take(Run(map[], calls, ttl).0, c.key, c.now, c.limit, ttl).1.Denied?
      <==> exists start :: NoRoom(calls, Run(map[], calls, ttl).1, c.key, c.limit, start, c.now)
  {
    if Take(Run(map[], calls, ttl).0, c.key, c.now, c.limit, ttl).1.Denied? {
      var start := DenialHasCause(calls, c, ttl);
    } else {
      forall start
        ensures !NoRoom(calls, Run(map[], calls, ttl).1, c.key, c.limit, start, c.now)
      {
        RoomWhenAllowed(calls, c, ttl, start);
      }
    }
  }

  // ----- Exactly when eviction is unobservable -----

  ghost predicate AllAllowed(answers: seq<Answer>) {
    forall i :: 0 <= i < |answers| ==> answers[i] == Allowed
  }

  // One call, `n` times.
  function Copies(c: Call, n: nat): (calls: seq<Call>)
    ensures |calls| == n && forall i :: 0 <= i < n ==> calls[i] == c
  {
    if n == 0 then [] else Copies(c, n - 1) + [c]
  }

  lemma WholeTokens(t: Table, key: Key, now: int, l: Limit, ttl: int, left: nat)
    requires l.rate > 0.0 && ttl > 0 && left > 0
    requires if key in Unexpired(t, now) then t[key] == Bucket(left as real, now, now + ttl) else l.capacity == left
    ensures var (u, a) := Take(t, key, now, l, ttl);
      a == Allowed && Holds(u, key, now, ttl, (left - 1) as real)
  {
    assert (left - 1) as real == left as real - 1.0;
  }

  // A live row that holds `left` tokens after the calls of this second.
  ghost predicate Holds(t: Table, key: Key, now: int, ttl: int, left: real) {
    key in Unexpired(t, now) && t[key] == Bucket(left, now, now + ttl)
  }

  lemma RunAppend(calls: seq<Call>, c: Call, ttl: int)
    requires Positive(calls) && c.limit.rate > 0.0
    ensures var (t, answers) := Run(map[], calls, ttl);
      var (u, a) := Take(t, c.key, c.now, c.limit, ttl);
      Positive(calls + [c]) && Run(map[], calls + [c], ttl) == (u, answers + [a])
  {
    assert (calls + [c])[..|calls|] == calls;
  }

  lemma RunForeverAppend(calls: seq<Call>, c: Call, ttl: int)
    requires Positive(calls) && c.limit.rate > 0.0
    ensures var (t, answers) := RunForever(map[], calls, ttl);
      var (u, a) := TakeForever(t, c.key, c.now, c.limit, ttl);
      Positive(calls + [c]) && RunForever(map[], calls + [c], ttl) == (u, answers + [a])
  {
    assert (calls + [c])[..|calls|] == calls;
  }

  lemma AllowedAppend(answers: seq<Answer>, a: Answer)
    ensures AllAllowed(answers + [a]) <==> AllAllowed(answers) && a == Allowed
  {
    var more := answers + [a];
    assert more[|answers|] == a;
    assert forall i :: 0 <= i < |answers| ==> more[i] == answers[i];
  }

  // When the key has no live row its whole capacity is allowed at once.
  lemma {:induction false} BurstOnPruned(base: seq<Call>, c: Call, k: nat, ttl: int)
    requires Positive(base) && c.limit.rate > 0.0 && ttl > 0 && 0 < k <= c.limit.capacity
    requires AllAllowed(Run(map[], base, ttl).1) && c.key !in Unexpired(Run(map[], base, ttl).0, c.now)
    ensures Positive(base + Copies(c, k)) && AllAllowed(Run(map[], base + Copies(c, k), ttl).1)
    ensures Holds(Run(map[], base + Copies(c, k), ttl).0, c.key, c.now, ttl, (c.limit.capacity - k) as real)
  {
    var before := base + Copies(c, k - 1);
    assert base + Copies(c, k) == before + [c];
    if k > 1 {
      BurstOnPruned(base, c, k - 1, ttl);
    } else {
      assert before == base;
    }
    var (t, answers) := Run(map[], before, ttl);
    WholeTokens(t, c.key, c.now, c.limit, ttl, c.limit.capacity - (k - 1));
    RunAppend(before, c, ttl);
    AllowedAppend(answers, Allowed);
  }

  function KeptTokens(t: Table, c: Call): real {
    if c.key in t then Refill(t[c.key], c.now, c.limit) else c.limit.capacity as real
  }

  lemma KeptStep(before: seq<Call>, c: Call, ttl: int)
    requires Positive(before) && c.limit.rate > 0.0 && Positive(before + [c])
    requires AllAllowed(RunForever(map[], before + [c], ttl).1)
    ensures var (t, answers) := RunForever(map[], before, ttl);
      && AllAllowed(answers) && KeptTokens(t, c) >= 1.0
      && var u := RunForever(map[], before + [c], ttl).0;
         c.key in u && u[c.key] == Bucket(KeptTokens(t, c) - 1.0, c.now, c.now + ttl)
  {
    var (t, answers) := RunForever(map[], before, ttl);
    RunForeverAppend(before, c, ttl);
    AllowedAppend(answers, TakeForever(t, c.key, c.now, c.limit, ttl).1);
    SpendOne(t, c, ttl);
  }

  lemma KeptAgain(t: Table, c: Call, tokens: real, expires: int)
    requires c.key in t && t[c.key] == Bucket(tokens, c.now, expires)
    ensures KeptTokens(t, c) == tokens
  {
  }

  // A kept bucket allows no more calls in one second than it holds tokens.
  lemma {:induction false} BurstOnKept(base: seq<Call>, c: Call, k: nat, ttl: int)
    requires Positive(base) && c.limit.rate > 0.0 && k > 0 && Positive(base + Copies(c, k))
    requires AllAllowed(RunForever(map[], base + Copies(c, k), ttl).1)
    ensures AllAllowed(RunForever(map[], base, ttl).1)
    ensures var t := RunForever(map[], base + Copies(c, k), ttl).0;
      var start := KeptTokens(RunForever(map[], base, ttl).0, c);
      c.key in t && t[c.key] == Bucket(start - k as real, c.now, c.now + ttl) && t[c.key].tokens >= 0.0
  {
    var before := base + Copies(c, k - 1);
    assert base + Copies(c, k) == before + [c];
    KeptStep(before, c, ttl);
    if k > 1 {
      BurstOnKept(base, c, k - 1, ttl);
      OneFewer(RunForever(map[], before, ttl).0, c, KeptTokens(RunForever(map[], base, ttl).0, c), k, ttl);
    } else {
      assert before == base;
    }
  }

  lemma OneFewer(t: Table, c: Call, start: real, k: nat, ttl: int)
    requires k > 0 && c.key in t && t[c.key] == Bucket(start - (k - 1) as real, c.now, c.now + ttl)
    ensures KeptTokens(t, c) - 1.0 == start - k as real
  {
    KeptAgain(t, c, start - (k - 1) as real, c.now + ttl);
  }

  lemma SpendOne(t: Table, c: Call, ttl: int)
    requires c.limit.rate > 0.0 && TakeForever(t, c.key, c.now, c.limit, ttl).1 == Allowed
    ensures TakeForever(t, c.key, c.now, c.limit, ttl).0[c.key] == Bucket(KeptTokens(t, c) - 1.0, c.now, c.now + ttl)
    ensures KeptTokens(t, c) >= 1.0
  {
  }

  // Pruning never changes an answer in a run that uses only the limit `l`.
  ghost predicate Unobservable(l: Limit, ttl: int)
    requires l.rate > 0.0
  {
    forall calls: seq<Call> ::
      Ordered(calls) && (forall i :: 0 <= i < |calls| ==> calls[i].limit == l) ==>
        Run(map[], calls, ttl).1 == RunForever(map[], calls, ttl).1
  }

  // Spend the whole capacity, wait for the row to expire, and spend it again.
  function TwoBursts(key: Key, l: Limit, ttl: int): seq<Call>
    requires l.capacity > 0
  {
    Copies(Call(key, 0, l), l.capacity) + Copies(Call(key, ttl, l), l.capacity)
  }

  lemma PrunedAllowsBoth(key: Key, l: Limit, ttl: int)
    requires l.capacity > 0 && l.rate > 0.0 && ttl > 0
    ensures AllAllowed(Run(map[], TwoBursts(key, l, ttl), ttl).1)
  {
    var first := Copies(Call(key, 0, l), l.capacity);
    assert [] + first == first;
    BurstOnPruned([], Call(key, 0, l), l.capacity, ttl);
    BurstOnPruned(first, Call(key, ttl, l), l.capacity, ttl);
  }

  lemma RefillFallsShort(l: Limit, ttl: int, expires: int)
    requires l.capacity > 0 && l.rate > 0.0 && ttl > 0 && !Refills(l, ttl)
    ensures Refill(Bucket(0.0, 0, expires), ttl, l) < l.capacity as real
  {
    RefillIsYield(Bucket(0.0, 0, expires), ttl, l);
  }

  lemma FirstBurstEmpties(key: Key, l: Limit, ttl: int, first: seq<Call>)
    requires l.capacity > 0 && l.rate > 0.0 && first == Copies(Call(key, 0, l), l.capacity) && Positive(first)
    requires AllAllowed(RunForever(map[], first, ttl).1)
    ensures key in RunForever(map[], first, ttl).0 && RunForever(map[], first, ttl).0[key] == Bucket(0.0, 0, ttl)
  {
    assert [] + first == first;
    BurstOnKept([], Call(key, 0, l), l.capacity, ttl);
  }

  lemma SecondBurstFails(key: Key, l: Limit, ttl: int, first: seq<Call>)
    requires l.capacity > 0 && l.rate > 0.0 && ttl > 0 && !Refills(l, ttl) && Positive(first)
    requires key in RunForever(map[], first, ttl).0 && RunForever(map[], first, ttl).0[key] == Bucket(0.0, 0, ttl)
    requires Positive(first + Copies(Call(key, ttl, l), l.capacity))
    ensures !AllAllowed(RunForever(map[], first + Copies(Call(key, ttl, l), l.capacity), ttl).1)
  {
    var c := Call(key, ttl, l);
    RefillFallsShort(l, ttl, ttl);
    if AllAllowed(RunForever(map[], first + Copies(c, l.capacity), ttl).1) {
      BurstOnKept(first, c, l.capacity, ttl);
    }
  }

  lemma KeptDeniesSecond(key: Key, l: Limit, ttl: int)
    requires l.capacity > 0 && l.rate > 0.0 && ttl > 0 && !Refills(l, ttl)
    ensures !AllAllowed(RunForever(map[], TwoBursts(key, l, ttl), ttl).1)
  {
    var first, c := Copies(Call(key, 0, l), l.capacity), Call(key, ttl, l);
    if AllAllowed(RunForever(map[], first + Copies(c, l.capacity), ttl).1) {
      BurstOnKept(first, c, l.capacity, ttl);
      FirstBurstEmpties(key, l, ttl, first);
      SecondBurstFails(key, l, ttl, first);
    }
  }

  lemma TwoBurstsAreOrdered(key: Key, l: Limit, ttl: int)
    requires l.capacity > 0 && ttl > 0
    ensures Ordered(TwoBursts(key, l, ttl)) && forall i :: 0 <= i < |TwoBursts(key, l, ttl)| ==> TwoBursts(key, l, ttl)[i].limit == l
  {
    var first, second := Copies(Call(key, 0, l), l.capacity), Copies(Call(key, ttl, l), l.capacity);
    assert forall i :: 0 <= i < |first + second| ==> (first + second)[i] == if i < l.capacity then first[i] else second[i - l.capacity];
  }

  lemma EvictionShows(l: Limit, ttl: int)
    requires l.capacity > 0 && l.rate > 0.0 && ttl > 0 && !Refills(l, ttl)
    ensures !Unobservable(l, ttl)
  {
    var key: Key := "message:user:a";
    PrunedAllowsBoth(key, l, ttl);
    KeptDeniesSecond(key, l, ttl);
    TwoBurstsAreOrdered(key, l, ttl);
  }

  /** For a fixed limit, eviction is unobservable on every run if and only if the
      bucket would refill within the row lifetime. */
  lemma UnobservableIffRefills(l: Limit, ttl: int)
    requires l.capacity > 0 && l.rate > 0.0 && ttl > 0
    ensures Unobservable(l, ttl) <==> Refills(l, ttl)
  {
    if Refills(l, ttl) {
      forall calls: seq<Call> | Ordered(calls) && forall i :: 0 <= i < |calls| ==> calls[i].limit == l
        ensures Run(map[], calls, ttl).1 == RunForever(map[], calls, ttl).1
      {
        SameAnswers(calls, ttl);
      }
    } else {
      EvictionShows(l, ttl);
    }
  }

  // ----- Retry-After -----

  // The least whole number of seconds after which `tokens` have grown to a whole token.
  function AdmissionDelay(tokens: real, rate: real): (n: nat)
    requires tokens < 1.0 && rate > 0.0
    ensures n >= 1 && tokens + Yield(rate, n) >= 1.0 > tokens + Yield(rate, n - 1)
  {
    var x := (1.0 - tokens) / rate;
    var n := if x.Floor as real == x then x.Floor else x.Floor + 1;
    assert x > 0.0 && x * rate == 1.0 - tokens;
    WholeSeconds(rate, x, n);
    n
  }

  lemma WholeSeconds(rate: real, x: real, n: int)
    requires rate > 0.0 && n as real >= x > (n - 1) as real && x > 0.0
    ensures n >= 1 && Yield(rate, n) >= x * rate > Yield(rate, n - 1)
  {
    YieldIsIncome(rate, n);
    YieldIsIncome(rate, n - 1);
    IncomeAtLeast(n, x, rate);
    IncomeBelow(n - 1, x, rate);
  }

  lemma WaitIsTight(tokens: real, rate: real)
    requires tokens < 1.0 && rate > 0.0
    ensures var n := AdmissionDelay(tokens, rate);
      1 <= Wait(tokens, rate) && n - 1 <= Wait(tokens, rate) <= n
  {
  }

  // A denied bucket grows to a whole token before its row can expire if one token comes in
  // during the row lifetime.
  lemma DelayWithinLifetime(tokens: real, rate: real, ttl: nat)
    requires 0.0 <= tokens < 1.0 && rate > 0.0 && Yield(rate, ttl) >= 1.0
    ensures AdmissionDelay(tokens, rate) <= ttl
  {
    var n := AdmissionDelay(tokens, rate);
    if n - 1 >= ttl {
      YieldMonotone(rate, ttl, n - 1);
    }
  }

  // The row of a key that held `tokens` at `start` and has only been polled since.
  ghost predicate Polled(t: Table, key: Key, tokens: real, start: int, l: Limit, ttl: int, n: int) {
    && key in t && start <= t[key].updated < start + n
    && t[key].tokens == tokens + Yield(l.rate, t[key].updated - start)
    && t[key].expires == t[key].updated + ttl
  }

  lemma RefillPolled(b: Bucket, tokens: real, start: int, l: Limit, now: int)
    requires l.rate > 0.0 && start <= b.updated <= now && b.tokens == tokens + Yield(l.rate, b.updated - start)
    ensures var grown := tokens + Yield(l.rate, now - start);
      Refill(b, now, l) == if now > b.updated then MinReal(l.capacity as real, grown) else grown
  {
    YieldAdds(l.rate, b.updated - start, now - b.updated);
    RefillIsYield(b, now, l);
  }

  // A call before the admission time is denied if it is on the key, and changes nothing.
  lemma PollIsHarmless(t: Table, key: Key, tokens: real, start: int, l: Limit, ttl: int, c: Call)
    requires tokens < 1.0 && l.capacity >= 1 && l.rate > 0.0 && AdmissionDelay(tokens, l.rate) <= ttl && c.limit.rate > 0.0
    requires Polled(t, key, tokens, start, l, ttl, AdmissionDelay(tokens, l.rate))
    requires t[key].updated <= c.now < start + AdmissionDelay(tokens, l.rate) && (c.key == key ==> c.limit == l)
    ensures var (u, a) := Take(t, c.key, c.now, c.limit, ttl);
      && Polled(u, key, tokens, start, l, ttl, AdmissionDelay(tokens, l.rate)) && u[key].updated <= c.now
      && (c.key == key ==> a.Denied?)
  {
    var n := AdmissionDelay(tokens, l.rate);
    assert key in Unexpired(t, c.now);
    if c.key == key {
      RefillPolled(t[key], tokens, start, l, c.now);
      YieldMonotone(l.rate, c.now - start, n - 1);
    }
  }

  lemma AdmittedInTime(t: Table, key: Key, tokens: real, start: int, l: Limit, ttl: int)
    requires tokens < 1.0 && l.capacity >= 1 && l.rate > 0.0 && AdmissionDelay(tokens, l.rate) <= ttl
    requires Polled(t, key, tokens, start, l, ttl, AdmissionDelay(tokens, l.rate))
    ensures Take(t, key, start + AdmissionDelay(tokens, l.rate), l, ttl).1 == Allowed
  {
    RefillPolled(t[key], tokens, start, l, start + AdmissionDelay(tokens, l.rate));
  }

  // Calls made in [from, to) that use the limit `l` on `key` and any limit elsewhere.
  ghost predicate Polls(calls: seq<Call>, key: Key, l: Limit, from: int, to: int) {
    && Ordered(calls) && Positive(calls)
    && forall i :: 0 <= i < |calls| ==> from <= calls[i].now < to && (calls[i].key == key ==> calls[i].limit == l)
  }

  ghost predicate KeyDenied(calls: seq<Call>, answers: seq<Answer>, key: Key)
    requires |calls| == |answers|
  {
    forall i :: 0 <= i < |calls| && calls[i].key == key ==> answers[i].Denied?
  }

  lemma {:induction false} PollingIsHarmless(t: Table, key: Key, tokens: real, start: int, l: Limit, ttl: int, calls: seq<Call>)
    requires tokens < 1.0 && l.capacity >= 1 && l.rate > 0.0 && AdmissionDelay(tokens, l.rate) <= ttl
    requires Polled(t, key, tokens, start, l, ttl, AdmissionDelay(tokens, l.rate)) && t[key].updated == start
    requires Polls(calls, key, l, start, start + AdmissionDelay(tokens, l.rate))
    ensures var (u, answers) := Run(t, calls, ttl);
      && Polled(u, key, tokens, start, l, ttl, AdmissionDelay(tokens, l.rate))
      && u[key].updated <= (if calls == [] then start else calls[|calls| - 1].now)
      && KeyDenied(calls, answers, key)
  {
    if calls != [] {
      var n := |calls| - 1;
      PollingIsHarmless(t, key, tokens, start, l, ttl, calls[..n]);
      PollIsHarmless(Run(t, calls[..n], ttl).0, key, tokens, start, l, ttl, calls[n]);
      var before := Run(t, calls[..n], ttl).1;
      assert forall i :: 0 <= i < n ==> calls[..n][i] == calls[i];
    }
  }

  ghost predicate NonNegative(t: Table) {
    forall k :: k in t ==> t[k].tokens >= 0.0
  }

  // Limits as any configuration gives them.
  ghost predicate Sane(calls: seq<Call>) {
    Positive(calls) && forall i :: 0 <= i < |calls| ==> calls[i].limit.capacity >= 0
  }

  lemma {:induction false} RunNonNegative(calls: seq<Call>, ttl: int)
    requires Sane(calls)
    ensures NonNegative(Run(map[], calls, ttl).0)
  {
    if calls != [] {
      var n := |calls| - 1;
      RunNonNegative(calls[..n], ttl);
      TakeNonNegative(Run(map[], calls[..n], ttl).0, calls[n], ttl);
    }
  }

  lemma TakeNonNegative(t: Table, c: Call, ttl: int)
    requires NonNegative(t) && c.limit.rate > 0.0 && c.limit.capacity >= 0
    ensures NonNegative(Take(t, c.key, c.now, c.limit, ttl).0)
  {
    if c.key in t && c.now > t[c.key].updated {
      RefillIsYield(t[c.key], c.now, c.limit);
      YieldGrows(c.limit.rate, c.now - t[c.key].updated);
    }
  }

  // The tokens that a call finds in the bucket of its key.
  function Found(t: Table, key: Key, now: int, l: Limit): real {
    if key in Unexpired(t, now) then Refill(t[key], now, l) else l.capacity as real
  }

  lemma DeniedBucket(t: Table, key: Key, now: int, l: Limit, ttl: int)
    requires NonNegative(t) && l.capacity >= 1 && l.rate > 0.0 && Take(t, key, now, l, ttl).1.Denied?
    ensures 0.0 <= Found(t, key, now, l) < 1.0
    ensures Take(t, key, now, l, ttl).1.wait == Wait(Found(t, key, now, l), l.rate)
    ensures Take(t, key, now, l, ttl).0[key] == Bucket(Found(t, key, now, l), now, now + ttl)
  {
    assert key in Unexpired(t, now);
    if now > t[key].updated {
      RefillIsYield(t[key], now, l);
      YieldGrows(l.rate, now - t[key].updated);
    }
  }

  // The wait that a denied call gets, and what becomes of the calls that follow it: with n
  // the admission delay of the tokens it found, the wait is n or n - 1 and at least 1; every
  // call on the key before n seconds have passed is denied, whatever other keys do
  // meanwhile; and a call after exactly n seconds is allowed.
  ghost predicate Tight(t: Table, key: Key, now: int, l: Limit, ttl: int, polls: seq<Call>)
    requires l.rate > 0.0 && Found(t, key, now, l) < 1.0
  {
    var (u, answer) := Take(t, key, now, l, ttl);
    var n := AdmissionDelay(Found(t, key, now, l), l.rate);
    && answer.Denied? && 1 <= answer.wait && n - 1 <= answer.wait <= n
    && (Polls(polls, key, l, now, now + n) ==>
          && KeyDenied(polls, Run(u, polls, ttl).1, key)
          && Take(Run(u, polls, ttl).0, key, now + n, l, ttl).1 == Allowed)
  }

  lemma DeniedThenPolled(t: Table, key: Key, now: int, l: Limit, ttl: int, polls: seq<Call>)
    requires NonNegative(t) && l.capacity >= 1 && l.rate > 0.0 && Take(t, key, now, l, ttl).1.Denied?
    ensures 0.0 <= Found(t, key, now, l) < 1.0
    ensures AdmissionDelay(Found(t, key, now, l), l.rate) <= ttl ==> Tight(t, key, now, l, ttl, polls)
  {
    DeniedBucket(t, key, now, l, ttl);
    var tokens := Found(t, key, now, l);
    var n := AdmissionDelay(tokens, l.rate);
    WaitIsTight(tokens, l.rate);
    var u := Take(t, key, now, l, ttl).0;
    if n <= ttl && Polls(polls, key, l, now, now + n) {
      PollingIsHarmless(u, key, tokens, now, l, ttl, polls);
      AdmittedInTime(Run(u, polls, ttl).0, key, tokens, now, l, ttl);
    }
  }

  // The call that comes when the row has just expired, before its tokens have grown.
  function Early(key: Key, now: int, l: Limit, ttl: int): Call {
    Call(key, if ttl > 0 then now + ttl else now, l)
  }

  lemma EarlyIsAllowed(t: Table, key: Key, now: int, l: Limit, ttl: int)
    requires NonNegative(t) && l.capacity >= 1 && l.rate > 0.0 && Take(t, key, now, l, ttl).1.Denied?
    ensures var polls := [Early(key, now, l, ttl)];
      Positive(polls) && Run(Take(t, key, now, l, ttl).0, polls, ttl).1 == [Allowed]
  {
    DeniedBucket(t, key, now, l, ttl);
    var u, c := Take(t, key, now, l, ttl).0, Early(key, now, l, ttl);
    assert key !in Unexpired(u, c.now);
    assert Take(u, key, c.now, l, ttl).1 == Allowed;
    assert [c][..0] == [];
    assert Run(u, [], ttl) == (u, []);
    assert Run(u, [c], ttl).1 == [] + [Allowed];
  }

  ghost predicate AlwaysTight(t: Table, key: Key, now: int, l: Limit, ttl: int)
    requires l.rate > 0.0 && Found(t, key, now, l) < 1.0
  {
    forall polls: seq<Call> :: Tight(t, key, now, l, ttl, polls)
  }

  lemma LateTokenIsNotTight(t: Table, key: Key, now: int, l: Limit, ttl: int)
    requires NonNegative(t) && l.capacity >= 1 && l.rate > 0.0 && Take(t, key, now, l, ttl).1.Denied?
    requires Found(t, key, now, l) < 1.0 && AdmissionDelay(Found(t, key, now, l), l.rate) > ttl
    ensures !Tight(t, key, now, l, ttl, [Early(key, now, l, ttl)])
  {
    var polls, n := [Early(key, now, l, ttl)], AdmissionDelay(Found(t, key, now, l), l.rate);
    EarlyIsAllowed(t, key, now, l, ttl);
    assert Polls(polls, key, l, now, now + n);
    assert polls[0].key == key && Run(Take(t, key, now, l, ttl).0, polls, ttl).1[0] == Allowed;
  }

  // An empty limit admits nobody later, whatever the wait says.
  lemma NothingIsNotTight(t: Table, key: Key, now: int, l: Limit, ttl: int)
    requires NonNegative(t) && l.capacity == 0 && l.rate > 0.0 && Take(t, key, now, l, ttl).1.Denied?
    ensures 0.0 <= Found(t, key, now, l) < 1.0 && !Tight(t, key, now, l, ttl, [])
  {
    if key in Unexpired(t, now) && now > t[key].updated {
      RefillIsYield(t[key], now, l);
      YieldGrows(l.rate, now - t[key].updated);
    }
    var tokens := Found(t, key, now, l);
    var u, n := Take(t, key, now, l, ttl).0, AdmissionDelay(tokens, l.rate);
    assert u[key] == Bucket(tokens, now, now + ttl);
    assert Found(u, key, now + n, l) <= 0.0;
    assert Run(u, [], ttl) == (u, []);
  }

  /** After every run and for every denied call: Retry-After is tight and polling harmless,
      for whatever calls follow, if and only if the limit holds a token at all and the key's
      next one comes in before its row expires. Otherwise a caller who stays quiet is
      admitted earlier than told, by the expiry, and one who polls keeps the row and waits
      longer. */
  lemma RetryAfterIsTightIff(calls: seq<Call>, key: Key, now: int, l: Limit, ttl: int)
    requires Sane(calls) && l.capacity >= 0 && l.rate > 0.0
    requires Take(Run(map[], calls, ttl).0, key, now, l, ttl).1.Denied?
    ensures 0.0 <= Found(Run(map[], calls, ttl).0, key, now, l) < 1.0
    ensures var t := Run(map[], calls, ttl).0;
      AlwaysTight(t, key, now, l, ttl)
      <==> l.capacity >= 1 && AdmissionDelay(Found(t, key, now, l), l.rate) <= ttl
  {
    var t := Run(map[], calls, ttl).0;
    RunNonNegative(calls, ttl);
    if l.capacity == 0 {
      NothingIsNotTight(t, key, now, l, ttl);
      return;
    }
    DeniedThenPolled(t, key, now, l, ttl, []);
    if AdmissionDelay(Found(t, key, now, l), l.rate) <= ttl {
      forall polls: seq<Call>
        ensures Tight(t, key, now, l, ttl, polls)
      {
        DeniedThenPolled(t, key, now, l, ttl, polls);
      }
    } else {
      LateTokenIsNotTight(t, key, now, l, ttl);
    }
  }

  // The limit is tight after every run of calls with whatever limits.
  ghost predicate TightAfter(calls: seq<Call>, key: Key, now: int, l: Limit, ttl: int)
    requires Positive(calls) && l.rate > 0.0
  {
    var t := Run(map[], calls, ttl).0;
    Take(t, key, now, l, ttl).1.Denied? ==> Found(t, key, now, l) < 1.0 && AlwaysTight(t, key, now, l, ttl)
  }

  ghost predicate TightOnAllRuns(l: Limit, ttl: int)
    requires l.rate > 0.0
  {
    forall calls: seq<Call>, key: Key, now: int :: Sane(calls) ==> TightAfter(calls, key, now, l, ttl)
  }

  lemma TightEverywhere(calls: seq<Call>, key: Key, now: int, l: Limit, ttl: nat)
    requires Sane(calls) && l.capacity >= 1 && l.rate > 0.0 && Yield(l.rate, ttl) >= 1.0
    ensures TightAfter(calls, key, now, l, ttl)
  {
    var t := Run(map[], calls, ttl).0;
    if Take(t, key, now, l, ttl).1.Denied? {
      RetryAfterIsTightIff(calls, key, now, l, ttl);
      DelayWithinLifetime(Found(t, key, now, l), l.rate, ttl);
    }
  }

  // Empty a bucket and call once more.
  lemma NotTightSomewhere(key: Key, l: Limit, ttl: nat)
    requires l.capacity >= 0 && l.rate > 0.0 && ttl > 0 && (l.capacity == 0 || Yield(l.rate, ttl) < 1.0)
    ensures Sane(Copies(Call(key, 0, l), l.capacity)) && !TightAfter(Copies(Call(key, 0, l), l.capacity), key, 0, l, ttl)
  {
    var calls := Copies(Call(key, 0, l), l.capacity);
    if l.capacity == 0 {
      assert calls == [];
      NothingIsNotTight(Run(map[], calls, ttl).0, key, 0, l, ttl);
      return;
    }
    assert [] + calls == calls;
    BurstOnPruned([], Call(key, 0, l), l.capacity, ttl);
    var t := Run(map[], calls, ttl).0;
    assert t[key] == Bucket(0.0, 0, ttl) && Found(t, key, 0, l) == 0.0;
    var n := AdmissionDelay(0.0, l.rate);
    if n <= ttl {
      YieldMonotone(l.rate, n, ttl);
    }
    RetryAfterIsTightIff(calls, key, 0, l, ttl);
  }

  /** For a fixed limit this holds after every run if and only if the limit holds a token and
      one comes in during the row lifetime. */
  lemma TightOnAllRunsIff(l: Limit, ttl: nat)
    requires l.capacity >= 0 && l.rate > 0.0 && ttl > 0
    ensures TightOnAllRuns(l, ttl) <==> l.capacity >= 1 && Yield(l.rate, ttl) >= 1.0
  {
    if l.capacity >= 1 && Yield(l.rate, ttl) >= 1.0 {
      forall calls: seq<Call>, key: Key, now: int | Sane(calls)
        ensures TightAfter(calls, key, now, l, ttl)
      {
        TightEverywhere(calls, key, now, l, ttl);
      }
    } else {
      NotTightSomewhere("message:user:a", l, ttl);
    }
  }

  /** One token per 10 hours and a row lifetime of 6 hours: a denied caller is told to wait
      36000 seconds, is admitted after 21600 if it stays quiet, and is still denied then if
      it has polled in between. */
  lemma PollingDoesHarm(key: Key)
    ensures var l, ttl := Limit(1, 1.0 / 36000.0), 21600;
      var t := Run(map[], [Call(key, 0, l)], ttl).0;
      var (u, answer) := Take(t, key, 0, l, ttl);
      && answer == Denied(36000)
      && Take(u, key, 21600, l, ttl).1 == Allowed
      && Take(Take(u, key, 21599, l, ttl).0, key, 21600, l, ttl).1.Denied?
  {
    var l, ttl := Limit(1, 1.0 / 36000.0), 21600;
    var empty: Table := map[];
    assert [Call(key, 0, l)][..0] == [] && Run(empty, [], ttl) == (empty, []) && Unexpired(empty, 0) == empty;
    var t := Run(map[], [Call(key, 0, l)], ttl).0;
    assert t == empty[key := Bucket(0.0, 0, 21600)];
    var u := Take(t, key, 0, l, ttl).0;
    assert u[key] == Bucket(0.0, 0, 21600);
    var v := Take(u, key, 21599, l, ttl).0;
    assert v[key] == Bucket(21599.0 / 36000.0, 21599, 43199);
  }
}
