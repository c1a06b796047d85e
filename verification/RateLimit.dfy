/** Intra-day smoothing of the serving reserve (`backend/quota/governor.py`, `TokenBucket`). Amounts and
    times are reals. */
module RateLimit {
  import opened Domain
  import opened Quota

  datatype Plan = Plan(capacity: real, rate: real)

  datatype Bucket = Bucket(tokens: real, last: Option<real>)

  /** The bucket after topping up to time `now`. A first use only starts the clock. */
  function Refilled(plan: Plan, b: Bucket, now: real): Bucket {
    if b.last.None? then b.(last := Some(now))
    else
      var elapsed := if now - b.last.value > 0.0 then now - b.last.value else 0.0;
      var more := b.tokens + elapsed * plan.rate;
      Bucket(if more < plan.capacity then more else plan.capacity, Some(now))
  }

  function Accepts(plan: Plan, b: Bucket, amount: real, now: real): bool {
    Refilled(plan, b, now).tokens >= amount
  }

  function Consumed(plan: Plan, b: Bucket, amount: real, now: real): Bucket {
    var r := Refilled(plan, b, now);
    if r.tokens >= amount then r.(tokens := r.tokens - amount) else r
  }

  /** A request is granted exactly when it is within what was there and has flowed in since, and within a full bucket;
      the first request after a start or a full refill finds what was there, and so does one with the clock put back. */
  lemma GrantedWithinInflow(plan: Plan, b: Bucket, amount: real, now: real)
    requires Level(plan, b) && plan.rate >= 0.0
    ensures b.last.Some? && b.last.value <= now ==>
              (Accepts(plan, b, amount, now) <==>
               amount <= plan.capacity && amount <= b.tokens + (now - b.last.value) * plan.rate)
    ensures b.last.None? || now < b.last.value ==> (Accepts(plan, b, amount, now) <==> amount <= b.tokens)
    ensures Accepts(plan, b, amount, now) ==>
              Consumed(plan, b, amount, now).tokens + amount == Consumed(plan, b, 0.0, now).tokens
  {
    RefillKeepsLevel(plan, b, now);
  }

  ghost predicate Level(plan: Plan, b: Bucket) { 0.0 <= b.tokens <= plan.capacity }

  class TokenBucket {
    const plan: Plan
    var tokens: real
    var last: Option<real>

    function State(): Bucket
      reads this
    {
      Bucket(tokens, last)
    }

    constructor (capacity: real, rate: real, startFull: bool := true)
      ensures plan == Plan(capacity, rate)
      ensures State() == Bucket(if startFull then capacity else 0.0, None)
    {
      plan := Plan(capacity, rate);
      tokens := if startFull then capacity else 0.0;
      last := None;
    }

    method TryConsume(amount: real, now: real) returns (accepted: bool)
      modifies this
      ensures accepted <==> Accepts(plan, old(State()), amount, now)
      ensures State() == Consumed(plan, old(State()), amount, now)
    {
      Refill(now);
      if tokens >= amount {
        tokens := tokens - amount;
        return true;
      }
      return false;
    }

    method RefillFull()
      modifies this
      ensures State() == Bucket(plan.capacity, None)
    {
      tokens, last := plan.capacity, None;
    }

    method Refill(now: real)
      modifies this
      ensures State() == Refilled(plan, old(State()), now)
    {
      if last.None? {
        last := Some(now);
        return;
      }
      var elapsed := if now - last.value > 0.0 then now - last.value else 0.0;
      var more := tokens + elapsed * plan.rate;
      tokens := if more < plan.capacity then more else plan.capacity;
      last := Some(now);
    }
  }

  // ----- Runs -----

  datatype Use = TryConsume(amount: real, now: real) | RefillFull

  function After(plan: Plan, b: Bucket, use: Use): Bucket {
    match use
    case TryConsume(amount, now) => Consumed(plan, b, amount, now)
    case RefillFull => Bucket(plan.capacity, None)
  }

  function Run(plan: Plan, b: Bucket, uses: seq<Use>): Bucket
    decreases |uses|
  {
    if uses == [] then b else Run(plan, After(plan, b, uses[0]), uses[1..])
  }

  ghost predicate Sensible(plan: Plan, uses: seq<Use>) {
    && plan.rate >= 0.0 && plan.capacity >= 0.0
    && forall i :: 0 <= i < |uses| && uses[i].TryConsume? ==> uses[i].amount >= 0.0
  }

  lemma RefillKeepsLevel(plan: Plan, b: Bucket, now: real)
    requires plan.rate >= 0.0 && Level(plan, b)
    ensures Level(plan, Refilled(plan, b, now))
  {
    if b.last.Some? && now > b.last.value {
      assert (now - b.last.value) * plan.rate >= 0.0;
    }
  }

  /** The level never leaves its bounds, under any clock. */
  lemma {:induction false} LevelIsKept(plan: Plan, b: Bucket, uses: seq<Use>)
    requires Sensible(plan, uses) && Level(plan, b)
    ensures Level(plan, Run(plan, b, uses))
    decreases |uses|
  {
    if uses != [] {
      if uses[0].TryConsume? {
        RefillKeepsLevel(plan, b, uses[0].now);
      }
      LevelIsKept(plan, After(plan, b, uses[0]), uses[1..]);
    }
  }

  /** No full refill, and a clock that never goes back. */
  ghost predicate Steady(b: Bucket, uses: seq<Use>) {
    && (forall i :: 0 <= i < |uses| ==> uses[i].TryConsume?)
    && (forall i, j :: 0 <= i < j < |uses| && uses[i].TryConsume? && uses[j].TryConsume? ==> uses[i].now <= uses[j].now)
    && (b.last.Some? ==> forall i :: 0 <= i < |uses| && uses[i].TryConsume? ==> b.last.value <= uses[i].now)
  }

  /** Amount accepted between two times, both included. */
  function AcceptedWithin(plan: Plan, b: Bucket, uses: seq<Use>, from: real, to: real): real
    decreases |uses|
  {
    if uses == [] then 0.0
    else
      Taken(plan, b, uses[0], from, to) + AcceptedWithin(plan, After(plan, b, uses[0]), uses[1..], from, to)
  }

  lemma NextIsSteady(plan: Plan, b: Bucket, uses: seq<Use>)
    requires Sensible(plan, uses) && Steady(b, uses) && uses != []
    ensures Sensible(plan, uses[1..]) && Steady(After(plan, b, uses[0]), uses[1..])
  {}

  /** What flows in over a span of time. */
  function Inflow(plan: Plan, from: real, to: real): real { (to - from) * plan.rate }

  lemma InflowSplits(plan: Plan, a: real, b: real, c: real)
    ensures Inflow(plan, a, b) + Inflow(plan, b, c) == Inflow(plan, a, c)
  {}

  lemma InflowGrows(plan: Plan, a: real, b: real, c: real)
    requires plan.rate >= 0.0 && a <= b
    ensures Inflow(plan, b, c) <= Inflow(plan, a, c)
    ensures b <= c ==> Inflow(plan, b, c) >= 0.0
  {}

  /** What one request takes and leaves is no more than was there and flowed in, nor than a full bucket. */
  lemma OneUse(plan: Plan, b: Bucket, use: Use, from: real, to: real)
    requires plan.rate >= 0.0 && Level(plan, b) && use.TryConsume? && use.amount >= 0.0
    requires b.last.Some? ==> b.last.value <= use.now
    ensures var taken := Taken(plan, b, use, from, to);
            var c := After(plan, b, use);
            && Level(plan, c) && c.last == Some(use.now) && 0.0 <= taken && taken + c.tokens <= plan.capacity
            && (!(from <= use.now <= to) ==> taken == 0.0)
            && (b.last.Some? ==> taken + c.tokens <= b.tokens + Inflow(plan, b.last.value, use.now))
  {
    RefillKeepsLevel(plan, b, use.now);
    if b.last.Some? {
      InflowGrows(plan, b.last.value, b.last.value, use.now);
    }
  }

  function Taken(plan: Plan, b: Bucket, use: Use, from: real, to: real): real {
    if use.TryConsume? && from <= use.now <= to && Accepts(plan, b, use.amount, use.now) then use.amount else 0.0
  }

  /** From a running clock on, no more is accepted than is there and flows in. */
  lemma {:induction false} AcceptedFromLevel(plan: Plan, b: Bucket, uses: seq<Use>, from: real, to: real)
    requires Sensible(plan, uses) && Steady(b, uses) && Level(plan, b) && b.last.Some?
    ensures b.last.value <= to ==> AcceptedWithin(plan, b, uses, from, to) <= b.tokens + Inflow(plan, b.last.value, to)
    ensures b.last.value > to ==> AcceptedWithin(plan, b, uses, from, to) <= 0.0
    decreases |uses|
  {
    if uses == [] {
      InflowGrows(plan, b.last.value, b.last.value, to);
    } else {
      var use, now := uses[0], uses[0].now;
      var c := After(plan, b, use);
      NextIsSteady(plan, b, uses);
      OneUse(plan, b, use, from, to);
      AcceptedFromLevel(plan, c, uses[1..], from, to);
      InflowSplits(plan, b.last.value, now, to);
      InflowGrows(plan, b.last.value, b.last.value, to);
    }
  }

  /** Between any two times at most a full bucket and the inflow of that span is accepted. */
  lemma {:induction false} RateIsBounded(plan: Plan, b: Bucket, uses: seq<Use>, from: real, to: real)
    requires Sensible(plan, uses) && Steady(b, uses) && Level(plan, b) && from <= to
    ensures AcceptedWithin(plan, b, uses, from, to) <= plan.capacity + Inflow(plan, from, to)
    decreases |uses|
  {
    InflowGrows(plan, from, from, to);
    if uses != [] {
      var use, now := uses[0], uses[0].now;
      var c := After(plan, b, use);
      NextIsSteady(plan, b, uses);
      OneUse(plan, b, use, from, to);
      if now < from {
        RateIsBounded(plan, c, uses[1..], from, to);
      } else {
        AcceptedFromLevel(plan, c, uses[1..], from, to);
        InflowGrows(plan, from, now, to);
      }
    }
  }

  // ----- Serving decisions -----

  function ServingAvailable(config: QuotaConfig, spentServing: int): int {
    if config.ServingReserve() - spentServing < 0 then 0 else config.ServingReserve() - spentServing
  }

  lemma ServingIsRingFenced(config: QuotaConfig, spentServing: int, cost: int)
    requires config.Valid()
    ensures cost > 0 ==> (cost <= ServingAvailable(config, spentServing) <==>
                          config.IndexingBudget() + spentServing + cost <= config.monthlyBudget)
    ensures spentServing <= config.ServingReserve() ==>
              ServingAvailable(config, spentServing) + spentServing == config.ServingReserve()
    ensures spentServing >= config.ServingReserve() ==> ServingAvailable(config, spentServing) == 0
  {}

  /** Serving draws its own reserve, then the bucket. Refusal by the reserve leaves the bucket alone, and no
      indexing spend enters the decision. */
  method CheckServing(pool: QuotaPool, bucket: TokenBucket, cost: int, now: real) returns (proceed: bool)
    modifies bucket
    ensures proceed <==> (cost <= ServingAvailable(pool.config, pool.spentServing)
                          && Accepts(bucket.plan, old(bucket.State()), cost as real, now))
    ensures cost > ServingAvailable(pool.config, pool.spentServing) ==> bucket.State() == old(bucket.State())
    ensures cost <= ServingAvailable(pool.config, pool.spentServing) ==>
              bucket.State() == Consumed(bucket.plan, old(bucket.State()), cost as real, now)
  {
    if cost > ServingAvailable(pool.config, pool.spentServing) {
      return false;
    }
    proceed := bucket.TryConsume(cost as real, now);
  }
}
