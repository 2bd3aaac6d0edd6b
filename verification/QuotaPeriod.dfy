/** Plan limits and the bucket of time a generation counts against. */
module QuotaPeriod {
  import opened Prelude

  const PERIOD_MS := 30 * 24 * 3600 * 1000

  function PlanLimit(plan: string): nat {
    match plan
    case "free" => 3
    case "starter" => 50
    case "professional" => 250
    case "agency" => 1_000_000
    case "enterprise" => 1_000_000
    case _ => 0
  }

  // The number of whole periods since sign-up; negative before it.
  function Cycle(createdAt: int, now: int): int { (now - createdAt) / PERIOD_MS }

  function ComputePeriodStart(createdAt: int, periodEnd: Option<int>, now: int): int {
    if periodEnd.Some? then periodEnd.value - PERIOD_MS
    else createdAt + Cycle(createdAt, now) * PERIOD_MS
  }

  // Without a subscription the buckets partition time, before sign-up as well: a start names the
  // one bucket that holds exactly the instants of its thirty days, and starts only move forward.
  lemma BucketsPartitionTime(createdAt: int, now: int, later: int)
    requires now <= later
    ensures
      var start := ComputePeriodStart(createdAt, None, now);
      && start <= now < start + PERIOD_MS
      && start <= ComputePeriodStart(createdAt, None, later)
      && (ComputePeriodStart(createdAt, None, later) == start <==> later < start + PERIOD_MS)
      && ComputePeriodStart(createdAt, None, start) == start
  {
    CycleBounds(createdAt, now);
    CycleBounds(createdAt, later);
    CycleBounds(createdAt, createdAt + Cycle(createdAt, now) * PERIOD_MS);
  }

  lemma CycleBounds(createdAt: int, now: int)
    ensures createdAt + Cycle(createdAt, now) * PERIOD_MS <= now < createdAt + (Cycle(createdAt, now) + 1) * PERIOD_MS
  {
  }

  // With a subscription the bucket is the thirty days up to its period end, whatever the clock: it
  // ends there, holds every moment of those days, and is another one for another end.
  lemma SubscriptionBucket(createdAt: int, end: int, now: int, moment: int, other: int)
    ensures
      var start := ComputePeriodStart(createdAt, Some(end), now);
      && start + 30 * 24 * 3600 * 1000 == end
      && (end - 30 * 24 * 3600 * 1000 <= moment < end <==> start <= moment < start + PERIOD_MS)
      && (ComputePeriodStart(createdAt, Some(other), now) == start <==> other == end)
  {
  }

  // Three generations to begin with, more with each plan up to a million; a plan that is not listed
  // has none.
  lemma LimitsGrow(plan: string)
    ensures 3 == PlanLimit("free") < PlanLimit("starter") < PlanLimit("professional") < PlanLimit("agency")
    ensures PlanLimit("agency") == PlanLimit("enterprise") == 1_000_000
    ensures PlanLimit("starter") == 50 && PlanLimit("professional") == 250
    ensures PlanLimit(plan) > 0 <==> plan in {"free", "starter", "professional", "agency", "enterprise"}
  {
  }

  // A closed window of length t meets at most t / 30d + 2 buckets.
  lemma BucketsInWindow(createdAt: int, from: int, now: int, to: int)
    requires from <= now <= to
    ensures Cycle(createdAt, from) <= Cycle(createdAt, now) <= Cycle(createdAt, from) + (to - from) / PERIOD_MS + 1
  {
    CycleBounds(createdAt, from);
    CycleBounds(createdAt, now);
  }
}
