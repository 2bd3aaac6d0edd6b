/**
 The generation quota: the atomic reserve of the guard, the release of a failed generation, the
 raise-only backfill, and what they guarantee about a bucket when any number of requests interleave.
 */
module Quota {
  import opened Prelude
  import opened Pricing
  import opened QuotaPeriod

  type OrgId = string

  datatype Bucket = Bucket(org: OrgId, start: int)

  type Counters = map<Bucket, int>

  function UsedIn(used: Counters, b: Bucket): int { if b in used then used[b] else 0 }

  // ---------- statements ----------

  // INSERT .. 1 ON CONFLICT DO UPDATE used + 1 WHERE used < limit
  predicate Admits(used: Counters, b: Bucket, limit: int) { b in used ==> used[b] < limit }

  function Reserve(used: Counters, b: Bucket, limit: int): Counters {
    if Admits(used, b, limit) then used[b := UsedIn(used, b) + 1] else used
  }

  // UPDATE used - 1 WHERE used > 0
  function Release(used: Counters, b: Bucket): Counters {
    if b in used && used[b] > 0 then used[b := used[b] - 1] else used
  }

  // INSERT .. n ON CONFLICT DO UPDATE GREATEST(used, n), for n != 0
  function Raise(used: Counters, b: Bucket, n: nat): Counters {
    if n == 0 then used else used[b := if b in used && used[b] > n then used[b] else n]
  }

  // ---------- the protocol ----------

  // The quota-gated operations.
  datatype Route = Generate | Regenerate | AdjustTone | AdjustPricing | Analyze | Assess

  // Admitted: past the guard, the handler not yet entered.   Running: inside the try block, no log yet.
  // Converting: log committed, still inside the try block, the suggested price not yet a number.
  // Writing: the new version is being written, in a call that is returned without being awaited.
  // Failing: in the catch block, about to release.   LateFailed: the write was rejected, which never
  // reaches the catch block.   Finished: answered.   Abandoned: the request died, was rejected by a
  // pipe, or its release did not go through.
  datatype Stage =
    | Admitted
    | Running(route: Route)
    | Converting
    | Writing
    | Failing
    | Released
    | LateFailed
    | Finished
    | Abandoned

  // What follows the log: the adjustments write a version, pricing converts a number before.
  function AfterLog(route: Route): Stage {
    match route
    case AdjustPricing => Converting
    case AdjustTone => Writing
    case _ => Finished
  }

  datatype Request = Request(bucket: Bucket, readAt: int, stage: Stage, logged: bool)

  datatype State = State(used: Counters, requests: map<nat, Request>)

  datatype SubscriptionRow = SubscriptionRow(status: string, currentPeriodEnd: int)

  // Sign-up times.
  datatype Config = Config(createdAt: map<OrgId, int>)

  datatype Action =
    | Guard(r: nat, org: OrgId, subscription: Option<SubscriptionRow>, limit: int, readAt: int)
    | Enter(r: nat, route: Route)
    | CommitLog(r: nat)
    | Convert(r: nat, suggested: Json)
    | Fail(r: nat)
    | FinishWrite(r: nat)
    | ReleaseSlot(r: nat)
    | Abandon(r: nat)
    | Backfill(bucket: Bucket, n: nat)

  function Move(s: State, r: nat, stage: Stage): State
    requires r in s.requests
  {
    s.(requests := s.requests[r := s.requests[r].(stage := stage)])
  }

  // A subscription that is neither active nor on trial blocks the organisation.
  predicate Blocks(subscription: Option<SubscriptionRow>) {
    subscription.Some? && subscription.value.status !in {"active", "trialing"}
  }

  function PeriodEnd(subscription: Option<SubscriptionRow>): Option<int> {
    if subscription.Some? then Some(subscription.value.currentPeriodEnd) else None
  }

  // No subscription is no obstacle; one that is there must be active or on trial.
  lemma OnlyLiveSubscriptionsPass(subscription: Option<SubscriptionRow>)
    ensures !Blocks(subscription)
       <==> subscription.None? || subscription.value.status == "active" || subscription.value.status == "trialing"
  {
  }

  // The bucket a guard with this clock reading charges.
  function BucketOf(c: Config, a: Action): Bucket
    requires a.Guard? && a.org in c.createdAt
  {
    Bucket(a.org, ComputePeriodStart(c.createdAt[a.org], PeriodEnd(a.subscription), a.readAt))
  }

  // One atomic step; an action whose guard fails changes nothing.
  function Step(c: Config, s: State, a: Action): State {
    match a
    case Guard(r, org, subscription, limit, readAt) =>
      if r in s.requests || org !in c.createdAt || Blocks(subscription) || limit <= 0
          || !Admits(s.used, BucketOf(c, a), limit) then s
      else
        var b := BucketOf(c, a);
        State(Reserve(s.used, b, limit), s.requests[r := Request(b, readAt, Admitted, false)])
    case Backfill(b, n) => s.(used := Raise(s.used, b, n))
    case _ => if a.r in s.requests then RequestStep(s, a.r, a) else s
  }

  function RequestStep(s: State, r: nat, a: Action): State
    requires r in s.requests
  {
    match (a, s.requests[r].stage)
    case (Enter(_, route), Admitted) => Move(s, r, Running(route))
    case (CommitLog(_), Running(route)) =>
      var t := Move(s, r, AfterLog(route));
      t.(requests := t.requests[r := t.requests[r].(logged := true)])
    case (Convert(_, suggested), Converting) => Move(s, r, if NumberThrows(suggested) then Failing else Writing)
    case (Fail(_), Running(_)) => Move(s, r, Failing)
    case (Fail(_), Writing) => Move(s, r, LateFailed)
    case (FinishWrite(_), Writing) => Move(s, r, Finished)
    case (ReleaseSlot(_), Failing) => Move(s, r, Released).(used := Release(s.used, s.requests[r].bucket))
    case (Abandon(_), Admitted) => Move(s, r, Abandoned)
    case (Abandon(_), Running(_)) => Move(s, r, Abandoned)
    case (Abandon(_), Converting) => Move(s, r, Abandoned)
    case (Abandon(_), Writing) => Move(s, r, Abandoned)
    case (Abandon(_), Failing) => Move(s, r, Abandoned)
    case _ => s
  }

  function Exec(c: Config, s: State, tr: seq<Action>): State {
    if tr == [] then s else Step(c, Exec(c, s, tr[..|tr| - 1]), tr[|tr| - 1])
  }

  const EMPTY := State(map[], map[])

  // ---------- slots ----------

  // Reservations charged to b and not given back; those lost to a crash or a rejecting pipe count.
  ghost function Holding(s: State, b: Bucket): set<nat> {
    set r | r in s.requests && s.requests[r].bucket == b && s.requests[r].stage != Released
  }

  ghost function Logs(s: State, b: Bucket): set<nat> {
    set r | r in s.requests && s.requests[r].bucket == b && s.requests[r].logged
  }

  ghost predicate Accounted(s: State, limit: int) {
    forall b :: |Holding(s, b)| <= UsedIn(s.used, b) && |Holding(s, b)| <= limit
  }

  predicate Charges(c: Config, s: State, a: Action, b: Bucket) {
    && a.Guard? && a.org in c.createdAt && !Blocks(a.subscription) && a.limit > 0 && a.r !in s.requests
    && BucketOf(c, a) == b && Admits(s.used, b, a.limit)
  }

  predicate Frees(s: State, a: Action, b: Bucket) {
    a.ReleaseSlot? && a.r in s.requests && s.requests[a.r].stage == Failing && s.requests[a.r].bucket == b
  }

  lemma ChargeStep(c: Config, s: State, a: Action, b: Bucket)
    requires Charges(c, s, a, b)
    ensures
      var t := Step(c, s, a);
      && |Holding(t, b)| == |Holding(s, b)| + 1
      && UsedIn(t.used, b) == UsedIn(s.used, b) + 1 <= a.limit
  {
    Reserved(c, s, a, b);
    HoldingGrows(s, Step(c, s, a), a.r, b, a.readAt);
  }

  lemma HoldingGrows(s: State, t: State, r: nat, b: Bucket, readAt: int)
    requires r !in s.requests && t.requests == s.requests[r := Request(b, readAt, Admitted, false)]
    ensures |Holding(t, b)| == |Holding(s, b)| + 1
  {
    assert Holding(t, b) == Holding(s, b) + {r};
  }

  lemma Reserved(c: Config, s: State, a: Action, b: Bucket)
    requires Charges(c, s, a, b)
    ensures Step(c, s, a) == State(s.used[b := UsedIn(s.used, b) + 1],
              s.requests[a.r := Request(b, a.readAt, Admitted, false)])
  {
  }

  lemma FreeStep(c: Config, s: State, a: Action, b: Bucket)
    requires Frees(s, a, b)
    ensures
      var t := Step(c, s, a);
      && |Holding(t, b)| == |Holding(s, b)| - 1
      && UsedIn(t.used, b) == if UsedIn(s.used, b) > 0 then UsedIn(s.used, b) - 1 else UsedIn(s.used, b)
  {
    assert Holding(Step(c, s, a), b) == Holding(s, b) - {a.r};
  }

  lemma OtherStep(c: Config, s: State, a: Action, b: Bucket)
    requires !Charges(c, s, a, b) && !Frees(s, a, b)
    ensures
      var t := Step(c, s, a);
      && Holding(t, b) == Holding(s, b)
      && UsedIn(t.used, b) >= UsedIn(s.used, b)
      && (!a.Backfill? ==> UsedIn(t.used, b) == UsedIn(s.used, b))
  {
    var t := Step(c, s, a);
    if a.Guard? || a.Backfill? {
      assert Holding(t, b) == Holding(s, b);
    } else if a.r in s.requests {
      OtherRequestStep(s, a, b);
    }
  }

  lemma OtherRequestStep(s: State, a: Action, b: Bucket)
    requires !a.Guard? && !a.Backfill? && a.r in s.requests && !Frees(s, a, b)
    ensures
      var t := RequestStep(s, a.r, a);
      && Holding(t, b) == Holding(s, b)
      && UsedIn(t.used, b) == UsedIn(s.used, b)
  {
    var t := RequestStep(s, a.r, a);
    assert t.requests.Keys == s.requests.Keys && t.requests[a.r].bucket == s.requests[a.r].bucket;
    assert a.r in Holding(t, b) <==> a.r in Holding(s, b);
    assert forall r | r in s.requests && r != a.r :: t.requests[r] == s.requests[r];
    assert Holding(t, b) == Holding(s, b);
  }

  predicate LimitsWithin(tr: seq<Action>, limit: int) {
    forall k | 0 <= k < |tr| && tr[k].Guard? :: tr[k].limit <= limit
  }

  predicate NoBackfill(tr: seq<Action>) { forall k | 0 <= k < |tr| :: !tr[k].Backfill? }

  // Reservations admitted and not released never exceed the counter nor the largest limit in
  // force, in every interleaving; without backfills the counter is exactly their number.
  lemma {:induction false} SlotsAreAccounted(c: Config, tr: seq<Action>, limit: int)
    requires limit >= 1 && LimitsWithin(tr, limit)
    ensures Accounted(Exec(c, EMPTY, tr), limit)
    ensures NoBackfill(tr) ==> forall b :: UsedIn(Exec(c, EMPTY, tr).used, b) == |Holding(Exec(c, EMPTY, tr), b)|
  {
    if tr == [] {
      assert forall b :: Holding(EMPTY, b) == {};
    } else {
      var k := |tr| - 1;
      SlotsAreAccounted(c, tr[..k], limit);
      var s, t := Exec(c, EMPTY, tr[..k]), Exec(c, EMPTY, tr);
      forall b
        ensures |Holding(t, b)| <= UsedIn(t.used, b) && |Holding(t, b)| <= limit
        ensures NoBackfill(tr) ==> UsedIn(t.used, b) == |Holding(t, b)|
      {
        if Charges(c, s, tr[k], b) {
          ChargeStep(c, s, tr[k], b);
        } else if Frees(s, tr[k], b) {
          FreeStep(c, s, tr[k], b);
        } else {
          OtherStep(c, s, tr[k], b);
        }
        assert |Holding(s, b)| <= UsedIn(s.used, b) && |Holding(s, b)| <= limit;
        assert NoBackfill(tr) ==> NoBackfill(tr[..k]) && !tr[k].Backfill?;
      }
    }
  }

  // ---------- what is given back ----------

  predicate GivesBack(s: State, a: Action, r: nat) {
    a == ReleaseSlot(r) && r in s.requests && s.requests[r].stage == Failing
  }

  ghost function ReleaseCount(c: Config, tr: seq<Action>, r: nat): nat {
    if tr == [] then 0
    else
      var n := |tr| - 1;
      ReleaseCount(c, tr[..n], r) + (if GivesBack(Exec(c, EMPTY, tr[..n]), tr[n], r) then 1 else 0)
  }

  // Only its own release takes a request's slot back, and it takes one slot of the bucket the
  // request was charged to.
  lemma ReleaseStep(c: Config, s: State, a: Action, r: nat)
    requires r in s.requests
    ensures
      var t := Step(c, s, a);
      && r in t.requests && t.requests[r].bucket == s.requests[r].bucket
      && (t.requests[r].stage == Released <==> s.requests[r].stage == Released || GivesBack(s, a, r))
      && (GivesBack(s, a, r) ==> t.used == Release(s.used, s.requests[r].bucket) && !(s.requests[r].stage == Released))
  {
  }

  // The price conversion of a request throws: its log is committed, and it fails nevertheless.
  predicate ThrowsNow(s: State, a: Action, r: nat) {
    a.Convert? && a.r == r && r in s.requests && s.requests[r].stage == Converting && NumberThrows(a.suggested)
  }

  predicate Threw(c: Config, tr: seq<Action>, r: nat) {
    tr != [] && (Threw(c, tr[..|tr| - 1], r) || ThrowsNow(Exec(c, EMPTY, tr[..|tr| - 1]), tr[|tr| - 1], r))
  }

  // How the stage, the log and a throwing conversion go together.
  predicate StageTells(q: Request, threw: bool) {
    && (threw ==> q.logged && q.stage in {Failing, Released, Abandoned})
    && (q.logged && !threw ==> q.stage in {Converting, Writing, LateFailed, Finished, Abandoned})
    && (q.stage in {Converting, Writing, LateFailed, Finished} ==> q.logged)
  }

  lemma StageTellsStep(c: Config, s: State, a: Action, r: nat, threw: bool)
    requires r in s.requests && StageTells(s.requests[r], threw)
    ensures r in Step(c, s, a).requests && StageTells(Step(c, s, a).requests[r], threw || ThrowsNow(s, a, r))
  {
  }

  lemma {:induction false} RunsTell(c: Config, tr: seq<Action>, r: nat)
    ensures
      var s := Exec(c, EMPTY, tr);
      && (Threw(c, tr, r) ==> r in s.requests)
      && (r in s.requests ==> StageTells(s.requests[r], Threw(c, tr, r)))
  {
    if tr != [] {
      var n := |tr| - 1;
      var s := Exec(c, EMPTY, tr[..n]);
      RunsTell(c, tr[..n], r);
      if r in s.requests {
        StageTellsStep(c, s, tr[n], r, Threw(c, tr[..n], r));
      }
    }
  }

  // In every run: a request that committed a log gives its slot back, or is about to, if and only if
  // its price conversion threw and it has not been abandoned since.
  lemma LoggedRequestsKeepTheirSlotIff(c: Config, tr: seq<Action>, r: nat)
    requires r in Exec(c, EMPTY, tr).requests && Exec(c, EMPTY, tr).requests[r].logged
    ensures
      var q := Exec(c, EMPTY, tr).requests[r];
      q.stage in {Failing, Released} <==> Threw(c, tr, r) && q.stage != Abandoned
  {
    RunsTell(c, tr, r);
  }

  // In every run a reservation is given back at most once, and has been given back exactly when its
  // request ends up released; such a request logged nothing, or its price conversion threw.
  lemma {:induction false} ReleasedAtMostOnce(c: Config, tr: seq<Action>, r: nat)
    ensures
      var s := Exec(c, EMPTY, tr);
      && ReleaseCount(c, tr, r) <= 1
      && (ReleaseCount(c, tr, r) == 1 <==> r in s.requests && s.requests[r].stage == Released)
      && (ReleaseCount(c, tr, r) == 1 ==> (s.requests[r].logged <==> Threw(c, tr, r)))
  {
    RunsTell(c, tr, r);
    if tr != [] {
      var n := |tr| - 1;
      ReleasedAtMostOnce(c, tr[..n], r);
      if r in Exec(c, EMPTY, tr[..n]).requests {
        ReleaseStep(c, Exec(c, EMPTY, tr[..n]), tr[n], r);
      }
    }
  }

  // ---------- logs ----------

  // The requests charged to b whose price conversion threw.
  ghost function ThrewIn(c: Config, tr: seq<Action>, b: Bucket): set<nat> {
    var s := Exec(c, EMPTY, tr);
    set r | r in s.requests && s.requests[r].bucket == b && Threw(c, tr, r)
  }

  // In every run the logs charged to one bucket exceed the limit by no more than the number of price
  // conversions that threw there.
  lemma LogsWithinLimitAndThrown(c: Config, tr: seq<Action>, limit: int, b: Bucket)
    requires limit >= 1 && LimitsWithin(tr, limit)
    ensures |Logs(Exec(c, EMPTY, tr), b)| <= limit + |ThrewIn(c, tr, b)|
  {
    var s := Exec(c, EMPTY, tr);
    SlotsAreAccounted(c, tr, limit);
    forall r | r in Logs(s, b) ensures r in Holding(s, b) + ThrewIn(c, tr, b) {
      RunsTell(c, tr, r);
    }
    SubsetIsSmaller(Logs(s, b), Holding(s, b) + ThrewIn(c, tr, b));
    UnionIsAtMostTheSum(Holding(s, b), ThrewIn(c, tr, b));
    assert |Holding(s, b)| <= limit;
  }

  ghost predicate NoneThrew(c: Config, tr: seq<Action>) { forall r :: !Threw(c, tr, r) }

  // So without such a conversion they never exceed the limit.
  lemma LogsWithinLimit(c: Config, tr: seq<Action>, limit: int, b: Bucket)
    requires limit >= 1 && LimitsWithin(tr, limit) && NoneThrew(c, tr)
    ensures |Logs(Exec(c, EMPTY, tr), b)| <= limit
  {
    LogsWithinLimitAndThrown(c, tr, limit, b);
    assert ThrewIn(c, tr, b) == {};
  }

  function PricingToLog(r: nat, org: OrgId, now: int): seq<Action> {
    [Guard(r, org, None, 1, now), Enter(r, AdjustPricing), CommitLog(r)]
  }

  function PricingToRelease(r: nat): seq<Action> { [Convert(r, UNCONVERTIBLE), ReleaseSlot(r)] }

  // A pricing request whose answer cannot be converted, from the guard to the release.
  function ThrowingRound(r: nat, org: OrgId, now: int): seq<Action> { PricingToLog(r, org, now) + PricingToRelease(r) }

  function ThrowingRounds(m: nat, org: OrgId, now: int): seq<Action> {
    if m == 0 then [] else ThrowingRounds(m - 1, org, now) + ThrowingRound(m - 1, org, now)
  }

  lemma LoggedPricing(c: Config, s: State, r: nat, org: OrgId, now: int, b: Bucket)
    requires Charges(c, s, Guard(r, org, None, 1, now), b) && UsedIn(s.used, b) == 0
    ensures Exec(c, s, PricingToLog(r, org, now))
         == State(s.used[b := 1], s.requests[r := Request(b, now, Converting, true)])
  {
    var tr := PricingToLog(r, org, now);
    ExecThree(c, s, tr[0], tr[1], tr[2]);
    Reserved(c, s, tr[0], b);
    var s1 := State(s.used[b := 1], s.requests[r := Request(b, now, Admitted, false)]);
    var s2 := Step(c, s1, tr[1]);
    assert s2.requests == s.requests[r := Request(b, now, Running(AdjustPricing), false)];
    assert Step(c, s2, tr[2]).requests == s.requests[r := Request(b, now, Converting, true)];
  }

  lemma ThrownAndReleased(c: Config, s: State, r: nat, b: Bucket, now: int)
    requires r in s.requests && s.requests[r] == Request(b, now, Converting, true) && b in s.used && s.used[b] == 1
    ensures Exec(c, s, PricingToRelease(r))
         == State(s.used[b := 0], s.requests[r := Request(b, now, Released, true)])
  {
    ExecTwo(c, s, Convert(r, UNCONVERTIBLE), ReleaseSlot(r));
    var s1 := State(s.used, s.requests[r := Request(b, now, Failing, true)]);
    assert Step(c, s, Convert(r, UNCONVERTIBLE)) == s1;
    assert Step(c, s1, ReleaseSlot(r)).requests == s.requests[r := Request(b, now, Released, true)];
  }

  lemma OneThrowingRound(c: Config, s: State, r: nat, org: OrgId, now: int, b: Bucket)
    requires Charges(c, s, Guard(r, org, None, 1, now), b) && UsedIn(s.used, b) == 0
    ensures Exec(c, s, ThrowingRound(r, org, now))
         == State(s.used[b := 0], s.requests[r := Request(b, now, Released, true)])
  {
    LoggedPricing(c, s, r, org, now, b);
    var logged := Exec(c, s, PricingToLog(r, org, now));
    ThrownAndReleased(c, logged, r, b, now);
    ExecAppend(c, s, PricingToLog(r, org, now), PricingToRelease(r));
    Twice(s.used, b, 1, 0);
    Twice(s.requests, r, logged.requests[r], Request(b, now, Released, true));
  }

  lemma Twice<K, V>(m: map<K, V>, k: K, v: V, w: V)
    ensures m[k := v][k := w] == m[k := w]
  {
  }

  // m requests, numbered from zero, have logged and been released.
  ghost predicate RoundsDone(s: State, m: nat, b: Bucket, now: int) {
    && UsedIn(s.used, b) == 0
    && (forall r :: r in s.requests <==> 0 <= r < m)
    && (forall r | r in s.requests :: s.requests[r] == Request(b, now, Released, true))
  }

  lemma NextRound(c: Config, s: State, m: nat, org: OrgId, now: int, b: Bucket)
    requires org in c.createdAt && b == BucketOf(c, Guard(m, org, None, 1, now)) && RoundsDone(s, m, b, now)
    ensures RoundsDone(Exec(c, s, ThrowingRound(m, org, now)), m + 1, b, now)
  {
    OneThrowingRound(c, s, m, org, now, b);
  }

  lemma {:induction false} ThrowingRoundsLog(c: Config, m: nat, org: OrgId, now: int, b: Bucket)
    requires org in c.createdAt && b == BucketOf(c, Guard(0, org, None, 1, now))
    ensures RoundsDone(Exec(c, EMPTY, ThrowingRounds(m, org, now)), m, b, now)
  {
    if m > 0 {
      ThrowingRoundsLog(c, m - 1, org, now, b);
      var before := ThrowingRounds(m - 1, org, now);
      NextRound(c, Exec(c, EMPTY, before), m - 1, org, now, b);
      ExecAppend(c, EMPTY, before, ThrowingRound(m - 1, org, now));
    }
  }

  lemma {:induction false} RoundsWithinOne(m: nat, org: OrgId, now: int)
    ensures LimitsWithin(ThrowingRounds(m, org, now), 1)
  {
    if m > 0 {
      RoundsWithinOne(m - 1, org, now);
    }
  }

  // With it they exceed it by any amount: under a limit of one, m logs in one bucket whose counter
  // ends at zero.
  lemma ThrowingConversionsOverrun(c: Config, m: nat, org: OrgId, now: int) returns (tr: seq<Action>, b: Bucket)
    requires org in c.createdAt
    ensures LimitsWithin(tr, 1)
    ensures |Logs(Exec(c, EMPTY, tr), b)| == m && UsedIn(Exec(c, EMPTY, tr).used, b) == 0
  {
    tr := ThrowingRounds(m, org, now);
    b := BucketOf(c, Guard(0, org, None, 1, now));
    RoundsWithinOne(m, org, now);
    ThrowingRoundsLog(c, m, org, now, b);
    BelowIs(m);
    assert Logs(Exec(c, EMPTY, tr), b) == Below(m);
  }

  function Below(m: nat): set<nat> { if m == 0 then {} else Below(m - 1) + {m - 1} }

  lemma {:induction false} BelowIs(m: nat)
    ensures |Below(m)| == m && forall r: nat :: r in Below(m) <==> r < m
  {
    if m > 0 {
      BelowIs(m - 1);
    }
  }

  // ---------- the ways a request can go ----------

  // From the guard to the answer when nothing fails; price is what a pricing request converts.
  function CompleteRun(r: nat, org: OrgId, route: Route, limit: int, now: int, price: Json): seq<Action> {
    [Guard(r, org, None, limit, now), Enter(r, route), CommitLog(r)]
    + (if route == AdjustPricing then [Convert(r, price)] else [])
    + (if route == AdjustPricing || route == AdjustTone then [FinishWrite(r)] else [])
  }

  // On every route a request that nothing fails for logs, is finished, and keeps the slot it was
  // charged.
  lemma CompleteRunKeepsItsSlot(c: Config, s: State, r: nat, org: OrgId, route: Route, limit: int, now: int,
          price: Json, b: Bucket)
    requires Charges(c, s, Guard(r, org, None, limit, now), b) && !NumberThrows(price)
    ensures Exec(c, s, CompleteRun(r, org, route, limit, now, price))
         == State(s.used[b := UsedIn(s.used, b) + 1], s.requests[r := Request(b, now, Finished, true)])
  {
    var first := [Guard(r, org, None, limit, now), Enter(r, route), CommitLog(r)];
    var logged := State(s.used[b := UsedIn(s.used, b) + 1], s.requests[r := Request(b, now, AfterLog(route), true)]);
    LoggedRun(c, s, r, org, route, limit, now, b);
    if route == AdjustPricing {
      ExecAppend(c, s, first, [Convert(r, price)]);
      ExecOne(c, logged, Convert(r, price));
      var writing := Step(c, logged, Convert(r, price));
      Twice(s.requests, r, logged.requests[r], Request(b, now, Writing, true));
      ExecAppend(c, s, first + [Convert(r, price)], [FinishWrite(r)]);
      ExecOne(c, writing, FinishWrite(r));
      Twice(s.requests, r, writing.requests[r], Request(b, now, Finished, true));
    } else if route == AdjustTone {
      assert first + [] == first;
      ExecAppend(c, s, first, [FinishWrite(r)]);
      ExecOne(c, logged, FinishWrite(r));
      Twice(s.requests, r, logged.requests[r], Request(b, now, Finished, true));
    } else {
      assert first + [] + [] == first;
    }
  }

  lemma LoggedRun(c: Config, s: State, r: nat, org: OrgId, route: Route, limit: int, now: int, b: Bucket)
    requires Charges(c, s, Guard(r, org, None, limit, now), b)
    ensures Exec(c, s, [Guard(r, org, None, limit, now), Enter(r, route), CommitLog(r)])
         == State(s.used[b := UsedIn(s.used, b) + 1], s.requests[r := Request(b, now, AfterLog(route), true)])
  {
    ExecThree(c, s, Guard(r, org, None, limit, now), Enter(r, route), CommitLog(r));
    Reserved(c, s, Guard(r, org, None, limit, now), b);
    var s1 := State(s.used[b := UsedIn(s.used, b) + 1], s.requests[r := Request(b, now, Admitted, false)]);
    var s2 := Step(c, s1, Enter(r, route));
    Twice(s.requests, r, s1.requests[r], Request(b, now, Running(route), false));
    assert s2 == State(s1.used, s.requests[r := Request(b, now, Running(route), false)]);
    Twice(s.requests, r, s2.requests[r], Request(b, now, AfterLog(route), true));
  }

  // At any point before its answer a request may die, and its slot stays charged.
  lemma RequestsMayDie(c: Config, s: State, r: nat)
    requires r in s.requests
    ensures
      var t := Step(c, s, Abandon(r));
      && t.used == s.used && t.requests == s.requests[r := t.requests[r]]
      && t.requests[r] == if s.requests[r].stage in {Released, LateFailed, Finished, Abandoned} then s.requests[r]
                          else s.requests[r].(stage := Abandoned)
  {
  }

  // ---------- failures ----------

  // The request's work failed, in the try block or after it, and it did not die of it.
  ghost predicate Failed(c: Config, tr: seq<Action>, r: nat) {
    && r in Exec(c, EMPTY, tr).requests && Exec(c, EMPTY, tr).requests[r].stage != Abandoned
    && exists k :: 0 <= k < |tr| && Fails(Exec(c, EMPTY, tr[..k]), tr[k], r)
  }

  predicate Fails(s: State, a: Action, r: nat) {
    || ThrowsNow(s, a, r)
    || (a == Fail(r) && r in s.requests && (s.requests[r].stage.Running? || s.requests[r].stage == Writing))
  }

  predicate HasFailed(s: State, r: nat) {
    r in s.requests && s.requests[r].stage in {Failing, Released, LateFailed, Abandoned}
  }

  lemma FailureShowsStep(c: Config, s: State, a: Action, r: nat)
    requires HasFailed(s, r) || Fails(s, a, r)
    ensures HasFailed(Step(c, s, a), r)
  {
  }

  lemma {:induction false} FailureShows(c: Config, tr: seq<Action>, k: nat, r: nat)
    requires k < |tr| && Fails(Exec(c, EMPTY, tr[..k]), tr[k], r)
    ensures HasFailed(Exec(c, EMPTY, tr), r)
    decreases |tr|
  {
    var n := |tr| - 1;
    if k < n {
      assert tr[..n][..k] == tr[..k];
      FailureShows(c, tr[..n], k, r);
    }
    FailureShowsStep(c, Exec(c, EMPTY, tr[..n]), tr[n], r);
  }

  // In every run: the slot of a request that failed has been given back, or is about to be, if and
  // only if the request committed no log or its price conversion threw.
  lemma FailureReleasesIff(c: Config, tr: seq<Action>, r: nat)
    requires Failed(c, tr, r)
    ensures
      var q := Exec(c, EMPTY, tr).requests[r];
      q.stage in {Failing, Released} <==> !q.logged || Threw(c, tr, r)
  {
    var k :| 0 <= k < |tr| && Fails(Exec(c, EMPTY, tr[..k]), tr[k], r);
    FailureShows(c, tr, k, r);
    RunsTell(c, tr, r);
  }

  lemma {:induction false} LateFailureLasts(c: Config, s: State, tr: seq<Action>, r: nat)
    requires r in s.requests && s.requests[r].stage == LateFailed
    ensures r in Exec(c, s, tr).requests && Exec(c, s, tr).requests[r] == s.requests[r]
  {
    if tr != [] {
      LateFailureLasts(c, s, tr[..|tr| - 1], r);
    }
  }

  // A failure does not always release: an adjustment whose late write is rejected has failed, and
  // its slot is held in every continuation.
  lemma LateFailureKeepsItsSlot(c: Config, org: OrgId, limit: int, now: int, later: seq<Action>)
    requires org in c.createdAt && limit >= 1
    ensures
      var tr := [Guard(0, org, None, limit, now), Enter(0, AdjustTone), CommitLog(0), Fail(0)];
      && Failed(c, tr, 0)
      && 0 in Holding(Exec(c, EMPTY, tr + later), BucketOf(c, tr[0]))
  {
    var tr := [Guard(0, org, None, limit, now), Enter(0, AdjustTone), CommitLog(0), Fail(0)];
    var b := BucketOf(c, tr[0]);
    LateFailureRun(c, org, limit, now, tr);
    LateFailureLasts(c, Exec(c, EMPTY, tr), later, 0);
    ExecAppend(c, EMPTY, tr, later);
    assert Fails(Exec(c, EMPTY, tr[..3]), tr[3], 0);
  }

  lemma LateFailureRun(c: Config, org: OrgId, limit: int, now: int, tr: seq<Action>)
    requires org in c.createdAt && limit >= 1
    requires tr == [Guard(0, org, None, limit, now), Enter(0, AdjustTone), CommitLog(0), Fail(0)]
    ensures
      var b := BucketOf(c, tr[0]);
      && Exec(c, EMPTY, tr[..3]).requests == map[0 := Request(b, now, Writing, true)]
      && Exec(c, EMPTY, tr).requests == map[0 := Request(b, now, LateFailed, true)]
  {
    var b := BucketOf(c, tr[0]);
    assert tr[..1][..0] == [] && tr[..2][..1] == tr[..1] && tr[..3][..2] == tr[..2];
    Reserved(c, EMPTY, tr[0], b);
    assert Exec(c, EMPTY, tr[..1]).requests == map[0 := Request(b, now, Admitted, false)];
    assert Exec(c, EMPTY, tr[..2]).requests == map[0 := Request(b, now, Running(AdjustTone), false)];
  }

  lemma ExecSnoc(c: Config, s: State, tr: seq<Action>, a: Action)
    ensures Exec(c, s, tr + [a]) == Step(c, Exec(c, s, tr), a)
  {
    assert (tr + [a])[..|tr|] == tr;
  }

  lemma {:induction false} ExecAppend(c: Config, s: State, a: seq<Action>, b: seq<Action>)
    ensures Exec(c, s, a + b) == Exec(c, Exec(c, s, a), b)
  {
    if b == [] {
      assert a + b == a;
    } else {
      var k := |b| - 1;
      ExecAppend(c, s, a, b[..k]);
      assert a + b == (a + b[..k]) + [b[k]];
      ExecSnoc(c, s, a + b[..k], b[k]);
    }
  }

  lemma ExecOne(c: Config, s: State, a: Action)
    ensures Exec(c, s, [a]) == Step(c, s, a)
  {
    assert [a] == [] + [a];
    ExecSnoc(c, s, [], a);
  }

  lemma ExecTwo(c: Config, s: State, a: Action, b: Action)
    ensures Exec(c, s, [a, b]) == Step(c, Step(c, s, a), b)
  {
    ExecOne(c, s, a);
    assert [a, b][..1] == [a];
  }

  lemma ExecThree(c: Config, s: State, x: Action, y: Action, z: Action)
    ensures Exec(c, s, [x, y, z]) == Step(c, Step(c, Step(c, s, x), y), z)
  {
    ExecTwo(c, s, x, y);
    assert [x, y, z][..2] == [x, y];
  }

  // ---------- how much fits into a window of time ----------

  ghost function HeldInWindow(s: State, org: OrgId, from: int, to: int): set<nat> {
    set r | r in s.requests && s.requests[r].bucket.org == org && from <= s.requests[r].readAt <= to
        && s.requests[r].stage != Released
  }

  // The guards of this organisation all found no subscription.
  predicate Unsubscribed(tr: seq<Action>, org: OrgId) {
    forall k | 0 <= k < |tr| && tr[k].Guard? && tr[k].org == org :: tr[k].subscription == None
  }

  ghost predicate BucketsFollowClock(c: Config, s: State, org: OrgId)
    requires org in c.createdAt
  {
    forall r | r in s.requests && s.requests[r].bucket.org == org ::
      s.requests[r].bucket.start == ComputePeriodStart(c.createdAt[org], None, s.requests[r].readAt)
  }

  lemma {:induction false} RunsFollowClock(c: Config, tr: seq<Action>, org: OrgId)
    requires org in c.createdAt && Unsubscribed(tr, org)
    ensures BucketsFollowClock(c, Exec(c, EMPTY, tr), org)
  {
    if tr != [] {
      RunsFollowClock(c, tr[..|tr| - 1], org);
    }
  }

  // The reservations among held whose bucket is one of n consecutive ones.
  lemma {:induction false} ConsecutiveBuckets(c: Config, s: State, org: OrgId, limit: int, held: set<nat>, first: int,
          n: nat)
    requires org in c.createdAt && limit >= 0
    requires forall b :: |Holding(s, b)| <= limit
    requires forall r | r in held ::
               && r in s.requests && s.requests[r].stage != Released && s.requests[r].bucket.org == org
               && exists k :: first <= k < first + n && s.requests[r].bucket.start == c.createdAt[org] + k * PERIOD_MS
    ensures |held| <= limit * n
    decreases n
  {
    if n == 0 {
      assert held == {};
    } else {
      var b := Bucket(org, c.createdAt[org] + (first + n - 1) * PERIOD_MS);
      var last := set r | r in held && s.requests[r].bucket == b;
      SubsetIsSmaller(last, Holding(s, b));
      ConsecutiveBuckets(c, s, org, limit, held - last, first, n - 1);
      assert held == (held - last) + last;
      UnionIsAtMostTheSum(held - last, last);
      assert limit * n == limit * (n - 1) + limit;
    }
  }

  // Without a subscription, a closed window of length T sees at most limit * (T / 30d + 2)
  // reservations that are not given back.
  lemma AdmissionsPerWindow(c: Config, tr: seq<Action>, org: OrgId, limit: int, from: int, to: int)
    requires org in c.createdAt && limit >= 1 && from <= to && LimitsWithin(tr, limit) && Unsubscribed(tr, org)
    ensures |HeldInWindow(Exec(c, EMPTY, tr), org, from, to)| <= limit * ((to - from) / PERIOD_MS + 2)
  {
    var s := Exec(c, EMPTY, tr);
    SlotsAreAccounted(c, tr, limit);
    RunsFollowClock(c, tr, org);
    var held := HeldInWindow(s, org, from, to);
    var first := Cycle(c.createdAt[org], from);
    var n := (to - from) / PERIOD_MS + 2;
    forall r | r in held
      ensures exists k :: first <= k < first + n && s.requests[r].bucket.start == c.createdAt[org] + k * PERIOD_MS
    {
      var k := Cycle(c.createdAt[org], s.requests[r].readAt);
      BucketsInWindow(c.createdAt[org], from, s.requests[r].readAt, to);
      assert s.requests[r].bucket.start == c.createdAt[org] + k * PERIOD_MS;
    }
    ConsecutiveBuckets(c, s, org, limit, held, first, n);
  }

  // ---------- the backfill ----------

  datatype OrgRow = OrgRow(id: OrgId, createdAt: int, plan: string, subscription: Option<SubscriptionRow>)

  datatype LogRow = LogRow(org: OrgId, createdAt: int)

  function CurrentBucket(o: OrgRow, now: int): Bucket {
    Bucket(o.id, ComputePeriodStart(o.createdAt, PeriodEnd(o.subscription), now))
  }

  function LoggedSince(logs: seq<LogRow>, b: Bucket): nat {
    if logs == [] then 0
    else
      var l := logs[|logs| - 1];
      LoggedSince(logs[..|logs| - 1], b) + (if l.org == b.org && l.createdAt >= b.start then 1 else 0)
  }

  function Backfilled(used: Counters, orgs: seq<OrgRow>, logs: seq<LogRow>, now: int): Counters {
    if orgs == [] then used
    else
      var b := CurrentBucket(orgs[|orgs| - 1], now);
      Raise(Backfilled(used, orgs[..|orgs| - 1], logs, now), b, LoggedSince(logs, b))
  }

  // The positions of an organisation's logs from a moment on.
  ghost function LogsFrom(logs: seq<LogRow>, org: OrgId, from: int): set<int> {
    set i | 0 <= i < |logs| && logs[i].org == org && from <= logs[i].createdAt
  }

  lemma LogsFromStep(logs: seq<LogRow>, org: OrgId, from: int)
    requires logs != []
    ensures
      var k := |logs| - 1;
      |LogsFrom(logs, org, from)|
      == |LogsFrom(logs[..k], org, from)| + if logs[k].org == org && from <= logs[k].createdAt then 1 else 0
  {
    var k := |logs| - 1;
    if logs[k].org == org && from <= logs[k].createdAt {
      assert LogsFrom(logs, org, from) == LogsFrom(logs[..k], org, from) + {k};
    } else {
      assert LogsFrom(logs, org, from) == LogsFrom(logs[..k], org, from);
    }
  }

  // The logs that count are those of the organisation from the bucket's start on.
  lemma {:induction false} LoggedSinceCounts(logs: seq<LogRow>, b: Bucket)
    ensures LoggedSince(logs, b) == |LogsFrom(logs, b.org, b.start)|
  {
    if logs == [] {
      assert LogsFrom(logs, b.org, b.start) == {};
    } else {
      LoggedSinceCounts(logs[..|logs| - 1], b);
      LogsFromStep(logs, b.org, b.start);
    }
  }

  // For a subscribed organisation these are its logs from thirty days before its period end on, in
  // the bucket that ends there.
  lemma SubscribersAreCountedByPeriod(o: OrgRow, logs: seq<LogRow>, now: int)
    requires o.subscription.Some?
    ensures
      var b, end := CurrentBucket(o, now), o.subscription.value.currentPeriodEnd;
      && b.org == o.id && b.start + 30 * 24 * 3600 * 1000 == end
      && LoggedSince(logs, b) == |LogsFrom(logs, o.id, end - 30 * 24 * 3600 * 1000)|
  {
    LoggedSinceCounts(logs, CurrentBucket(o, now));
  }

  // For any other one they are its logs of the running thirty days since sign-up.
  lemma OthersAreCountedByCycle(o: OrgRow, now: int)
    requires o.subscription.None?
    ensures
      var b := CurrentBucket(o, now);
      b.org == o.id && b.start <= now < b.start + 30 * 24 * 3600 * 1000
      && (b.start - o.createdAt) % (30 * 24 * 3600 * 1000) == 0
  {
    BucketsPartitionTime(o.createdAt, now, now);
  }

  // The positions of the organisations that have something to seed.
  ghost function Seeded(orgs: seq<OrgRow>, logs: seq<LogRow>, now: int): set<int> {
    set i | 0 <= i < |orgs| && LoggedSince(logs, CurrentBucket(orgs[i], now)) > 0
  }

  lemma RaiseNext(used: Counters, orgs: seq<OrgRow>, logs: seq<LogRow>, now: int, i: nat)
    requires i < |orgs|
    ensures
      var b := CurrentBucket(orgs[i], now);
      Backfilled(used, orgs[..i + 1], logs, now)
          == Raise(Backfilled(used, orgs[..i], logs, now), b, LoggedSince(logs, b))
  {
    assert orgs[..i + 1][..i] == orgs[..i];
  }

  // Each upsert of the backfill is a step of the protocol, so the whole loop is a run of it.
  function BackfillScript(orgs: seq<OrgRow>, logs: seq<LogRow>, now: int): seq<Action> {
    if orgs == [] then []
    else
      var b := CurrentBucket(orgs[|orgs| - 1], now);
      BackfillScript(orgs[..|orgs| - 1], logs, now) + [Backfill(b, LoggedSince(logs, b))]
  }

  lemma {:induction false} BackfillIsARun(c: Config, s: State, orgs: seq<OrgRow>, logs: seq<LogRow>, now: int)
    ensures Exec(c, s, BackfillScript(orgs, logs, now)) == s.(used := Backfilled(s.used, orgs, logs, now))
  {
    if orgs != [] {
      var k := |orgs| - 1;
      var b := CurrentBucket(orgs[k], now);
      BackfillIsARun(c, s, orgs[..k], logs, now);
      ExecSnoc(c, s, BackfillScript(orgs[..k], logs, now), Backfill(b, LoggedSince(logs, b)));
    }
  }

  lemma SeedNext(orgs: seq<OrgRow>, logs: seq<LogRow>, now: int, i: nat)
    requires i < |orgs|
    ensures |Seeded(orgs[..i + 1], logs, now)|
         == |Seeded(orgs[..i], logs, now)| + if LoggedSince(logs, CurrentBucket(orgs[i], now)) > 0 then 1 else 0
  {
    var before, after := Seeded(orgs[..i], logs, now), Seeded(orgs[..i + 1], logs, now);
    if LoggedSince(logs, CurrentBucket(orgs[i], now)) > 0 {
      assert after == before + {i};
    } else {
      assert after == before;
    }
  }

  // A counter ends up at its old value or at what the logs say, whichever is more, and only the
  // current buckets of the listed organisations are touched.
  lemma {:induction false} BackfillRaises(used: Counters, orgs: seq<OrgRow>, logs: seq<LogRow>, now: int, b: Bucket)
    requires forall x | x in used :: used[x] >= 0
    ensures
      var after := UsedIn(Backfilled(used, orgs, logs, now), b);
      var listed := exists i :: 0 <= i < |orgs| && CurrentBucket(orgs[i], now) == b;
      && after >= 0
      && after == if listed && LoggedSince(logs, b) > UsedIn(used, b) then LoggedSince(logs, b) else UsedIn(used, b)
  {
    if orgs != [] {
      var k := |orgs| - 1;
      BackfillRaises(used, orgs[..k], logs, now, b);
      if CurrentBucket(orgs[k], now) != b && exists i :: 0 <= i < |orgs| && CurrentBucket(orgs[i], now) == b {
        var i :| 0 <= i < |orgs| && CurrentBucket(orgs[i], now) == b;
        assert orgs[..k][i] == orgs[i];
      }
    }
  }

  // Running it again changes no counter.
  lemma BackfillIsIdempotent(used: Counters, orgs: seq<OrgRow>, logs: seq<LogRow>, now: int, b: Bucket)
    requires forall x | x in used :: used[x] >= 0
    ensures
      var once := Backfilled(used, orgs, logs, now);
      UsedIn(Backfilled(once, orgs, logs, now), b) == UsedIn(once, b)
  {
    var once := Backfilled(used, orgs, logs, now);
    forall x | x in once ensures once[x] >= 0 {
      BackfillRaises(used, orgs, logs, now, x);
    }
    BackfillRaises(used, orgs, logs, now, b);
    BackfillRaises(once, orgs, logs, now, b);
  }

  // ---------- the guard is a step of the protocol ----------

  // A guard reading the organisation's row admits exactly when no subscription blocks it and its
  // plan has slots left, and then charges one slot of its current bucket.
  lemma AdmissionIsAGuardStep(c: Config, s: State, r: nat, o: OrgRow, now: int)
    requires r !in s.requests && o.id in c.createdAt && c.createdAt[o.id] == o.createdAt
    ensures
      var b, limit := CurrentBucket(o, now), PlanLimit(o.plan);
      Step(c, s, Guard(r, o.id, o.subscription, limit, now))
      == if Blocks(o.subscription) || limit == 0 || UsedIn(s.used, b) >= limit then s
         else State(s.used[b := UsedIn(s.used, b) + 1], s.requests[r := Request(b, now, Admitted, false)])
  {
  }

  // ---------- the service ----------

  datatype QuotaError = OrgNotFound | SubscriptionInactive | QuotaExceeded(limit: int)

  /** The counter table, with the guard, the release and the backfill over it. */
  class QuotaTable {
    var used: Counters

    method ReserveSlot(b: Bucket, limit: int) returns (rows: nat)
      modifies this
      ensures used == Reserve(old(used), b, limit)
      ensures rows == if Admits(old(used), b, limit) then 1 else 0
    {
      if b !in used {
        used := used[b := 1];
        return 1;
      }
      if used[b] < limit {
        used := used[b := used[b] + 1];
        return 1;
      }
      return 0;
    }

    method CanActivate(org: Option<OrgRow>, now: int) returns (r: Result<Bucket, QuotaError>)
      modifies this
      ensures
        if org.None? then r == Err(OrgNotFound) && used == old(used)
        else
          var o := org.value;
          var b, limit := CurrentBucket(o, now), PlanLimit(o.plan);
          if Blocks(o.subscription) then
            r == Err(SubscriptionInactive) && used == old(used)
          else if limit == 0 || UsedIn(old(used), b) >= limit then
            r == Err(QuotaExceeded(limit)) && used == old(used)
          else r == Ok(b) && used == old(used)[b := UsedIn(old(used), b) + 1]
    {
      if org.None? {
        return Err(OrgNotFound);
      }
      var o := org.value;
      if o.subscription.Some? && o.subscription.value.status !in {"active", "trialing"} {
        return Err(SubscriptionInactive);
      }
      var limit := PlanLimit(o.plan);
      if limit <= 0 {
        return Err(QuotaExceeded(limit));
      }
      var b := CurrentBucket(o, now);
      var rows := ReserveSlot(b, limit);
      if rows == 0 {
        return Err(QuotaExceeded(limit));
      }
      return Ok(b);
    }

    // works is false when the statement fails; the failure is swallowed.
    method ReleaseQuota(reservation: Option<Bucket>, works: bool)
      modifies this
      ensures used == if reservation.Some? && works then Release(old(used), reservation.value) else old(used)
    {
      if reservation.None? {
        return;
      }
      var b := reservation.value;
      if works && b in used && used[b] > 0 {
        used := used[b := used[b] - 1];
      }
    }

    method BackfillQuotaUsage(orgs: seq<OrgRow>, logs: seq<LogRow>, now: int) returns (total: nat, seeded: nat)
      modifies this
      ensures used == Backfilled(old(used), orgs, logs, now)
      ensures total == |orgs|
      ensures seeded == |Seeded(orgs, logs, now)|
    {
      seeded := 0;
      var i := 0;
      while i < |orgs|
        invariant 0 <= i <= |orgs|
        invariant used == Backfilled(old(used), orgs[..i], logs, now)
        invariant seeded == |Seeded(orgs[..i], logs, now)|
      {
        RaiseNext(old(used), orgs, logs, now, i);
        SeedNext(orgs, logs, now, i);
        var b := CurrentBucket(orgs[i], now);
        var n := LoggedSince(logs, b);
        if n != 0 {
          used := used[b := if b in used && used[b] > n then used[b] else n];
          seeded := seeded + 1;
        }
        i := i + 1;
      }
      assert orgs[..i] == orgs;
      return |orgs|, seeded;
    }
  }
}
