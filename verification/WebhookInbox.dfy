/**
 The durable Stripe webhook inbox: its rows, the statements that change them, and the protocol
 that competing workers run over them.

 Every database statement (or transaction) is a function from one database to the next. The class
 at the end issues them in the order the service does; the transition system interleaves them over
 any number of workers, each of which may die between two statements.
 */
module WebhookInbox {
  import opened Prelude

  const MAX_ATTEMPTS := 5
  const DRAIN_BATCH := 20

  type EventId = string
  type OrgId = string

  // ---------- rows ----------

  datatype Kind = SubscriptionCreated | SubscriptionUpdated | SubscriptionDeleted | OtherKind

  datatype Event = Event(
    kind: Kind, subId: string, customer: string, metadataOrg: Option<OrgId>,
    priceId: string, subStatus: string, periodEnd: Option<int>)

  datatype Status = Pending | Processing | Done | Failed

  datatype Row = Row(event: Event, status: Status, attempts: nat, createdAt: int, claimedAt: Option<int>)

  datatype Org = Org(customer: Option<string>, plan: string, subStatus: Option<string>)

  datatype Subscription = Subscription(
    stripeSubId: string, stripePriceId: string, status: string, currentPeriodEnd: int)

  datatype Database = Database(
    inbox: map<EventId, Row>, processed: set<EventId>,
    orgs: map<OrgId, Org>, subscriptions: map<OrgId, Subscription>)

  // Settings read from the process environment.
  datatype Env = Env(
    stuckAfterMs: int,
    starterPrice: Option<string>, professionalPrice: Option<string>, agencyPrice: Option<string>)

  // ---------- statements on the inbox ----------

  // What a drain's scan asks for.
  predicate Eligible(r: Row, cutoff: int) {
    || r.status == Pending
    || (r.status == Failed && r.attempts < MAX_ATTEMPTS)
    || (r.status == Processing && r.attempts < MAX_ATTEMPTS && r.claimedAt.Some? && r.claimedAt.value < cutoff)
  }

  // What a claim's guard asks for.
  predicate Claimable(r: Row, cutoff: int) {
    && r.attempts < MAX_ATTEMPTS
    && (r.status in {Pending, Failed}
        || (r.status == Processing && r.claimedAt.Some? && r.claimedAt.value < cutoff))
  }

  function Enqueue(db: Database, id: EventId, e: Event, at: int): Database {
    if id in db.inbox then db else db.(inbox := db.inbox[id := Row(e, Pending, 0, at, None)])
  }

  predicate ClaimWins(db: Database, id: EventId, cutoff: int) {
    id in db.inbox && Claimable(db.inbox[id], cutoff)
  }

  function Claim(db: Database, id: EventId, cutoff: int, stamp: int): Database {
    if ClaimWins(db, id, cutoff) then
      var r := db.inbox[id];
      db.(inbox := db.inbox[id := r.(status := Processing, claimedAt := Some(stamp), attempts := r.attempts + 1)])
    else db
  }

  // The completion writes select the row by its id alone.
  function SetStatus(db: Database, id: EventId, status: Status): Database {
    if id in db.inbox then db.(inbox := db.inbox[id := db.inbox[id].(status := status)]) else db
  }

  // The n oldest rows among some, oldest first.
  ghost predicate OldestOf(inbox: map<EventId, Row>, ids: set<EventId>, n: nat, due: seq<EventId>) {
    && Distinct(due)
    && |due| <= n
    && (forall i | 0 <= i < |due| :: due[i] in ids && due[i] in inbox)
    && (forall i, j | 0 <= i < j < |due| :: inbox[due[i]].createdAt <= inbox[due[j]].createdAt)
    && (forall id | id in ids && id in inbox && id !in due ::
          |due| == n && forall i | 0 <= i < |due| :: inbox[due[i]].createdAt <= inbox[id].createdAt)
  }

  ghost function EligibleIds(inbox: map<EventId, Row>, cutoff: int): set<EventId> {
    set id | id in inbox && Eligible(inbox[id], cutoff)
  }

  // The result of the scan: eligible rows, oldest first, cut at the batch size.
  ghost predicate IsBatch(inbox: map<EventId, Row>, cutoff: int, due: seq<EventId>) {
    OldestOf(inbox, EligibleIds(inbox, cutoff), DRAIN_BATCH, due)
  }

  lemma {:induction false} Oldest(inbox: map<EventId, Row>, ids: set<EventId>) returns (x: EventId)
    requires ids != {} && ids <= inbox.Keys
    ensures x in ids && forall id | id in ids :: inbox[x].createdAt <= inbox[id].createdAt
    decreases |ids|
  {
    x :| x in ids;
    if ids != {x} {
      var y := Oldest(inbox, ids - {x});
      if inbox[y].createdAt < inbox[x].createdAt { x := y; }
    }
  }

  lemma {:induction false} OldestExist(inbox: map<EventId, Row>, ids: set<EventId>, n: nat) returns (due: seq<EventId>)
    requires ids <= inbox.Keys
    ensures OldestOf(inbox, ids, n, due)
    decreases n
  {
    due := [];
    if n > 0 && ids != {} {
      var x := Oldest(inbox, ids);
      var rest := OldestExist(inbox, ids - {x}, n - 1);
      due := [x] + rest;
      forall id | id in ids && id !in due ensures id !in rest && id != x {
        assert due[0] == x && due[1..] == rest;
      }
    }
  }

  // Whatever the inbox holds, the scan has a result.
  lemma BatchExists(inbox: map<EventId, Row>, cutoff: int) returns (due: seq<EventId>)
    ensures IsBatch(inbox, cutoff, due) && |due| <= 20
  {
    due := OldestExist(inbox, EligibleIds(inbox, cutoff), DRAIN_BATCH);
  }

  // And it is as long as it can be.
  lemma BatchIsFull(inbox: map<EventId, Row>, cutoff: int, due: seq<EventId>)
    requires IsBatch(inbox, cutoff, due)
    ensures |due| == if |EligibleIds(inbox, cutoff)| < 20 then |EligibleIds(inbox, cutoff)| else 20
  {
    var ids, found := EligibleIds(inbox, cutoff), set id | id in due;
    EnumerationLength(due, found);
    SubsetIsSmaller(found, ids);
    if |due| < 20 {
      assert found == ids;
    }
  }

  // ---------- the business effect of an event ----------

  function PriceToPlan(env: Env, priceId: string): string {
    if env.starterPrice == Some(priceId) || priceId == "price_starter" then "starter"
    else if env.professionalPrice == Some(priceId) || priceId == "price_professional" then "professional"
    else if env.agencyPrice == Some(priceId) || priceId == "price_agency" then "agency"
    else "free"
  }

  function PlanOf(env: Env, e: Event): string {
    if e.kind == SubscriptionDeleted then "free" else PriceToPlan(env, e.priceId)
  }

  // The price a checkout of a plan charges.
  function CheckoutPrice(env: Env, plan: string): Option<string> {
    match plan
    case "starter" => env.starterPrice
    case "professional" => env.professionalPrice
    case "agency" => env.agencyPrice
    case _ => None
  }

  const PAID_PLANS := ["starter", "professional", "agency"]

  // A plan's configured price, or the fixed name that is always accepted for it.
  predicate Stands(env: Env, price: string, plan: string) {
    CheckoutPrice(env, plan) == Some(price) || price == "price_" + plan
  }

  // The price stands for this plan and for none that is tested before it.
  predicate FirstStanding(env: Env, price: string, i: int) {
    && 0 <= i < |PAID_PLANS| && Stands(env, price, PAID_PLANS[i])
    && forall j | 0 <= j < i :: !Stands(env, price, PAID_PLANS[j])
  }

  // What a price buys: the first plan it stands for, and nothing when it stands for none.
  ghost predicate Grants(env: Env, price: string, plan: string) {
    || (exists i :: FirstStanding(env, price, i) && plan == PAID_PLANS[i])
    || (plan == "free" && forall i | 0 <= i < |PAID_PLANS| :: !Stands(env, price, PAID_PLANS[i]))
  }

  // For every price, configured or not: a paid plan is granted if and only if the price stands for it
  // and for none before it, and free if and only if the price stands for none.
  lemma PriceIsGrantedIff(env: Env, price: string, plan: string)
    ensures plan == PriceToPlan(env, price) <==> Grants(env, price, plan)
    ensures forall i | 0 <= i < |PAID_PLANS| ::
              PriceToPlan(env, price) == PAID_PLANS[i] <==> FirstStanding(env, price, i)
    ensures PriceToPlan(env, price) == "free"
       <==> forall i | 0 <= i < |PAID_PLANS| :: !Stands(env, price, PAID_PLANS[i])
  {
    assert PAID_PLANS[0] == "starter" && PAID_PLANS[1] == "professional" && PAID_PLANS[2] == "agency";
    assert "price_" + "starter" == "price_starter" && "price_" + "professional" == "price_professional";
    assert "price_" + "agency" == "price_agency";
    var i := if Stands(env, price, "starter") then 0 else if Stands(env, price, "professional") then 1 else 2;
    assert Stands(env, price, PAID_PLANS[i]) ==> FirstStanding(env, price, i);
  }

  // The webhook grants the plan that was bought if and only if no plan listed before it stands for
  // the same price.
  lemma BoughtPlanIsGrantedIff(env: Env, i: nat, price: string)
    requires i < |PAID_PLANS| && CheckoutPrice(env, PAID_PLANS[i]) == Some(price)
    ensures PriceToPlan(env, price) == PAID_PLANS[i] <==> forall j | 0 <= j < i :: !Stands(env, price, PAID_PLANS[j])
  {
    assert PAID_PLANS[0] == "starter" && PAID_PLANS[1] == "professional" && PAID_PLANS[2] == "agency";
    assert "price_" + "starter" == "price_starter" && "price_" + "professional" == "price_professional";
  }

  // Milliseconds; an event without a period end gets the current second.
  function PeriodEndOf(e: Event, now: int): int {
    (if e.periodEnd.Some? then e.periodEnd.value else now / 1000) * 1000
  }

  function SubscriptionOf(e: Event, now: int): Subscription {
    Subscription(e.subId, e.priceId, e.subStatus, PeriodEndOf(e, now))
  }

  // Which organisation an event is bound to: any one linked to the Stripe customer, otherwise the
  // one its metadata names if that has no customer yet, otherwise none.
  ghost predicate Resolves(db: Database, e: Event, org: Option<OrgId>) {
    if e.kind == OtherKind then org == None
    else if exists o :: o in db.orgs && db.orgs[o].customer == Some(e.customer) then
      org.Some? && org.value in db.orgs && db.orgs[org.value].customer == Some(e.customer)
    else if e.metadataOrg.Some? && e.metadataOrg.value != "" && e.metadataOrg.value in db.orgs
            && db.orgs[e.metadataOrg.value].customer == None then
      org == e.metadataOrg
    else org == None
  }

  // Which of several matching rows the database returns first.
  ghost predicate Chooses(f: set<OrgId> -> OrgId) { forall s: set<OrgId> | s != {} :: f(s) in s }

  ghost function AnyOf(s: set<OrgId>): OrgId { if s == {} then "" else var o :| o in s; o }

  type Choice = f: set<OrgId> -> OrgId | Chooses(f) ghost witness s => AnyOf(s)

  function LinkedTo(db: Database, customer: string): set<OrgId> {
    set o | o in db.orgs && db.orgs[o].customer == Some(customer)
  }

  // The two lookups, one after the other on the same tables.
  function Binding(db: Database, e: Event, pick: Choice): Option<OrgId> {
    if e.kind == OtherKind then None
    else if LinkedTo(db, e.customer) != {} then Some(pick(LinkedTo(db, e.customer)))
    else if e.metadataOrg.Some? && e.metadataOrg.value != "" && e.metadataOrg.value in db.orgs
            && db.orgs[e.metadataOrg.value].customer == None then
      e.metadataOrg
    else None
  }

  lemma BindingResolves(db: Database, e: Event, pick: Choice)
    ensures Resolves(db, e, Binding(db, e, pick))
    ensures Binding(db, e, pick).Some? ==> Binding(db, e, pick).value in db.orgs
  {
    if o :| o in db.orgs && db.orgs[o].customer == Some(e.customer) {
      assert o in LinkedTo(db, e.customer);
    } else {
      assert LinkedTo(db, e.customer) == {};
    }
  }

  // The transaction: subscription, organisation and marker together, or the marker alone.
  function Commit(env: Env, db: Database, id: EventId, e: Event, org: Option<OrgId>, now: int): Database
    requires org.Some? ==> org.value in db.orgs
  {
    var marked := db.(processed := db.processed + {id});
    if org.None? then marked
    else
      var o := org.value;
      marked.(subscriptions := db.subscriptions[o := SubscriptionOf(e, now)],
              orgs := db.orgs[o := db.orgs[o].(plan := PlanOf(env, e), subStatus := Some(e.subStatus))])
  }

  // A Stripe subscription id is stored for one organisation at most.
  ghost predicate UniqueSubs(db: Database) {
    forall o, p | o in db.subscriptions && p in db.subscriptions
                  && db.subscriptions[o].stripeSubId == db.subscriptions[p].stripeSubId :: o == p
  }

  // The transaction would store the event's subscription id a second time, so it is rejected.
  predicate Collides(db: Database, e: Event, org: Option<OrgId>) {
    org.Some? && exists p :: p in db.subscriptions && p != org.value && db.subscriptions[p].stripeSubId == e.subId
  }

  // The rejections are exactly the transactions that would break uniqueness.
  lemma CommitCollidesIff(env: Env, db: Database, id: EventId, e: Event, org: Option<OrgId>, now: int)
    requires UniqueSubs(db) && (org.Some? ==> org.value in db.orgs)
    ensures !UniqueSubs(Commit(env, db, id, e, org, now)) <==> Collides(db, e, org)
  {
    var after := Commit(env, db, id, e, org, now).subscriptions;
    if p :| org.Some? && p in db.subscriptions && p != org.value && db.subscriptions[p].stripeSubId == e.subId {
      assert after[p].stripeSubId == after[org.value].stripeSubId;
    }
  }

  // ---------- the protocol ----------

  datatype Phase =
    | Scanning
    | Claimed(id: EventId, stamp: int)
    | Resolved(id: EventId, stamp: int, org: Option<OrgId>)
    | Applied(id: EventId, stamp: int)
    | Thrown(id: EventId, stamp: int)

  // A running drain: its cutoff, the not yet visited rest of its fetched batch, and where it is.
  datatype Worker = Worker(cutoff: int, due: seq<EventId>, phase: Phase)

  datatype State = State(db: Database, workers: map<nat, Worker>, now: int)

  datatype Action =
    | Tick(to: int)
    | Insert(id: EventId, event: Event)
    | Scan(w: nat, at: int, due: seq<EventId>)
    | TryClaim(w: nat, stamp: int)
    | Resolve(w: nat, org: Option<OrgId>)
    | CommitEvent(w: nat, at: int)
    | Throw(w: nat)
    | WriteDone(w: nat)
    | WriteFailed(w: nat)
    | Stop(w: nat)

  predicate Busy(wk: Worker) { !wk.phase.Scanning? }

  function Put(s: State, w: nat, wk: Worker): State { s.(workers := s.workers[w := wk]) }

  // One atomic step; an action whose guard fails changes nothing. The two reads that bind an event
  // to an organisation are over-approximated by Resolve: they may have returned any organisation.
  ghost function Step(env: Env, s: State, a: Action): State {
    match a
    case Tick(to) => if s.now <= to then s.(now := to) else s
    case Insert(id, e) => s.(db := Enqueue(s.db, id, e, s.now))
    case Scan(w, at, due) =>
      if w !in s.workers && at <= s.now && IsBatch(s.db.inbox, at - env.stuckAfterMs, due)
      then Put(s, w, Worker(at - env.stuckAfterMs, due, Scanning)) else s
    case _ =>
      if a.w in s.workers then WorkerStep(env, s, a.w, s.workers[a.w], a) else s
  }

  function WorkerStep(env: Env, s: State, w: nat, wk: Worker, a: Action): State {
    match (a, wk.phase)
    case (TryClaim(_, stamp), Scanning) =>
      if wk.due == [] || s.now < stamp then s
      else
        var id := wk.due[0];
        var next := Worker(wk.cutoff, wk.due[1..],
                           if ClaimWins(s.db, id, wk.cutoff) then Claimed(id, stamp) else Scanning);
        Put(s, w, next).(db := Claim(s.db, id, wk.cutoff, stamp))
    case (Resolve(_, org), Claimed(id, stamp)) => Put(s, w, wk.(phase := Resolved(id, stamp, org)))
    case (CommitEvent(_, at), Resolved(id, stamp, org)) =>
      if at <= s.now && id in s.db.inbox && (org.Some? ==> org.value in s.db.orgs)
         && !Collides(s.db, s.db.inbox[id].event, org) then
        Put(s, w, wk.(phase := Applied(id, stamp))).(db := Commit(env, s.db, id, s.db.inbox[id].event, org, at))
      else s
    case (Throw(_), Claimed(id, stamp)) => Put(s, w, wk.(phase := Thrown(id, stamp)))
    case (Throw(_), Resolved(id, stamp, _)) => Put(s, w, wk.(phase := Thrown(id, stamp)))
    case (Throw(_), Applied(id, stamp)) => Put(s, w, wk.(phase := Thrown(id, stamp)))
    case (WriteDone(_), Applied(id, stamp)) => Put(s, w, wk.(phase := Scanning)).(db := SetStatus(s.db, id, Done))
    case (WriteFailed(_), Thrown(id, stamp)) => Put(s, w, wk.(phase := Scanning)).(db := SetStatus(s.db, id, Failed))
    case (Stop(_), _) => s.(workers := s.workers - {w})
    case _ => s
  }

  ghost function Exec(env: Env, s: State, tr: seq<Action>): State {
    if tr == [] then s else Step(env, Exec(env, s, tr[..|tr| - 1]), tr[|tr| - 1])
  }

  // An empty inbox and no drain under way; organisations and old markers are arbitrary.
  predicate Initial(s: State) { s.db.inbox == map[] && s.workers == map[] }

  // ---------- subscription ids stay unique ----------

  lemma StepKeepsSubsUnique(env: Env, s: State, a: Action)
    requires UniqueSubs(s.db)
    ensures UniqueSubs(Step(env, s, a).db)
  {
    if a.CommitEvent? && a.w in s.workers && s.workers[a.w].phase.Resolved? && s.workers[a.w].phase.id in s.db.inbox {
      var p := s.workers[a.w].phase;
      if p.org.Some? ==> p.org.value in s.db.orgs {
        CommitCollidesIff(env, s.db, p.id, s.db.inbox[p.id].event, p.org, a.at);
      }
    }
  }

  lemma {:induction false} RunsKeepSubsUnique(env: Env, s: State, tr: seq<Action>)
    requires UniqueSubs(s.db)
    ensures UniqueSubs(Exec(env, s, tr).db)
  {
    if tr != [] {
      RunsKeepSubsUnique(env, s, tr[..|tr| - 1]);
      StepKeepsSubsUnique(env, Exec(env, s, tr[..|tr| - 1]), tr[|tr| - 1]);
    }
  }

  // ---------- attempts count the claims ----------

  ghost predicate Starts(s: State, a: Action, id: EventId) {
    && a.TryClaim? && a.w in s.workers && a.stamp <= s.now
    && s.workers[a.w].phase == Scanning && s.workers[a.w].due != [] && s.workers[a.w].due[0] == id
    && ClaimWins(s.db, id, s.workers[a.w].cutoff)
  }

  ghost function StartCount(env: Env, s: State, tr: seq<Action>, id: EventId): nat {
    if tr == [] then 0
    else
      var k := |tr| - 1;
      StartCount(env, s, tr[..k], id) + (if Starts(Exec(env, s, tr[..k]), tr[k], id) then 1 else 0)
  }

  lemma StepAttempts(env: Env, s: State, a: Action, id: EventId)
    ensures
      var s' := Step(env, s, a);
      var before := if id in s.db.inbox then s.db.inbox[id].attempts else 0;
      && (id in s.db.inbox ==> id in s'.db.inbox && s'.db.inbox[id].event == s.db.inbox[id].event)
      && (id in s'.db.inbox ==> s'.db.inbox[id].attempts == before + (if Starts(s, a, id) then 1 else 0))
      && (Starts(s, a, id) ==> before < MAX_ATTEMPTS && id in s.db.inbox)
  {
  }

  // With no assumption on timing: attempts is the number of times processing was started, and
  // that never exceeds the cap, however often the event is redelivered and by however many workers.
  lemma {:induction false} AttemptsCountStarts(env: Env, s: State, tr: seq<Action>, id: EventId)
    requires Initial(s)
    ensures
      var last := Exec(env, s, tr);
      && StartCount(env, s, tr, id) <= 5
      && StartCount(env, s, tr, id) == if id in last.db.inbox then last.db.inbox[id].attempts else 0
  {
    if tr != [] {
      var k := |tr| - 1;
      AttemptsCountStarts(env, s, tr[..k], id);
      StepAttempts(env, Exec(env, s, tr[..k]), tr[k], id);
    }
  }

  ghost predicate AttemptsBounded(inbox: map<EventId, Row>) {
    forall id | id in inbox :: inbox[id].attempts <= MAX_ATTEMPTS
        && (inbox[id].status == Pending ==> inbox[id].attempts == 0)
  }

  // The bounds hold in every state of every run, whatever the timing.
  lemma {:induction false} RunsBoundAttempts(env: Env, s: State, tr: seq<Action>)
    requires Initial(s)
    ensures AttemptsBounded(Exec(env, s, tr).db.inbox)
  {
    if tr != [] {
      RunsBoundAttempts(env, s, tr[..|tr| - 1]);
    }
  }

  // ---------- first delivered, first served ----------

  // A delivery of a new id adds one pending row, dated now; a repeated delivery adds nothing.
  lemma DeliveryIsDated(env: Env, s: State, id: EventId, e: Event)
    ensures
      var t := Step(env, s, Insert(id, e)).db;
      && t.inbox.Keys == s.db.inbox.Keys + {id}
      && (id !in s.db.inbox ==>
            && t.inbox[id].event == e && t.inbox[id].status == Pending && t.inbox[id].attempts == 0
            && t.inbox[id].createdAt == s.now && t.inbox[id].claimedAt == None)
      && (forall x | x in s.db.inbox :: t.inbox[x] == s.db.inbox[x])
      && t == s.db.(inbox := t.inbox)
  {
  }

  // No step changes a row's date.
  lemma {:induction false} DatesLast(env: Env, s: State, tr: seq<Action>, id: EventId)
    requires id in s.db.inbox
    ensures id in Exec(env, s, tr).db.inbox && Exec(env, s, tr).db.inbox[id].createdAt == s.db.inbox[id].createdAt
  {
    if tr != [] {
      DatesLast(env, s, tr[..|tr| - 1], id);
    }
  }

  lemma {:induction false} ClockMovesOn(env: Env, s: State, tr: seq<Action>)
    ensures s.now <= Exec(env, s, tr).now
  {
    if tr != [] {
      ClockMovesOn(env, s, tr[..|tr| - 1]);
    }
  }

  // Of two pending events the one delivered at an earlier time comes first: wherever the later one is
  // in a batch, the earlier one is before it.
  lemma EarlierDeliveryComesFirst(env: Env, s: State, a: EventId, ea: Event, between: seq<Action>,
          b: EventId, eb: Event, after: seq<Action>, cutoff: int, due: seq<EventId>)
    requires a !in s.db.inbox
    requires
      var mid := Exec(env, Step(env, s, Insert(a, ea)), between);
      && b !in mid.db.inbox && s.now < mid.now
      && var last := Exec(env, Step(env, mid, Insert(b, eb)), after);
         && a in last.db.inbox && last.db.inbox[a].status == Pending
         && IsBatch(last.db.inbox, cutoff, due) && b in due
    ensures exists i, j :: 0 <= i < j < |due| && due[i] == a && due[j] == b
  {
    var first := Step(env, s, Insert(a, ea));
    var mid := Exec(env, first, between);
    var second := Step(env, mid, Insert(b, eb));
    var last := Exec(env, second, after).db.inbox;
    DeliveryIsDated(env, s, a, ea);
    DeliveryIsDated(env, mid, b, eb);
    DatesLast(env, first, between, a);
    DatesLast(env, second, after, a);
    DatesLast(env, second, after, b);
    OlderComesFirst(last, cutoff, due, a, b);
  }

  lemma OlderComesFirst(inbox: map<EventId, Row>, cutoff: int, due: seq<EventId>, a: EventId, b: EventId)
    requires IsBatch(inbox, cutoff, due) && b in due && a in EligibleIds(inbox, cutoff)
    requires b in inbox && inbox[a].createdAt < inbox[b].createdAt
    ensures exists i, j :: 0 <= i < j < |due| && due[i] == a && due[j] == b
  {
    var j :| 0 <= j < |due| && due[j] == b;
    assert a in due;
    var i :| 0 <= i < |due| && due[i] == a;
    assert i < j;
  }

  // ---------- done means applied ----------

  ghost predicate DoneIsMarked(s: State) {
    && (forall id | id in s.db.inbox && s.db.inbox[id].status == Done :: id in s.db.processed)
    && (forall w | w in s.workers && s.workers[w].phase.Applied? :: s.workers[w].phase.id in s.db.processed)
  }

  lemma StepKeepsDoneMarked(env: Env, s: State, a: Action)
    requires DoneIsMarked(s)
    ensures DoneIsMarked(Step(env, s, a)) && s.db.processed <= Step(env, s, a).db.processed
  {
  }

  lemma {:induction false} DoneRowsAreMarked(env: Env, s: State, tr: seq<Action>)
    requires Initial(s)
    ensures DoneIsMarked(Exec(env, s, tr))
  {
    if tr != [] {
      DoneRowsAreMarked(env, s, tr[..|tr| - 1]);
      StepKeepsDoneMarked(env, Exec(env, s, tr[..|tr| - 1]), tr[|tr| - 1]);
    }
  }

  // The subscription and the organisation show the event; no other organisation has changed.
  ghost predicate AppliedTo(env: Env, before: Database, after: Database, e: Event, o: OrgId, at: int) {
    && o in after.subscriptions && o in before.orgs && after.orgs.Keys == before.orgs.Keys
    && after.subscriptions[o] == Subscription(e.subId, e.priceId, e.subStatus, after.subscriptions[o].currentPeriodEnd)
    && (if e.periodEnd.Some? then after.subscriptions[o].currentPeriodEnd == 1000 * e.periodEnd.value
        else at - 1000 < after.subscriptions[o].currentPeriodEnd <= at)
    && after.orgs[o] == Org(before.orgs[o].customer, after.orgs[o].plan, Some(e.subStatus))
    && (if e.kind == SubscriptionDeleted then after.orgs[o].plan == "free"
        else Grants(env, e.priceId, after.orgs[o].plan))
    && (forall p | p in before.orgs && p != o :: after.orgs[p] == before.orgs[p])
  }

  // The step that wrote id's marker wrote the subscription and the organisation of its event too.
  ghost predicate MarkerWrite(env: Env, before: State, a: Action, after: State, id: EventId) {
    && id !in before.db.processed && id in after.db.processed && id in before.db.inbox
    && a.CommitEvent? && a.w in before.workers && before.workers[a.w].phase.Resolved?
    && before.workers[a.w].phase.id == id
    && var e := before.db.inbox[id].event;
       match before.workers[a.w].phase.org
       case None => after.db == before.db.(processed := after.db.processed)
       case Some(o) => AppliedTo(env, before.db, after.db, e, o, a.at)
  }

  lemma {:induction false} MarkerComesWithItsWrites(env: Env, s: State, tr: seq<Action>, id: EventId) returns (k: nat)
    requires Initial(s)
    requires id !in s.db.processed && id in Exec(env, s, tr).db.processed
    ensures k < |tr|
    ensures MarkerWrite(env, Exec(env, s, tr[..k]), tr[k], Exec(env, s, tr[..k + 1]), id)
  {
    var n := |tr| - 1;
    var before := Exec(env, s, tr[..n]);
    if id in before.db.processed {
      k := MarkerComesWithItsWrites(env, s, tr[..n], id);
      assert tr[..n][..k] == tr[..k] && tr[..n][..k + 1] == tr[..k + 1];
    } else {
      k := n;
      assert tr[..n + 1] == tr && tr[..n + 1][..n] == tr[..n];
      NewMarkerIsWritten(env, before, tr[n], id);
    }
  }

  lemma NewMarkerIsWritten(env: Env, s: State, a: Action, id: EventId)
    requires id !in s.db.processed && id in Step(env, s, a).db.processed
    ensures MarkerWrite(env, s, a, Step(env, s, a), id)
  {
    var e := s.db.inbox[id].event;
    PriceIsGrantedIff(env, e.priceId, PriceToPlan(env, e.priceId));
  }

  // ---------- mutual exclusion, when no live worker is overdue ----------

  // Every live worker that holds a row is still within the stuck timeout of its claim, or is at the
  // row's last attempt.
  ghost predicate Timely(env: Env, s: State) {
    forall w | w in s.workers && Busy(s.workers[w]) ::
      s.now <= s.workers[w].phase.stamp + env.stuckAfterMs || LastAttempt(s.db.inbox, s.workers[w].phase.id)
  }

  predicate LastAttempt(inbox: map<EventId, Row>, id: EventId) { id in inbox && inbox[id].attempts >= MAX_ATTEMPTS }

  ghost predicate Exclusive(s: State) {
    forall v, w | v in s.workers && w in s.workers && v != w && Busy(s.workers[v]) && Busy(s.workers[w]) ::
      s.workers[v].phase.id != s.workers[w].phase.id
  }

  // A held row carries its holder's claim.
  ghost predicate HoldersOwnTheirRows(env: Env, s: State) {
    && Exclusive(s)
    && (forall w | w in s.workers :: s.workers[w].cutoff <= s.now - env.stuckAfterMs)
    && (forall w | w in s.workers && Busy(s.workers[w]) :: OwnsItsRow(s.db.inbox, s.workers[w].phase))
  }

  predicate OwnsItsRow(inbox: map<EventId, Row>, p: Phase)
    requires !p.Scanning?
  {
    p.id in inbox && inbox[p.id].status == Processing && inbox[p.id].claimedAt == Some(p.stamp)
  }

  // The step is a claim that wins a row some other live worker holds.
  ghost predicate Doubles(s: State, a: Action) {
    && a.TryClaim? && a.w in s.workers && s.workers[a.w].phase.Scanning? && s.workers[a.w].due != [] && a.stamp <= s.now
    && exists w :: w in s.workers && Busy(s.workers[w]) && s.workers[w].phase.id == s.workers[a.w].due[0]
                   && s.workers[w].phase.stamp < s.workers[a.w].cutoff
                   && !LastAttempt(s.db.inbox, s.workers[w].phase.id)
  }

  lemma ClaimKeepsOwnership(env: Env, s: State, a: Action)
    requires HoldersOwnTheirRows(env, s) && a.TryClaim? && !Doubles(s, a)
    ensures HoldersOwnTheirRows(env, Step(env, s, a))
  {
  }

  lemma OtherStepsKeepOwnership(env: Env, s: State, a: Action)
    requires HoldersOwnTheirRows(env, s) && !a.TryClaim? && !a.CommitEvent? && !a.WriteDone? && !a.WriteFailed?
    ensures HoldersOwnTheirRows(env, Step(env, s, a))
  {
  }

  lemma WritesKeepOwnership(env: Env, s: State, a: Action)
    requires HoldersOwnTheirRows(env, s) && (a.CommitEvent? || a.WriteDone? || a.WriteFailed?)
    ensures HoldersOwnTheirRows(env, Step(env, s, a))
  {
  }

  lemma DoublingBreaks(env: Env, s: State, a: Action)
    requires HoldersOwnTheirRows(env, s) && Doubles(s, a)
    ensures !Exclusive(Step(env, s, a))
  {
    var w :| w in s.workers && Busy(s.workers[w]) && s.workers[w].phase.id == s.workers[a.w].due[0]
             && s.workers[w].phase.stamp < s.workers[a.w].cutoff && !LastAttempt(s.db.inbox, s.workers[w].phase.id);
    var t := Step(env, s, a);
    assert t.workers[w] == s.workers[w] && Busy(t.workers[a.w]) && t.workers[a.w].phase.id == t.workers[w].phase.id;
  }

  // A step lets two live workers hold one row if and only if it is a claim whose cutoff lies after
  // the claim of a live holder that has an attempt left.
  lemma StepBreaksExclusionIff(env: Env, s: State, a: Action)
    requires HoldersOwnTheirRows(env, s)
    ensures !Exclusive(Step(env, s, a)) <==> Doubles(s, a)
    ensures !Doubles(s, a) ==> HoldersOwnTheirRows(env, Step(env, s, a))
  {
    if Doubles(s, a) {
      DoublingBreaks(env, s, a);
    } else if a.TryClaim? {
      ClaimKeepsOwnership(env, s, a);
    } else if a.CommitEvent? || a.WriteDone? || a.WriteFailed? {
      WritesKeepOwnership(env, s, a);
    } else {
      OtherStepsKeepOwnership(env, s, a);
    }
  }

  lemma StepKeepsOwnership(env: Env, s: State, a: Action)
    requires HoldersOwnTheirRows(env, s) && Timely(env, s)
    ensures HoldersOwnTheirRows(env, Step(env, s, a))
  {
    StepBreaksExclusionIff(env, s, a);
  }

  lemma StepKeepsDone(env: Env, s: State, a: Action)
    requires HoldersOwnTheirRows(env, s)
    ensures forall id | id in s.db.inbox && s.db.inbox[id].status == Done ::
              id in Step(env, s, a).db.inbox && Step(env, s, a).db.inbox[id] == s.db.inbox[id]
  {
  }

  ghost predicate TimelyRun(env: Env, s: State, tr: seq<Action>) {
    forall k | 0 <= k <= |tr| :: Timely(env, Exec(env, s, tr[..k]))
  }

  lemma TimelyPrefix(env: Env, s: State, tr: seq<Action>, n: nat)
    requires TimelyRun(env, s, tr) && n <= |tr|
    ensures TimelyRun(env, s, tr[..n])
  {
    forall k | 0 <= k <= n ensures Timely(env, Exec(env, s, tr[..n][..k])) {
      assert tr[..n][..k] == tr[..k];
    }
  }

  lemma {:induction false} TimelyRunsKeepOwnership(env: Env, s: State, tr: seq<Action>)
    requires Initial(s) && TimelyRun(env, s, tr)
    ensures HoldersOwnTheirRows(env, Exec(env, s, tr))
  {
    if tr != [] {
      var n := |tr| - 1;
      TimelyPrefix(env, s, tr, n);
      TimelyRunsKeepOwnership(env, s, tr[..n]);
      StepKeepsOwnership(env, Exec(env, s, tr[..n]), tr[n]);
    }
  }

  // The cutoff is computed once per drain and the batch is stale, yet as long as no live worker
  // overruns the timeout, two workers never hold one row, and a finished row is never touched again.
  lemma {:induction false} TimelyRunsExclude(env: Env, s: State, tr: seq<Action>, k: nat, id: EventId)
    requires Initial(s) && TimelyRun(env, s, tr) && k <= |tr|
    ensures Exclusive(Exec(env, s, tr))
    ensures
      var mid, last := Exec(env, s, tr[..k]).db.inbox, Exec(env, s, tr).db.inbox;
      id in mid && mid[id].status == Done ==> id in last && last[id] == mid[id]
    decreases |tr|
  {
    TimelyRunsKeepOwnership(env, s, tr);
    if k == |tr| {
      assert tr[..k] == tr;
    } else {
      var n := |tr| - 1;
      TimelyPrefix(env, s, tr, n);
      TimelyRunsExclude(env, s, tr[..n], k, id);
      assert tr[..n][..k] == tr[..k];
      TimelyRunsKeepOwnership(env, s, tr[..n]);
      StepKeepsDone(env, Exec(env, s, tr[..n]), tr[n]);
    }
  }

  // ---------- and exactly when it can break ----------

  // The clock stands still, and claims carry its time.
  ghost predicate Punctual(s: State, tr: seq<Action>) {
    forall k | 0 <= k < |tr| :: !tr[k].Tick? && (tr[k].TryClaim? ==> tr[k].stamp == s.now)
  }

  lemma PunctualStepStaysTimely(env: Env, s: State, a: Action)
    requires HoldersOwnTheirRows(env, s) && Timely(env, s) && env.stuckAfterMs >= 0
    requires !a.Tick? && (a.TryClaim? ==> a.stamp == s.now)
    ensures Timely(env, Step(env, s, a)) && Step(env, s, a).now == s.now
  {
    var t := Step(env, s, a);
    forall w | w in t.workers && Busy(t.workers[w])
      ensures t.now <= t.workers[w].phase.stamp + env.stuckAfterMs || LastAttempt(t.db.inbox, t.workers[w].phase.id)
    {
      if w in s.workers && Busy(s.workers[w]) {
        assert t.workers[w].phase.id == s.workers[w].phase.id && t.workers[w].phase.stamp == s.workers[w].phase.stamp;
        assert OwnsItsRow(s.db.inbox, s.workers[w].phase);
      }
    }
  }

  lemma {:induction false} PunctualRunsExclude(env: Env, s: State, tr: seq<Action>)
    requires HoldersOwnTheirRows(env, s) && Timely(env, s) && env.stuckAfterMs >= 0 && Punctual(s, tr)
    ensures HoldersOwnTheirRows(env, Exec(env, s, tr)) && Timely(env, Exec(env, s, tr)) && Exec(env, s, tr).now == s.now
  {
    if tr != [] {
      var n := |tr| - 1;
      PunctualRunsExclude(env, s, tr[..n]);
      StepKeepsOwnership(env, Exec(env, s, tr[..n]), tr[n]);
      PunctualStepStaysTimely(env, Exec(env, s, tr[..n]), tr[n]);
    }
  }

  // A fresh worker scans, claims the oldest row of its batch and dies.
  function Probe(v: nat, now: int, due: seq<EventId>): seq<Action> {
    [Scan(v, now, due), TryClaim(v, now), Stop(v)]
  }

  // A worker that has scanned and tried to claim the first row of its batch.
  function Tried(env: Env, s: State, v: nat, due: seq<EventId>): State
    requires due != []
  {
    var cutoff := s.now - env.stuckAfterMs;
    Put(s, v, Worker(cutoff, due[1..], if ClaimWins(s.db, due[0], cutoff) then Claimed(due[0], s.now) else Scanning))
    .(db := Claim(s.db, due[0], cutoff, s.now))
  }

  lemma ScanStep(env: Env, s: State, w: nat, at: int, due: seq<EventId>)
    requires w !in s.workers && at <= s.now && IsBatch(s.db.inbox, at - env.stuckAfterMs, due)
    ensures Exec(env, s, [Scan(w, at, due)]) == Put(s, w, Worker(at - env.stuckAfterMs, due, Scanning))
  {
    Exec1(env, s, Scan(w, at, due));
  }

  lemma TryStep(env: Env, s: State, v: nat, due: seq<EventId>)
    requires due != []
    ensures Step(env, Put(s, v, Worker(s.now - env.stuckAfterMs, due, Scanning)), TryClaim(v, s.now))
              == Tried(env, s, v, due)
  {
    var s1 := Put(s, v, Worker(s.now - env.stuckAfterMs, due, Scanning));
    var s2 := Step(env, s1, TryClaim(v, s.now));
    assert s1.workers[v := s2.workers[v]] == s.workers[v := s2.workers[v]];
  }

  lemma ProbeClaims(env: Env, s: State, v: nat, due: seq<EventId>)
    requires v !in s.workers && due != [] && IsBatch(s.db.inbox, s.now - env.stuckAfterMs, due)
    ensures Exec(env, s, Probe(v, s.now, due)[..2]) == Tried(env, s, v, due)
  {
    ScanStep(env, s, v, s.now, due);
    TryStep(env, s, v, due);
    LastStep(env, s, Probe(v, s.now, due)[..2]);
    assert Probe(v, s.now, due)[..2][..1] == [Scan(v, s.now, due)];
  }

  lemma ProbeLeavesTheClaim(env: Env, s: State, v: nat, due: seq<EventId>)
    requires v !in s.workers && due != [] && IsBatch(s.db.inbox, s.now - env.stuckAfterMs, due)
    ensures Exec(env, s, Probe(v, s.now, due)) == s.(db := Claim(s.db, due[0], s.now - env.stuckAfterMs, s.now))
  {
    ProbeClaims(env, s, v, due);
    LastStep(env, s, Probe(v, s.now, due));
    TriedGone(env, s, v, due);
  }

  lemma TriedGone(env: Env, s: State, v: nat, due: seq<EventId>)
    requires v !in s.workers && due != []
    ensures Step(env, Tried(env, s, v, due), Stop(v)) == s.(db := Claim(s.db, due[0], s.now - env.stuckAfterMs, s.now))
  {
    var t := Tried(env, s, v, due);
    assert t.workers - {v} == s.workers;
  }

  lemma LastStep(env: Env, s: State, tr: seq<Action>)
    requires tr != []
    ensures Exec(env, s, tr) == Step(env, Exec(env, s, tr[..|tr| - 1]), tr[|tr| - 1])
  {
  }

  // Claiming a row nobody holds leaves the holders theirs and takes it off the list of eligible rows.
  lemma UnheldClaim(env: Env, s: State, id: EventId)
    requires HoldersOwnTheirRows(env, s) && AttemptsBounded(s.db.inbox) && env.stuckAfterMs >= 0
    requires !Held(s, id) && id in EligibleIds(s.db.inbox, s.now - env.stuckAfterMs)
    ensures
      var cutoff := s.now - env.stuckAfterMs;
      var t := s.(db := Claim(s.db, id, cutoff, s.now));
      && HoldersOwnTheirRows(env, t) && AttemptsBounded(t.db.inbox)
      && EligibleIds(t.db.inbox, cutoff) == EligibleIds(s.db.inbox, cutoff) - {id}
      && (forall x | x in s.db.inbox && x != id :: t.db.inbox[x] == s.db.inbox[x])
  {
  }

  ghost predicate Overdue(env: Env, s: State, w: nat) {
    && w in s.workers && Busy(s.workers[w]) && s.workers[w].phase.stamp + env.stuckAfterMs < s.now
    && !LastAttempt(s.db.inbox, s.workers[w].phase.id)
  }

  lemma OverdueIsEligible(env: Env, s: State, w: nat)
    requires HoldersOwnTheirRows(env, s) && Overdue(env, s, w)
    ensures s.workers[w].phase.id in EligibleIds(s.db.inbox, s.now - env.stuckAfterMs)
  {
    assert OwnsItsRow(s.db.inbox, s.workers[w].phase);
  }

  lemma PunctualProbe(s: State, t: State, v: nat, due: seq<EventId>, rest: seq<Action>)
    requires t.now == s.now && Punctual(t, rest)
    ensures Punctual(s, Probe(v, s.now, due)[..2]) && Punctual(s, Probe(v, s.now, due) + rest)
  {
  }

  // With the clock standing still, the oldest eligible rows are claimed one after the other until
  // the turn comes to a row that is held.
  lemma {:induction false} OverdueIsDoubled(env: Env, s: State, w: nat) returns (tr: seq<Action>)
    requires HoldersOwnTheirRows(env, s) && AttemptsBounded(s.db.inbox) && env.stuckAfterMs >= 0
    requires Overdue(env, s, w)
    ensures Punctual(s, tr) && !Exclusive(Exec(env, s, tr))
    decreases |EligibleIds(s.db.inbox, s.now - env.stuckAfterMs)|
  {
    var cutoff := s.now - env.stuckAfterMs;
    OverdueIsEligible(env, s, w);
    var due := SomeBatch(s.db.inbox, cutoff, s.workers[w].phase.id);
    var v := FreshNumber(s.workers.Keys);
    if Held(s, due[0]) {
      var u :| u in s.workers && Busy(s.workers[u]) && s.workers[u].phase.id == due[0];
      tr := Probe(v, s.now, due)[..2];
      PunctualProbe(s, s, v, due, []);
      HeldBatchHeadIsDoubled(env, s, v, u, due);
    } else {
      ProbeLeavesTheClaim(env, s, v, due);
      var t := s.(db := Claim(s.db, due[0], cutoff, s.now));
      OneFewer(env, s, w, due[0]);
      var rest := OverdueIsDoubled(env, t, w);
      ExecAppend(env, s, Probe(v, s.now, due), rest);
      PunctualProbe(s, t, v, due, rest);
      tr := Probe(v, s.now, due) + rest;
    }
  }

  lemma OneFewer(env: Env, s: State, w: nat, id: EventId)
    requires HoldersOwnTheirRows(env, s) && AttemptsBounded(s.db.inbox) && env.stuckAfterMs >= 0
    requires Overdue(env, s, w) && !Held(s, id) && id in EligibleIds(s.db.inbox, s.now - env.stuckAfterMs)
    ensures
      var cutoff := s.now - env.stuckAfterMs;
      var t := s.(db := Claim(s.db, id, cutoff, s.now));
      && HoldersOwnTheirRows(env, t) && AttemptsBounded(t.db.inbox) && Overdue(env, t, w)
      && |EligibleIds(t.db.inbox, cutoff)| < |EligibleIds(s.db.inbox, cutoff)|
  {
    UnheldClaim(env, s, id);
    StaysOverdue(env, s, w, id);
  }

  lemma SomeBatch(inbox: map<EventId, Row>, cutoff: int, id: EventId) returns (due: seq<EventId>)
    requires id in EligibleIds(inbox, cutoff)
    ensures IsBatch(inbox, cutoff, due) && due != [] && due[0] in EligibleIds(inbox, cutoff)
  {
    due := BatchExists(inbox, cutoff);
    assert due == [] ==> id !in due;
  }

  lemma StaysOverdue(env: Env, s: State, w: nat, id: EventId)
    requires HoldersOwnTheirRows(env, s) && Overdue(env, s, w) && !Held(s, id)
    ensures Overdue(env, s.(db := Claim(s.db, id, s.now - env.stuckAfterMs, s.now)), w)
  {
    assert OwnsItsRow(s.db.inbox, s.workers[w].phase);
  }

  lemma HeldBatchHeadIsDoubled(env: Env, s: State, v: nat, u: nat, due: seq<EventId>)
    requires HoldersOwnTheirRows(env, s) && AttemptsBounded(s.db.inbox)
    requires v !in s.workers && due != [] && IsBatch(s.db.inbox, s.now - env.stuckAfterMs, due)
    requires u in s.workers && Busy(s.workers[u]) && s.workers[u].phase.id == due[0]
    ensures !Exclusive(Exec(env, s, Probe(v, s.now, due)[..2]))
  {
    ProbeClaims(env, s, v, due);
    assert OwnsItsRow(s.db.inbox, s.workers[u].phase);
    assert due[0] in EligibleIds(s.db.inbox, s.now - env.stuckAfterMs);
    var t := Exec(env, s, Probe(v, s.now, due)[..2]);
    assert Busy(t.workers[u]) && Busy(t.workers[v]) && t.workers[u].phase.id == t.workers[v].phase.id;
  }

  // While the clock stands still, no continuation lets two live workers hold one row if and only if
  // no live holder with an attempt left is past the timeout of its claim.
  lemma ExclusionLastsIffTimely(env: Env, s: State)
    requires HoldersOwnTheirRows(env, s) && AttemptsBounded(s.db.inbox) && env.stuckAfterMs >= 0
    ensures (forall tr | Punctual(s, tr) :: Exclusive(Exec(env, s, tr))) <==> Timely(env, s)
  {
    if Timely(env, s) {
      forall tr | Punctual(s, tr) ensures Exclusive(Exec(env, s, tr)) {
        PunctualRunsExclude(env, s, tr);
      }
    } else {
      var w :| w in s.workers && Busy(s.workers[w])
               && !(s.now <= s.workers[w].phase.stamp + env.stuckAfterMs
                   || LastAttempt(s.db.inbox, s.workers[w].phase.id));
      var tr := OverdueIsDoubled(env, s, w);
    }
  }

  // ---------- and what goes wrong with a finished row ----------

  ghost predicate Held(s: State, id: EventId) {
    exists w :: w in s.workers && Busy(s.workers[w]) && s.workers[w].phase.id == id
  }

  lemma {:induction false} UnheldDoneStays(env: Env, s: State, tr: seq<Action>, id: EventId)
    requires id in s.db.inbox && s.db.inbox[id].status == Done && !Held(s, id)
    ensures
      var last := Exec(env, s, tr);
      id in last.db.inbox && last.db.inbox[id] == s.db.inbox[id] && !Held(last, id)
  {
    if tr != [] {
      var k := |tr| - 1;
      UnheldDoneStays(env, s, tr[..k], id);
      UnheldStep(env, Exec(env, s, tr[..k]), tr[k], id);
    }
  }

  lemma UnheldStep(env: Env, s: State, a: Action, id: EventId)
    requires id in s.db.inbox && s.db.inbox[id].status == Done
    requires forall w | w in s.workers && Busy(s.workers[w]) :: s.workers[w].phase.id != id
    ensures
      var t := Step(env, s, a);
      && id in t.db.inbox && t.db.inbox[id] == s.db.inbox[id]
      && forall w | w in t.workers && Busy(t.workers[w]) :: t.workers[w].phase.id != id
  {
  }

  // A finished row is final exactly when no drain still holds it; otherwise the late worker's
  // failure write, which selects by id alone, puts it back among the rows to retry.
  lemma DoneIsFinalIffUnheld(env: Env, s: State, id: EventId)
    requires id in s.db.inbox && s.db.inbox[id].status == Done
    ensures
      (forall tr :: var last := Exec(env, s, tr); id in last.db.inbox && last.db.inbox[id].status == Done)
      <==> !Held(s, id)
  {
    if Held(s, id) {
      var w :| w in s.workers && Busy(s.workers[w]) && s.workers[w].phase.id == id;
      Exec1(env, s, WriteFailed(w));
      Exec2(env, s, Throw(w), WriteFailed(w));
      var tr := if s.workers[w].phase.Thrown? then [WriteFailed(w)] else [Throw(w), WriteFailed(w)];
      assert Exec(env, s, tr).db.inbox[id].status == Failed;
    } else {
      forall tr: seq<Action>
        ensures id in Exec(env, s, tr).db.inbox && Exec(env, s, tr).db.inbox[id].status == Done
      {
        UnheldDoneStays(env, s, tr, id);
      }
    }
  }

  lemma Exec1(env: Env, s: State, a: Action)
    ensures Exec(env, s, [a]) == Step(env, s, a)
  {
    assert [a][..0] == [];
    assert Exec(env, s, [a][..0]) == s;
  }

  lemma Exec2(env: Env, s: State, a: Action, b: Action)
    ensures Exec(env, s, [a, b]) == Step(env, Step(env, s, a), b)
  {
    Exec1(env, s, a);
    assert [a, b][..1] == [a];
  }

  lemma Exec4(env: Env, s: State, a: Action, b: Action, c: Action, d: Action)
    ensures Exec(env, s, [a, b, c, d]) == Step(env, Step(env, Step(env, Step(env, s, a), b), c), d)
  {
    Exec2(env, s, a, b);
    Exec2(env, Exec(env, s, [a, b]), c, d);
    ExecAppend(env, s, [a, b], [c, d]);
    assert [a, b] + [c, d] == [a, b, c, d];
  }

  lemma {:induction false} ExecAppend(env: Env, s: State, a: seq<Action>, b: seq<Action>)
    ensures Exec(env, s, a + b) == Exec(env, Exec(env, s, a), b)
  {
    if b == [] {
      assert a + b == a;
    } else {
      var k := |b| - 1;
      ExecAppend(env, s, a, b[..k]);
      assert (a + b)[..|a| + k] == a + b[..k];
    }
  }

  // A worker claims the only row and stalls ...
  lemma FirstWorkerStalls(env: Env, e: Event, s: State, tr: seq<Action>)
    requires env.stuckAfterMs >= 0
    requires s == State(Database(map[], {}, map[], map[]), map[], 0)
    requires tr == [Insert("evt", e), Scan(0, 0, ["evt"]), TryClaim(0, 0), Tick(env.stuckAfterMs + 1)]
    ensures
      var t := Exec(env, s, tr);
      && t.db == s.db.(inbox := map["evt" := Row(e, Processing, 1, 0, Some(0))])
      && t.workers == map[0 := Worker(-env.stuckAfterMs, [], Claimed("evt", 0))]
      && t.now == env.stuckAfterMs + 1
  {
    Exec4(env, s, tr[0], tr[1], tr[2], tr[3]);
    var s1 := Step(env, s, tr[0]);
    assert s1.db.inbox == map["evt" := Row(e, Pending, 0, 0, None)];
    assert IsBatch(s1.db.inbox, -env.stuckAfterMs, ["evt"]);
    var s2 := Step(env, s1, tr[1]);
    assert s2.workers == map[0 := Worker(-env.stuckAfterMs, ["evt"], Scanning)];
    assert ["evt"][1..] == [];
  }

  // ... a second one reclaims it, so both hold it ...
  lemma SecondWorkerReclaims(env: Env, e: Event, s: State, tr: seq<Action>)
    requires env.stuckAfterMs >= 0
    requires s.db == Database(map["evt" := Row(e, Processing, 1, 0, Some(0))], {}, map[], map[])
    requires s.workers == map[0 := Worker(-env.stuckAfterMs, [], Claimed("evt", 0))]
    requires s.now == env.stuckAfterMs + 1
    requires tr == Probe(1, s.now, ["evt"])[..2] + [Resolve(1, None), CommitEvent(1, s.now)]
    ensures
      var t := Exec(env, s, tr);
      && 0 in t.workers && t.workers[0].phase == Claimed("evt", 0)
      && 1 in t.workers && t.workers[1].phase == Applied("evt", s.now)
      && "evt" in t.db.inbox
  {
    assert IsBatch(s.db.inbox, 1, ["evt"]);
    ProbeClaims(env, s, 1, ["evt"]);
    var s2 := Exec(env, s, Probe(1, s.now, ["evt"])[..2]);
    ExecAppend(env, s, Probe(1, s.now, ["evt"])[..2], [Resolve(1, None), CommitEvent(1, s.now)]);
    assert s2.workers[1].phase == Claimed("evt", s.now) && s2.workers[0] == s.workers[0];
    MarksAlone(env, s2, 1, "evt", s.now);
  }

  // From a claim to a commit that binds the event to nobody.
  lemma MarksAlone(env: Env, s: State, w: nat, id: EventId, stamp: int)
    requires w in s.workers && s.workers[w].phase == Claimed(id, stamp) && id in s.db.inbox
    ensures
      var t := Exec(env, s, [Resolve(w, None), CommitEvent(w, s.now)]);
      && t.workers == s.workers[w := s.workers[w].(phase := Applied(id, stamp))]
      && t.db == s.db.(processed := s.db.processed + {id})
  {
    Exec2(env, s, Resolve(w, None), CommitEvent(w, s.now));
    var s1 := Step(env, s, Resolve(w, None));
    assert s1 == Put(s, w, s.workers[w].(phase := Resolved(id, stamp, None)));
  }

  // With a worker that sleeps past the timeout both halves really fail: two workers hold the row
  // at once, and afterwards the row goes from done back to failed.
  lemma OverdueWorkerBreaksExclusion(env: Env, e: Event) returns (s: State, tr: seq<Action>)
    requires env.stuckAfterMs >= 0
    ensures Initial(s) && |tr| == 11
    ensures !Exclusive(Exec(env, s, tr[..8]))
    ensures "evt" in Exec(env, s, tr[..9]).db.inbox && Exec(env, s, tr[..9]).db.inbox["evt"].status == Done
    ensures "evt" in Exec(env, s, tr).db.inbox && Exec(env, s, tr).db.inbox["evt"].status == Failed
  {
    s := State(Database(map[], {}, map[], map[]), map[], 0);
    var late := env.stuckAfterMs + 1;
    var one := [Insert("evt", e), Scan(0, 0, ["evt"]), TryClaim(0, 0), Tick(late)];
    FirstWorkerStalls(env, e, s, one);
    var two := Probe(1, late, ["evt"])[..2] + [Resolve(1, None), CommitEvent(1, late)];
    SecondWorkerReclaims(env, e, Exec(env, s, one), two);
    ExecAppend(env, s, one, two);
    var s8 := Exec(env, s, one + two);
    assert Busy(s8.workers[0]) && Busy(s8.workers[1]);
    LateFailure(env, s8, late);
    ExecAppend(env, s, one + two, [WriteDone(1)]);
    ExecAppend(env, s, one + two + [WriteDone(1)], [Throw(0), WriteFailed(0)]);
    tr := one + two + [WriteDone(1)] + [Throw(0), WriteFailed(0)];
    assert tr[..8] == one + two;
    assert tr[..9] == one + two + [WriteDone(1)];
  }

  lemma LateFailure(env: Env, s: State, late: int)
    requires 0 in s.workers && s.workers[0].phase == Claimed("evt", 0)
    requires 1 in s.workers && s.workers[1].phase == Applied("evt", late)
    requires "evt" in s.db.inbox
    ensures
      var done := Exec(env, s, [WriteDone(1)]);
      var failed := Exec(env, done, [Throw(0), WriteFailed(0)]);
      && "evt" in done.db.inbox && done.db.inbox["evt"].status == Done
      && "evt" in failed.db.inbox && failed.db.inbox["evt"].status == Failed
  {
    Exec1(env, s, WriteDone(1));
    Exec2(env, Step(env, s, WriteDone(1)), Throw(0), WriteFailed(0));
  }

  // ---------- re-running an event ----------

  predicate AtMostOneLinked(db: Database, customer: string) {
    forall o, p | o in db.orgs && p in db.orgs && db.orgs[o].customer == Some(customer) == db.orgs[p].customer :: o == p
  }

  // The same organisations, linked to the same customers.
  ghost predicate SameLinks(db: Database, later: Database) {
    && later.orgs.Keys == db.orgs.Keys
    && forall o | o in db.orgs :: later.orgs[o].customer == db.orgs[o].customer
  }

  lemma UnlinkedBindsAlike(db: Database, later: Database, e: Event, org: Option<OrgId>, again: Option<OrgId>)
    requires Resolves(db, e, org) && SameLinks(db, later) && Resolves(later, e, again)
    requires e.kind == OtherKind || AtMostOneLinked(db, e.customer)
    ensures again == org
  {
    if o :| o in db.orgs && db.orgs[o].customer == Some(e.customer) {
      assert later.orgs[o].customer == Some(e.customer);
    } else {
      assert forall o | o in later.orgs :: later.orgs[o].customer != Some(e.customer);
    }
  }

  // Whatever else changed in between, as long as organisations and their customers are the same, the
  // second run binds the event to the same organisation, if and only if at most one organisation is
  // linked to its customer.
  lemma ReplayResolvesAlikeIff(db: Database, later: Database, e: Event, org: Option<OrgId>)
    requires Resolves(db, e, org) && SameLinks(db, later)
    ensures (forall again | Resolves(later, e, again) :: again == org)
              <==> e.kind == OtherKind || AtMostOneLinked(db, e.customer)
  {
    if e.kind == OtherKind || AtMostOneLinked(db, e.customer) {
      forall again | Resolves(later, e, again) ensures again == org {
        UnlinkedBindsAlike(db, later, e, org, again);
      }
    } else {
      var o, p :| o in db.orgs && p in db.orgs && db.orgs[o].customer == Some(e.customer) == db.orgs[p].customer
          && o != p;
      assert later.orgs[o].customer == Some(e.customer) == later.orgs[p].customer;
      assert Resolves(later, e, Some(o)) && Resolves(later, e, Some(p));
    }
  }

  // Running a committed event again, whatever else happened in between except to customer links, its
  // organisation and its marker: the organisation is looked up again and is the same, and nothing
  // changes if and only if there is none, or the event carries its own period end, or the second run
  // lands in the same second.
  lemma ReplayIsIdempotentIff(env: Env, db: Database, later: Database, id: EventId, e: Event, org: Option<OrgId>,
          again: Option<OrgId>, t1: int, t2: int)
    requires Resolves(db, e, org) && (org.Some? ==> org.value in db.orgs)
    requires e.kind == OtherKind || AtMostOneLinked(db, e.customer)
    requires SameLinks(db, later) && Resolves(later, e, again)
    requires
      var once := Commit(env, db, id, e, org, t1);
      && id in later.processed
      && (org.Some? ==> && later.orgs[org.value] == once.orgs[org.value]
                        && org.value in later.subscriptions
                        && later.subscriptions[org.value] == once.subscriptions[org.value])
    ensures again == org
    ensures UniqueSubs(later) ==> !Collides(later, e, again)
    ensures Commit(env, later, id, e, again, t2) == later
       <==> org == None || e.periodEnd.Some? || t1 / 1000 == t2 / 1000
  {
    UnlinkedBindsAlike(db, later, e, org, again);
    SecondCommit(env, db, later, id, e, org, t1, t2);
  }

  lemma SecondCommit(env: Env, db: Database, later: Database, id: EventId, e: Event, org: Option<OrgId>, t1: int,
          t2: int)
    requires org.Some? ==> org.value in db.orgs
    requires
      var once := Commit(env, db, id, e, org, t1);
      && id in later.processed
      && (org.Some? ==> && org.value in later.orgs && later.orgs[org.value] == once.orgs[org.value]
                        && org.value in later.subscriptions
                        && later.subscriptions[org.value] == once.subscriptions[org.value])
    ensures Commit(env, later, id, e, org, t2) == later
       <==> org == None || e.periodEnd.Some? || t1 / 1000 == t2 / 1000
  {
    var twice := Commit(env, later, id, e, org, t2);
    assert twice.processed == later.processed;
    if org.Some? {
      var o := org.value;
      assert twice.orgs == later.orgs;
      assert twice.subscriptions[o] == SubscriptionOf(e, t2) && later.subscriptions[o] == SubscriptionOf(e, t1);
      if PeriodEndOf(e, t1) == PeriodEndOf(e, t2) {
        assert twice.subscriptions == later.subscriptions;
      }
    }
  }

  // Links do matter. An event that was bound to nobody: once its customer is linked, running it
  // again writes a subscription and a plan.
  lemma LinkedLaterIsWritten(env: Env, id: EventId, e: Event, o: OrgId, t1: int, t2: int)
    requires e.kind != OtherKind && e.metadataOrg == None
    ensures
      var db := Database(map[], {}, map[o := Org(None, "free", None)], map[]);
      var once := Commit(env, db, id, e, None, t1);
      var later := once.(orgs := map[o := Org(Some(e.customer), "free", None)]);
      && Resolves(db, e, None) && id in later.processed
      && (forall again :: Resolves(later, e, again) ==> again == Some(o))
      && !Collides(later, e, Some(o))
      && o !in later.subscriptions && o in Commit(env, later, id, e, Some(o), t2).subscriptions
  {
    var later := Commit(env, Database(map[], {}, map[o := Org(None, "free", None)], map[]), id, e, None, t1)
                 .(orgs := map[o := Org(Some(e.customer), "free", None)]);
    assert later.orgs[o].customer == Some(e.customer);
  }

  // An event bound by its metadata: once another organisation has the customer, running it again
  // looks up that one. But the first organisation still stores the subscription id, so the
  // transaction is rejected.
  lemma LinkedElsewhereIsRejected(env: Env, id: EventId, e: Event, o: OrgId, p: OrgId, t1: int)
    requires e.kind != OtherKind && e.metadataOrg == Some(o) && o != "" && p != o
    ensures
      var db := Database(map[], {}, map[o := Org(None, "free", None), p := Org(None, "free", None)], map[]);
      var once := Commit(env, db, id, e, Some(o), t1);
      var later := once.(orgs := once.orgs[p := Org(Some(e.customer), "free", None)]);
      && Resolves(db, e, Some(o)) && !Collides(db, e, Some(o))
      && id in later.processed && later.orgs[o] == once.orgs[o] && UniqueSubs(later)
      && (forall again :: Resolves(later, e, again) ==> again == Some(p))
      && Collides(later, e, Some(p))
  {
    var db := Database(map[], {}, map[o := Org(None, "free", None), p := Org(None, "free", None)], map[]);
    var once := Commit(env, db, id, e, Some(o), t1);
    var later := once.(orgs := once.orgs[p := Org(Some(e.customer), "free", None)]);
    assert later.orgs[p].customer == Some(e.customer);
    assert o in later.subscriptions && later.subscriptions[o].stripeSubId == e.subId;
  }

  // In every run: while one organisation keeps a subscription id, no other stores it, and a worker
  // that has looked up another one cannot commit the event.
  lemma NeverWrittenElsewhere(env: Env, s: State, tr: seq<Action>, o: OrgId, p: OrgId, a: Action)
    requires UniqueSubs(s.db) && p != o
    requires
      var t := Exec(env, s, tr);
      && a.CommitEvent? && a.w in t.workers && t.workers[a.w].phase.Resolved?
      && t.workers[a.w].phase.org == Some(p) && t.workers[a.w].phase.id in t.db.inbox
      && o in t.db.subscriptions
      && t.db.subscriptions[o].stripeSubId == t.db.inbox[t.workers[a.w].phase.id].event.subId
    ensures
      var t := Exec(env, s, tr);
      && Step(env, t, a) == t
      && (p in t.db.subscriptions ==> t.db.subscriptions[p].stripeSubId != t.db.subscriptions[o].stripeSubId)
  {
    RunsKeepSubsUnique(env, s, tr);
  }
}
