/**
 A drain of the webhook inbox from beginning to end: what it does when nobody interferes, how many
 of them settle the inbox, that each is a run of the protocol, and the service's methods.
 */
module WebhookDrains {
  import opened Prelude
  import opened WebhookInbox

  // ---------- one drain ----------

  // How processing a claimed row ends: done; the transaction fails or is never reached; or it
  // commits and writing the row's status fails.
  datatype Ending = Completes | FailsBefore | FailsAfter

  // What the environment does to one claimed row. recorded says whether the write that marks a
  // failure goes through; a rejection of that write ends the drain, as a crash would.
  datatype Outcome = Outcome(stamp: int, pick: Choice, at: int, ending: Ending, recorded: bool)

  datatype Handled = Skipped | Completed | Recorded | Unrecorded

  // The transaction goes through: nothing fails before it, and the organisation that is looked up is
  // not refused because another one stores the subscription id.
  predicate Commits(db: Database, id: EventId, o: Outcome)
    requires id in db.inbox
  {
    o.ending != FailsBefore && !Collides(db, db.inbox[id].event, Binding(db, db.inbox[id].event, o.pick))
  }

  // The tables after the transaction, or as before when it does not go through.
  function Processed(env: Env, db: Database, id: EventId, o: Outcome): Database
    requires id in db.inbox
  {
    if !Commits(db, id, o) then db
    else
      BindingResolves(db, db.inbox[id].event, o.pick);
      Commit(env, db, id, db.inbox[id].event, Binding(db, db.inbox[id].event, o.pick), o.at)
  }

  function Handle(env: Env, db: Database, id: EventId, cutoff: int, o: Outcome): (Database, Handled) {
    if !ClaimWins(db, id, cutoff) then (db, Skipped)
    else
      var claimed := Claim(db, id, cutoff, o.stamp);
      var after := Processed(env, claimed, id, o);
      if Commits(claimed, id, o) && o.ending == Completes then (SetStatus(after, id, Done), Completed)
      else if o.recorded then (SetStatus(after, id, Failed), Recorded)
      else (after, Unrecorded)
  }

  datatype DrainResult = DrainResult(db: Database, count: nat, aborted: bool)

  function Drain(env: Env, db: Database, due: seq<EventId>, cutoff: int, oracle: EventId -> Outcome): DrainResult {
    if due == [] then DrainResult(db, 0, false)
    else
      var k := |due| - 1;
      var before := Drain(env, db, due[..k], cutoff, oracle);
      if before.aborted then before
      else
        var (after, handled) := Handle(env, before.db, due[k], cutoff, oracle(due[k]));
        DrainResult(after, before.count + (if handled.Completed? then 1 else 0), handled.Unrecorded?)
  }

  // ---------- what a drain reports ----------

  // The rows of the batch that the drain finished.
  ghost function Finished(before: map<EventId, Row>, after: map<EventId, Row>, due: seq<EventId>): set<EventId> {
    set id | id in due && id in before && id in after && before[id].status != Done && after[id].status == Done
  }

  // A handled row is done exactly when that is reported, and no other row changes.
  lemma HandledIsReported(env: Env, db: Database, id: EventId, cutoff: int, o: Outcome)
    ensures
      var (after, handled) := Handle(env, db, id, cutoff, o);
      && (forall x :: x in after.inbox <==> x in db.inbox)
      && (forall x | x in db.inbox && x != id :: after.inbox[x] == db.inbox[x])
      && (handled.Completed? ==> id in db.inbox && db.inbox[id].status != Done && after.inbox[id].status == Done)
      && (id in db.inbox && !handled.Completed? && after.inbox[id].status == Done ==> db.inbox[id].status == Done)
  {
    if ClaimWins(db, id, cutoff) {
      HandledInbox(env, db, id, cutoff, o);
    }
  }

  lemma {:induction false} DrainTouchesItsBatch(env: Env, db: Database, due: seq<EventId>, cutoff: int,
        oracle: EventId -> Outcome)
    ensures
      var after := Drain(env, db, due, cutoff, oracle).db.inbox;
      (forall x :: x in after <==> x in db.inbox) && forall x | x in db.inbox && x !in due :: after[x] == db.inbox[x]
  {
    if due != [] {
      var k := |due| - 1;
      DrainTouchesItsBatch(env, db, due[..k], cutoff, oracle);
      var before := Drain(env, db, due[..k], cutoff, oracle);
      HandledIsReported(env, before.db, due[k], cutoff, oracle(due[k]));
      assert due == due[..k] + [due[k]];
    }
  }

  // The number a drain returns is the number of rows it finished.
  lemma {:induction false} DrainCountsTheFinished(env: Env, db: Database, due: seq<EventId>, cutoff: int,
        oracle: EventId -> Outcome)
    requires Distinct(due)
    ensures
      var r := Drain(env, db, due, cutoff, oracle);
      r.count == |Finished(db.inbox, r.db.inbox, due)|
  {
    if due == [] {
      assert Finished(db.inbox, db.inbox, due) == {};
    } else {
      var k := |due| - 1;
      var before, r := Drain(env, db, due[..k], cutoff, oracle), Drain(env, db, due, cutoff, oracle);
      DrainCountsTheFinished(env, db, due[..k], cutoff, oracle);
      DrainTouchesItsBatch(env, db, due[..k], cutoff, oracle);
      HandledIsReported(env, before.db, due[k], cutoff, oracle(due[k]));
      FinishedNext(db.inbox, before.db.inbox, r.db.inbox, due);
    }
  }

  lemma FinishedNext(start: map<EventId, Row>, mid: map<EventId, Row>, end: map<EventId, Row>, due: seq<EventId>)
    requires due != [] && Distinct(due) && start.Keys == mid.Keys == end.Keys
    requires forall x | x in mid && x != due[|due| - 1] :: end[x] == mid[x]
    requires due[|due| - 1] in start ==> mid[due[|due| - 1]] == start[due[|due| - 1]]
    ensures
      var id := due[|due| - 1];
      |Finished(start, end, due)| == |Finished(start, mid, due[..|due| - 1])|
        + if id in mid && mid[id].status != Done && end[id].status == Done then 1 else 0
  {
    var id, front := due[|due| - 1], due[..|due| - 1];
    assert due == front + [id] && id !in front;
    var before, after := Finished(start, mid, front), Finished(start, end, due);
    forall x | x != id ensures x in after <==> x in before {
      assert x in due <==> x in front;
    }
    assert id !in before;
    if id in mid && mid[id].status != Done && end[id].status == Done {
      assert id in after;
      assert after == before + {id};
    } else {
      assert id !in after;
      assert after == before;
    }
  }

  // ---------- attempts are spent ----------

  // The attempts still left over all rows, along a list of the rows' ids.
  function Budget(inbox: map<EventId, Row>, ids: seq<EventId>): int {
    if ids == [] then 0
    else
      var id := ids[|ids| - 1];
      Budget(inbox, ids[..|ids| - 1]) + (if id in inbox then MAX_ATTEMPTS - inbox[id].attempts else 0)
  }

  // Rows only ever use up attempts; a finished row is left alone.
  predicate RowProgresses(before: Row, after: Row) {
    after == before || (before.status != Done && before.attempts < after.attempts && after.status != Pending)
  }

  ghost predicate Progresses(before: map<EventId, Row>, after: map<EventId, Row>) {
    before.Keys == after.Keys && forall id | id in before :: RowProgresses(before[id], after[id])
  }

  function StatusAfter(db: Database, id: EventId, o: Outcome): Status
    requires id in db.inbox
  {
    if Commits(db, id, o) && o.ending == Completes then Done else if o.recorded then Failed else Processing
  }

  lemma HandledInbox(env: Env, db: Database, id: EventId, cutoff: int, o: Outcome)
    requires ClaimWins(db, id, cutoff)
    ensures
      var r := db.inbox[id];
      Handle(env, db, id, cutoff, o).0.inbox
        == db.inbox[id := r.(status := StatusAfter(Claim(db, id, cutoff, o.stamp), id, o),
            claimedAt := Some(o.stamp), attempts := r.attempts + 1)]
  {
    var claimed := Claim(db, id, cutoff, o.stamp);
    assert Processed(env, claimed, id, o).inbox == claimed.inbox;
  }

  lemma HandleProgresses(env: Env, db: Database, id: EventId, cutoff: int, o: Outcome)
    requires AttemptsBounded(db.inbox)
    ensures
      var after := Handle(env, db, id, cutoff, o).0.inbox;
      && AttemptsBounded(after) && Progresses(db.inbox, after)
      && (ClaimWins(db, id, cutoff) ==> after[id].attempts == db.inbox[id].attempts + 1)
  {
    if ClaimWins(db, id, cutoff) {
      HandledInbox(env, db, id, cutoff, o);
    }
  }

  lemma {:induction false} DrainProgresses(env: Env, db: Database, due: seq<EventId>, cutoff: int,
          oracle: EventId -> Outcome)
    requires AttemptsBounded(db.inbox)
    ensures
      var after := Drain(env, db, due, cutoff, oracle).db.inbox;
      && AttemptsBounded(after) && Progresses(db.inbox, after)
      && (due != [] && due[0] in db.inbox && Claimable(db.inbox[due[0]], cutoff)
          ==> after[due[0]].attempts > db.inbox[due[0]].attempts)
  {
    if due != [] {
      var k := |due| - 1;
      DrainProgresses(env, db, due[..k], cutoff, oracle);
      var before := Drain(env, db, due[..k], cutoff, oracle);
      HandleProgresses(env, before.db, due[k], cutoff, oracle(due[k]));
      if k == 0 {
        assert due[..k] == [];
      } else {
        assert due[..k][0] == due[0];
      }
    }
  }

  lemma {:induction false} BudgetFalls(before: map<EventId, Row>, after: map<EventId, Row>, ids: seq<EventId>)
    requires AttemptsBounded(before) && AttemptsBounded(after) && Progresses(before, after)
    ensures 0 <= Budget(after, ids) <= Budget(before, ids) <= MAX_ATTEMPTS * |ids|
    ensures (exists id :: id in ids && id in before && before[id].attempts < after[id].attempts)
              ==> Budget(after, ids) < Budget(before, ids)
  {
    if ids != [] {
      var k := |ids| - 1;
      BudgetFalls(before, after, ids[..k]);
      if id :| id in ids && id in before && before[id].attempts < after[id].attempts {
        if id != ids[k] { assert id in ids[..k]; }
      }
    }
  }

  // One drain: when it fetched, what it fetched, and what happened to each row.
  datatype DrainRun = DrainRun(cutoff: int, due: seq<EventId>, oracle: EventId -> Outcome)

  function Drains(env: Env, db: Database, runs: seq<DrainRun>): Database {
    if runs == [] then db
    else
      var k := |runs| - 1;
      Drain(env, Drains(env, db, runs[..k]), runs[k].due, runs[k].cutoff, runs[k].oracle).db
  }

  ghost predicate Scanned(env: Env, db: Database, runs: seq<DrainRun>) {
    forall k | 0 <= k < |runs| :: IsBatch(Drains(env, db, runs[..k]).inbox, runs[k].cutoff, runs[k].due)
  }

  function NonEmpty(runs: seq<DrainRun>): nat {
    if runs == [] then 0 else NonEmpty(runs[..|runs| - 1]) + (if runs[|runs| - 1].due == [] then 0 else 1)
  }

  // Every drain that finds a row spends an attempt, even one that is cut short, so no more than five
  // per row ever find one.
  lemma {:induction false} DrainsSpendAttempts(env: Env, db: Database, runs: seq<DrainRun>, ids: seq<EventId>)
    requires AttemptsBounded(db.inbox) && Enumerates(ids, db.inbox.Keys) && Scanned(env, db, runs)
    ensures
      var last := Drains(env, db, runs).inbox;
      && AttemptsBounded(last) && Progresses(db.inbox, last)
      && NonEmpty(runs) + Budget(last, ids) <= Budget(db.inbox, ids) <= MAX_ATTEMPTS * |db.inbox|
      && Budget(last, ids) >= 0
  {
    EnumerationLength(ids, db.inbox.Keys);
    if runs == [] {
      BudgetFalls(db.inbox, db.inbox, ids);
    } else {
      var k := |runs| - 1;
      ScannedPrefix(env, db, runs, k);
      assert IsBatch(Drains(env, db, runs[..k]).inbox, runs[k].cutoff, runs[k].due);
      DrainsSpendAttempts(env, db, runs[..k], ids);
      SameIds(db.inbox, Drains(env, db, runs[..k]).inbox, ids);
      DrainSpends(env, Drains(env, db, runs[..k]), runs[k], ids);
      ProgressesTwice(db.inbox, Drains(env, db, runs[..k]).inbox, Drains(env, db, runs).inbox);
    }
  }

  lemma SameIds(before: map<EventId, Row>, after: map<EventId, Row>, ids: seq<EventId>)
    requires Progresses(before, after) && Enumerates(ids, before.Keys)
    ensures Enumerates(ids, after.Keys)
  {
  }

  lemma ProgressesTwice(a: map<EventId, Row>, b: map<EventId, Row>, c: map<EventId, Row>)
    requires Progresses(a, b) && Progresses(b, c)
    ensures Progresses(a, c)
  {
  }

  lemma DrainSpends(env: Env, db: Database, run: DrainRun, ids: seq<EventId>)
    requires AttemptsBounded(db.inbox) && IsBatch(db.inbox, run.cutoff, run.due)
    requires Enumerates(ids, db.inbox.Keys)
    ensures
      var after := Drain(env, db, run.due, run.cutoff, run.oracle).db.inbox;
      && AttemptsBounded(after) && Progresses(db.inbox, after)
      && 0 <= Budget(after, ids) <= Budget(db.inbox, ids)
      && (run.due != [] ==> Budget(after, ids) < Budget(db.inbox, ids))
  {
    DrainProgresses(env, db, run.due, run.cutoff, run.oracle);
    BudgetFalls(db.inbox, Drain(env, db, run.due, run.cutoff, run.oracle).db.inbox, ids);
    if run.due != [] {
      assert Claimable(db.inbox[run.due[0]], run.cutoff);
      assert run.due[0] in ids;
    }
  }

  lemma ScannedPrefix(env: Env, db: Database, runs: seq<DrainRun>, k: nat)
    requires Scanned(env, db, runs) && k <= |runs|
    ensures Scanned(env, db, runs[..k])
  {
    forall i | 0 <= i < k ensures IsBatch(Drains(env, db, runs[..k][..i]).inbox, runs[i].cutoff, runs[i].due) {
      assert runs[..k][..i] == runs[..i];
    }
  }

  // An event whose organisation is refused is never done: each handling spends an attempt and leaves
  // markers, organisations and subscriptions as they are, until the attempts are used up.
  lemma RefusedEventIsRetried(env: Env, db: Database, id: EventId, cutoff: int, o: Outcome)
    requires ClaimWins(db, id, cutoff) && Collides(db, db.inbox[id].event, Binding(db, db.inbox[id].event, o.pick))
    ensures
      var (after, handled) := Handle(env, db, id, cutoff, o);
      && !handled.Completed?
      && after == db.(inbox := db.inbox[id := db.inbox[id].(status := if o.recorded then Failed else Processing,
                                                           claimedAt := Some(o.stamp),
                                                           attempts := db.inbox[id].attempts + 1)])
  {
    var claimed := Claim(db, id, cutoff, o.stamp);
    assert LinkedTo(claimed, db.inbox[id].event.customer) == LinkedTo(db, db.inbox[id].event.customer);
    assert !Commits(claimed, id, o);
  }

  // ---------- the inbox comes to rest ----------

  predicate Settled(r: Row) {
    r.status == Done || (r.status == Failed && r.attempts == 5)
  }

  // Settled, or abandoned by a worker on the last attempt.
  predicate AtRest(r: Row) { Settled(r) || (r.status == Processing && r.attempts == 5) }

  // Whatever is in processing with attempts to spare was claimed before the cutoff.
  ghost predicate OnlyStuck(inbox: map<EventId, Row>, cutoff: int) {
    forall id | id in inbox && inbox[id].status == Processing && inbox[id].attempts < MAX_ATTEMPTS ::
      inbox[id].claimedAt.Some? && inbox[id].claimedAt.value < cutoff
  }

  // As long as each drain finds abandoned rows old enough to take over, 5n drains bring n rows to
  // rest, rows that dead workers left in processing included, and however many of the drains are
  // themselves cut short. A row at rest never takes a place in a batch.
  lemma DrainsComeToRest(env: Env, db: Database, runs: seq<DrainRun>, ids: seq<EventId>)
    requires AttemptsBounded(db.inbox) && Enumerates(ids, db.inbox.Keys) && Scanned(env, db, runs)
    requires forall k | 0 <= k < |runs| :: OnlyStuck(Drains(env, db, runs[..k]).inbox, runs[k].cutoff)
    requires |runs| >= MAX_ATTEMPTS * |db.inbox|
    ensures forall id | id in Drains(env, db, runs).inbox :: AtRest(Drains(env, db, runs).inbox[id])
    ensures forall k, i | 0 <= k < |runs| && 0 <= i < |runs[k].due| ::
              !AtRest(Drains(env, db, runs[..k]).inbox[runs[k].due[i]])
  {
    DrainsSpendAttempts(env, db, runs, ids);
    if NonEmpty(runs) == |runs| {
      BudgetSpent(Drains(env, db, runs).inbox, ids);
    } else {
      var k := EmptyDrain(runs);
      ScannedPrefix(env, db, runs, k);
      DrainsSpendAttempts(env, db, runs[..k], ids);
      NothingDue(Drains(env, db, runs[..k]).inbox, runs[k].cutoff, runs[k].due);
      RestLasts(env, db, runs, k);
    }
    forall k, i | 0 <= k < |runs| && 0 <= i < |runs[k].due|
      ensures !AtRest(Drains(env, db, runs[..k]).inbox[runs[k].due[i]])
    {
      NoneAtRestDue(Drains(env, db, runs[..k]).inbox, runs[k].cutoff, runs[k].due, i);
    }
  }

  lemma NothingDue(inbox: map<EventId, Row>, cutoff: int, due: seq<EventId>)
    requires IsBatch(inbox, cutoff, due) && due == [] && AttemptsBounded(inbox) && OnlyStuck(inbox, cutoff)
    ensures forall id | id in inbox :: AtRest(inbox[id])
  {
    forall id | id in inbox ensures AtRest(inbox[id]) {
      assert id !in EligibleIds(inbox, cutoff);
    }
  }

  lemma NoneAtRestDue(inbox: map<EventId, Row>, cutoff: int, due: seq<EventId>, i: nat)
    requires IsBatch(inbox, cutoff, due) && i < |due|
    ensures due[i] in inbox && !AtRest(inbox[due[i]])
  {
  }

  lemma {:induction false} BudgetSpent(inbox: map<EventId, Row>, ids: seq<EventId>)
    requires AttemptsBounded(inbox) && Budget(inbox, ids) == 0
    ensures forall id | id in ids && id in inbox :: inbox[id].attempts == MAX_ATTEMPTS
  {
    if ids != [] {
      var k := |ids| - 1;
      BudgetFalls(inbox, inbox, ids[..k]);
      BudgetSpent(inbox, ids[..k]);
      assert forall id | id in ids :: id == ids[k] || id in ids[..k];
    }
  }

  lemma {:induction false} EmptyDrain(runs: seq<DrainRun>) returns (k: nat)
    requires NonEmpty(runs) < |runs|
    ensures k < |runs| && runs[k].due == []
  {
    if runs[|runs| - 1].due == [] {
      k := |runs| - 1;
    } else {
      k := EmptyDrain(runs[..|runs| - 1]);
    }
  }

  lemma {:induction false} RestLasts(env: Env, db: Database, runs: seq<DrainRun>, k: nat)
    requires k <= |runs|
    requires forall id | id in Drains(env, db, runs[..k]).inbox :: AtRest(Drains(env, db, runs[..k]).inbox[id])
    ensures Drains(env, db, runs).inbox == Drains(env, db, runs[..k]).inbox
    decreases |runs|
  {
    if k == |runs| {
      assert runs[..k] == runs;
    } else {
      var n := |runs| - 1;
      assert runs[..n][..k] == runs[..k];
      RestLasts(env, db, runs[..n], k);
      RestIsLeftAlone(env, Drains(env, db, runs[..n]), runs[n].due, runs[n].cutoff, runs[n].oracle);
    }
  }

  lemma {:induction false} RestIsLeftAlone(env: Env, db: Database, due: seq<EventId>, cutoff: int,
          oracle: EventId -> Outcome)
    requires forall id | id in db.inbox :: AtRest(db.inbox[id])
    ensures Drain(env, db, due, cutoff, oracle).db.inbox == db.inbox
  {
    if due != [] {
      RestIsLeftAlone(env, db, due[..|due| - 1], cutoff, oracle);
    }
  }

  // ---------- drains that are not cut short ----------

  ghost predicate AllRecorded(runs: seq<DrainRun>) {
    forall k, id | 0 <= k < |runs| :: runs[k].oracle(id).recorded
  }

  // A row is as it was, or has been finished or failed.
  ghost predicate NoneLeftBehind(before: map<EventId, Row>, after: map<EventId, Row>) {
    && before.Keys == after.Keys
    && forall id | id in before :: after[id] == before[id] || after[id].status in {Done, Failed}
  }

  lemma {:induction false} DrainLeavesNoneBehind(env: Env, db: Database, due: seq<EventId>, cutoff: int,
          oracle: EventId -> Outcome)
    requires forall id :: oracle(id).recorded
    ensures NoneLeftBehind(db.inbox, Drain(env, db, due, cutoff, oracle).db.inbox)
  {
    if due != [] {
      var k := |due| - 1;
      DrainLeavesNoneBehind(env, db, due[..k], cutoff, oracle);
      var before := Drain(env, db, due[..k], cutoff, oracle);
      assert oracle(due[k]).recorded;
      if ClaimWins(before.db, due[k], cutoff) {
        HandledInbox(env, before.db, due[k], cutoff, oracle(due[k]));
      }
    }
  }

  lemma {:induction false} DrainsLeaveNoneBehind(env: Env, db: Database, runs: seq<DrainRun>)
    requires AllRecorded(runs)
    ensures NoneLeftBehind(db.inbox, Drains(env, db, runs).inbox)
  {
    if runs != [] {
      var k := |runs| - 1;
      DrainsLeaveNoneBehind(env, db, runs[..k]);
      DrainLeavesNoneBehind(env, Drains(env, db, runs[..k]), runs[k].due, runs[k].cutoff, runs[k].oracle);
    }
  }

  // When no drain is cut short it is enough that the rows found in processing at the start are old
  // enough for each of them.
  lemma DrainsSettle(env: Env, db: Database, runs: seq<DrainRun>, ids: seq<EventId>)
    requires AttemptsBounded(db.inbox) && Enumerates(ids, db.inbox.Keys) && Scanned(env, db, runs) && AllRecorded(runs)
    requires forall k | 0 <= k < |runs| :: OnlyStuck(db.inbox, runs[k].cutoff)
    requires |runs| >= MAX_ATTEMPTS * |db.inbox|
    ensures forall id | id in db.inbox ::
              && id in Drains(env, db, runs).inbox
              && (Settled(Drains(env, db, runs).inbox[id])
                  || (Drains(env, db, runs).inbox[id] == db.inbox[id] && db.inbox[id].status == Processing
                      && db.inbox[id].attempts == MAX_ATTEMPTS))
  {
    forall k | 0 <= k < |runs| ensures OnlyStuck(Drains(env, db, runs[..k]).inbox, runs[k].cutoff) {
      DrainsLeaveNoneBehind(env, db, runs[..k]);
      assert OnlyStuck(db.inbox, runs[k].cutoff);
    }
    DrainsComeToRest(env, db, runs, ids);
    DrainsLeaveNoneBehind(env, db, runs);
  }

  // ---------- a whole drain is a run of the protocol ----------

  // The steps after the claim.
  function Ends(db: Database, w: nat, id: EventId, o: Outcome): seq<Action>
    requires id in db.inbox
  {
    (if !Commits(db, id, o) then [] else [Resolve(w, Binding(db, db.inbox[id].event, o.pick)), CommitEvent(w, o.at)])
    + (if Commits(db, id, o) && o.ending == Completes
        then [WriteDone(w)] else [Throw(w), if o.recorded then WriteFailed(w) else Stop(w)])
  }

  function RowScript(db: Database, w: nat, id: EventId, cutoff: int, o: Outcome): seq<Action> {
    if !ClaimWins(db, id, cutoff) then [TryClaim(w, o.stamp)]
    else [TryClaim(w, o.stamp)] + Ends(Claim(db, id, cutoff, o.stamp), w, id, o)
  }

  function Script(env: Env, db: Database, w: nat, due: seq<EventId>, cutoff: int, oracle: EventId -> Outcome,
          k: nat): seq<Action>
    requires k <= |due|
  {
    if k == 0 then []
    else
      var before := Drain(env, db, due[..k - 1], cutoff, oracle);
      Script(env, db, w, due, cutoff, oracle, k - 1)
      + (if before.aborted then [] else RowScript(before.db, w, due[k - 1], cutoff, oracle(due[k - 1])))
  }

  predicate OutcomeBy(o: Outcome, now: int) { o.stamp <= now && (o.ending == FailsBefore || o.at <= now) }

  function At(s: State, w: nat, cutoff: int, due: seq<EventId>, phase: Phase, db: Database): State {
    Put(s, w, Worker(cutoff, due, phase)).(db := db)
  }

  function Gone(s: State, w: nat, db: Database): State { s.(workers := s.workers - {w}, db := db) }

  lemma PutAgain(s: State, w: nat, a: Worker, b: Worker, db: Database)
    ensures Put(Put(s, w, a), w, b) == Put(s, w, b)
    ensures Put(Put(s, w, a).(db := db), w, b) == Put(s, w, b).(db := db)
  {
    assert s.workers[w := a][w := b] == s.workers[w := b];
  }

  lemma ClaimStep(env: Env, s: State, w: nat, cutoff: int, due: seq<EventId>, o: Outcome)
    requires w in s.workers && due != [] && s.workers[w] == Worker(cutoff, due, Scanning) && OutcomeBy(o, s.now)
    ensures
      var won := ClaimWins(s.db, due[0], cutoff);
      Step(env, s, TryClaim(w, o.stamp))
        == At(s, w, cutoff, due[1..],
              if won then Claimed(due[0], o.stamp) else Scanning, Claim(s.db, due[0], cutoff, o.stamp))
  {
  }

  lemma FailSteps(env: Env, s: State, w: nat, cutoff: int, due: seq<EventId>, phase: Phase, db: Database,
          recorded: bool)
    requires phase.Claimed? || phase.Applied?
    ensures Exec(env, At(s, w, cutoff, due, phase, db), [Throw(w), if recorded then WriteFailed(w) else Stop(w)])
         == if recorded then At(s, w, cutoff, due, Scanning, SetStatus(db, phase.id, Failed)) else Gone(s, w, db)
  {
    var s1 := At(s, w, cutoff, due, phase, db);
    var last := if recorded then WriteFailed(w) else Stop(w);
    var thrown := Thrown(phase.id, phase.stamp);
    var s2 := At(s, w, cutoff, due, thrown, db);
    Exec2(env, s1, Throw(w), last);
    PutAgain(s, w, Worker(cutoff, due, phase), Worker(cutoff, due, thrown), db);
    assert Step(env, s1, Throw(w)) == s2;
    if recorded {
      PutAgain(s, w, Worker(cutoff, due, thrown), Worker(cutoff, due, Scanning), db);
    } else {
      assert s2.workers - {w} == s.workers - {w};
    }
  }

  lemma CommitSteps(env: Env, s: State, w: nat, cutoff: int, due: seq<EventId>, id: EventId, db: Database, o: Outcome)
    requires id in db.inbox && Commits(db, id, o) && OutcomeBy(o, s.now)
    ensures Exec(env, At(s, w, cutoff, due, Claimed(id, o.stamp), db),
                 [Resolve(w, Binding(db, db.inbox[id].event, o.pick)), CommitEvent(w, o.at)])
         == At(s, w, cutoff, due, Applied(id, o.stamp), Processed(env, db, id, o))
  {
    var org := Binding(db, db.inbox[id].event, o.pick);
    BindingResolves(db, db.inbox[id].event, o.pick);
    var claimed, resolved, applied := Claimed(id, o.stamp), Resolved(id, o.stamp, org), Applied(id, o.stamp);
    var s1 := At(s, w, cutoff, due, claimed, db);
    Exec2(env, s1, Resolve(w, org), CommitEvent(w, o.at));
    PutAgain(s, w, Worker(cutoff, due, claimed), Worker(cutoff, due, resolved), db);
    assert Step(env, s1, Resolve(w, org)) == At(s, w, cutoff, due, resolved, db);
    PutAgain(s, w, Worker(cutoff, due, resolved), Worker(cutoff, due, applied), db);
  }

  lemma DoneStep(env: Env, s: State, w: nat, cutoff: int, due: seq<EventId>, id: EventId, stamp: int, db: Database)
    ensures Exec(env, At(s, w, cutoff, due, Applied(id, stamp), db), [WriteDone(w)])
         == At(s, w, cutoff, due, Scanning, SetStatus(db, id, Done))
  {
    Exec1(env, At(s, w, cutoff, due, Applied(id, stamp), db), WriteDone(w));
    PutAgain(s, w, Worker(cutoff, due, Applied(id, stamp)), Worker(cutoff, due, Scanning), db);
  }

  // From a claimed row to the end of its turn.
  lemma EndSteps(env: Env, s: State, w: nat, cutoff: int, due: seq<EventId>, id: EventId, db: Database, o: Outcome)
    requires id in db.inbox && OutcomeBy(o, s.now)
    ensures
      var after := Processed(env, db, id, o);
      Exec(env, At(s, w, cutoff, due, Claimed(id, o.stamp), db), Ends(db, w, id, o))
      == if Commits(db, id, o) && o.ending == Completes then At(s, w, cutoff, due, Scanning, SetStatus(after, id, Done))
         else if o.recorded then At(s, w, cutoff, due, Scanning, SetStatus(after, id, Failed))
         else Gone(s, w, after)
  {
    var start := At(s, w, cutoff, due, Claimed(id, o.stamp), db);
    var fails := [Throw(w), if o.recorded then WriteFailed(w) else Stop(w)];
    if !Commits(db, id, o) {
      FailSteps(env, s, w, cutoff, due, Claimed(id, o.stamp), db, o.recorded);
      assert Ends(db, w, id, o) == fails;
    } else {
      var commit := [Resolve(w, Binding(db, db.inbox[id].event, o.pick)), CommitEvent(w, o.at)];
      var after := Processed(env, db, id, o);
      CommitSteps(env, s, w, cutoff, due, id, db, o);
      DoneStep(env, s, w, cutoff, due, id, o.stamp, after);
      FailSteps(env, s, w, cutoff, due, Applied(id, o.stamp), after, o.recorded);
      ExecAppend(env, start, commit, if o.ending == Completes then [WriteDone(w)] else fails);
    }
  }

  lemma RowScriptHandles(env: Env, s: State, w: nat, cutoff: int, due: seq<EventId>, o: Outcome)
    requires w in s.workers && due != [] && s.workers[w] == Worker(cutoff, due, Scanning) && OutcomeBy(o, s.now)
    ensures
      var (after, handled) := Handle(env, s.db, due[0], cutoff, o);
      Exec(env, s, RowScript(s.db, w, due[0], cutoff, o))
      == if handled.Unrecorded? then Gone(s, w, after) else At(s, w, cutoff, due[1..], Scanning, after)
  {
    Exec1(env, s, TryClaim(w, o.stamp));
    ClaimStep(env, s, w, cutoff, due, o);
    if ClaimWins(s.db, due[0], cutoff) {
      var db := Claim(s.db, due[0], cutoff, o.stamp);
      ExecAppend(env, s, [TryClaim(w, o.stamp)], Ends(db, w, due[0], o));
      EndSteps(env, s, w, cutoff, due[1..], due[0], db, o);
    }
  }

  lemma {:induction false} ScriptDrains(env: Env, s: State, w: nat, cutoff: int, due: seq<EventId>,
          oracle: EventId -> Outcome, k: nat)
    requires w in s.workers && s.workers[w] == Worker(cutoff, due, Scanning) && k <= |due|
    requires forall id | id in due :: OutcomeBy(oracle(id), s.now)
    ensures
      var r := Drain(env, s.db, due[..k], cutoff, oracle);
      Exec(env, s, Script(env, s.db, w, due, cutoff, oracle, k))
      == if r.aborted then Gone(s, w, r.db) else At(s, w, cutoff, due[k..], Scanning, r.db)
  {
    if k == 0 {
      assert due[0..] == due && due[..0] == [];
      assert Put(s, w, s.workers[w]) == s;
    } else {
      ScriptDrains(env, s, w, cutoff, due, oracle, k - 1);
      var before := Script(env, s.db, w, due, cutoff, oracle, k - 1);
      var r := Drain(env, s.db, due[..k - 1], cutoff, oracle);
      assert due[..k][..k - 1] == due[..k - 1];
      if r.aborted {
        assert before + [] == before;
      } else {
        ScriptNext(env, s, w, cutoff, due, oracle(due[k - 1]), k, r.db);
        ExecAppend(env, s, before, RowScript(r.db, w, due[k - 1], cutoff, oracle(due[k - 1])));
      }
    }
  }

  lemma ScriptNext(env: Env, s: State, w: nat, cutoff: int, due: seq<EventId>, o: Outcome, k: nat, db: Database)
    requires 0 < k <= |due| && OutcomeBy(o, s.now)
    ensures
      var mid := At(s, w, cutoff, due[k - 1..], Scanning, db);
      var (after, handled) := Handle(env, db, due[k - 1], cutoff, o);
      Exec(env, mid, RowScript(db, w, due[k - 1], cutoff, o))
      == if handled.Unrecorded? then Gone(s, w, after) else At(s, w, cutoff, due[k..], Scanning, after)
  {
    var rest := due[k - 1..];
    assert rest[0] == due[k - 1] && rest[1..] == due[k..];
    var mid := At(s, w, cutoff, rest, Scanning, db);
    RowScriptHandles(env, mid, w, cutoff, rest, o);
    PutAgain(s, w, Worker(cutoff, rest, Scanning), Worker(cutoff, due[k..], Scanning), db);
    assert mid.workers - {w} == s.workers - {w};
  }

  lemma ScannedDrain(env: Env, s: State, w: nat, cutoff: int, due: seq<EventId>, oracle: EventId -> Outcome)
    returns (tr: seq<Action>)
    requires w !in s.workers
    requires forall id | id in due :: OutcomeBy(oracle(id), s.now)
    ensures Exec(env, Put(s, w, Worker(cutoff, due, Scanning)), tr)
              == s.(db := Drain(env, s.db, due, cutoff, oracle).db)
  {
    var scanned := Put(s, w, Worker(cutoff, due, Scanning));
    var script := Script(env, s.db, w, due, cutoff, oracle, |due|);
    ScriptDrains(env, scanned, w, cutoff, due, oracle, |due|);
    assert due[..|due|] == due;
    StopStep(env, Exec(env, scanned, script), w);
    assert Exec(env, scanned, script).workers - {w} == s.workers;
    ExecAppend(env, scanned, script, [Stop(w)]);
    tr := script + [Stop(w)];
  }

  lemma StopStep(env: Env, s: State, w: nat)
    ensures Exec(env, s, [Stop(w)]) == Gone(s, w, s.db)
  {
    Exec1(env, s, Stop(w));
    if w !in s.workers {
      assert s.workers - {w} == s.workers;
    }
  }

  // What drainPending does when nobody interferes, cut short or not, is one run of the protocol, so
  // everything proved about all runs holds of it.
  lemma DrainIsARun(env: Env, s: State, w: nat, at: int, due: seq<EventId>, oracle: EventId -> Outcome)
    returns (tr: seq<Action>)
    requires w !in s.workers && at <= s.now && IsBatch(s.db.inbox, at - env.stuckAfterMs, due)
    requires forall id | id in due :: OutcomeBy(oracle(id), s.now)
    ensures Exec(env, s, tr) == s.(db := Drain(env, s.db, due, at - env.stuckAfterMs, oracle).db)
  {
    ScanStep(env, s, w, at, due);
    var rest := ScannedDrain(env, s, w, at - env.stuckAfterMs, due, oracle);
    ExecAppend(env, s, [Scan(w, at, due)], rest);
    tr := [Scan(w, at, due)] + rest;
  }

  // ---------- the service ----------

  datatype ServiceError = InvalidSignature

  /** The tables the billing service reads and writes, and its methods over them. */
  class BillingService {
    var inbox: map<EventId, Row>
    var processed: set<EventId>
    var orgs: map<OrgId, Org>
    var subscriptions: map<OrgId, Subscription>

    ghost function Db(): Database
      reads this
    {
      Database(inbox, processed, orgs, subscriptions)
    }

    // delivery is the verified event with its id, or None when the signature check fails; a failing
    // marker lookup counts as finding none.
    method IngestEvent(delivery: Option<(EventId, Event)>, lookupWorks: bool, at: int)
      returns (r: Result<bool, ServiceError>)
      modifies this
      ensures delivery.None? ==> r == Err(InvalidSignature) && Db() == old(Db())
      ensures delivery.Some? ==>
                && r == Ok(true)
                && Db() == if lookupWorks && delivery.value.0 in old(processed) then old(Db())
                           else Enqueue(old(Db()), delivery.value.0, delivery.value.1, at)
    {
      if delivery.None? {
        return Err(InvalidSignature);
      }
      var (id, e) := delivery.value;
      if lookupWorks && id in processed {
        return Ok(true);
      }
      if id !in inbox {
        inbox := inbox[id := Row(e, Pending, 0, at, None)];
      }
      return Ok(true);
    }

    method ClaimRow(id: EventId, cutoff: int, stamp: int) returns (count: nat)
      modifies this`inbox
      ensures Db() == Claim(old(Db()), id, cutoff, stamp)
      ensures count == if ClaimWins(old(Db()), id, cutoff) then 1 else 0
    {
      if id in inbox && Claimable(inbox[id], cutoff) {
        var r := inbox[id];
        inbox := inbox[id := r.(status := Processing, claimedAt := Some(stamp), attempts := r.attempts + 1)];
        return 1;
      }
      return 0;
    }

    method WriteStatus(id: EventId, status: Status)
      modifies this`inbox
      ensures Db() == SetStatus(old(Db()), id, status)
    {
      if id in inbox {
        inbox := inbox[id := inbox[id].(status := status)];
      }
    }

    // The lookups that bind an event to an organisation.
    method FindOrg(e: Event, pick: Choice) returns (org: Option<OrgId>)
      ensures org == Binding(Db(), e, pick) && Resolves(Db(), e, org)
      ensures org.Some? ==> org.value in orgs
    {
      BindingResolves(Db(), e, pick);
      if e.kind == OtherKind {
        return None;
      }
      var byCustomer := set o | o in orgs && orgs[o].customer == Some(e.customer);
      assert byCustomer == LinkedTo(Db(), e.customer);
      if byCustomer != {} {
        return Some(pick(byCustomer));
      }
      if e.metadataOrg.Some? && e.metadataOrg.value != "" && e.metadataOrg.value in orgs
          && orgs[e.metadataOrg.value].customer == None {
        return e.metadataOrg;
      }
      return None;
    }

    // threw says that a lookup or the transaction failed, or that the transaction was refused; either
    // leaves nothing behind.
    method ProcessEvent(env: Env, id: EventId, o: Outcome) returns (threw: bool)
      requires id in inbox
      modifies this`processed, this`orgs, this`subscriptions
      ensures threw == !Commits(old(Db()), id, o)
      ensures Db() == Processed(env, old(Db()), id, o)
    {
      if o.ending == FailsBefore {
        return true;
      }
      var e := inbox[id].event;
      var found := FindOrg(e, o.pick);
      if found.Some? {
        var org := found.value;
        if exists p :: p in subscriptions && p != org && subscriptions[p].stripeSubId == e.subId {
          return true;
        }
        subscriptions := subscriptions[org := SubscriptionOf(e, o.at)];
        orgs := orgs[org := orgs[org].(plan := PlanOf(env, e), subStatus := Some(e.subStatus))];
      }
      processed := processed + {id};
      return false;
    }

    // The body of the drain's loop: claim, process, write the outcome.
    method HandleRow(env: Env, id: EventId, cutoff: int, o: Outcome) returns (handled: Handled)
      modifies this
      ensures (Db(), handled) == Handle(env, old(Db()), id, cutoff, o)
    {
      var claimed := ClaimRow(id, cutoff, o.stamp);
      if claimed == 0 {
        return Skipped;
      }
      var threw := ProcessEvent(env, id, o);
      if !threw && o.ending == Completes {
        WriteStatus(id, Done);
        return Completed;
      }
      if !o.recorded {
        return Unrecorded;
      }
      WriteStatus(id, Failed);
      return Recorded;
    }

    // due is what the scan returned; the oracle says what happens to each row that gets claimed.
    // The drain throws when the write that marks a failure is rejected, and leaves the rest alone.
    method DrainPending(env: Env, at: int, due: seq<EventId>, oracle: EventId -> Outcome)
      returns (count: nat, threw: bool)
      requires IsBatch(inbox, at - env.stuckAfterMs, due)
      modifies this
      ensures DrainResult(Db(), count, threw) == Drain(env, old(Db()), due, at - env.stuckAfterMs, oracle)
    {
      var cutoff := at - env.stuckAfterMs;
      count, threw := DrainBatch(env, due, cutoff, oracle);
    }

    method DrainBatch(env: Env, due: seq<EventId>, cutoff: int, oracle: EventId -> Outcome)
      returns (count: nat, threw: bool)
      modifies this
      ensures DrainResult(Db(), count, threw) == Drain(env, old(Db()), due, cutoff, oracle)
    {
      count, threw := 0, false;
      var i := 0;
      while i < |due|
        invariant 0 <= i <= |due|
        invariant DrainResult(Db(), count, false) == Drain(env, old(Db()), due[..i], cutoff, oracle)
      {
        assert due[..i + 1][..i] == due[..i] && due[..i + 1][i] == due[i];
        var handled := HandleRow(env, due[i], cutoff, oracle(due[i]));
        if handled.Completed? {
          count := count + 1;
        }
        i := i + 1;
        if handled.Unrecorded? {
          threw := true;
          AbortedStays(env, old(Db()), due, cutoff, oracle, i);
          return;
        }
      }
      assert due[..i] == due;
    }
  }

  lemma {:induction false} AbortedStays(env: Env, db: Database, due: seq<EventId>, cutoff: int,
          oracle: EventId -> Outcome, k: nat)
    requires k <= |due| && Drain(env, db, due[..k], cutoff, oracle).aborted
    ensures Drain(env, db, due, cutoff, oracle) == Drain(env, db, due[..k], cutoff, oracle)
    decreases |due|
  {
    if k == |due| {
      assert due[..k] == due;
    } else {
      assert due[..|due| - 1][..k] == due[..k];
      AbortedStays(env, db, due[..|due| - 1], cutoff, oracle, k);
    }
  }
}
