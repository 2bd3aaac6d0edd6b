/**
 Idempotency keys: the interceptor that claims a key before the handler runs, stores the response
 after it, releases the key on failure and replays a stored response.
 */
module Idempotency {
  import opened Prelude

  datatype Key = Key(org: string, key: string)

  type Body = string

  datatype Row = Pending | Completed(statusCode: int, body: Body)

  type Rows = map<Key, Row>

  // ---------- the protocol ----------

  // Inserted nothing yet / claim lost / handler running / handler succeeded, row not yet updated /
  // failed, row not yet deleted.
  datatype Stage =
    | Arrived
    | Conflicted
    | Running
    | Succeeded(statusCode: int, body: Body)
    | Failing

  datatype Request = Request(key: Key, stage: Stage)

  // What a request was answered, and in which way.
  datatype Answer =
    | Replayed(key: Key, statusCode: int, body: Body)
    | Conflict(key: Key)
    | Errored(key: Key)
    | Fresh(key: Key, statusCode: int, body: Body)

  datatype State = State(rows: Rows, requests: map<nat, Request>)

  datatype Action =
    | Arrive(r: nat, key: Key)
    | Insert(r: nat)                  // create; fails on a row that is there
    | InsertError(r: nat)             // create fails for another reason
    | ReadRow(r: nat)
    | HandlerReturns(r: nat, statusCode: int, body: Body)
    | HandlerThrows(r: nat)
    | StoreResponse(r: nat)
    | StoreFails(r: nat)
    | DeleteRow(r: nat)
    | DeleteFails(r: nat)
    | Die(r: nat)

  function Put(s: State, r: nat, q: Request): State { s.(requests := s.requests[r := q]) }

  function Drop(s: State, r: nat): State { s.(requests := s.requests - {r}) }

  // One atomic step; an action whose guard fails changes nothing.
  function Step(s: State, a: Action): State {
    if a.Arrive? then (if a.r in s.requests then s else Put(s, a.r, Request(a.key, Arrived)))
    else if a.r !in s.requests then s
    else RequestStep(s, a.r, s.requests[a.r].key, s.requests[a.r].stage, a)
  }

  function RequestStep(s: State, r: nat, k: Key, stage: Stage, a: Action): State {
    match (a, stage)
    case (Insert(_), Arrived) =>
      if k in s.rows then Put(s, r, Request(k, Conflicted))
      else Put(s, r, Request(k, Running)).(rows := s.rows[k := Pending])
    case (InsertError(_), Arrived) => Drop(s, r)
    case (ReadRow(_), Conflicted) => Drop(s, r)
    case (HandlerReturns(_, code, body), Running) => Put(s, r, Request(k, Succeeded(code, body)))
    case (HandlerThrows(_), Running) => Put(s, r, Request(k, Failing))
    case (StoreResponse(_), Succeeded(code, body)) =>
      if k in s.rows then Drop(s, r).(rows := s.rows[k := Completed(code, body)]) else Put(s, r, Request(k, Failing))
    case (StoreFails(_), Succeeded(_, _)) => Put(s, r, Request(k, Failing))
    case (DeleteRow(_), Failing) => Drop(s, r).(rows := s.rows - {k})
    case (DeleteFails(_), Failing) => Drop(s, r)
    case (Die(_), _) => Drop(s, r)
    case _ => s
  }

  // The response the step sends, if it sends one.
  function Answered(s: State, a: Action): Option<Answer> {
    if a.r !in s.requests then None
    else
      var k := s.requests[a.r].key;
      match (a, s.requests[a.r].stage)
      case (InsertError(_), Arrived) => Some(Errored(k))
      case (ReadRow(_), Conflicted) =>
        if k in s.rows && s.rows[k].Completed?
            then Some(Replayed(k, s.rows[k].statusCode, s.rows[k].body)) else Some(Conflict(k))
      case (StoreResponse(_), Succeeded(code, body)) => if k in s.rows then Some(Fresh(k, code, body)) else None
      case (DeleteRow(_), Failing) => Some(Errored(k))
      case (DeleteFails(_), Failing) => Some(Errored(k))
      case _ => None
  }

  function Exec(s: State, tr: seq<Action>): State {
    if tr == [] then s else Step(Exec(s, tr[..|tr| - 1]), tr[|tr| - 1])
  }

  const INITIAL := State(map[], map[])

  predicate Holds(q: Request) { q.stage.Running? || q.stage.Succeeded? || q.stage.Failing? }

  // ---------- the invariant ----------

  // Whoever holds a claim holds a pending row, and nobody else holds the same key.
  ghost predicate HolderOk(s: State) {
    && (forall r | r in s.requests && Holds(s.requests[r]) ::
        s.requests[r].key in s.rows && s.rows[s.requests[r].key].Pending?)
    && (forall r, p | r in s.requests && p in s.requests && Holds(s.requests[r]) && Holds(s.requests[p])
        && s.requests[r].key == s.requests[p].key :: r == p)
  }

  lemma StepKeepsHolder(s: State, a: Action)
    requires HolderOk(s)
    ensures HolderOk(Step(s, a))
  {
  }

  // Handler runs on one key never overlap.
  lemma {:induction false} RunsKeepHolder(tr: seq<Action>)
    ensures HolderOk(Exec(INITIAL, tr))
  {
    if tr != [] {
      RunsKeepHolder(tr[..|tr| - 1]);
      StepKeepsHolder(Exec(INITIAL, tr[..|tr| - 1]), tr[|tr| - 1]);
    }
  }

  // ---------- completed is for ever ----------

  predicate Starts(s: State, a: Action, k: Key) {
    a.Insert? && a.r in s.requests && s.requests[a.r] == Request(k, Arrived) && k !in s.rows
  }

  predicate Stores(s: State, a: Action, k: Key) {
    a.StoreResponse? && a.r in s.requests && s.requests[a.r].key == k && s.requests[a.r].stage.Succeeded? && k in s.rows
  }

  predicate Deletes(s: State, a: Action, k: Key) { k in s.rows && k !in Step(s, a).rows }

  ghost function StoreCount(s: State, tr: seq<Action>, k: Key): nat {
    if tr == [] then 0
    else
      var n := |tr| - 1;
      StoreCount(s, tr[..n], k) + (if Stores(Exec(s, tr[..n]), tr[n], k) then 1 else 0)
  }

  lemma StepKeepsCompleted(s: State, a: Action, k: Key)
    requires HolderOk(s) && k in s.rows && s.rows[k].Completed?
    ensures
      var t := Step(s, a);
      && k in t.rows && t.rows[k] == s.rows[k]
      && !Starts(s, a, k) && !Stores(s, a, k) && !Deletes(s, a, k)
  {
    if a.r in s.requests && Holds(s.requests[a.r]) {
      assert s.requests[a.r].key != k;
    }
  }

  lemma {:induction false} CompletedStays(tr: seq<Action>, n: nat, k: Key)
    requires n <= |tr|
    requires k in Exec(INITIAL, tr[..n]).rows && Exec(INITIAL, tr[..n]).rows[k].Completed?
    ensures k in Exec(INITIAL, tr).rows && Exec(INITIAL, tr).rows[k] == Exec(INITIAL, tr[..n]).rows[k]
    decreases |tr|
  {
    if n == |tr| {
      assert tr[..n] == tr;
    } else {
      var m := |tr| - 1;
      assert tr[..m][..n] == tr[..n];
      CompletedStays(tr[..m], n, k);
      RunsKeepHolder(tr[..m]);
      StepKeepsCompleted(Exec(INITIAL, tr[..m]), tr[m], k);
    }
  }

  // Once a run is recorded as completed the row never changes again: nothing deletes it, no other
  // run is recorded, and the handler never starts again.
  lemma CompletedIsFinal(tr: seq<Action>, n: nat, k: Key)
    requires n <= |tr|
    requires k in Exec(INITIAL, tr[..n]).rows && Exec(INITIAL, tr[..n]).rows[k].Completed?
    ensures k in Exec(INITIAL, tr).rows && Exec(INITIAL, tr).rows[k] == Exec(INITIAL, tr[..n]).rows[k]
    ensures forall i | n <= i < |tr| :: !Starts(Exec(INITIAL, tr[..i]), tr[i], k)
  {
    CompletedStays(tr, n, k);
    forall i | n <= i < |tr| ensures !Starts(Exec(INITIAL, tr[..i]), tr[i], k) {
      assert tr[..i][..n] == tr[..n];
      CompletedDoesNotStart(tr[..i], n, tr[i], k);
    }
  }

  lemma CompletedDoesNotStart(tr: seq<Action>, n: nat, a: Action, k: Key)
    requires n <= |tr|
    requires k in Exec(INITIAL, tr[..n]).rows && Exec(INITIAL, tr[..n]).rows[k].Completed?
    ensures !Starts(Exec(INITIAL, tr), a, k)
  {
    CompletedStays(tr, n, k);
  }

  // At most one run is ever recorded, and a row is completed exactly when one has been.
  lemma {:induction false} AtMostOneIsRecorded(tr: seq<Action>, k: Key)
    ensures StoreCount(INITIAL, tr, k) <= 1
    ensures StoreCount(INITIAL, tr, k) == 1 <==> k in Exec(INITIAL, tr).rows && Exec(INITIAL, tr).rows[k].Completed?
  {
    if tr != [] {
      var n := |tr| - 1;
      var s := Exec(INITIAL, tr[..n]);
      AtMostOneIsRecorded(tr[..n], k);
      RunsKeepHolder(tr[..n]);
      if k in s.rows && s.rows[k].Completed? {
        StepKeepsCompleted(s, tr[n], k);
      }
    }
  }

  // Every replay sends exactly what the one recorded run was answered, whenever either happens.
  lemma ReplaysRepeatTheAnswer(tr: seq<Action>, i: nat, j: nat, k: Key)
    requires i < |tr| && j < |tr|
    requires
      var first, second := Answered(Exec(INITIAL, tr[..i]), tr[i]), Answered(Exec(INITIAL, tr[..j]), tr[j]);
      && first.Some? && second.Some? && first.value.key == k && second.value.key == k
      && first.value.Fresh? && (second.value.Replayed? || second.value.Fresh?)
    ensures
      var first, second := Answered(Exec(INITIAL, tr[..i]), tr[i]).value, Answered(Exec(INITIAL, tr[..j]), tr[j]).value;
      && first.statusCode == second.statusCode && first.body == second.body
      && (second.Fresh? ==> i == j) && (second.Replayed? ==> i < j)
  {
    var first := Answered(Exec(INITIAL, tr[..i]), tr[i]).value;
    assert tr[..i + 1][..i] == tr[..i];
    assert Exec(INITIAL, tr[..i + 1]).rows[k] == Completed(first.statusCode, first.body);
    if i < j {
      assert tr[..j][..i + 1] == tr[..i + 1];
      CompletedStays(tr[..j], i + 1, k);
      RunsKeepHolder(tr[..j]);
      StepKeepsCompleted(Exec(INITIAL, tr[..j]), tr[j], k);
    } else if j < i {
      RunsKeepHolder(tr[..i]);
      if Answered(Exec(INITIAL, tr[..j]), tr[j]).value.Fresh? {
        assert tr[..j + 1][..j] == tr[..j] && tr[..i][..j + 1] == tr[..j + 1];
        CompletedStays(tr[..i], j + 1, k);
      } else {
        assert tr[..i][..j] == tr[..j];
        CompletedStays(tr[..i], j, k);
      }
      assert false;
    }
  }

  // A completed row was answered fresh by the step that completed it.
  lemma {:induction false} CompletedWasAnswered(tr: seq<Action>, k: Key) returns (i: nat)
    requires k in Exec(INITIAL, tr).rows && Exec(INITIAL, tr).rows[k].Completed?
    ensures
      var row := Exec(INITIAL, tr).rows[k];
      i < |tr| && Answered(Exec(INITIAL, tr[..i]), tr[i]) == Some(Fresh(k, row.statusCode, row.body))
  {
    var n := |tr| - 1;
    var before := Exec(INITIAL, tr[..n]);
    if k in before.rows && before.rows[k].Completed? {
      i := CompletedWasAnswered(tr[..n], k);
      RunsKeepHolder(tr[..n]);
      StepKeepsCompleted(before, tr[n], k);
      assert tr[..n][..i] == tr[..i];
    } else {
      i := n;
    }
  }

  // Whatever is replayed was answered before, with the same status and body, by a request that ran
  // the handler.
  lemma ReplaysComeFromARun(tr: seq<Action>, j: nat) returns (i: nat)
    requires j < |tr|
    requires
      var a := Answered(Exec(INITIAL, tr[..j]), tr[j]);
      a.Some? && a.value.Replayed?
    ensures
      var a := Answered(Exec(INITIAL, tr[..j]), tr[j]).value;
      i < j && Answered(Exec(INITIAL, tr[..i]), tr[i]) == Some(Fresh(a.key, a.statusCode, a.body))
  {
    var a := Answered(Exec(INITIAL, tr[..j]), tr[j]).value;
    i := CompletedWasAnswered(tr[..j], a.key);
    assert tr[..j][..i] == tr[..i];
  }

  // Only the holder of a pending claim deletes a row.
  lemma OnlyHoldersDelete(tr: seq<Action>, a: Action, k: Key)
    requires Deletes(Exec(INITIAL, tr), a, k)
    ensures
      var s := Exec(INITIAL, tr);
      s.rows[k].Pending? && a.r in s.requests && s.requests[a.r] == Request(k, Failing)
  {
    RunsKeepHolder(tr);
  }

  // ---------- the interceptor is a run of the protocol ----------

  // What an intercepted request that nobody interferes with does to the table.
  function Intercepted(rows: Rows, k: Key, h: Handler, deleteWorks: bool): Rows {
    if k in rows then rows
    else if h.Returns? && h.storeWorks then rows[k := Completed(h.statusCode.GetOr(200), h.body.GetOr("{}"))]
    else if deleteWorks then rows
    else rows[k := Pending]
  }

  lemma ExecSnoc(s: State, tr: seq<Action>, a: Action)
    ensures Exec(s, tr + [a]) == Step(Exec(s, tr), a)
  {
    assert (tr + [a])[..|tr|] == tr;
  }

  lemma ExecOne(s: State, a: Action)
    ensures Exec(s, [a]) == Step(s, a)
  {
    assert [a][..0] == [] && Exec(s, [a][..0]) == s;
  }

  lemma FirstSteps(s: State, r: nat, k: Key)
    requires r !in s.requests
    ensures Exec(s, [Arrive(r, k)] + [Insert(r)])
         == if k in s.rows then Put(s, r, Request(k, Conflicted))
             else Put(s, r, Request(k, Running)).(rows := s.rows[k := Pending])
  {
    ExecOne(s, Arrive(r, k));
    ExecSnoc(s, [Arrive(r, k)], Insert(r));
    var stage := if k in s.rows then Conflicted else Running;
    assert s.requests[r := Request(k, Arrived)][r := Request(k, stage)] == s.requests[r := Request(k, stage)];
  }

  // The failure path of a request that still holds its claim.
  lemma Released(s: State, r: nat, k: Key, deleteWorks: bool)
    requires r in s.requests && s.requests[r].key == k
    ensures
      var failing := Put(s, r, Request(k, Failing));
      Step(failing, if deleteWorks then DeleteRow(r) else DeleteFails(r))
      == Drop(s, r).(rows := if deleteWorks then s.rows - {k} else s.rows)
  {
    assert s.requests[r := Request(k, Failing)] - {r} == s.requests - {r};
  }

  lemma ThrowRun(s: State, r: nat, k: Key, deleteWorks: bool)
    requires r in s.requests && s.requests[r] == Request(k, Running)
    ensures Exec(s, [HandlerThrows(r)] + [if deleteWorks then DeleteRow(r) else DeleteFails(r)])
         == Drop(s, r).(rows := if deleteWorks then s.rows - {k} else s.rows)
  {
    ExecOne(s, HandlerThrows(r));
    ExecSnoc(s, [HandlerThrows(r)], if deleteWorks then DeleteRow(r) else DeleteFails(r));
    Released(s, r, k, deleteWorks);
  }

  lemma AnswerRun(s: State, r: nat, k: Key, code: int, body: Body)
    requires r in s.requests && s.requests[r] == Request(k, Running)
    ensures Exec(s, [HandlerReturns(r, code, body)]) == Put(s, r, Request(k, Succeeded(code, body)))
  {
    ExecOne(s, HandlerReturns(r, code, body));
  }

  lemma StoreRun(s: State, r: nat, k: Key, code: int, body: Body)
    requires r in s.requests && s.requests[r] == Request(k, Running) && k in s.rows
    ensures Exec(s, [HandlerReturns(r, code, body)] + [StoreResponse(r)])
              == Drop(s, r).(rows := s.rows[k := Completed(code, body)])
  {
    AnswerRun(s, r, k, code, body);
    ExecSnoc(s, [HandlerReturns(r, code, body)], StoreResponse(r));
    assert s.requests[r := Request(k, Succeeded(code, body))] - {r} == s.requests - {r};
  }

  lemma StoreFailsRun(s: State, r: nat, k: Key, code: int, body: Body, deleteWorks: bool)
    requires r in s.requests && s.requests[r] == Request(k, Running)
    ensures Exec(s, [HandlerReturns(r, code, body)] + [StoreFails(r)]
              + [if deleteWorks then DeleteRow(r) else DeleteFails(r)])
         == Drop(s, r).(rows := if deleteWorks then s.rows - {k} else s.rows)
  {
    AnswerRun(s, r, k, code, body);
    ExecSnoc(s, [HandlerReturns(r, code, body)], StoreFails(r));
    var s1, failing := Put(s, r, Request(k, Succeeded(code, body))), Put(s, r, Request(k, Failing));
    assert s1.requests[r := Request(k, Failing)] == failing.requests;
    assert Step(s1, StoreFails(r)) == failing;
    ExecSnoc(s, [HandlerReturns(r, code, body)] + [StoreFails(r)],
             if deleteWorks then DeleteRow(r) else DeleteFails(r));
    Released(s, r, k, deleteWorks);
  }

  // The steps from the handler's start to the answer.
  function HandlerScript(r: nat, h: Handler, deleteWorks: bool): seq<Action> {
    var last := if deleteWorks then DeleteRow(r) else DeleteFails(r);
    match h
    case Throws => [HandlerThrows(r)] + [last]
    case Returns(code, body, storeWorks) =>
      if storeWorks then [HandlerReturns(r, code.GetOr(200), body.GetOr("{}"))] + [StoreResponse(r)]
      else [HandlerReturns(r, code.GetOr(200), body.GetOr("{}"))] + [StoreFails(r)] + [last]
  }

  lemma RunningSteps(s: State, r: nat, k: Key, h: Handler, deleteWorks: bool)
    requires r in s.requests && s.requests[r] == Request(k, Running) && k in s.rows
    ensures Exec(s, HandlerScript(r, h, deleteWorks)) == Drop(s, r).(rows :=
              if h.Returns? && h.storeWorks then s.rows[k := Completed(h.statusCode.GetOr(200), h.body.GetOr("{}"))]
              else if deleteWorks then s.rows - {k} else s.rows)
  {
    if h.Throws? {
      ThrowRun(s, r, k, deleteWorks);
    } else if h.storeWorks {
      StoreRun(s, r, k, h.statusCode.GetOr(200), h.body.GetOr("{}"));
    } else {
      StoreFailsRun(s, r, k, h.statusCode.GetOr(200), h.body.GetOr("{}"), deleteWorks);
    }
  }

  // The steps of an intercepted request that nobody interferes with.
  function InterceptScript(rows: Rows, r: nat, k: Key, h: Handler, deleteWorks: bool): seq<Action> {
    [Arrive(r, k)] + [Insert(r)] + if k in rows then [ReadRow(r)] else HandlerScript(r, h, deleteWorks)
  }

  // So everything proved about all runs holds of it.
  lemma InterceptIsARun(s: State, r: nat, k: Key, h: Handler, deleteWorks: bool)
    requires r !in s.requests
    ensures Exec(s, InterceptScript(s.rows, r, k, h, deleteWorks)) == s.(rows := Intercepted(s.rows, k, h, deleteWorks))
  {
    if k in s.rows {
      KnownKeyRun(s, r, k);
    } else {
      NewKeyRun(s, r, k, h, deleteWorks);
    }
  }

  lemma KnownKeyRun(s: State, r: nat, k: Key)
    requires r !in s.requests && k in s.rows
    ensures Exec(s, [Arrive(r, k)] + [Insert(r)] + [ReadRow(r)]) == s
  {
    FirstSteps(s, r, k);
    ExecSnoc(s, [Arrive(r, k)] + [Insert(r)], ReadRow(r));
    assert s.requests[r := Request(k, Conflicted)] - {r} == s.requests;
  }

  lemma NewKeyRun(s: State, r: nat, k: Key, h: Handler, deleteWorks: bool)
    requires r !in s.requests && k !in s.rows
    ensures Exec(s, [Arrive(r, k)] + [Insert(r)] + HandlerScript(r, h, deleteWorks))
         == s.(rows := Intercepted(s.rows, k, h, deleteWorks))
  {
    var mid := Put(s, r, Request(k, Running)).(rows := s.rows[k := Pending]);
    FirstSteps(s, r, k);
    RunningSteps(mid, r, k, h, deleteWorks);
    ExecAppend(s, [Arrive(r, k)] + [Insert(r)], HandlerScript(r, h, deleteWorks));
    assert s.rows[k := Pending] - {k} == s.rows && mid.requests - {r} == s.requests;
  }

  // A request may end at any point, and leaves the rows as they are.
  lemma RequestsMayDie(s: State, r: nat)
    ensures Step(s, Die(r)) == s.(requests := s.requests - {r})
  {
    if r !in s.requests {
      assert s.requests - {r} == s.requests;
    }
  }

  // A claim that fails for another reason than a known key is reported, and leaves no trace.
  lemma FailedClaimIsReported(s: State, p: nat, k: Key)
    requires p !in s.requests
    ensures Answered(Exec(s, [Arrive(p, k)]), InsertError(p)) == Some(Errored(k))
    ensures Exec(s, [Arrive(p, k)] + [InsertError(p)]) == s
  {
    assert [Arrive(p, k)] == [] + [Arrive(p, k)];
    ExecSnoc(s, [], Arrive(p, k));
    ExecSnoc(s, [Arrive(p, k)], InsertError(p));
    assert s.requests[p := Request(k, Arrived)] - {p} == s.requests;
  }

  // A second request on a key: a completed one is replayed, with its status and body, one still in
  // flight is a conflict.
  lemma SecondRequestIsAnswered(s: State, p: nat, k: Key)
    requires p !in s.requests && k in s.rows
    ensures Answered(Exec(s, [Arrive(p, k)] + [Insert(p)]), ReadRow(p))
         == match s.rows[k]
            case Completed(code, body) => Some(Replayed(k, code, body))
            case Pending => Some(Conflict(k))
  {
    FirstSteps(s, p, k);
  }

  // A request that comes after an intercepted one gets the handler's status and body, whatever they
  // were; after a failure that could be cleaned up the key is free again.
  lemma InterceptedIsReplayed(s: State, r: nat, p: nat, k: Key, h: Handler, deleteWorks: bool)
    requires r !in s.requests && p !in s.requests && k !in s.rows
    ensures
      var t := Exec(s, InterceptScript(s.rows, r, k, h, deleteWorks));
      && (h.Returns? && h.storeWorks ==>
            Answered(Exec(t, [Arrive(p, k)] + [Insert(p)]), ReadRow(p))
            == Some(Replayed(k, if h.statusCode.Some? then h.statusCode.value else 200,
                             if h.body.Some? then h.body.value else "{}")))
      && (!(h.Returns? && h.storeWorks) ==> (k !in t.rows <==> deleteWorks))
      && (forall x | x != k :: (x in t.rows <==> x in s.rows) && (x in s.rows ==> t.rows[x] == s.rows[x]))
  {
    InterceptIsARun(s, r, k, h, deleteWorks);
    var t := Exec(s, InterceptScript(s.rows, r, k, h, deleteWorks));
    if h.Returns? && h.storeWorks {
      SecondRequestIsAnswered(t, p, k);
    }
  }

  lemma {:induction false} ExecAppend(s: State, a: seq<Action>, b: seq<Action>)
    ensures Exec(s, a + b) == Exec(Exec(s, a), b)
  {
    if b == [] {
      assert a + b == a;
    } else {
      var n := |b| - 1;
      ExecAppend(s, a, b[..n]);
      assert (a + b)[..|a| + n] == a + b[..n];
    }
  }

  // ---------- the interceptor ----------

  datatype Reply =
    | PassedThrough
    | Handled(body: Body)
    | FromStore(statusCode: int, body: Body)
    | ConflictError
    | HandlerError
    | StoreError

  // What the handler and the statement that stores the response do.
  datatype Handler = Returns(statusCode: Option<int>, body: Option<Body>, storeWorks: bool) | Throws

  /** The key table, and an intercepted request that nobody interferes with. */
  class IdempotencyInterceptor {
    var rows: Rows

    method Intercept(key: Option<string>, org: Option<string>, mutation: bool, h: Handler, deleteWorks: bool)
      returns (reply: Reply, ran: bool)
      modifies this
      ensures
        if key.None? || key.value == "" || org.None? || org.value == "" || !mutation then
          reply == PassedThrough && ran && rows == old(rows)
        else
          var k := Key(org.value, key.value);
          if k in old(rows) then
            && !ran && rows == old(rows)
            && reply == (if old(rows)[k].Completed?
                then FromStore(old(rows)[k].statusCode, old(rows)[k].body) else ConflictError)
          else
            && ran && rows == Intercepted(old(rows), k, h, deleteWorks)
            && reply == if h.Returns? && h.storeWorks then Handled(h.body.GetOr(""))
                        else if h.Throws? then HandlerError else StoreError
    {
      if key.None? || key.value == "" || org.None? || org.value == "" || !mutation {
        return PassedThrough, true;
      }
      var k := Key(org.value, key.value);
      if k in rows {
        if rows[k].Completed? {
          return FromStore(rows[k].statusCode, rows[k].body), false;
        }
        return ConflictError, false;
      }
      rows := rows[k := Pending];
      if h.Returns? && h.storeWorks {
        rows := rows[k := Completed(h.statusCode.GetOr(200), h.body.GetOr("{}"))];
        return Handled(h.body.GetOr("")), true;
      }
      if deleteWorks {
        rows := rows - {k};
      }
      return if h.Throws? then HandlerError else StoreError, true;
    }
  }
}
