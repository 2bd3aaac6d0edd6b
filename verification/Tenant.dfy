/**
 The tenant extension: how it rewrites the arguments of a database operation, and what the
 rewritten operations can see and change. Filters follow SQL's three-valued logic.
 */
module Tenant {
  import opened Prelude

  datatype Value = Null | Text(text: string) | Number(n: int)

  type Row = map<string, Value>

  type Table = seq<Row>

  function Column(r: Row, column: string): Value { if column in r then r[column] else Null }

  // ---------- filters ----------

  datatype Filter =
    | Equals(column: string, value: Value)
    | LessThan(column: string, n: int)
    | OneOf(column: string, values: seq<Value>)
    | IsNull(column: string)
    | AllOf(filters: seq<Filter>)
    | AnyOf(filters: seq<Filter>)
    | Negate(filter: Filter)

  datatype Truth = Yes | No | Unknown

  function And3(a: Truth, b: Truth): Truth {
    if a == No || b == No then No else if a == Yes && b == Yes then Yes else Unknown
  }

  function Or3(a: Truth, b: Truth): Truth {
    if a == Yes || b == Yes then Yes else if a == No && b == No then No else Unknown
  }

  function Not3(a: Truth): Truth {
    match a case Yes => No case No => Yes case Unknown => Unknown
  }

  function Decide(b: bool): Truth { if b then Yes else No }

  function Eval(f: Filter, r: Row): Truth
    decreases f, 1
  {
    match f
    case Equals(c, v) => if Column(r, c) == Null || v == Null then Unknown else Decide(Column(r, c) == v)
    case LessThan(c, n) => if Column(r, c).Number? then Decide(Column(r, c).n < n) else Unknown
    case OneOf(c, vs) => if Column(r, c) == Null then Unknown else Decide(Column(r, c) in vs)
    case IsNull(c) => Decide(Column(r, c) == Null)
    case AllOf(fs) => EvalAll(fs, r)
    case AnyOf(fs) => EvalAny(fs, r)
    case Negate(g) => Not3(Eval(g, r))
  }

  function EvalAll(fs: seq<Filter>, r: Row): Truth
    decreases fs, 0
  {
    if fs == [] then Yes else And3(Eval(fs[0], r), EvalAll(fs[1..], r))
  }

  function EvalAny(fs: seq<Filter>, r: Row): Truth
    decreases fs, 0
  {
    if fs == [] then No else Or3(Eval(fs[0], r), EvalAny(fs[1..], r))
  }

  // A where clause keeps the rows on which it is true.
  predicate Selects(where: Option<Filter>, r: Row) { where.None? || Eval(where.value, r) == Yes }

  function Selected(t: Table, where: Option<Filter>): Table {
    if t == [] then [] else Selected(t[..|t| - 1], where) + (if Selects(where, t[|t| - 1]) then [t[|t| - 1]] else [])
  }

  // What filters mean: a comparison is true of values that compare so and unknown of a null; a
  // conjunction is true when all are and false when one is, a disjunction the other way round.
  lemma FiltersMean(r: Row, c: string, v: Value, n: int, vs: seq<Value>, f: Filter)
    ensures Eval(Equals(c, v), r) == Yes <==> Column(r, c) == v != Null
    ensures Eval(Equals(c, v), r) == No <==> Column(r, c) != v && Column(r, c) != Null && v != Null
    ensures Eval(LessThan(c, n), r) == Yes <==> Column(r, c).Number? && Column(r, c).n < n
    ensures Eval(OneOf(c, vs), r) == Yes <==> Column(r, c) != Null && Column(r, c) in vs
    ensures Eval(IsNull(c), r) == if c !in r || r[c] == Null then Yes else No
    ensures Eval(Negate(f), r) == Yes <==> Eval(f, r) == No
    ensures Eval(Negate(f), r) == No <==> Eval(f, r) == Yes
  {
  }

  lemma HeadOrTail(fs: seq<Filter>, r: Row, t: Truth)
    requires fs != []
    ensures (forall x | x in fs :: Eval(x, r) == t)
       <==> Eval(fs[0], r) == t && forall x | x in fs[1..] :: Eval(x, r) == t
    ensures (exists x | x in fs :: Eval(x, r) == t)
       <==> Eval(fs[0], r) == t || exists x | x in fs[1..] :: Eval(x, r) == t
  {
    assert forall x :: x in fs <==> x == fs[0] || x in fs[1..] by {
      assert fs == [fs[0]] + fs[1..];
    }
  }

  lemma {:induction false} AllMeans(fs: seq<Filter>, r: Row)
    ensures Eval(AllOf(fs), r) == Yes <==> forall x | x in fs :: Eval(x, r) == Yes
    ensures Eval(AllOf(fs), r) == No <==> exists x | x in fs :: Eval(x, r) == No
  {
    if fs != [] {
      AllMeans(fs[1..], r);
      assert EvalAll(fs, r) == And3(Eval(fs[0], r), EvalAll(fs[1..], r));
      HeadOrTail(fs, r, Yes);
      HeadOrTail(fs, r, No);
    }
  }

  lemma {:induction false} AnyMeans(fs: seq<Filter>, r: Row)
    ensures Eval(AnyOf(fs), r) == Yes <==> exists x | x in fs :: Eval(x, r) == Yes
    ensures Eval(AnyOf(fs), r) == No <==> forall x | x in fs :: Eval(x, r) == No
  {
    if fs != [] {
      AnyMeans(fs[1..], r);
      assert EvalAny(fs, r) == Or3(Eval(fs[0], r), EvalAny(fs[1..], r));
      HeadOrTail(fs, r, Yes);
      HeadOrTail(fs, r, No);
    }
  }

  // ---------- the rewriting ----------

  datatype Data = NoData | One(row: Row) | Many(rows: seq<Row>)

  datatype Args = Args(where: Option<Filter>, data: Data, create: Option<Row>)

  datatype Operation =
    | FindFirst | FindFirstOrThrow | FindMany | Count | Aggregate | GroupBy | UpdateMany | DeleteMany
    | Create | CreateMany | Upsert
    | FindUnique | Update | Delete

  predicate TakesFilter(op: Operation) {
    op in {FindFirst, FindFirstOrThrow, FindMany, Count, Aggregate, GroupBy, UpdateMany, DeleteMany}
  }

  function TenantKey(model: string): Option<string> {
    if model == "Org" then Some("id")
    else if model in {"Membership", "Profile", "Job", "Subscription", "GenerationLog", "QuotaPeriod", "UserMemory",
        "MemoryAuditLog"}
    then Some("orgId")
    else None
  }

  function Owner(key: string, org: string): Filter { Equals(key, Text(org)) }

  function Narrowed(where: Option<Filter>, key: string, org: string): Option<Filter> {
    if where.Some? then Some(AllOf([where.value, Owner(key, org)])) else Some(Owner(key, org))
  }

  function Stamp(r: Row, key: string, org: string): Row { r[key := Text(org)] }

  function Stamped(rows: seq<Row>, key: string, org: string): (stamped: seq<Row>)
    ensures |stamped| == |rows|
    ensures forall i | 0 <= i < |rows| :: stamped[i] == Stamp(rows[i], key, org)
  {
    seq(|rows|, i requires 0 <= i < |rows| => Stamp(rows[i], key, org))
  }

  function RowOf(d: Data): Row { if d.One? then d.row else map[] }

  function RowsOf(d: Data): seq<Row> {
    match d case NoData => [map[]] case One(r) => [r] case Many(rs) => rs
  }

  function Scoped(a: Args, op: Operation, key: string, org: string): Args {
    if TakesFilter(op) then a.(where := Narrowed(a.where, key, org))
    else if op == Create then a.(data := One(Stamp(RowOf(a.data), key, org)))
    else if op == CreateMany then a.(data := Many(Stamped(RowsOf(a.data), key, org)))
    else if op == Upsert then a.(create := Some(Stamp(a.create.GetOr(map[]), key, org)))
    else a
  }

  // The request-scoped context: nothing outside a request, no organisation before authentication.
  datatype Store = Store(org: Option<string>, bypass: bool)

  datatype Verdict = PassThrough | Refuse | Scope(key: string, org: string)

  function Decision(model: Option<string>, store: Option<Store>, enforce: bool): Verdict {
    if model.None? || TenantKey(model.value).None? || store.None? || store.value.bypass then PassThrough
    else if store.value.org.None? || store.value.org.value == "" then (if enforce then Refuse else PassThrough)
    else if !enforce then PassThrough
    else Scope(TenantKey(model.value).value, store.value.org.value)
  }

  // In enforce mode, inside a request and without bypass, no operation on a tenant model goes through
  // unscoped: it is refused without an organisation, and otherwise scoped to that one.
  lemma EnforcedMeansScoped(model: string, store: Store)
    requires model in {"Org", "Membership", "Profile", "Job", "Subscription", "GenerationLog", "QuotaPeriod",
                       "UserMemory", "MemoryAuditLog"}
    requires !store.bypass
    ensures Decision(Some(model), Some(store), true)
         == if store.org.None? || store.org.value == "" then Refuse
            else Scope(if model == "Org" then "id" else "orgId", store.org.value)
  {
  }

  // Only then: an operation is scoped, or refused, exactly in enforce mode, on a tenant model, inside a
  // request without bypass.
  lemma OnlyEnforcedIsScoped(model: Option<string>, store: Option<Store>, enforce: bool)
    ensures Decision(model, store, enforce).PassThrough?
       <==> !enforce || model.None? || TenantKey(model.value).None? || store.None? || store.value.bypass
  {
  }

  // ---------- what a rewrite keeps ----------

  // The client's row with the tenant column set: every other column as it was, and no further one.
  ghost predicate OwnedCopy(client: Row, row: Row, key: string, org: string) {
    && row.Keys == client.Keys + {key} && row[key] == Text(org)
    && forall c | c in client && c != key :: row[c] == client[c]
  }

  // What reaches the database, column by column and filter by filter.
  ghost predicate Rewrites(a: Args, b: Args, op: Operation, key: string, org: string) {
    match op
    case Create =>
      && b.where == a.where && b.create == a.create && b.data.One?
      && (a.data.One? ==> OwnedCopy(a.data.row, b.data.row, key, org))
      && (a.data.NoData? ==> OwnedCopy(map[], b.data.row, key, org))
    case CreateMany =>
      && b.where == a.where && b.create == a.create && b.data.Many?
      && (a.data.Many? ==>
            && |b.data.rows| == |a.data.rows|
            && forall i | 0 <= i < |a.data.rows| :: OwnedCopy(a.data.rows[i], b.data.rows[i], key, org))
      && (a.data.One? ==> |b.data.rows| == 1 && OwnedCopy(a.data.row, b.data.rows[0], key, org))
      && (a.data.NoData? ==> |b.data.rows| == 1 && OwnedCopy(map[], b.data.rows[0], key, org))
    case Upsert =>
      && b.where == a.where && b.data == a.data && b.create.Some?
      && OwnedCopy(if a.create.Some? then a.create.value else map[], b.create.value, key, org)
    case FindUnique => b == a
    case Update => b == a
    case Delete => b == a
    case _ =>
      && b.data == a.data && b.create == a.create
      && forall r :: Selects(b.where, r) <==> Selects(a.where, r) && Column(r, key) == Text(org)
  }

  lemma ScopedRewrites(a: Args, op: Operation, key: string, org: string)
    ensures Rewrites(a, Scoped(a, op, key, org), op, key, org)
  {
    if TakesFilter(op) {
      forall r ensures Selects(Narrowed(a.where, key, org), r) <==> Selects(a.where, r) && Column(r, key) == Text(org) {
        NarrowedSelects(a.where, key, org, r);
      }
    }
  }

  datatype TenantError = ContextMissing

  /** The argument object of one operation, which the extension changes in place. */
  class QueryArgs {
    var where: Option<Filter>
    var data: Data
    var create: Option<Row>

    ghost function Value(): Args
      reads this
    {
      Args(where, data, create)
    }

    constructor (a: Args)
      ensures Value() == a
    {
      where, data, create := a.where, a.data, a.create;
    }

    // Ok means that the operation goes on to the database with these arguments.
    method AllOperations(model: Option<string>, op: Operation, store: Option<Store>, enforce: bool)
      returns (r: Result<bool, TenantError>)
      modifies this
      ensures
        match Decision(model, store, enforce)
        case PassThrough => r == Ok(false) && Value() == old(Value())
        case Refuse => r == Err(ContextMissing) && Value() == old(Value())
        case Scope(key, org) =>
          && r == Ok(true) && Value() == Scoped(old(Value()), op, key, org)
          && Rewrites(old(Value()), Value(), op, key, org)
    {
      if model.None? || TenantKey(model.value).None? || store.None? || store.value.bypass {
        return Ok(false);
      }
      var key := TenantKey(model.value).value;
      if store.value.org.None? || store.value.org.value == "" {
        if enforce {
          return Err(ContextMissing);
        }
        return Ok(false);
      }
      if !enforce {
        return Ok(false);
      }
      var org := store.value.org.value;
      ScopedRewrites(Value(), op, key, org);
      if TakesFilter(op) {
        where := if where.Some? then Some(AllOf([where.value, Owner(key, org)])) else Some(Owner(key, org));
      } else if op == Create {
        data := One(Stamp(RowOf(data), key, org));
      } else if op == CreateMany {
        data := Many(Stamped(RowsOf(data), key, org));
      } else if op == Upsert {
        create := Some(Stamp(create.GetOr(map[]), key, org));
      }
      return Ok(true);
    }
  }

  // ---------- reads ----------

  predicate Owns(r: Row, key: string, org: string) { Column(r, key) == Text(org) }

  function Owned(t: Table, key: string, org: string): Table {
    if t == [] then [] else Owned(t[..|t| - 1], key, org) + (if Owns(t[|t| - 1], key, org) then [t[|t| - 1]] else [])
  }

  // What an operation makes of the rows its filter selects: any ordering, paging, aggregation ..
  datatype Answer = Rows(rows: seq<Row>) | MaybeRow(row: Option<Row>) | Figure(n: int)
      | Groups(groups: map<Value, nat>) | NotFound

  datatype Query = Query(order: Table -> Table, skip: nat, take: nat, column: string)

  function Page(t: Table, skip: nat, take: nat): Table {
    var rest := if skip <= |t| then t[skip..] else [];
    if take <= |rest| then rest[..take] else rest
  }

  function Sum(t: Table, column: string): int {
    if t == [] then 0
    else
      var v := Column(t[|t| - 1], column);
      Sum(t[..|t| - 1], column) + (if v.Number? then v.n else 0)
  }

  function Grouped(t: Table, column: string): map<Value, nat> {
    if t == [] then map[]
    else
      var before, v := Grouped(t[..|t| - 1], column), Column(t[|t| - 1], column);
      before[v := (if v in before then before[v] else 0) + 1]
  }

  function Run(op: Operation, t: Table, where: Option<Filter>, q: Query): Answer
    requires op in {FindFirst, FindFirstOrThrow, FindMany, Count, Aggregate, GroupBy}
  {
    var rows := q.order(Selected(t, where));
    match op
    case FindFirst => MaybeRow(if |rows| > 0 then Some(rows[0]) else None)
    case FindFirstOrThrow => if |rows| > 0 then MaybeRow(Some(rows[0])) else NotFound
    case FindMany => Rows(Page(rows, q.skip, q.take))
    case Count => Figure(|Selected(t, where)|)
    case Aggregate => Figure(Sum(Selected(t, where), q.column))
    case _ => Groups(Grouped(Selected(t, where), q.column))
  }

  lemma NarrowedSelects(where: Option<Filter>, key: string, org: string, r: Row)
    ensures Selects(Narrowed(where, key, org), r) <==> Selects(where, r) && Owns(r, key, org)
  {
    if where.Some? {
      var owner := Owner(key, org);
      var fs := [where.value, owner];
      assert fs[1..] == [owner] && [owner][1..] == [];
      assert EvalAll([owner], r) == And3(Eval(owner, r), Yes);
      assert EvalAll(fs, r) == And3(Eval(where.value, r), EvalAll([owner], r));
      assert Eval(AllOf(fs), r) == EvalAll(fs, r);
    }
  }

  lemma SelectedSnoc(t: Table, r: Row, where: Option<Filter>)
    ensures Selected(t + [r], where) == Selected(t, where) + (if Selects(where, r) then [r] else [])
  {
    assert (t + [r])[..|t|] == t;
  }

  // The narrowed filter on the whole table is the original one on the organisation's rows.
  lemma {:induction false} NarrowedIsRestriction(t: Table, where: Option<Filter>, key: string, org: string)
    ensures Selected(t, Narrowed(where, key, org)) == Selected(Owned(t, key, org), where)
  {
    if t != [] {
      var k := |t| - 1;
      NarrowedIsRestriction(t[..k], where, key, org);
      NarrowedSelects(where, key, org, t[k]);
      SelectedSnoc(Owned(t[..k], key, org), t[k], where);
      assert Owned(t[..k], key, org) + [] == Owned(t[..k], key, org);
    }
  }

  // Every rewritten read answers as the original one would on a table holding only the
  // organisation's rows, so two databases that agree on those rows cannot be told apart.
  lemma ReadsSeeOneTenant(op: Operation, t: Table, other: Table, a: Args, q: Query, key: string, org: string)
    requires op in {FindFirst, FindFirstOrThrow, FindMany, Count, Aggregate, GroupBy}
    ensures Run(op, t, Scoped(a, op, key, org).where, q) == Run(op, Owned(t, key, org), a.where, q)
    ensures Owned(t, key, org) == Owned(other, key, org) ==>
              Run(op, t, Scoped(a, op, key, org).where, q) == Run(op, other, Scoped(a, op, key, org).where, q)
  {
    NarrowedIsRestriction(t, a.where, key, org);
    NarrowedIsRestriction(other, a.where, key, org);
  }

  // ---------- writes ----------

  function Others(t: Table, key: string, org: string): Table {
    if t == [] then [] else Others(t[..|t| - 1], key, org) + (if Owns(t[|t| - 1], key, org) then [] else [t[|t| - 1]])
  }

  // updateMany: the selected rows take over the given columns, in place.
  function Updated(t: Table, where: Option<Filter>, data: Row): Table {
    if t == [] then []
    else
      Updated(t[..|t| - 1], where, data)
      + [if Selects(where, t[|t| - 1]) then t[|t| - 1] + data else t[|t| - 1]]
  }

  function Deleted(t: Table, where: Option<Filter>): Table {
    if t == [] then [] else Deleted(t[..|t| - 1], where) + (if Selects(where, t[|t| - 1]) then [] else [t[|t| - 1]])
  }

  // One more row: a read finds it, a deletion drops it and an update changes its columns exactly when
  // the filter selects it.
  lemma OneMoreRow(t: Table, r: Row, where: Option<Filter>, data: Row)
    ensures Selected(t + [r], where) == if Selects(where, r) then Selected(t, where) + [r] else Selected(t, where)
    ensures Deleted(t + [r], where) == if Selects(where, r) then Deleted(t, where) else Deleted(t, where) + [r]
    ensures
      var u := Updated(t + [r], where, data);
      && |u| == |t| + 1 && u[..|t|] == Updated(t, where, data)
      && (!Selects(where, r) ==> u[|t|] == r)
      && (Selects(where, r) ==> forall c :: Column(u[|t|], c) == if c in data then data[c] else Column(r, c))
  {
    assert (t + [r])[..|t|] == t;
    assert Selected(t, where) + [] == Selected(t, where) && Deleted(t, where) + [] == Deleted(t, where);
    UpdatedLength(t, where, data);
  }

  // A page is the rows at its positions; a sum and the sizes of the groups take in every row once.
  lemma PageHolds(t: Table, skip: nat, take: nat, i: nat)
    ensures i < |Page(t, skip, take)| <==> i < take && skip + i < |t|
    ensures i < |Page(t, skip, take)| ==> Page(t, skip, take)[i] == t[skip + i]
  {
  }

  lemma OneMoreCounts(t: Table, r: Row, column: string, v: Value)
    ensures Sum(t + [r], column) - Sum(t, column) == if Column(r, column).Number? then Column(r, column).n else 0
    ensures GroupSize(Grouped(t + [r], column), v) - GroupSize(Grouped(t, column), v)
         == if Column(r, column) == v then 1 else 0
  {
    assert (t + [r])[..|t|] == t;
  }

  function GroupSize(groups: map<Value, nat>, v: Value): int { if v in groups then groups[v] else 0 }

  // Counting, the first row and the whole list are those of the rows the filter selects.
  lemma AnswersDescribeTheSelection(t: Table, where: Option<Filter>, q: Query)
    ensures Run(Count, t, where, q) == Figure(|Selected(t, where)|)
    ensures Run(Aggregate, t, where, q) == Figure(Sum(Selected(t, where), q.column))
    ensures Run(GroupBy, t, where, q) == Groups(Grouped(Selected(t, where), q.column))
    ensures
      var rows := q.order(Selected(t, where));
      && Run(FindMany, t, where, q.(skip := 0, take := |rows|)) == Rows(rows)
      && (rows != [] ==> Run(FindFirst, t, where, q) == MaybeRow(Some(rows[0])) == Run(FindFirstOrThrow, t, where, q))
      && (rows == [] ==>
            Run(FindFirst, t, where, q) == MaybeRow(None) && Run(FindFirstOrThrow, t, where, q) == NotFound)
  {
  }

  lemma {:induction false} OthersAppend(t: Table, more: Table, key: string, org: string)
    ensures Others(t + more, key, org) == Others(t, key, org) + Others(more, key, org)
    decreases |more|
  {
    if more == [] {
      assert t + more == t;
    } else {
      var k := |more| - 1;
      assert (t + more)[..|t| + k] == t + more[..k];
      OthersAppend(t, more[..k], key, org);
    }
  }

  lemma {:induction false} DeletesSpareOthers(t: Table, where: Option<Filter>, key: string, org: string)
    ensures Others(Deleted(t, Narrowed(where, key, org)), key, org) == Others(t, key, org)
  {
    if t != [] {
      var k := |t| - 1;
      DeletesSpareOthers(t[..k], where, key, org);
      NarrowedSelects(where, key, org, t[k]);
      var before := Deleted(t[..k], Narrowed(where, key, org));
      assert (before + [t[k]])[..|before|] == before;
      assert before + [] == before;
      assert Others(t[..k], key, org) + [] == Others(t[..k], key, org);
    }
  }

  lemma {:induction false} StampedRowsAreOwned(rows: seq<Row>, key: string, org: string)
    requires forall r | r in rows :: Owns(r, key, org)
    ensures Others(rows, key, org) == []
  {
    if rows != [] {
      assert rows[|rows| - 1] in rows;
      StampedRowsAreOwned(rows[..|rows| - 1], key, org);
    }
  }

  // Creating and deleting through the extension leaves every other tenant's rows as they were.
  lemma CreatesAndDeletesSpareOthers(t: Table, a: Args, key: string, org: string)
    ensures
      var created := Scoped(a, Create, key, org).data;
      Others(t + [created.row], key, org) == Others(t, key, org)
    ensures
      var created := Scoped(a, CreateMany, key, org).data;
      Others(t + created.rows, key, org) == Others(t, key, org)
    ensures Others(Deleted(t, Scoped(a, DeleteMany, key, org).where), key, org) == Others(t, key, org)
  {
    var one := [Scoped(a, Create, key, org).data.row];
    OthersAppend(t, one, key, org);
    StampedRowsAreOwned(one, key, org);
    var many := Scoped(a, CreateMany, key, org).data.rows;
    OthersAppend(t, many, key, org);
    StampedRowsAreOwned(many, key, org);
    DeletesSpareOthers(t, a.where, key, org);
    assert Others(t, key, org) + [] == Others(t, key, org);
  }

  predicate MovesRows(data: Row, key: string, org: string) { key in data && data[key] != Text(org) }

  lemma {:induction false} UpdateInPlace(t: Table, where: Option<Filter>, data: Row, key: string, org: string, i: nat)
    requires i < |t|
    ensures |Updated(t, Narrowed(where, key, org), data)| == |t|
    ensures !Owns(t[i], key, org) ==> Updated(t, Narrowed(where, key, org), data)[i] == t[i]
  {
    var k := |t| - 1;
    UpdatedLength(t, Narrowed(where, key, org), data);
    UpdatedLength(t[..k], Narrowed(where, key, org), data);
    NarrowedSelects(where, key, org, t[k]);
    if i < k {
      UpdateInPlace(t[..k], where, data, key, org, i);
    }
  }

  lemma {:induction false} UpdatedLength(t: Table, where: Option<Filter>, data: Row)
    ensures |Updated(t, where, data)| == |t|
  {
    if t != [] {
      UpdatedLength(t[..|t| - 1], where, data);
    }
  }

  lemma {:induction false} UpdatedOthers(t: Table, where: Option<Filter>, data: Row, key: string, org: string)
    ensures
      var after := Others(Updated(t, Narrowed(where, key, org), data), key, org);
      && |after| == |Others(t, key, org)|
          + (if MovesRows(data, key, org) then |Selected(t, Narrowed(where, key, org))| else 0)
      && (!MovesRows(data, key, org) || Selected(t, Narrowed(where, key, org)) == [] ==> after == Others(t, key, org))
  {
    if t != [] {
      var k := |t| - 1;
      var narrowed := Narrowed(where, key, org);
      UpdatedOthers(t[..k], where, data, key, org);
      NarrowedSelects(where, key, org, t[k]);
      var before := Updated(t[..k], narrowed, data);
      assert Updated(t, narrowed, data)[..|before|] == before;
    }
  }

  // An update keeps every other tenant's row in its place as it was. But its data is not rewritten:
  // the other tenants as a whole keep exactly their rows if and only if the data does not set the
  // tenant column to another value, or no row is selected.
  lemma UpdatesSpareOthersIff(t: Table, a: Args, data: Row, key: string, org: string)
    ensures
      var where := Scoped(a, UpdateMany, key, org).where;
      && |Updated(t, where, data)| == |t|
      && (forall i | 0 <= i < |t| && !Owns(t[i], key, org) :: Updated(t, where, data)[i] == t[i])
      && (Others(Updated(t, where, data), key, org) == Others(t, key, org)
          <==> !MovesRows(data, key, org) || Selected(t, where) == [])
  {
    var where := Scoped(a, UpdateMany, key, org).where;
    UpdatedLength(t, where, data);
    forall i | 0 <= i < |t| && !Owns(t[i], key, org) ensures Updated(t, where, data)[i] == t[i] {
      UpdateInPlace(t, a.where, data, key, org, i);
    }
    UpdatedOthers(t, a.where, data, key, org);
  }
}
