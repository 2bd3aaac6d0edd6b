/**
 Per-organisation memory facts: the confidence rule that decides which fact stays, and the round
 trip through export and import.
 */
module MemoryFacts {
  import opened Prelude
  import opened Cipher

  type OrgId = string

  // The unique key of a row.
  datatype Address = Address(org: OrgId, category: string, name: string)

  datatype Row = Row(value: string, sensitive: bool, confidence: real, source: string, isPermanent: bool, deleted: bool)

  type Rows = map<Address, Row>

  predicate Live(rows: Rows, a: Address) { a in rows && !rows[a].deleted }

  datatype Fact = Fact(
    category: string, name: string, value: string, confidence: real, source: string,
    sensitive: Option<bool>, isPermanent: Option<bool>)

  datatype ImportedFact = ImportedFact(
    category: string, name: string, value: string, confidence: Option<real>, source: Option<string>,
    sensitive: Option<bool>, isPermanent: Option<bool>)

  predicate Overrides(f: Fact) { f.source == "explicit" || f.source == "manual" }

  function EncodeValue(g: Gcm, value: string, sensitive: bool, iv: seq<byte>): string {
    if sensitive then Encrypt(g, value, iv) else value
  }

  function DecodeValue(g: Gcm, r: Row): string {
    if r.sensitive then DecryptSafe(g, r.value) else r.value
  }

  function AddressOf(org: OrgId, f: Fact): Address { Address(org, f.category, f.name) }

  function RowOf(g: Gcm, f: Fact, iv: seq<byte>): Row {
    var sensitive := f.sensitive.GetOr(false);
    Row(EncodeValue(g, f.value, sensitive, iv), sensitive, f.confidence, f.source, f.isPermanent.GetOr(true), false)
  }

  function Record(g: Gcm, rows: Rows, org: OrgId, f: Fact, iv: seq<byte>): Rows {
    var a := AddressOf(org, f);
    if Live(rows, a) && rows[a].confidence > f.confidence && !Overrides(f) then rows
    else rows[a := RowOf(g, f, iv)]
  }

  function WithDefaults(f: ImportedFact): Fact {
    Fact(f.category, f.name, f.value, f.confidence.GetOr(0.9), f.source.GetOr("import"), f.sensitive, f.isPermanent)
  }

  function RecordAll(g: Gcm, rows: Rows, org: OrgId, fs: seq<Fact>, ivs: nat -> seq<byte>): Rows {
    if fs == [] then rows
    else Record(g, RecordAll(g, rows, org, fs[..|fs| - 1], ivs), org, fs[|fs| - 1], ivs(|fs| - 1))
  }

  // ---------- which fact stays ----------

  // Candidates are positions in the list; -1 stands for the live row that was there before.
  predicate Candidate(rows: Rows, a: Address, fs: seq<Fact>, i: int) {
    if i == -1 then Live(rows, a) else 0 <= i < |fs| && AddressOf(a.org, fs[i]) == a
  }

  function ConfidenceOf(rows: Rows, a: Address, fs: seq<Fact>, i: int): real
    requires Candidate(rows, a, fs, i)
  {
    if i == -1 then rows[a].confidence else fs[i].confidence
  }

  // From here on candidates compete: the last fact from an overriding source, or the very first.
  predicate ContestStartsAt(rows: Rows, a: Address, fs: seq<Fact>, start: int) {
    && -1 <= start < |fs|
    && (start == -1 || (Candidate(rows, a, fs, start) && Overrides(fs[start])))
    && (forall i | start < i < |fs| && i >= 0 && AddressOf(a.org, fs[i]) == a :: !Overrides(fs[i]))
  }

  // The last candidate of greatest confidence in the contest.
  ghost predicate WinsFrom(rows: Rows, a: Address, fs: seq<Fact>, start: int, w: int) {
    && Candidate(rows, a, fs, w) && ContestStartsAt(rows, a, fs, start) && start <= w
    && forall i | start <= i < |fs| && Candidate(rows, a, fs, i) ::
         && ConfidenceOf(rows, a, fs, i) <= ConfidenceOf(rows, a, fs, w)
         && (i > w ==> ConfidenceOf(rows, a, fs, i) < ConfidenceOf(rows, a, fs, w))
  }

  ghost predicate Wins(rows: Rows, a: Address, fs: seq<Fact>, w: int) {
    exists start :: WinsFrom(rows, a, fs, start, w)
  }

  lemma WinnerIsUnique(rows: Rows, a: Address, fs: seq<Fact>, v: int, w: int)
    requires Wins(rows, a, fs, v) && Wins(rows, a, fs, w)
    ensures v == w
  {
    var s :| WinsFrom(rows, a, fs, s, v);
    var t :| WinsFrom(rows, a, fs, t, w);
    assert s == t;
  }

  // ---------- one more fact ----------

  lemma StrangerChangesNothing(rows: Rows, a: Address, fs: seq<Fact>, f: Fact, start: int, w: int)
    requires WinsFrom(rows, a, fs, start, w) && AddressOf(a.org, f) != a
    ensures WinsFrom(rows, a, fs + [f], start, w)
  {
    assert forall i | -1 <= i < |fs| :: Candidate(rows, a, fs + [f], i) == Candidate(rows, a, fs, i);
  }

  lemma OverrideWins(rows: Rows, a: Address, fs: seq<Fact>, f: Fact)
    requires Overrides(f) && AddressOf(a.org, f) == a
    ensures WinsFrom(rows, a, fs + [f], |fs|, |fs|)
  {
  }

  lemma FirstFactWins(rows: Rows, a: Address, fs: seq<Fact>, f: Fact)
    requires (forall i :: !Candidate(rows, a, fs, i)) && AddressOf(a.org, f) == a && !Overrides(f)
    ensures WinsFrom(rows, a, fs + [f], -1, |fs|)
  {
    assert !Candidate(rows, a, fs, -1);
    forall i | 0 <= i < |fs| ensures AddressOf(a.org, fs[i]) != a {
      assert !Candidate(rows, a, fs, i);
    }
  }

  lemma Challenge(rows: Rows, a: Address, fs: seq<Fact>, f: Fact, start: int, w: int)
    requires WinsFrom(rows, a, fs, start, w) && AddressOf(a.org, f) == a && !Overrides(f)
    ensures WinsFrom(rows, a, fs + [f], start, if ConfidenceOf(rows, a, fs, w) > f.confidence then w else |fs|)
  {
    assert forall i | -1 <= i < |fs| :: Candidate(rows, a, fs + [f], i) == Candidate(rows, a, fs, i);
  }

  // ---------- a whole list ----------

  // The row the winner leaves.
  function Winning(g: Gcm, rows: Rows, a: Address, fs: seq<Fact>, ivs: nat -> seq<byte>, w: int): Row
    requires Candidate(rows, a, fs, w)
  {
    if w == -1 then rows[a] else RowOf(g, fs[w], ivs(w))
  }

  ghost predicate Decided(g: Gcm, rows: Rows, a: Address, fs: seq<Fact>, ivs: nat -> seq<byte>, after: Rows,
          w: Option<int>) {
    match w
    case Some(i) => Wins(rows, a, fs, i) && Candidate(rows, a, fs, i) && Live(after, a)
        && after[a] == Winning(g, rows, a, fs, ivs, i)
    case None =>
      && (forall i :: !Candidate(rows, a, fs, i))
      && !Live(after, a) && (a in after <==> a in rows) && (a in rows ==> after[a] == rows[a])
  }

  lemma NextDecision(g: Gcm, rows: Rows, a: Address, fs: seq<Fact>, f: Fact, ivs: nat -> seq<byte>, mid: Rows,
          before: Option<int>)
    returns (w: Option<int>)
    requires Decided(g, rows, a, fs, ivs, mid, before)
    ensures Decided(g, rows, a, fs + [f], ivs, Record(g, mid, a.org, f, ivs(|fs|)), w)
  {
    if before.None? {
      if AddressOf(a.org, f) != a {
        w := None;
        forall i ensures !Candidate(rows, a, fs + [f], i) {
          assert !Candidate(rows, a, fs, i);
        }
      } else {
        w := Some(|fs|);
        if Overrides(f) {
          OverrideWins(rows, a, fs, f);
        } else {
          FirstFactWins(rows, a, fs, f);
        }
      }
    } else {
      var start :| WinsFrom(rows, a, fs, start, before.value);
      assert Candidate(rows, a, fs + [f], before.value);
      if AddressOf(a.org, f) != a {
        w := before;
        StrangerChangesNothing(rows, a, fs, f, start, before.value);
      } else if Overrides(f) {
        w := Some(|fs|);
        OverrideWins(rows, a, fs, f);
      } else {
        w := if ConfidenceOf(rows, a, fs, before.value) > f.confidence then before else Some(|fs|);
        Challenge(rows, a, fs, f, start, before.value);
      }
    }
  }

  // Importing a list leaves, for every key of the organisation, the last fact of greatest
  // confidence from the last overriding one on, or from the start with the live row in front. A
  // soft-deleted row takes no part; where there is no candidate at all nothing changes.
  lemma {:induction false} ImportKeepsTheWinner(g: Gcm, rows: Rows, a: Address, fs: seq<Fact>, ivs: nat -> seq<byte>)
    returns (w: Option<int>)
    ensures Decided(g, rows, a, fs, ivs, RecordAll(g, rows, a.org, fs, ivs), w)
  {
    if fs == [] {
      if Live(rows, a) {
        assert WinsFrom(rows, a, fs, -1, -1);
        w := Some(-1);
      } else {
        w := None;
      }
    } else {
      var n := |fs| - 1;
      var before := ImportKeepsTheWinner(g, rows, a, fs[..n], ivs);
      w := NextDecision(g, rows, a, fs[..n], fs[n], ivs, RecordAll(g, rows, a.org, fs[..n], ivs), before);
      assert fs[..n] + [fs[n]] == fs;
    }
  }

  lemma {:induction false} ImportStaysInTheOrg(g: Gcm, rows: Rows, org: OrgId, a: Address, fs: seq<Fact>,
          ivs: nat -> seq<byte>)
    requires a.org != org
    ensures
      var after := RecordAll(g, rows, org, fs, ivs);
      (a in after <==> a in rows) && (a in rows ==> after[a] == rows[a])
  {
    if fs != [] {
      ImportStaysInTheOrg(g, rows, org, a, fs[..|fs| - 1], ivs);
    }
  }

  // ---------- what one fact does ----------

  // Only facts from an explicit or manual source displace a more confident live one.
  lemma DisplacesIff(g: Gcm, rows: Rows, org: OrgId, f: Fact, iv: seq<byte>)
    requires Live(rows, AddressOf(org, f)) && rows[AddressOf(org, f)].confidence > f.confidence
    ensures Record(g, rows, org, f, iv) != rows <==> f.source == "explicit" || f.source == "manual"
  {
    var a := AddressOf(org, f);
    assert rows[a := RowOf(g, f, iv)][a].confidence == f.confidence;
  }

  // A fact that comes with no more than its category, key and value: it never displaces a live one of
  // more than nine tenths confidence; otherwise it becomes a plain, permanent row of nine tenths
  // confidence from the source import.
  lemma BareFactIsModest(g: Gcm, rows: Rows, org: OrgId, category: string, name: string, value: string, iv: seq<byte>)
    ensures
      var f := WithDefaults(ImportedFact(category, name, value, None, None, None, None));
      var a := Address(org, category, name);
      Record(g, rows, org, f, iv)
      == if Live(rows, a) && rows[a].confidence > 0.9 then rows
         else rows[a := Row(value, false, 0.9, "import", true, false)]
  {
  }

  // What is given is taken over, and only what is missing gets a default.
  lemma GivenIsKept(f: ImportedFact)
    ensures
      var d := WithDefaults(f);
      && d.category == f.category && d.name == f.name && d.value == f.value
      && d.sensitive == f.sensitive && d.isPermanent == f.isPermanent
      && (f.confidence.Some? ==> d.confidence == f.confidence.value)
      && (f.source.Some? ==> d.source == f.source.value)
  {
  }

  // ---------- export ----------

  datatype Exported = Exported(
    category: string, name: string, value: string, confidence: real, source: string, isPermanent: bool, sensitive: bool)

  function ExportOf(g: Gcm, a: Address, r: Row): Exported {
    Exported(a.category, a.name, DecodeValue(g, r), r.confidence, r.source, r.isPermanent, r.sensitive)
  }

  function AddressIn(org: OrgId, e: Exported): Address { Address(org, e.category, e.name) }

  // The database's order of (category, name) pairs.
  type Order = ((string, string), (string, string)) -> bool

  ghost predicate StrictOrder(lt: Order) {
    && (forall x, y :: lt(x, y) ==> !lt(y, x))
    && (forall x, y, z :: lt(x, y) && lt(y, z) ==> lt(x, z))
  }

  // The live rows of an organisation, each once, in order, with their values decrypted.
  ghost predicate IsExport(g: Gcm, rows: Rows, org: OrgId, lt: Order, es: seq<Exported>) {
    && (forall i, j | 0 <= i < j < |es| :: lt((es[i].category, es[i].name), (es[j].category, es[j].name)))
    && (forall i | 0 <= i < |es| ::
          Live(rows, AddressIn(org, es[i]))
          && es[i] == ExportOf(g, AddressIn(org, es[i]), rows[AddressIn(org, es[i])]))
    && (forall a | Live(rows, a) && a.org == org :: ExportOf(g, a, rows[a]) in es)
  }

  // There is only one export.
  lemma {:induction false} SameMembersSameList(lt: Order, xs: seq<Exported>, ys: seq<Exported>)
    requires StrictOrder(lt) && (forall e :: e in xs <==> e in ys)
    requires forall i, j | 0 <= i < j < |xs| :: lt((xs[i].category, xs[i].name), (xs[j].category, xs[j].name))
    requires forall i, j | 0 <= i < j < |ys| :: lt((ys[i].category, ys[i].name), (ys[j].category, ys[j].name))
    ensures xs == ys
  {
    assert |ys| > 0 ==> ys[0] in ys;
    if xs != [] {
      assert xs[0] in ys && ys != [];
      assert ys[0] in xs;
      var i :| 0 <= i < |ys| && ys[i] == xs[0];
      var j :| 0 <= j < |xs| && xs[j] == ys[0];
      assert i == 0;
      forall e ensures e in xs[1..] <==> e in ys[1..] {
        TailMembers(lt, xs, e);
        TailMembers(lt, ys, e);
      }
      SameMembersSameList(lt, xs[1..], ys[1..]);
      assert xs == [xs[0]] + xs[1..] && ys == [ys[0]] + ys[1..];
    }
  }

  lemma TailMembers(lt: Order, xs: seq<Exported>, e: Exported)
    requires StrictOrder(lt) && xs != []
    requires forall i, j | 0 <= i < j < |xs| :: lt((xs[i].category, xs[i].name), (xs[j].category, xs[j].name))
    ensures e in xs[1..] <==> e in xs && e != xs[0]
  {
    if e in xs[1..] {
      var i :| 0 <= i < |xs[1..]| && xs[1..][i] == e;
      assert lt((xs[0].category, xs[0].name), (xs[i + 1].category, xs[i + 1].name));
    }
    if e in xs && e != xs[0] {
      var i :| 0 <= i < |xs| && xs[i] == e;
      assert xs[1..][i - 1] == e;
    }
  }

  lemma ExportIsUnique(g: Gcm, rows: Rows, org: OrgId, lt: Order, xs: seq<Exported>, ys: seq<Exported>)
    requires StrictOrder(lt) && IsExport(g, rows, org, lt, xs) && IsExport(g, rows, org, lt, ys)
    ensures xs == ys
  {
    forall e ensures e in xs <==> e in ys {
      ExportHasExactly(g, rows, org, lt, xs, e);
      ExportHasExactly(g, rows, org, lt, ys, e);
    }
    SameMembersSameList(lt, xs, ys);
  }

  // Rows that differ come one before the other.
  ghost predicate TotalOrder(lt: Order) {
    StrictOrder(lt) && forall x, y :: x == y || lt(x, y) || lt(y, x)
  }

  // The least address of some, by category and name.
  lemma {:induction false} First(lt: Order, addresses: set<Address>, org: OrgId) returns (a: Address)
    requires TotalOrder(lt) && addresses != {} && forall b | b in addresses :: b.org == org
    ensures a in addresses && forall b | b in addresses && b != a :: lt((a.category, a.name), (b.category, b.name))
    decreases |addresses|
  {
    a :| a in addresses;
    if addresses != {a} {
      var b := First(lt, addresses - {a}, org);
      if lt((b.category, b.name), (a.category, a.name)) { a := b; }
    }
  }

  // The export of some of the live rows.
  ghost predicate Lists(g: Gcm, rows: Rows, org: OrgId, lt: Order, addresses: set<Address>, es: seq<Exported>) {
    && (forall i, j | 0 <= i < j < |es| :: lt((es[i].category, es[i].name), (es[j].category, es[j].name)))
    && (forall i | 0 <= i < |es| ::
          AddressIn(org, es[i]) in addresses && Live(rows, AddressIn(org, es[i]))
          && es[i] == ExportOf(g, AddressIn(org, es[i]), rows[AddressIn(org, es[i])]))
    && (forall a | a in addresses && Live(rows, a) :: ExportOf(g, a, rows[a]) in es)
  }

  lemma {:induction false} ListExists(g: Gcm, rows: Rows, org: OrgId, lt: Order, addresses: set<Address>)
    returns (es: seq<Exported>)
    requires TotalOrder(lt) && forall a | a in addresses :: Live(rows, a) && a.org == org
    ensures Lists(g, rows, org, lt, addresses, es)
    decreases |addresses|
  {
    es := [];
    if addresses != {} {
      var a := First(lt, addresses, org);
      var rest := ListExists(g, rows, org, lt, addresses - {a});
      es := [ExportOf(g, a, rows[a])] + rest;
      FirstInFront(g, rows, org, lt, addresses, a, rest);
    }
  }

  lemma FirstInFront(g: Gcm, rows: Rows, org: OrgId, lt: Order, addresses: set<Address>, a: Address,
          rest: seq<Exported>)
    requires a in addresses && Live(rows, a) && a.org == org
    requires forall b | b in addresses && b != a :: lt((a.category, a.name), (b.category, b.name))
    requires Lists(g, rows, org, lt, addresses - {a}, rest)
    ensures Lists(g, rows, org, lt, addresses, [ExportOf(g, a, rows[a])] + rest)
  {
    var first := ExportOf(g, a, rows[a]);
    var es := [first] + rest;
    assert AddressIn(org, first) == a;
    forall j | 0 <= j < |rest| ensures lt((first.category, first.name), (rest[j].category, rest[j].name)) {
      assert AddressIn(org, rest[j]) in addresses;
    }
    forall b | b in addresses && Live(rows, b) ensures ExportOf(g, b, rows[b]) in es {
      if b != a {
        assert ExportOf(g, b, rows[b]) in rest;
      } else {
        assert es[0] == ExportOf(g, b, rows[b]);
      }
    }
  }

  // Under a total order of the keys every organisation has an export.
  lemma ExportExists(g: Gcm, rows: Rows, org: OrgId, lt: Order) returns (es: seq<Exported>)
    requires TotalOrder(lt)
    ensures IsExport(g, rows, org, lt, es)
  {
    es := ListExists(g, rows, org, lt, set a | a in rows && Live(rows, a) && a.org == org);
  }

  lemma ExportHasExactly(g: Gcm, rows: Rows, org: OrgId, lt: Order, xs: seq<Exported>, e: Exported)
    requires IsExport(g, rows, org, lt, xs)
    ensures e in xs <==> Live(rows, AddressIn(org, e)) && e == ExportOf(g, AddressIn(org, e), rows[AddressIn(org, e)])
  {
  }

  // ---------- the round trip ----------

  function AsImport(e: Exported): ImportedFact {
    ImportedFact(e.category, e.name, e.value, Some(e.confidence), Some(e.source), Some(e.sensitive),
        Some(e.isPermanent))
  }

  function FactsOf(es: seq<Exported>): (fs: seq<Fact>)
    ensures |fs| == |es|
    ensures forall i | 0 <= i < |es| :: fs[i] == WithDefaults(AsImport(es[i]))
  {
    if es == [] then [] else FactsOf(es[..|es| - 1]) + [WithDefaults(AsImport(es[|es| - 1]))]
  }

  // Where the export can go back to: an organisation without live rows, or the one it came from.
  ghost predicate Receives(rows: Rows, org: OrgId, target: Rows, to: OrgId) {
    (forall a: Address | a.org == to :: !Live(target, a)) || (target == rows && to == org)
  }

  // The one fact imported for an address decides its row.
  lemma ImportedRow(g: Gcm, rows: Rows, org: OrgId, lt: Order, es: seq<Exported>, target: Rows, to: OrgId,
          ivs: nat -> seq<byte>, i: nat)
    requires StrictOrder(lt) && IsExport(g, rows, org, lt, es) && Receives(rows, org, target, to) && i < |es|
    ensures
      var a := AddressIn(to, es[i]);
      var after := RecordAll(g, target, to, FactsOf(es), ivs);
      Live(after, a) && after[a] == RowOf(g, FactsOf(es)[i], ivs(i))
  {
    var a, fs := AddressIn(to, es[i]), FactsOf(es);
    forall k | 0 <= k < |fs| && k != i ensures !Candidate(target, a, fs, k) {
      if k < i {
        assert lt((es[k].category, es[k].name), (es[i].category, es[i].name));
      } else {
        assert lt((es[i].category, es[i].name), (es[k].category, es[k].name));
      }
    }
    assert Candidate(target, a, fs, i);
    var w := ImportKeepsTheWinner(g, target, a, fs, ivs);
    assert w.Some?;
    var start :| WinsFrom(target, a, fs, start, w.value);
    assert Live(target, a) ==>
             target == rows && to == org && ConfidenceOf(target, a, fs, i) == ConfidenceOf(target, a, fs, -1);
    assert w.value != -1;
  }

  lemma NothingElseAppears(g: Gcm, rows: Rows, org: OrgId, lt: Order, es: seq<Exported>, target: Rows, to: OrgId,
          ivs: nat -> seq<byte>, a: Address)
    requires StrictOrder(lt) && IsExport(g, rows, org, lt, es) && Receives(rows, org, target, to)
    requires a.org == to && Live(RecordAll(g, target, to, FactsOf(es), ivs), a)
    ensures exists i :: 0 <= i < |es| && AddressIn(to, es[i]) == a
  {
    var fs := FactsOf(es);
    var w := ImportKeepsTheWinner(g, target, a, fs, ivs);
    if w.value == -1 {
      assert ExportOf(g, a, rows[a]) in es;
    } else {
      assert AddressIn(to, es[w.value]) == a;
    }
  }

  lemma ReadBackIff(g: Gcm, e: Exported, to: OrgId, iv: seq<byte>)
    requires Sound(g) && iv != []
    ensures e == ExportOf(g, AddressIn(to, e), RowOf(g, WithDefaults(AsImport(e)), iv)) <==> !SealedEmpty(e)
  {
    if e.sensitive {
      DecryptSafeInvertsIffNonEmpty(g, e.value, iv);
    }
  }

  predicate SealedEmpty(e: Exported) { e.sensitive && e.value == "" }

  lemma GoodExportComesBack(g: Gcm, rows: Rows, org: OrgId, lt: Order, es: seq<Exported>, target: Rows, to: OrgId,
          ivs: nat -> seq<byte>)
    requires Sound(g) && StrictOrder(lt) && (forall i: nat :: ivs(i) != [])
    requires IsExport(g, rows, org, lt, es) && Receives(rows, org, target, to)
    requires forall i | 0 <= i < |es| :: !SealedEmpty(es[i])
    ensures IsExport(g, RecordAll(g, target, to, FactsOf(es), ivs), to, lt, es)
  {
    var after := RecordAll(g, target, to, FactsOf(es), ivs);
    forall i | 0 <= i < |es|
      ensures Live(after, AddressIn(to, es[i]))
                && es[i] == ExportOf(g, AddressIn(to, es[i]), after[AddressIn(to, es[i])])
    {
      ImportedRow(g, rows, org, lt, es, target, to, ivs, i);
      ReadBackIff(g, es[i], to, ivs(i));
    }
    forall a | Live(after, a) && a.org == to ensures ExportOf(g, a, after[a]) in es {
      NothingElseAppears(g, rows, org, lt, es, target, to, ivs, a);
      var i :| 0 <= i < |es| && AddressIn(to, es[i]) == a;
      assert es[i] in es;
    }
  }

  lemma BadExportDoesNot(g: Gcm, rows: Rows, org: OrgId, lt: Order, es: seq<Exported>, target: Rows, to: OrgId,
          ivs: nat -> seq<byte>, i: nat)
    requires Sound(g) && StrictOrder(lt) && (forall i: nat :: ivs(i) != [])
    requires IsExport(g, rows, org, lt, es) && Receives(rows, org, target, to)
    requires i < |es| && SealedEmpty(es[i])
    ensures !IsExport(g, RecordAll(g, target, to, FactsOf(es), ivs), to, lt, es)
  {
    ImportedRow(g, rows, org, lt, es, target, to, ivs, i);
    ReadBackIff(g, es[i], to, ivs(i));
  }

  // Exporting and importing again, into an organisation without facts or back into the same one,
  // gives the identical export if and only if no sensitive fact exports an empty value; encrypted
  // and not yet encrypted sensitive rows may be mixed.
  lemma ExportImportRoundTripIff(g: Gcm, rows: Rows, org: OrgId, lt: Order, es: seq<Exported>, target: Rows,
          to: OrgId, ivs: nat -> seq<byte>)
    requires Sound(g) && StrictOrder(lt) && (forall i: nat :: ivs(i) != [])
    requires IsExport(g, rows, org, lt, es) && Receives(rows, org, target, to)
    ensures IsExport(g, RecordAll(g, target, to, FactsOf(es), ivs), to, lt, es)
       <==> forall i | 0 <= i < |es| :: !SealedEmpty(es[i])
  {
    if i :| 0 <= i < |es| && SealedEmpty(es[i]) {
      BadExportDoesNot(g, rows, org, lt, es, target, to, ivs, i);
    } else {
      GoodExportComesBack(g, rows, org, lt, es, target, to, ivs);
    }
  }

  // ---------- the service ----------

  // What a removal asks for: a category that is not given, or empty, stands for all.
  predicate InPurge(a: Address, org: OrgId, category: Option<string>) {
    a.org == org && (category.None? || category.value == "" || category.value == a.category)
  }

  // A removal marks what it asks for and changes nothing else.
  ghost predicate Purges(before: Rows, after: Rows, org: OrgId, category: Option<string>) {
    && after.Keys == before.Keys
    && (forall a | a in before && a.org == org && category in {None, Some(""), Some(a.category)} :: !Live(after, a))
    && (forall a | a in before && !(a.org == org && category in {None, Some(""), Some(a.category)}) ::
          after[a] == before[a])
  }

  /** The memory table, and the methods of the memory service over it. */
  class MemoryService {
    var rows: Rows
    const g: Gcm

    constructor (g: Gcm)
      ensures this.g == g && rows == map[]
    {
      this.g := g;
      rows := map[];
    }

    method RecordFact(org: OrgId, f: Fact, iv: seq<byte>) returns (r: Row)
      modifies this
      ensures rows == Record(g, old(rows), org, f, iv)
      ensures Live(rows, AddressOf(org, f))
                && r == rows[AddressOf(org, f)].(value := DecodeValue(g, rows[AddressOf(org, f)]))
    {
      var a := AddressOf(org, f);
      var sensitive := f.sensitive.GetOr(false);
      if a in rows && !rows[a].deleted && rows[a].confidence > f.confidence && !Overrides(f) {
        return rows[a].(value := DecodeValue(g, rows[a]));
      }
      var value := EncodeValue(g, f.value, sensitive, iv);
      rows := rows[a := Row(value, sensitive, f.confidence, f.source, f.isPermanent.GetOr(true), false)];
      return rows[a].(value := DecodeValue(g, rows[a]));
    }

    method Import(org: OrgId, facts: seq<ImportedFact>, ivs: nat -> seq<byte>) returns (imported: nat)
      modifies this
      ensures imported == |facts|
      ensures rows == RecordAll(g, old(rows), org,
                seq(|facts|, i requires 0 <= i < |facts| => WithDefaults(facts[i])), ivs)
    {
      ghost var all := seq(|facts|, i requires 0 <= i < |facts| => WithDefaults(facts[i]));
      var i := 0;
      while i < |facts|
        invariant 0 <= i <= |facts|
        invariant rows == RecordAll(g, old(rows), org, all[..i], ivs)
      {
        assert all[..i + 1][..i] == all[..i];
        var _ := RecordFact(org, WithDefaults(facts[i]), ivs(i));
        i := i + 1;
      }
      assert all[..i] == all;
      return |facts|;
    }

    // A manual fact: takes the row over, deleted or not, but keeps its permanence.
    method Create(org: OrgId, category: string, name: string, value: string, sensitive: Option<bool>,
            confidence: Option<real>, iv: seq<byte>)
      returns (r: Row)
      modifies this
      ensures
        var a := Address(org, category, name);
        Live(rows, a) && r == rows[a].(value := DecodeValue(g, rows[a]))
      ensures
        var a := Address(org, category, name);
        var s := sensitive.GetOr(false);
        rows == old(rows)[a := Row(EncodeValue(g, value, s, iv), s, confidence.GetOr(1.0), "manual",
                                   if a in old(rows) then old(rows)[a].isPermanent else true, false)]
    {
      var a := Address(org, category, name);
      var s := sensitive.GetOr(false);
      var permanent := if a in rows then rows[a].isPermanent else true;
      rows := rows[a := Row(EncodeValue(g, value, s, iv), s, confidence.GetOr(1.0), "manual", permanent, false)];
      return rows[a].(value := DecodeValue(g, rows[a]));
    }

    method RemoveMany(org: OrgId, category: Option<string>) returns (count: nat)
      modifies this
      ensures count == |set a | a in old(rows) && Live(old(rows), a) && InPurge(a, org, category)|
      ensures Purges(old(rows), rows, org, category)
      ensures forall a | a in rows :: rows[a].(deleted := old(rows)[a].deleted) == old(rows)[a]
    {
      var live := set a | a in rows && Live(rows, a) && InPurge(a, org, category);
      rows := map a | a in rows ::
        if InPurge(a, org, category) then rows[a].(deleted := true) else rows[a];
      return |live|;
    }
  }

  // So a purge can be undone from an export, whatever the purged rows were.
  lemma RestoreAfterPurge(g: Gcm, rows: Rows, purged: Rows, org: OrgId, category: Option<string>,
          lt: Order, es: seq<Exported>, again: seq<Exported>, ivs: nat -> seq<byte>)
    requires Sound(g) && StrictOrder(lt) && (forall i: nat :: ivs(i) != [])
    requires IsExport(g, rows, org, lt, es) && forall i | 0 <= i < |es| :: !SealedEmpty(es[i])
    requires Purges(rows, purged, org, category) && category in {None, Some("")}
    requires IsExport(g, RecordAll(g, purged, org, FactsOf(es), ivs), org, lt, again)
    ensures again == es
  {
    assert forall a: Address | a.org == org :: !Live(purged, a);
    ExportImportRoundTripIff(g, rows, org, lt, es, purged, org, ivs);
    ExportIsUnique(g, RecordAll(g, purged, org, FactsOf(es), ivs), org, lt, again, es);
  }
}
