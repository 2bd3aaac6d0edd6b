/**
 A document's version history: snapshots and the version counter, written in a transaction whose
 starting point was read before it.
 */
module DocumentHistory {
  import opened Prelude
  import opened Pricing
  import Quota

  datatype DocStatus = Draft | Ready

  // Content is kept as its JSON text, by which the service compares it.
  datatype Document = Document(title: string, content: string, version: int, status: DocStatus)

  datatype Snapshot = Snapshot(version: int, title: string, content: string, note: Option<string>)

  datatype Store = Store(doc: Document, versions: seq<Snapshot>)

  predicate New(s: Store) { s.doc.version == 1 && s.versions == [] }

  // ---------- statements ----------

  // What a save asks for.
  datatype Edit = Edit(content: Option<string>, title: Option<string>, status: Option<DocStatus>)

  predicate ChangesContent(read: Document, e: Edit) { e.content.Some? && e.content.value != read.content }

  function Retitle(s: Store, e: Edit): Store {
    s.(doc := s.doc.(title := e.title.GetOr(s.doc.title), status := e.status.GetOr(s.doc.status)))
  }

  // The transaction: the snapshot is of the document as it was read, the increment is of the
  // document as it is.
  function WriteVersion(s: Store, read: Document, next: string, note: Option<string>): Store {
    Store(s.doc.(content := next, version := s.doc.version + 1),
          s.versions + [Snapshot(read.version, read.title, read.content, note)])
  }

  function Save(s: Store, read: Document, e: Edit): Store {
    if ChangesContent(read, e) then Retitle(WriteVersion(s, read, e.content.value, None), e) else Retitle(s, e)
  }

  // ---------- one operation at a time ----------

  datatype Operation = Editing(edit: Edit) | Adjusting(next: string, note: string)

  function Perform(s: Store, read: Document, op: Operation): Store {
    match op
    case Editing(e) => Save(s, read, e)
    case Adjusting(next, note) => WriteVersion(s, read, next, Some(note))
  }

  function PerformAll(s: Store, ops: seq<Operation>): Store {
    if ops == [] then s
    else
      var before := PerformAll(s, ops[..|ops| - 1]);
      Perform(before, before.doc, ops[|ops| - 1])
  }

  predicate Numbered(versions: seq<Snapshot>) {
    forall k | 0 <= k < |versions| :: versions[k].version == k + 1
  }

  // The snapshots are numbered in order, one for each version before the current.
  predicate InOrder(s: Store) {
    && |s.versions| == s.doc.version - 1
    && Numbered(s.versions)
  }

  // The content the document had at version v, as the history has it.
  function ContentAt(s: Store, v: int): string
    requires InOrder(s) && 1 <= v <= s.doc.version
  {
    if v < s.doc.version then s.versions[v - 1].content else s.doc.content
  }

  lemma PerformKeepsHistory(s: Store, op: Operation)
    requires InOrder(s)
    ensures
      var t := Perform(s, s.doc, op);
      && InOrder(t) && s.doc.version <= t.doc.version && s.versions <= t.versions
      && (forall v | 1 <= v <= s.doc.version :: ContentAt(t, v) == ContentAt(s, v))
  {
  }

  lemma {:induction false} RunsStayInOrder(s: Store, ops: seq<Operation>)
    requires New(s)
    ensures InOrder(PerformAll(s, ops)) && PerformAll(s, ops).doc.version >= 1
  {
    if ops != [] {
      RunsStayInOrder(s, ops[..|ops| - 1]);
      PerformKeepsHistory(PerformAll(s, ops[..|ops| - 1]), ops[|ops| - 1]);
    }
  }

  // After any sequential run the snapshots are numbered 1 to version - 1, each once, and the one
  // numbered v holds the content the document had whenever it was at version v.
  lemma {:induction false} HistoryIsFaithful(s: Store, ops: seq<Operation>, n: nat)
    requires New(s) && n <= |ops|
    ensures
      var earlier, last := PerformAll(s, ops[..n]), PerformAll(s, ops);
      && InOrder(last) && 1 <= earlier.doc.version <= last.doc.version
      && ContentAt(last, earlier.doc.version) == earlier.doc.content
    decreases |ops|
  {
    if n == |ops| {
      assert ops[..n] == ops;
      RunsStayInOrder(s, ops);
    } else {
      var k := |ops| - 1;
      assert ops[..k][..n] == ops[..n];
      HistoryIsFaithful(s, ops[..k], n);
      PerformKeepsHistory(PerformAll(s, ops[..k]), ops[k]);
    }
  }

  // What the last operation that said something about the content, the title or the status said.
  function LastContent(ops: seq<Operation>, first: string): string {
    if ops == [] then first
    else
      match ops[|ops| - 1]
      case Adjusting(next, _) => next
      case Editing(e) => if e.content.Some? then e.content.value else LastContent(ops[..|ops| - 1], first)
  }

  function LastTitle(ops: seq<Operation>, first: string): string {
    if ops == [] then first
    else
      match ops[|ops| - 1]
      case Editing(Edit(_, Some(title), _)) => title
      case _ => LastTitle(ops[..|ops| - 1], first)
  }

  function LastStatus(ops: seq<Operation>, first: DocStatus): DocStatus {
    if ops == [] then first
    else
      match ops[|ops| - 1]
      case Editing(Edit(_, _, Some(status))) => status
      case _ => LastStatus(ops[..|ops| - 1], first)
  }

  // After any sequential run the document is what the last operations that said something made it.
  lemma {:induction false} LastWordStands(s: Store, ops: seq<Operation>)
    ensures
      var doc := PerformAll(s, ops).doc;
      && doc.content == LastContent(ops, s.doc.content)
      && doc.title == LastTitle(ops, s.doc.title)
      && doc.status == LastStatus(ops, s.doc.status)
  {
    if ops != [] {
      LastWordStands(s, ops[..|ops| - 1]);
    }
  }

  // One write, from whatever was read: the document holds what it says, and a new snapshot, if it says
  // something new, is of the document as read, with its label.
  lemma WritesAreStored(s: Store, read: Document, op: Operation)
    ensures
      var t := Perform(s, read, op);
      match op
      case Adjusting(next, note) =>
        && t.doc == s.doc.(content := next, version := s.doc.version + 1)
        && t.versions == s.versions + [Snapshot(read.version, read.title, read.content, Some(note))]
      case Editing(e) =>
        && t.doc.title == e.title.GetOr(s.doc.title) && t.doc.status == e.status.GetOr(s.doc.status)
        && if e.content.Some? && e.content.value != read.content then
             && t.doc.content == e.content.value && t.doc.version == s.doc.version + 1
             && t.versions == s.versions + [Snapshot(read.version, read.title, read.content, None)]
           else t.doc.content == s.doc.content && t.doc.version == s.doc.version && t.versions == s.versions
  {
  }

  // Earlier snapshots are never touched.
  lemma {:induction false} HistoryOnlyGrows(s: Store, ops: seq<Operation>, n: nat)
    requires n <= |ops|
    ensures PerformAll(s, ops[..n]).versions <= PerformAll(s, ops).versions
    decreases |ops|
  {
    if n == |ops| {
      assert ops[..n] == ops;
    } else {
      assert ops[..|ops| - 1][..n] == ops[..n];
      HistoryOnlyGrows(s, ops[..|ops| - 1], n);
    }
  }

  // ---------- overlapping operations ----------

  datatype State = State(store: Store, held: map<nat, Document>)

  // A request reads the document; some other time it writes, and is done.
  datatype Action = Read(r: nat) | Write(r: nat, op: Operation)

  function Step(s: State, a: Action): State {
    match a
    case Read(r) => s.(held := s.held[r := s.store.doc])
    case Write(r, op) => if r in s.held then State(Perform(s.store, s.held[r], op), s.held - {r}) else s
  }

  function Exec(s: State, tr: seq<Action>): State {
    if tr == [] then s else Step(Exec(s, tr[..|tr| - 1]), tr[|tr| - 1])
  }

  predicate Versioned(s: State, a: Action) {
    a.Write? && a.r in s.held && (a.op.Adjusting? || ChangesContent(s.held[a.r], a.op.edit))
  }

  // A versioned write whose starting point is no longer the current version.
  predicate Stale(s: State, a: Action) { Versioned(s, a) && s.held[a.r].version != s.store.doc.version }

  predicate NoStaleWrite(s: State, tr: seq<Action>) {
    tr == [] || (NoStaleWrite(s, tr[..|tr| - 1]) && !Stale(Exec(s, tr[..|tr| - 1]), tr[|tr| - 1]))
  }

  ghost predicate Inv(s: State) {
    && |s.store.versions| == s.store.doc.version - 1
    && (forall k | 0 <= k < |s.store.versions| :: 1 <= s.store.versions[k].version <= k + 1)
    && (forall r | r in s.held :: 1 <= s.held[r].version <= s.store.doc.version)
    && (forall r | r in s.held && s.held[r].version == s.store.doc.version :: s.held[r].content == s.store.doc.content)
  }

  // However stale the reads, there is one snapshot per version step, and all are of earlier versions.
  lemma {:induction false} OverlapKeepsTheCount(s: Store, tr: seq<Action>)
    requires New(s)
    ensures Inv(Exec(State(s, map[]), tr))
  {
    if tr != [] {
      OverlapKeepsTheCount(s, tr[..|tr| - 1]);
    }
  }

  predicate EachVersionOnce(versions: seq<Snapshot>) {
    forall i, j | 0 <= i < j < |versions| :: versions[i].version != versions[j].version
  }

  // Numbers that never exceed their place are all different only if each is its place.
  lemma {:induction false} OnceMeansNumbered(versions: seq<Snapshot>)
    requires forall k | 0 <= k < |versions| :: 1 <= versions[k].version <= k + 1
    ensures EachVersionOnce(versions) <==> Numbered(versions)
  {
    if versions != [] && EachVersionOnce(versions) {
      var n := |versions| - 1;
      OnceMeansNumbered(versions[..n]);
      assert forall k | 0 <= k < n :: versions[..n][k].version == k + 1;
      if n > 0 {
        var rival := if versions[n].version <= n then versions[n].version - 1 else 0;
        assert versions[rival].version == rival + 1;
      }
    }
  }

  lemma NumberedStep(s: State, a: Action)
    requires Inv(s)
    ensures Numbered(Step(s, a).store.versions) <==> Numbered(s.store.versions) && !Stale(s, a)
  {
    var before, after := s.store.versions, Step(s, a).store.versions;
    assert forall k | 0 <= k < |before| :: after[k] == before[k];
    if Versioned(s, a) {
      assert after[|before|].version == s.held[a.r].version && |before| + 1 == s.store.doc.version;
    }
  }

  lemma {:induction false} NumberedIffNoneStale(s: Store, tr: seq<Action>)
    requires New(s)
    ensures Numbered(Exec(State(s, map[]), tr).store.versions) <==> NoStaleWrite(State(s, map[]), tr)
  {
    if tr != [] {
      var n := |tr| - 1;
      NumberedIffNoneStale(s, tr[..n]);
      OverlapKeepsTheCount(s, tr[..n]);
      NumberedStep(Exec(State(s, map[]), tr[..n]), tr[n]);
    }
  }

  // Under overlap a version is snapshotted twice exactly when some write started from a stale read.
  lemma VersionsUniqueIffNoneStale(s: Store, tr: seq<Action>)
    requires New(s)
    ensures EachVersionOnce(Exec(State(s, map[]), tr).store.versions) <==> NoStaleWrite(State(s, map[]), tr)
  {
    OverlapKeepsTheCount(s, tr);
    OnceMeansNumbered(Exec(State(s, map[]), tr).store.versions);
    NumberedIffNoneStale(s, tr);
  }

  // And it does happen: two requests that both read version 1.
  lemma StaleWriteDuplicates(s: Store) returns (tr: seq<Action>)
    requires New(s)
    ensures !EachVersionOnce(Exec(State(s, map[]), tr).store.versions)
  {
    tr := [Read(0), Read(1), Write(0, Adjusting("a", "tone-adjust")), Write(1, Adjusting("b", "tone-adjust"))];
    var s0 := State(s, map[]);
    var s2 := Step(Step(s0, tr[0]), tr[1]);
    ExecTwo(s0, tr[..2]);
    assert tr[..3][..2] == tr[..2] && tr[..3] == tr[..2] + [tr[2]];
    assert Exec(s0, tr[..3]) == Step(s2, tr[2]);
    var versions := Exec(s0, tr).store.versions;
    assert versions[0].version == 1 && versions[1].version == 1;
  }

  lemma ExecTwo(s: State, tr: seq<Action>)
    requires |tr| == 2
    ensures Exec(s, tr) == Step(Step(s, tr[0]), tr[1])
  {
    assert tr[..1][..0] == [];
    assert Exec(s, tr[..1]) == Step(s, tr[0]);
  }

  // ---------- the service ----------

  // How far an adjustment gets, apart from the price conversion: it fails before its log is
  // committed, its un-awaited write is rejected after that, or it completes.
  datatype Progress = FailsBeforeLog | FailsAfterLog | Completes

  datatype ServiceError = AdjustmentFailed

  function GivenBack(used: Quota.Counters, reservation: Option<Quota.Bucket>, works: bool): Quota.Counters {
    if reservation.Some? && works then Quota.Release(used, reservation.value) else used
  }

  /** One document with its history, the generation logs, and the counters its requests are charged to. */
  class DocumentsService {
    var doc: Document
    var versions: seq<Snapshot>
    var logs: nat
    const quota: Quota.QuotaTable

    constructor (title: string, content: string, quota: Quota.QuotaTable)
      ensures this.quota == quota && Value() == Store(Document(title, content, 1, Ready), []) && logs == 0
    {
      this.quota := quota;
      doc, versions, logs := Document(title, content, 1, Ready), [], 0;
    }

    ghost function Value(): Store
      reads this
    {
      Store(doc, versions)
    }

    method Update(e: Edit)
      modifies this
      ensures Value() == Save(old(Value()), old(doc), e) && logs == old(logs)
      ensures doc.content == e.content.GetOr(old(doc).content)
      ensures doc.title == e.title.GetOr(old(doc).title) && doc.status == e.status.GetOr(old(doc).status)
      ensures if doc.content != old(doc).content then
                && doc.version == old(doc).version + 1
                && versions == old(versions) + [Snapshot(old(doc).version, old(doc).title, old(doc).content, None)]
              else doc.version == old(doc).version && versions == old(versions)
    {
      if !ChangesContent(doc, e) {
        doc := doc.(title := e.title.GetOr(doc.title), status := e.status.GetOr(doc.status));
        return;
      }
      versions := versions + [Snapshot(doc.version, doc.title, doc.content, None)];
      doc := Document(e.title.GetOr(doc.title), e.content.value, doc.version + 1, e.status.GetOr(doc.status));
    }

    method ApplyAdjustment(read: Document, next: string, note: string)
      modifies this
      ensures Value() == WriteVersion(old(Value()), read, next, Some(note)) && logs == old(logs)
      ensures doc.content == next && doc.version == old(doc).version + 1
      ensures doc.title == old(doc).title && doc.status == old(doc).status
      ensures versions == old(versions) + [Snapshot(read.version, read.title, read.content, Some(note))]
    {
      versions := versions + [Snapshot(read.version, read.title, read.content, Some(note))];
      doc := doc.(content := next, version := doc.version + 1);
    }

    // The slot goes back only when nothing was logged: the rejection of the write that is returned
    // without being awaited reaches the caller, not the catch block.
    method AdjustTone(next: string, p: Progress, reservation: Option<Quota.Bucket>, releaseWorks: bool)
      returns (r: Result<Document, ServiceError>)
      requires quota as object != this
      modifies this, quota
      ensures
        match p
        case FailsBeforeLog =>
          && r == Err(AdjustmentFailed) && Value() == old(Value()) && logs == old(logs)
          && quota.used == GivenBack(old(quota.used), reservation, releaseWorks)
        case FailsAfterLog =>
          && r == Err(AdjustmentFailed) && Value() == old(Value()) && logs == old(logs) + 1
          && quota.used == old(quota.used)
        case Completes =>
          && r == Ok(doc) && logs == old(logs) + 1 && quota.used == old(quota.used)
          && Value() == WriteVersion(old(Value()), old(doc), next, Some("tone-adjust"))
          && doc == old(doc).(content := next, version := old(doc).version + 1)
    {
      var read := doc;
      if p.FailsBeforeLog? {
        quota.ReleaseQuota(reservation, releaseWorks);
        return Err(AdjustmentFailed);
      }
      logs := logs + 1;
      if p.FailsAfterLog? {
        return Err(AdjustmentFailed);
      }
      ApplyAdjustment(read, next, "tone-adjust");
      return Ok(doc);
    }

    // suggested is the model's answer, number its conversion where that does not throw, patch the
    // content with the price put in. An answer that cannot be converted fails in the try block, after
    // the log: the slot goes back all the same.
    method AdjustPricing(suggested: Json, number: Json -> Option<real>, lo: int, hi: int, patch: (string,
            int) -> string,
                         p: Progress, reservation: Option<Quota.Bucket>, releaseWorks: bool)
      returns (r: Result<Document, ServiceError>)
      requires quota as object != this
      modifies this, quota
      ensures p.FailsBeforeLog? ==>
                && r == Err(AdjustmentFailed) && Value() == old(Value()) && logs == old(logs)
                && quota.used == GivenBack(old(quota.used), reservation, releaseWorks)
      ensures !p.FailsBeforeLog? && NumberThrows(suggested) ==>
                && r == Err(AdjustmentFailed) && Value() == old(Value()) && logs == old(logs) + 1
                && quota.used == GivenBack(old(quota.used), reservation, releaseWorks)
      ensures p.FailsAfterLog? && !NumberThrows(suggested) ==>
                && r == Err(AdjustmentFailed) && Value() == old(Value()) && logs == old(logs) + 1
                && quota.used == old(quota.used)
      ensures p.Completes? && !NumberThrows(suggested) ==>
                && r == Ok(doc) && logs == old(logs) + 1 && quota.used == old(quota.used)
                && Value() == WriteVersion(old(Value()), old(doc),
                                           patch(old(doc).content, SuggestedPrice(number(suggested), lo, hi)),
                                           Some("pricing-adjust"))
                && doc.content == patch(old(doc).content, SuggestedPrice(number(suggested), lo, hi))
                && doc == old(doc).(content := doc.content, version := old(doc).version + 1)
    {
      var read := doc;
      if p.FailsBeforeLog? {
        quota.ReleaseQuota(reservation, releaseWorks);
        return Err(AdjustmentFailed);
      }
      logs := logs + 1;
      if NumberThrows(suggested) {
        quota.ReleaseQuota(reservation, releaseWorks);
        return Err(AdjustmentFailed);
      }
      var price := SuggestedPrice(number(suggested), lo, hi);
      if p.FailsAfterLog? {
        return Err(AdjustmentFailed);
      }
      ApplyAdjustment(read, patch(read.content, price), "pricing-adjust");
      return Ok(doc);
    }
  }
}
