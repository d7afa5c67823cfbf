/**
 Sequences of client calls and what they guarantee together: the
 transaction discipline (stale handles stay invalid, End discards a whole
 write unit, Commit publishes it at once), the watch protocol (a watch's
 stream only grows, and always replays to the committed table), label
 mirroring, and the counterexamples behind the commit/rollback finding.
 */
module Traces {
  import opened Common
  import opened Models
  import opened Tables
  import opened Labels
  import Journals
  import opened Store
  import opened Invariants

  /** One client call together with the backend's answers to it. */
  datatype Op =
    | BeginOp(fault: Option<string>)
    | InsertOp(m: Model, f: Fault)
    | UpdateOp(m: Model, f: Fault)
    | DeleteOp(m: Model, f: Fault)
    | CommitOp(t: Tx, fault: Option<string>)
    | EndOp(t: Tx, fault: Option<string>)
    | GetForUpdateOp(m: Model, beginFault: Option<string>, getFault: Option<string>)
    | WatchOp(kind: string, fault: Option<string>)

  function Step(c: Client, op: Op): Client {
    match op
    case BeginOp(fault) => Begin(c, fault).0
    case InsertOp(m, f) => Insert(c, m, f).0
    case UpdateOp(m, f) => Update(c, m, f).0
    case DeleteOp(m, f) => Delete(c, m, f).0
    case CommitOp(t, fault) => Commit(c, t, fault).0
    case EndOp(t, fault) => End(c, t, fault).0
    case GetForUpdateOp(m, bf, gf) => GetForUpdate(c, m, bf, gf).0
    case WatchOp(kind, fault) => Watch(c, kind, fault).0
  }

  function Run(c: Client, ops: seq<Op>): Client
    decreases |ops|
  {
    if |ops| == 0 then c else Run(Step(c, ops[0]), ops[1..])
  }

  /** Label synchronisation does not fail part-way in this call. */
  predicate LabelSafe(op: Op) {
    !((op.InsertOp? || op.UpdateOp? || op.DeleteOp?) && op.f.LabelFault?)
  }

  predicate IsMutation(op: Op) {
    op.InsertOp? || op.UpdateOp? || op.DeleteOp?
  }

  lemma StepSound(c: Client, op: Op)
    requires Sound(c) && LabelSafe(op)
    ensures Sound(Step(c, op))
  {
    match op
    case BeginOp(fault) => BeginSound(c, fault);
    case InsertOp(m, f) => InsertSound(c, m, f);
    case UpdateOp(m, f) => UpdateSound(c, m, f);
    case DeleteOp(m, f) => DeleteSound(c, m, f);
    case CommitOp(t, fault) => CommitSound(c, t, fault);
    case EndOp(t, fault) => EndSound(c, t, fault);
    case GetForUpdateOp(m, bf, gf) => GetForUpdateSound(c, m, bf, gf);
    case WatchOp(kind, fault) => WatchSound(c, kind, fault);
  }

  /** Any run without part-way label failures keeps the client sound. */
  lemma {:induction false} RunSound(c: Client, ops: seq<Op>)
    requires Sound(c)
    requires forall j :: 0 <= j < |ops| ==> LabelSafe(ops[j])
    ensures Sound(Run(c, ops))
    decreases |ops|
  {
    if |ops| > 0 {
      StepSound(c, ops[0]);
      RunSound(Step(c, ops[0]), ops[1..]);
    }
  }

  /** Every call only appends to the dispatched stream and to the list of watches. */
  lemma StepAppends(c: Client, op: Op)
    ensures |c.watches| <= |Step(c, op).watches|
    ensures Step(c, op).watches[..|c.watches|] == c.watches
    ensures |c.journal.dispatched| <= |Step(c, op).journal.dispatched|
    ensures Step(c, op).journal.dispatched[..|c.journal.dispatched|] == c.journal.dispatched
    ensures c.nextRef <= Step(c, op).nextRef
  {
    var r := Step(c, op);
    match op
    case GetForUpdateOp(m, bf, gf) =>
      var began := Begin(c, bf).0;
      assert began.journal == c.journal;
    case _ =>
  }

  lemma {:induction false} RunAppends(c: Client, ops: seq<Op>)
    ensures |c.watches| <= |Run(c, ops).watches|
    ensures Run(c, ops).watches[..|c.watches|] == c.watches
    ensures |c.journal.dispatched| <= |Run(c, ops).journal.dispatched|
    ensures Run(c, ops).journal.dispatched[..|c.journal.dispatched|] == c.journal.dispatched
    decreases |ops|
  {
    if |ops| > 0 {
      var c1 := Step(c, ops[0]);
      StepAppends(c, ops[0]);
      RunAppends(c1, ops[1..]);
      var r := Run(c1, ops[1..]);
      assert r.watches[..|c.watches|] == r.watches[..|c1.watches|][..|c.watches|];
      assert r.journal.dispatched[..|c.journal.dispatched|]
          == r.journal.dispatched[..|c1.journal.dispatched|][..|c.journal.dispatched|];
    }
  }

  /**
   What a watch has been handed never changes retroactively: after any run
   its stream is the old stream followed by the newly dispatched events of
   its kind, in dispatch order. In particular the snapshot always comes
   first.
   */
  lemma WatchStreamOnlyGrows(c: Client, ops: seq<Op>, i: nat)
    requires i < |c.watches| && c.watches[i].from <= |c.journal.dispatched|
    ensures i < |Run(c, ops).watches|
    ensures |c.journal.dispatched| <= |Run(c, ops).journal.dispatched|
    ensures var r := Run(c, ops);
      Delivered(r, i) == Delivered(c, i)
        + Journals.Matching(r.journal.dispatched[|c.journal.dispatched|..], c.watches[i].kind)
  {
    RunAppends(c, ops);
    var r := Run(c, ops);
    var w := c.watches[i];
    assert r.watches[i] == r.watches[..|c.watches|][i];
    var before := c.journal.dispatched;
    var added := r.journal.dispatched[|before|..];
    assert r.journal.dispatched == before + added;
    TailSplit(w.replay, before, w.from, added, w.kind);
  }

  /**
   After any run without part-way label failures, replaying everything a
   watch was handed gives exactly the committed rows of its kind.
   */
  lemma WatchMirrorsTable(c: Client, ops: seq<Op>, i: nat)
    requires Sound(c) && i < |c.watches|
    requires forall j :: 0 <= j < |ops| ==> LabelSafe(ops[j])
    ensures i < |Run(c, ops).watches|
    ensures Journals.Fold(map[], Delivered(Run(c, ops), i))
         == OfKind(Run(c, ops).committed.rows, c.watches[i].kind)
  {
    RunSound(c, ops);
    RunAppends(c, ops);
    var r := Run(c, ops);
    assert r.watches[i] == r.watches[..|c.watches|][i];
    assert InSync(r, i);
  }

  /**
   The whole stream a watch is handed, however many calls follow its start:
   the snapshot of the committed rows of its kind in List order, then
   exactly the events of its kind dispatched since, each once, in dispatch
   order.
   */
  lemma WatchStreamExact(c: Client, kind: string, ops: seq<Op>)
    ensures var (w, res) := Watch(c, kind, None);
      var r := Run(w, ops);
      && res.Ok?
      && res.value < |r.watches|
      && |c.journal.dispatched| <= |r.journal.dispatched|
      && Delivered(r, res.value)
         == Journals.Replay(List(c.committed, kind))
          + Journals.Matching(r.journal.dispatched[|c.journal.dispatched|..], kind)
  {
    var (w, res) := Watch(c, kind, None);
    assert w.watches[res.value].from == |c.journal.dispatched|;
    WatchStreamOnlyGrows(w, ops, res.value);
  }

  /**
   The snapshot a new watch replays: one Created per committed row of its
   kind, each row exactly once, nothing else.
   */
  lemma WatchReplaysSnapshot(c: Client, kind: string)
    requires WellFormed(c.committed)
    ensures var (r, res) := Watch(c, kind, None);
      && res.Ok?
      && (forall k :: k in c.committed.rows && k.kind == kind ==>
            Created(c.committed.rows[k]) in Delivered(r, res.value))
      && (forall e :: e in Delivered(r, res.value) ==>
            && e.Created?
            && e.model.kind == kind
            && KeyOf(e.model) in c.committed.rows
            && c.committed.rows[KeyOf(e.model)] == e.model)
      && (forall p, q :: 0 <= p < q < |Delivered(r, res.value)| ==>
            KeyOf(Delivered(r, res.value)[p].model) != KeyOf(Delivered(r, res.value)[q].model))
  {
    var (r, res) := Watch(c, kind, None);
    var d := c.committed;
    var ks := ListKeys(d.rows, d.order, kind);
    var evs := Delivered(r, res.value);
    assert evs == Journals.Replay(List(d, kind));
    assert forall p :: 0 <= p < |evs| ==> evs[p] == Created(d.rows[ks[p]]);
    forall k | k in d.rows && k.kind == kind ensures Created(d.rows[k]) in evs {
      var p :| 0 <= p < |ks| && ks[p] == k;
      assert evs[p] == Created(d.rows[k]);
    }
    forall e | e in evs
      ensures e.Created? && e.model.kind == kind && KeyOf(e.model) in d.rows && d.rows[KeyOf(e.model)] == e.model
    {
      var p :| 0 <= p < |evs| && evs[p] == e;
      assert ks[p] in ks;
    }
    forall p, q | 0 <= p < q < |evs| ensures KeyOf(evs[p].model) != KeyOf(evs[q].model) {
      assert KeyOf(evs[p].model) == ks[p];
      assert KeyOf(evs[q].model) == ks[q];
    }
  }

  /** A handle that is not the open transaction and is older than the next identity stays invalid. */
  predicate Stale(c: Client, t: Tx) {
    t.ref < c.nextRef && !Active(c, t)
  }

  lemma StepKeepsStale(c: Client, op: Op, t: Tx)
    requires Stale(c, t)
    ensures Stale(Step(c, op), t)
  {
    match op
    case GetForUpdateOp(m, bf, gf) =>
      var (began, res) := Begin(c, bf);
      if res.Ok? {
        assert began.tx.value.ref == c.nextRef;
      }
    case _ =>
  }

  lemma {:induction false} RunKeepsStale(c: Client, ops: seq<Op>, t: Tx)
    requires Stale(c, t)
    ensures Stale(Run(c, ops), t)
    decreases |ops|
  {
    if |ops| > 0 {
      StepKeepsStale(c, ops[0], t);
      RunKeepsStale(Step(c, ops[0]), ops[1..], t);
    }
  }

  /**
   Once a transaction is committed or ended, its handle is refused for
   ever: a second Commit or End on it, after any further calls (new
   transactions included), returns TxInvalid and changes nothing.
   */
  lemma FinishedTxRefused(c: Client, t: Tx, commit: bool, fault: Option<string>,
                          ops: seq<Op>, again: Option<string>)
    requires Sound(c) && Active(c, t)
    ensures var done := if commit then Commit(c, t, fault).0 else End(c, t, fault).0;
      var later := Run(done, ops);
      && Commit(later, t, again) == (later, Fail(TxInvalid))
      && End(later, t, again) == (later, Fail(TxInvalid))
  {
    var done := if commit then Commit(c, t, fault).0 else End(c, t, fault).0;
    assert Stale(done, t);
    RunKeepsStale(done, ops, t);
  }

  /**
   Inside a transaction, Insert, Update and Delete (whatever the backend
   answers) never open, close or switch the transaction, never touch the
   committed tables or the dispatched stream, and only append to the staged
   events.
   */
  lemma {:induction false} TxBodyIsolated(c: Client, ops: seq<Op>)
    requires c.tx.Some?
    requires forall j :: 0 <= j < |ops| ==> IsMutation(ops[j])
    ensures var r := Run(c, ops);
      && SameTx(r, c)
      && r.committed == c.committed
      && r.journal.dispatched == c.journal.dispatched
      && r.watches == c.watches
      && |c.journal.staged| <= |r.journal.staged|
      && r.journal.staged[..|c.journal.staged|] == c.journal.staged
    decreases |ops|
  {
    if |ops| > 0 {
      var c1 := Step(c, ops[0]);
      assert SameTx(c1, c) && c1.committed == c.committed;
      assert |c.journal.staged| <= |c1.journal.staged|;
      assert c1.journal.staged[..|c.journal.staged|] == c.journal.staged;
      TxBodyIsolated(c1, ops[1..]);
      var r := Run(c1, ops[1..]);
      assert r.journal.staged[..|c.journal.staged|]
          == r.journal.staged[..|c1.journal.staged|][..|c.journal.staged|];
    }
  }

  /**
   End discards a whole write unit: after Begin-ed mutations and End, the
   committed tables and the dispatched stream are exactly as before, so no
   watch sees any of its events.
   */
  lemma EndDiscardsWriteUnit(c: Client, t: Tx, ops: seq<Op>, fault: Option<string>)
    requires Active(c, t)
    requires forall j :: 0 <= j < |ops| ==> IsMutation(ops[j])
    ensures var r := End(Run(c, ops), t, fault);
      && r.0.tx.None?
      && r.0.committed == c.committed
      && r.0.journal == Journals.Journal([], c.journal.dispatched)
      && r.0.watches == c.watches
  {
    TxBodyIsolated(c, ops);
  }

  /**
   Commit publishes a whole write unit at once: the events staged by the
   transaction's mutations are dispatched together, in staging order, and
   when nothing failed part-way they replay the committed rows from their
   old value to their new one.
   */
  lemma CommitPublishesWriteUnit(c: Client, t: Tx, ops: seq<Op>)
    requires Sound(c) && Active(c, t)
    requires forall j :: 0 <= j < |ops| ==> IsMutation(ops[j]) && LabelSafe(ops[j])
    ensures var body := Run(c, ops);
      var r := Commit(body, t, None).0;
      && r.tx.None?
      && r.journal.staged == []
      && r.journal.dispatched == c.journal.dispatched + body.journal.staged
      && r.committed.rows == Journals.Fold(c.committed.rows, body.journal.staged)
  {
    TxBodyIsolated(c, ops);
    RunSound(c, ops);
    var body := Run(c, ops);
    assert Active(body, t);
  }

  /** How one dispatched event extends what a watch has been handed. */
  lemma DispatchOne(c: Client, c': Client, e: Event, i: nat)
    requires i < |c.watches| && c.watches[i].from <= |c.journal.dispatched|
    requires c'.watches == c.watches
    requires c'.journal.dispatched == c.journal.dispatched + [e]
    ensures Delivered(c', i)
         == Delivered(c, i) + (if e.model.kind == c.watches[i].kind then [e] else [])
  {
    var w := c.watches[i];
    TailSplit(w.replay, c.journal.dispatched, w.from, [e], w.kind);
    assert [e][..0] == [];
  }

  /**
   Autocommit: with no transaction open, a successful Insert, Update or
   Delete has its event handed to every existing watch of the model's kind
   before the call returns.
   */
  lemma AutocommitIsImmediate(c: Client, m: Model, i: nat)
    requires c.tx.None? && c.journal.staged == []
    requires i < |c.watches| && c.watches[i].from <= |c.journal.dispatched|
    requires c.watches[i].kind == m.kind
    ensures var (r, out) := Insert(c, m, NoFault);
      out.Pass? ==> Delivered(r, i) == Delivered(c, i) + [Created(m)]
    ensures var (r, out) := Update(c, m, NoFault);
      out.Pass? ==> Delivered(r, i) == Delivered(c, i) + [Updated(c.committed.rows[KeyOf(m)], m)]
    ensures Delivered(Delete(c, m, NoFault).0, i) == Delivered(c, i) + [Deleted(m)]
  {
    AutocommitInsert(c, m, i);
    AutocommitUpdate(c, m, i);
    AutocommitDelete(c, m, i);
  }

  lemma AutocommitInsert(c: Client, m: Model, i: nat)
    requires c.tx.None? && c.journal.staged == []
    requires i < |c.watches| && c.watches[i].from <= |c.journal.dispatched|
    requires c.watches[i].kind == m.kind
    ensures var (r, out) := Insert(c, m, NoFault);
      out.Pass? ==> Delivered(r, i) == Delivered(c, i) + [Created(m)]
  {
    var (r, out) := Insert(c, m, NoFault);
    if out.Pass? {
      assert r.journal.dispatched == c.journal.dispatched + [Created(m)];
      DispatchOne(c, r, Created(m), i);
    }
  }

  lemma AutocommitUpdate(c: Client, m: Model, i: nat)
    requires c.tx.None? && c.journal.staged == []
    requires i < |c.watches| && c.watches[i].from <= |c.journal.dispatched|
    requires c.watches[i].kind == m.kind
    ensures var (r, out) := Update(c, m, NoFault);
      out.Pass? ==> Delivered(r, i) == Delivered(c, i) + [Updated(c.committed.rows[KeyOf(m)], m)]
  {
    var (r, out) := Update(c, m, NoFault);
    if out.Pass? {
      var e := Updated(c.committed.rows[KeyOf(m)], m);
      assert r.journal.dispatched == c.journal.dispatched + [e];
      DispatchOne(c, r, e, i);
    }
  }

  lemma AutocommitDelete(c: Client, m: Model, i: nat)
    requires c.tx.None? && c.journal.staged == []
    requires i < |c.watches| && c.watches[i].from <= |c.journal.dispatched|
    requires c.watches[i].kind == m.kind
    ensures Delivered(Delete(c, m, NoFault).0, i) == Delivered(c, i) + [Deleted(m)]
  {
    var r := Delete(c, m, NoFault).0;
    assert r.journal.dispatched == c.journal.dispatched + [Deleted(m)];
    DispatchOne(c, r, Deleted(m), i);
  }

  /**
   After a successful Insert into a sound client, the model's label rows
   are exactly its label mapping, one row per pair (Update and Delete state
   their exact label sets in their own contracts).
   */
  lemma InsertMirrorsLabels(c: Client, m: Model)
    requires Sound(c)
    ensures var (r, out) := Insert(c, m, NoFault);
      out.Pass? ==> Owned(Current(r).labels, m.kind, m.pk) == LabelSet(m)
  {
    var d := Current(c);
    if KeyOf(m) !in d.rows {
      InsertMirrored(d, m);
    }
  }

  /**
   Insert and Delete are inverse on the committed tables: inserting a new
   model with no transaction open and deleting it again restores rows, List
   order and labels, and watches have seen Created then Deleted.
   */
  lemma InsertThenDeleteRestores(c: Client, m: Model)
    requires Sound(c) && c.tx.None?
    ensures var (c1, out) := Insert(c, m, NoFault);
      out.Pass? ==>
        var c2 := Delete(c1, m, NoFault).0;
        && c2.committed == c.committed
        && c2.journal.dispatched == c.journal.dispatched + [Created(m), Deleted(m)]
  {
    assert WellFormed(c.committed) && Mirrored(c.committed) && c.journal.staged == [];
    InsertDeleteAutocommit(c, m);
  }

  /** InsertThenDeleteRestores, from the parts of Sound it needs. */
  lemma InsertDeleteAutocommit(c: Client, m: Model)
    requires WellFormed(c.committed) && Mirrored(c.committed)
    requires c.tx.None? && c.journal.staged == []
    ensures var (c1, out) := Insert(c, m, NoFault);
      out.Pass? ==>
        var c2 := Delete(c1, m, NoFault).0;
        && c2.committed == c.committed
        && c2.journal.dispatched == c.journal.dispatched + [Created(m), Deleted(m)]
  {
    InsertDeleteTables(c, m);
    InsertDeleteEvents(c, m);
  }

  lemma InsertDeleteTables(c: Client, m: Model)
    requires WellFormed(c.committed) && Mirrored(c.committed) && c.tx.None?
    ensures var (c1, out) := Insert(c, m, NoFault);
      out.Pass? ==> Delete(c1, m, NoFault).0.committed == c.committed
  {
    var (c1, out) := Insert(c, m, NoFault);
    if out.Pass? {
      InsertWrites(c, m);
      DeleteWrites(c1, m);
      DeleteUndoesInsert(c.committed, m);
    }
  }

  lemma InsertDeleteEvents(c: Client, m: Model)
    requires c.tx.None? && c.journal.staged == []
    ensures var (c1, out) := Insert(c, m, NoFault);
      out.Pass? ==>
        Delete(c1, m, NoFault).0.journal.dispatched == c.journal.dispatched + [Created(m), Deleted(m)]
  {
    var (c1, out) := Insert(c, m, NoFault);
    if out.Pass? {
      assert c1.journal.dispatched == c.journal.dispatched + [Created(m)] && c1.journal.staged == [];
    }
  }

  /** With no transaction open, a successful Insert writes the row and its labels to the committed tables. */
  lemma InsertWrites(c: Client, m: Model)
    requires c.tx.None?
    ensures var (r, out) := Insert(c, m, NoFault);
      out.Pass? ==> r.committed == AddRow(c.committed, m).(labels := InsertLabels(c.committed.labels, m))
  {
  }

  /** With no transaction open, Delete removes the row and its labels from the committed tables. */
  lemma DeleteWrites(c: Client, m: Model)
    requires c.tx.None?
    ensures Delete(c, m, NoFault).0.committed
         == RemoveRow(c.committed, KeyOf(m)).(labels := DeleteLabels(c.committed.labels, m))
  {
  }

  /** Deleting a row just inserted under a free key, with its labels, gives the tables back. */
  lemma DeleteUndoesInsert(d: Db, m: Model)
    requires WellFormed(d) && Mirrored(d) && KeyOf(m) !in d.rows
    ensures var inserted := AddRow(d, m).(labels := InsertLabels(d.labels, m));
      RemoveRow(inserted, KeyOf(m)).(labels := DeleteLabels(inserted.labels, m)) == d
  {
    var k := KeyOf(m);
    var inserted := AddRow(d, m).(labels := InsertLabels(d.labels, m));
    var back := RemoveRow(inserted, k).(labels := DeleteLabels(inserted.labels, m));
    RemoveAppendedRow(d, m);
    assert back.rows == d.rows && back.order == d.order;
    FreeKeyOwnsNothing(d, m);
    DeleteUndoesInsertLabels(d.labels, m);
  }

  /** Removing the row just appended under a free key gives rows and List order back. */
  lemma RemoveAppendedRow(d: Db, m: Model)
    requires KeyOf(m) !in d.rows && KeyOf(m) !in d.order
    ensures var back := RemoveRow(AddRow(d, m), KeyOf(m));
      back.rows == d.rows && back.order == d.order
  {
    var k := KeyOf(m);
    assert d.rows[k := m] - {k} == d.rows;
    WithoutAppended(d.order, k);
  }

  /**
   Update is undone by updating back to the row it replaced: with no
   transaction open, rows, List order and labels are restored, and watches
   have seen both Updated events.
   */
  lemma UpdateThenRestore(c: Client, m: Model)
    requires Sound(c) && c.tx.None? && KeyOf(m) in c.committed.rows
    ensures var prior := c.committed.rows[KeyOf(m)];
      var c1 := Update(c, m, NoFault).0;
      var (c2, out) := Update(c1, prior, NoFault);
      && out.Pass?
      && c2.committed == c.committed
      && c2.journal.dispatched == c.journal.dispatched + [Updated(prior, m), Updated(m, prior)]
  {
    var d := c.committed;
    var k := KeyOf(m);
    var prior := d.rows[k];
    assert KeyOf(prior) == k;
    UpdateSound(c, m, NoFault);
    var c1 := Update(c, m, NoFault).0;
    var c2 := Update(c1, prior, NoFault).0;
    assert c2.committed.rows == d.rows;
    assert c2.committed.labels == d.labels by {
      assert Owned(d.labels, m.kind, m.pk) == LabelSet(prior) by {
        forall l | l in d.labels && OwnedBy(l, m.kind, m.pk) ensures l in LabelSet(prior) {
          assert Key(l.kind, l.parent) == k;
        }
      }
      var l1 := c1.committed.labels;
      forall l ensures l in c2.committed.labels <==> l in d.labels {
        if OwnedBy(l, m.kind, m.pk) {
          assert l in c2.committed.labels <==> l in LabelSet(prior);
        } else {
          assert l in c2.committed.labels <==> l in l1;
        }
      }
    }
  }

  /**
   GetForUpdate followed by End of the handle it returned leaves the client
   as it was, apart from the identity the next transaction will get.
   */
  lemma GetForUpdateThenEnd(c: Client, m: Model, fault: Option<string>)
    requires Sound(c)
    ensures var (c1, res) := GetForUpdate(c, m, None, None);
      res.Ok? ==>
        && res.value.1 == c.committed.rows[KeyOf(m)]
        && End(c1, res.value.0, fault).0 == c.(nextRef := c1.nextRef)
  {
  }

  /**
   A label row left behind by a Delete whose deleteLabels failed outlives a
   later successful Insert under the same key: insertLabels only adds rows,
   so the new model's label rows are not exactly its label mapping.
   */
  lemma StaleLabelsSurviveInsert()
    ensures var tagged := Model("vm", "a", map[], map["env" := "prod"]);
      var bare := Model("vm", "a", map[], map[]);
      var c1 := Insert(Opened(Db(map[], [], {})), tagged, NoFault).0;
      var (c2, deleted) := Delete(c1, tagged, LabelFault("io", {}, {}));
      var (c3, inserted) := Insert(c2, bare, NoFault);
      && deleted.Fail?
      && inserted.Pass?
      && LabelSet(bare) == {}
      && Label("a", "vm", "env", "prod") in Owned(c3.committed.labels, "vm", "a")
  {
    var tagged := Model("vm", "a", map[], map["env" := "prod"]);
    var bare := Model("vm", "a", map[], map[]);
    var stale := Label("a", "vm", "env", "prod");
    assert LabelOf(tagged, "env") == stale;
    var c1 := Insert(Opened(Db(map[], [], {})), tagged, NoFault).0;
    assert stale in c1.committed.labels;
    var c2 := Delete(c1, tagged, LabelFault("io", {}, {})).0;
    assert stale in c2.committed.labels;
  }
}
