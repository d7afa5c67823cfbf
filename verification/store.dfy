/**
 The client as a sequential state machine. Every public call is a pure
 transition from a client state to a new state and the call's result. The
 two locks of the client are not modelled: the write lease is simply "a
 transaction is open" (`tx` is Some), and each call runs to completion
 before the next starts.

 Backend failures are inputs: each call takes the answers the storage
 engine gives it (a Fault for mutations, an optional error for Begin,
 commit, rollback, Get and List).
 */
module Store {
  import opened Common
  import opened Models
  import opened Tables
  import opened Labels
  import Journals

  /** The backend transaction in progress: its identity and its uncommitted view of the tables. */
  datatype Open = Open(ref: nat, view: Db)

  /** The handle Begin returns; it names the backend transaction it was issued for. */
  datatype Tx = Tx(ref: nat)

  /** A started watch: its kind, the snapshot it replayed, and where in the dispatched stream it went live. */
  datatype Watcher = Watcher(kind: string, replay: seq<Event>, from: nat)

  /**
   The client: the open transaction if any, the committed tables (what
   reads through the connection see), the journal, the started watches,
   and the identity the next backend transaction will get.
   */
  datatype Client = Client(
    tx: Option<Open>,
    committed: Db,
    journal: Journals.Journal,
    watches: seq<Watcher>,
    nextRef: nat)

  /**
   How the backend answers one Insert, Update or Delete: it succeeds, the
   mapper's own call on the model fails (nothing is written), or label
   synchronisation fails after the row was written, with only the label
   writes in `removed` and `added` applied.
   */
  datatype Fault =
    | NoFault
    | PrimaryFault(cause: string)
    | LabelFault(cause: string, removed: set<Label>, added: set<Label>)

  /** A client with no transaction, no watches and an empty journal over existing tables. */
  function Opened(d: Db): Client {
    Client(None, d, Journals.Journal([], []), [], 0)
  }

  /** The tables a mutation writes: the open transaction's view, or the committed tables. */
  function Current(c: Client): Db {
    if c.tx.Some? then c.tx.value.view else c.committed
  }

  function WithCurrent(c: Client, d: Db): Client {
    if c.tx.Some? then c.(tx := Some(c.tx.value.(view := d))) else c.(committed := d)
  }

  /**
   A mutation that reached the journal: write `d`, stage `e`, and with no
   transaction open commit the journal at once.
   */
  function Record(c: Client, d: Db, e: Event): Client {
    var staged := WithCurrent(c, d).(journal := Journals.Stage(c.journal, e));
    if c.tx.Some? then staged else staged.(journal := Journals.Commit(staged.journal))
  }

  /** The handle names the transaction in progress, the check commit and end make first. */
  predicate Active(c: Client, t: Tx) {
    c.tx.Some? && c.tx.value.ref == t.ref
  }

  /** Both states have the same transaction open, or neither has one. */
  predicate SameTx(a: Client, b: Client) {
    a.tx.Some? == b.tx.Some? && (a.tx.Some? ==> a.tx.value.ref == b.tx.value.ref)
  }

  /**
   Begin: take the write lease and open a backend transaction. While
   another transaction holds the lease the call deadlocks, since it holds
   the client lock that the open transaction's commit or end needs; here it
   reports Blocked and changes nothing. A backend failure leaves no
   transaction open.
   */
  function Begin(c: Client, fault: Option<string>): (r: (Client, Result<Tx>))
    ensures r.1.Ok? <==> c.tx.None? && fault.None?
    ensures r.1.Err? ==> r.0 == c
    ensures c.tx.Some? ==> r.1 == Err(Blocked)
    ensures r.1.Ok? ==>
      && Active(r.0, r.1.value)
      && r.1.value.ref == c.nextRef < r.0.nextRef
      && Current(r.0) == c.committed
      && r.0.committed == c.committed
      && r.0.journal == c.journal
      && r.0.watches == c.watches
  {
    if c.tx.Some? then (c, Err(Blocked))
    else if fault.Some? then (c, Err(Backend(fault.value)))
    else
      var t := Tx(c.nextRef);
      (c.(tx := Some(Open(t.ref, c.committed)), nextRef := c.nextRef + 1), Ok(t))
  }

  /**
   Insert: write the row, then one label row per pair of its labels, then
   stage Created; with no transaction open the event is dispatched before
   the call returns.
   */
  function Insert(c: Client, m: Model, fault: Fault): (r: (Client, Outcome))
    ensures SameTx(r.0, c) && r.0.watches == c.watches && r.0.nextRef == c.nextRef
    ensures c.tx.Some? ==> r.0.committed == c.committed && r.0.journal.dispatched == c.journal.dispatched
    ensures r.1.Pass? <==> fault.NoFault? && KeyOf(m) !in Current(c).rows
    ensures r.1.Fail? && !fault.LabelFault? ==> r.0 == c
    ensures r.1.Fail? ==> r.0.journal == c.journal
    ensures forall l :: !OwnedBy(l, m.kind, m.pk) ==>
      (l in Current(r.0).labels <==> l in Current(c).labels)
    ensures r.1.Pass? ==>
      && Current(r.0).rows == Current(c).rows[KeyOf(m) := m]
      && Owned(Current(r.0).labels, m.kind, m.pk) == Owned(Current(c).labels, m.kind, m.pk) + LabelSet(m)
    ensures r.1.Pass? && c.tx.None? ==>
      r.0.journal == Journals.Journal([], c.journal.dispatched + c.journal.staged + [Created(m)])
    ensures r.1.Pass? && c.tx.Some? ==>
      r.0.journal == Journals.Stage(c.journal, Created(m)) && r.0.committed == c.committed
  {
    var d := Current(c);
    if fault.PrimaryFault? then (c, Fail(Backend(fault.cause)))
    else if KeyOf(m) in d.rows then (c, Fail(Duplicate))
    else
      var written := AddRow(d, m);
      if fault.LabelFault? then
        var labels := PartialSync(written.labels, {}, LabelSet(m), fault.removed, fault.added);
        (WithCurrent(c, written.(labels := labels)), Fail(Backend(fault.cause)))
      else
        (Record(c, written.(labels := InsertLabels(written.labels, m)), Created(m)), Pass)
  }

  /**
   Update: fetch the stored row (absent: NotFound, nothing written), write
   the new row, replace its labels, and stage Updated(stored, new).
   */
  function Update(c: Client, m: Model, fault: Fault): (r: (Client, Outcome))
    ensures SameTx(r.0, c) && r.0.watches == c.watches && r.0.nextRef == c.nextRef
    ensures c.tx.Some? ==> r.0.committed == c.committed && r.0.journal.dispatched == c.journal.dispatched
    ensures r.1.Pass? <==> fault.NoFault? && KeyOf(m) in Current(c).rows
    ensures KeyOf(m) !in Current(c).rows && !fault.PrimaryFault? ==> r == (c, Fail(NotFound))
    ensures r.1.Fail? && !fault.LabelFault? ==> r.0 == c
    ensures r.1.Fail? ==> r.0.journal == c.journal
    ensures forall l :: !OwnedBy(l, m.kind, m.pk) ==>
      (l in Current(r.0).labels <==> l in Current(c).labels)
    ensures r.1.Pass? ==>
      && Current(r.0).rows == Current(c).rows[KeyOf(m) := m]
      && Owned(Current(r.0).labels, m.kind, m.pk) == LabelSet(m)
    ensures r.1.Pass? && c.tx.None? ==>
      r.0.journal == Journals.Journal([], c.journal.dispatched + c.journal.staged
                                          + [Updated(Current(c).rows[KeyOf(m)], m)])
    ensures r.1.Pass? && c.tx.Some? ==>
      && r.0.journal == Journals.Stage(c.journal, Updated(Current(c).rows[KeyOf(m)], m))
      && r.0.committed == c.committed
  {
    var d := Current(c);
    if fault.PrimaryFault? then (c, Fail(Backend(fault.cause)))
    else if KeyOf(m) !in d.rows then (c, Fail(NotFound))
    else
      var prior := d.rows[KeyOf(m)];
      var written := PutRow(d, m);
      if fault.LabelFault? then
        var stale := Owned(written.labels, m.kind, m.pk);
        var labels := PartialSync(written.labels, stale, LabelSet(m), fault.removed, fault.added);
        (WithCurrent(c, written.(labels := labels)), Fail(Backend(fault.cause)))
      else
        (Record(c, written.(labels := ReplaceLabels(written.labels, m)), Updated(prior, m)), Pass)
  }

  /**
   Delete: delete the row by key, delete every label row of its kind and
   key, and stage Deleted.
   */
  function Delete(c: Client, m: Model, fault: Fault): (r: (Client, Outcome))
    ensures SameTx(r.0, c) && r.0.watches == c.watches && r.0.nextRef == c.nextRef
    ensures c.tx.Some? ==> r.0.committed == c.committed && r.0.journal.dispatched == c.journal.dispatched
    ensures r.1.Pass? <==> fault.NoFault?
    ensures r.1.Fail? && !fault.LabelFault? ==> r.0 == c
    ensures r.1.Fail? ==> r.0.journal == c.journal
    ensures forall l :: !OwnedBy(l, m.kind, m.pk) ==>
      (l in Current(r.0).labels <==> l in Current(c).labels)
    ensures r.1.Pass? ==>
      && Current(r.0).rows == Current(c).rows - {KeyOf(m)}
      && Owned(Current(r.0).labels, m.kind, m.pk) == {}
    ensures r.1.Pass? && c.tx.None? ==>
      r.0.journal == Journals.Journal([], c.journal.dispatched + c.journal.staged + [Deleted(m)])
    ensures r.1.Pass? && c.tx.Some? ==>
      r.0.journal == Journals.Stage(c.journal, Deleted(m)) && r.0.committed == c.committed
  {
    var d := Current(c);
    if fault.PrimaryFault? then (c, Fail(Backend(fault.cause)))
    else
      var written := RemoveRow(d, KeyOf(m));
      if fault.LabelFault? then
        var stale := Owned(written.labels, m.kind, m.pk);
        var labels := PartialSync(written.labels, stale, {}, fault.removed, fault.added);
        (WithCurrent(c, written.(labels := labels)), Fail(Backend(fault.cause)))
      else
        (Record(c, written.(labels := DeleteLabels(written.labels, m)), Deleted(m)), Pass)
  }

  /**
   Tx.Commit: commit the backend transaction and dispatch the staged
   events. A handle that is not the open transaction is refused with
   TxInvalid and nothing changes; otherwise the transaction is over
   whatever the backend answers, and a failed commit dispatches nothing
   and leaves nothing staged.
   */
  function Commit(c: Client, t: Tx, fault: Option<string>): (r: (Client, Outcome))
    ensures !Active(c, t) ==> r == (c, Fail(TxInvalid))
    ensures Active(c, t) ==> r.0.tx.None? && r.0.journal.staged == []
    ensures Active(c, t) && fault.None? ==>
      && r.1 == Pass
      && r.0.committed == c.tx.value.view
      && r.0.journal.dispatched == c.journal.dispatched + c.journal.staged
    ensures Active(c, t) && fault.Some? ==>
      && r.1 == Fail(Backend(fault.value))
      && r.0.committed == c.committed
      && r.0.journal.dispatched == c.journal.dispatched
    ensures r.0.watches == c.watches && r.0.nextRef == c.nextRef
  {
    if !Active(c, t) then (c, Fail(TxInvalid))
    else if fault.Some? then
      (c.(tx := None, journal := Journals.Unstage(c.journal)), Fail(Backend(fault.value)))
    else
      (c.(tx := None, committed := c.tx.value.view, journal := Journals.Commit(c.journal)), Pass)
  }

  /**
   Tx.End: roll the backend transaction back and discard the staged
   events. A handle that is not the open transaction is refused with
   TxInvalid and nothing changes; otherwise the transaction is over and
   its writes and events are gone whatever the backend answers.
   */
  function End(c: Client, t: Tx, fault: Option<string>): (r: (Client, Outcome))
    ensures !Active(c, t) ==> r == (c, Fail(TxInvalid))
    ensures Active(c, t) ==>
      && r.0.tx.None?
      && r.0.committed == c.committed
      && r.0.journal == Journals.Journal([], c.journal.dispatched)
      && r.1 == (if fault.Some? then Fail(Backend(fault.value)) else Pass)
    ensures r.0.watches == c.watches && r.0.nextRef == c.nextRef
  {
    if !Active(c, t) then (c, Fail(TxInvalid))
    else
      var ended := c.(tx := None, journal := Journals.Unstage(c.journal));
      if fault.Some? then (ended, Fail(Backend(fault.value))) else (ended, Pass)
  }

  /**
   Tx.Commit as the source writes it: a failed backend commit clears the
   transaction but leaves its events staged, to be dispatched by whichever
   journal commit comes next.
   */
  function CommitAsWritten(c: Client, t: Tx, fault: Option<string>): (r: (Client, Outcome))
    ensures !Active(c, t) ==> r == (c, Fail(TxInvalid))
    ensures Active(c, t) ==> r.0.tx.None?
    ensures Active(c, t) && fault.Some? ==> r.0.journal == c.journal && r.0.committed == c.committed
    ensures fault.None? || !Active(c, t) ==> r == Commit(c, t, fault)
  {
    if !Active(c, t) then (c, Fail(TxInvalid))
    else if fault.Some? then (c.(tx := None), Fail(Backend(fault.value)))
    else
      (c.(tx := None, committed := c.tx.value.view, journal := Journals.Commit(c.journal)), Pass)
  }

  /**
   Tx.End as the source writes it: a failed rollback clears the
   transaction but leaves its events staged.
   */
  function EndAsWritten(c: Client, t: Tx, fault: Option<string>): (r: (Client, Outcome))
    ensures !Active(c, t) ==> r == (c, Fail(TxInvalid))
    ensures Active(c, t) ==> r.0.tx.None? && r.0.committed == c.committed
    ensures Active(c, t) && fault.Some? ==> r.0.journal == c.journal
    ensures fault.None? || !Active(c, t) ==> r == End(c, t, fault)
  {
    if !Active(c, t) then (c, Fail(TxInvalid))
    else if fault.Some? then (c.(tx := None), Fail(Backend(fault.value)))
    else (c.(tx := None, journal := Journals.Unstage(c.journal)), Pass)
  }

  /**
   GetForUpdate: Begin, then read the row through the connection. When the
   read fails the transaction it began is ended (End's own answer is
   discarded) and no handle is returned.
   */
  function GetForUpdate(c: Client, m: Model, beginFault: Option<string>, getFault: Option<string>)
    : (r: (Client, Result<(Tx, Model)>))
    ensures r.1.Ok? <==>
      c.tx.None? && beginFault.None? && getFault.None? && KeyOf(m) in c.committed.rows
    ensures r.1.Err? ==>
      && r.0.tx == c.tx
      && r.0.committed == c.committed
      && r.0.journal.dispatched == c.journal.dispatched
      && r.0.watches == c.watches
    ensures r.1.Err? && c.tx.None? && beginFault.None? ==>
      r.1.error == (if getFault.Some? then Backend(getFault.value) else NotFound)
    ensures r.1.Ok? ==>
      && Active(r.0, r.1.value.0)
      && r.1.value.1 == c.committed.rows[KeyOf(m)]
      && Current(r.0) == c.committed
      && r.0.committed == c.committed
      && r.0.watches == c.watches
      && r.0.journal == c.journal
  {
    var (began, result) := Begin(c, beginFault);
    if result.Err? then (began, Err(result.error))
    else if getFault.Some? || KeyOf(m) !in began.committed.rows then
      var (ended, _) := End(began, result.value, None);
      (ended, Err(if getFault.Some? then Backend(getFault.value) else NotFound))
    else (began, Ok((result.value, began.committed.rows[KeyOf(m)])))
  }

  /** What watch `i` has been handed so far: its snapshot, then the dispatched events of its kind. */
  function Delivered(c: Client, i: nat): seq<Event>
    requires i < |c.watches|
  {
    var w := c.watches[i];
    var live := if w.from <= |c.journal.dispatched| then c.journal.dispatched[w.from..] else [];
    w.replay + Journals.Matching(live, w.kind)
  }

  /**
   Watch: register a watch on `kind`, replay every committed row of that
   kind as Created in List order, then go live at the current end of the
   dispatched stream. `fault` is a failure of registration or of the List.
   */
  function Watch(c: Client, kind: string, fault: Option<string>): (r: (Client, Result<nat>))
    ensures r.1.Ok? <==> fault.None?
    ensures r.1.Err? ==> r.0 == c
    ensures r.0.tx == c.tx && r.0.committed == c.committed && r.0.journal == c.journal
    ensures r.0.nextRef == c.nextRef
    ensures r.1.Ok? ==>
      && r.1.value == |c.watches|
      && |r.0.watches| == |c.watches| + 1
      && r.0.watches[..|c.watches|] == c.watches
      && r.0.watches[r.1.value].kind == kind
      && Delivered(r.0, r.1.value) == Journals.Replay(List(c.committed, kind))
  {
    if fault.Some? then (c, Err(Backend(fault.value)))
    else
      var w := Watcher(kind, Journals.Replay(List(c.committed, kind)), |c.journal.dispatched|);
      var c' := c.(watches := c.watches + [w]);
      assert Delivered(c', |c.watches|) == w.replay + Journals.Matching([], kind);
      (c', Ok(|c.watches|))
  }
}
