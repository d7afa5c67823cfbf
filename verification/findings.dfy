/**
 A failed backend commit or rollback ends the transaction but, as the
 client is written, leaves the transaction's events staged in the journal.
 The next journal commit (the next autocommit mutation, or the next
 transaction's commit) then hands them to watches although their rows were
 never committed. CommitAsWritten and EndAsWritten model the code as
 written; Commit and End (which the rest of the model uses) also discard
 the staged events on failure, and keep the client sound (CommitSound,
 EndSound).
 */
module Findings {
  import opened Common
  import opened Models
  import opened Tables
  import Journals
  import opened Store
  import opened Invariants

  /** As written, a failed commit leaves a client with no transaction but with events staged. */
  lemma CommitFailureKeepsEventsStaged(c: Client, t: Tx, cause: string)
    requires Active(c, t) && c.journal.staged != []
    ensures var r := CommitAsWritten(c, t, Some(cause)).0;
      && r.tx.None?
      && r.journal.staged == c.journal.staged
      && r.committed == c.committed
      && !Sound(r)
  {
  }

  /** As written, a failed rollback leaves a client with no transaction but with events staged. */
  lemma EndFailureKeepsEventsStaged(c: Client, t: Tx, cause: string)
    requires Active(c, t) && c.journal.staged != []
    ensures var r := EndAsWritten(c, t, Some(cause)).0;
      && r.tx.None?
      && r.journal.staged == c.journal.staged
      && r.committed == c.committed
      && !Sound(r)
  {
  }

  function VmA(): Model { Model("vm", "a", map[], map[]) }
  function VmB(): Model { Model("vm", "b", map[], map[]) }

  /** An empty store with one watch on kind "vm" and a transaction that inserted VmA. */
  function InsertedInTx(): (Client, Tx) {
    var (watching, _) := Watch(Opened(Db(map[], [], {})), "vm", None);
    var (began, handle) := Begin(watching, None);
    var t := if handle.Ok? then handle.value else Tx(0);
    (Insert(began, VmA(), NoFault).0, t)
  }

  /** The state InsertedInTx reaches: VmA staged in the open transaction, nothing committed or dispatched. */
  lemma InsertedInTxState()
    ensures var (c, t) := InsertedInTx();
      && Active(c, t)
      && c.committed == Db(map[], [], {})
      && c.journal == Journals.Journal([Created(VmA())], [])
      && c.watches == [Watcher("vm", [], 0)]
  {
    var (watching, _) := Watch(Opened(Db(map[], [], {})), "vm", None);
    assert watching.watches == [Watcher("vm", [], 0)];
  }

  /**
   Counterexample, commit: VmA is inserted in a transaction whose backend
   commit fails; an autocommit insert of VmB follows. The watch is handed
   Created(VmA) although VmA was never committed.
   */
  lemma CommitFailureLeaksToWatch()
    ensures var (c, t) := InsertedInTx();
      var failed := CommitAsWritten(c, t, Some("disk I/O error")).0;
      var after := Insert(failed, VmB(), NoFault).0;
      && |after.watches| == 1
      && Delivered(after, 0) == [Created(VmA()), Created(VmB())]
      && KeyOf(VmA()) !in after.committed.rows
  {
    InsertedInTxState();
    var (c, t) := InsertedInTx();
    var failed := CommitAsWritten(c, t, Some("disk I/O error")).0;
    var after := Insert(failed, VmB(), NoFault).0;
    assert after.journal.dispatched == [Created(VmA()), Created(VmB())];
    assert Journals.Matching([Created(VmA()), Created(VmB())], "vm") == [Created(VmA()), Created(VmB())] by {
      assert [Created(VmA()), Created(VmB())][..1] == [Created(VmA())];
      assert [Created(VmA())][..0] == [];
    }
  }

  /** The same run with the corrected Commit: the watch is handed only Created(VmB). */
  lemma CommitFailureCorrected()
    ensures var (c, t) := InsertedInTx();
      var failed := Commit(c, t, Some("disk I/O error")).0;
      var after := Insert(failed, VmB(), NoFault).0;
      && |after.watches| == 1
      && Delivered(after, 0) == [Created(VmB())]
      && KeyOf(VmA()) !in after.committed.rows
  {
    InsertedInTxState();
    var (c, t) := InsertedInTx();
    var failed := Commit(c, t, Some("disk I/O error")).0;
    var after := Insert(failed, VmB(), NoFault).0;
    assert after.journal.dispatched == [Created(VmB())];
    assert Journals.Matching([Created(VmB())], "vm") == [Created(VmB())] by {
      assert [Created(VmB())][..0] == [];
    }
  }

  /**
   Counterexample, rollback: VmA is inserted in a transaction whose
   rollback fails; an autocommit insert of VmB follows. The watch is handed
   Created(VmA) for a row that was rolled back.
   */
  lemma EndFailureLeaksToWatch()
    ensures var (c, t) := InsertedInTx();
      var failed := EndAsWritten(c, t, Some("disk I/O error")).0;
      var after := Insert(failed, VmB(), NoFault).0;
      && |after.watches| == 1
      && Delivered(after, 0) == [Created(VmA()), Created(VmB())]
      && KeyOf(VmA()) !in after.committed.rows
  {
    InsertedInTxState();
    var (c, t) := InsertedInTx();
    var failed := EndAsWritten(c, t, Some("disk I/O error")).0;
    var after := Insert(failed, VmB(), NoFault).0;
    assert after.journal.dispatched == [Created(VmA()), Created(VmB())];
    assert Journals.Matching([Created(VmA()), Created(VmB())], "vm") == [Created(VmA()), Created(VmB())] by {
      assert [Created(VmA()), Created(VmB())][..1] == [Created(VmA())];
      assert [Created(VmA())][..0] == [];
    }
  }

  /** The same run with the corrected End: the watch is handed only Created(VmB). */
  lemma EndFailureCorrected()
    ensures var (c, t) := InsertedInTx();
      var failed := End(c, t, Some("disk I/O error")).0;
      var after := Insert(failed, VmB(), NoFault).0;
      && |after.watches| == 1
      && Delivered(after, 0) == [Created(VmB())]
  {
    InsertedInTxState();
    var (c, t) := InsertedInTx();
    var failed := End(c, t, Some("disk I/O error")).0;
    var after := Insert(failed, VmB(), NoFault).0;
    assert after.journal.dispatched == [Created(VmB())];
    assert Journals.Matching([Created(VmB())], "vm") == [Created(VmB())] by {
      assert [Created(VmB())][..0] == [];
    }
  }
}
