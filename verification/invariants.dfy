/**
 The invariant every reachable client state keeps when label
 synchronisation does not fail part-way, and one preservation lemma per
 operation. The invariant says:
 - the tables are well formed and the label table mirrors every row's labels;
 - with no transaction open nothing is staged;
 - with a transaction open, replaying the staged events over the committed
   rows gives the transaction's view (so commit publishes exactly what was
   written);
 - every watch's delivered stream (snapshot, then live events of its kind)
   replays to exactly the committed rows of its kind (the exact stream, event
   by event, is Traces.WatchStreamExact).
 */
module Invariants {
  import opened Common
  import opened Models
  import opened Tables
  import opened Labels
  import Journals
  import opened Store

  /** Every label row belongs to a stored row and is one of its pairs; every stored row's pairs are present. */
  ghost predicate Mirrored(d: Db) {
    && (forall l :: l in d.labels ==>
          Key(l.kind, l.parent) in d.rows && l in LabelSet(d.rows[Key(l.kind, l.parent)]))
    && (forall k :: k in d.rows ==> LabelSet(d.rows[k]) <= d.labels)
  }

  ghost predicate InSync(c: Client, i: nat)
    requires i < |c.watches|
  {
    && c.watches[i].from <= |c.journal.dispatched|
    && Journals.Fold(map[], Delivered(c, i)) == OfKind(c.committed.rows, c.watches[i].kind)
  }

  ghost predicate Sound(c: Client) {
    && WellFormed(c.committed)
    && Mirrored(c.committed)
    && (c.tx.None? ==> c.journal.staged == [])
    && (c.tx.Some? ==>
          && WellFormed(c.tx.value.view)
          && Mirrored(c.tx.value.view)
          && Journals.Fold(c.committed.rows, c.journal.staged) == c.tx.value.view.rows
          && c.tx.value.ref < c.nextRef)
    && (forall i :: 0 <= i < |c.watches| ==> InSync(c, i))
  }

  /** A freshly opened client over well-formed, mirrored tables is sound. */
  lemma OpenedSound(d: Db)
    requires WellFormed(d) && Mirrored(d)
    ensures Sound(Opened(d))
  {
  }

  /** The row a label row points at is the row keyed by the label's kind and parent. */
  lemma LabelSetOwner(m: Model, l: Label)
    requires l in LabelSet(m)
    ensures OwnedBy(l, m.kind, m.pk)
  {
    LabelSetMirrors(m);
  }

  /** Inserting a row with a free key and its labels keeps the label table a mirror. */
  lemma InsertMirrored(d: Db, m: Model)
    requires WellFormed(d) && Mirrored(d) && KeyOf(m) !in d.rows
    ensures Mirrored(AddRow(d, m).(labels := InsertLabels(d.labels, m)))
    ensures Owned(d.labels, m.kind, m.pk) == {}
  {
    var r := AddRow(d, m).(labels := InsertLabels(d.labels, m));
    assert r.rows == d.rows[KeyOf(m) := m] && r.labels == d.labels + LabelSet(m);
    InsertLabelsBelong(d, m, r);
    InsertRowsCovered(d, m, r);
    FreeKeyOwnsNothing(d, m);
  }

  lemma FreeKeyOwnsNothing(d: Db, m: Model)
    requires Mirrored(d) && KeyOf(m) !in d.rows
    ensures Owned(d.labels, m.kind, m.pk) == {}
  {
    forall l | l in d.labels ensures !OwnedBy(l, m.kind, m.pk) {
      assert Key(l.kind, l.parent) in d.rows;
    }
  }

  lemma InsertLabelsBelong(d: Db, m: Model, r: Db)
    requires Mirrored(d) && KeyOf(m) !in d.rows
    requires r.rows == d.rows[KeyOf(m) := m] && r.labels == d.labels + LabelSet(m)
    ensures forall l :: l in r.labels ==>
      Key(l.kind, l.parent) in r.rows && l in LabelSet(r.rows[Key(l.kind, l.parent)])
  {
    forall l | l in r.labels
      ensures Key(l.kind, l.parent) in r.rows && l in LabelSet(r.rows[Key(l.kind, l.parent)])
    {
      if l in LabelSet(m) {
        LabelSetOwner(m, l);
      } else {
        assert Key(l.kind, l.parent) in d.rows;
        assert Key(l.kind, l.parent) != KeyOf(m);
      }
    }
  }

  lemma InsertRowsCovered(d: Db, m: Model, r: Db)
    requires Mirrored(d)
    requires r.rows == d.rows[KeyOf(m) := m] && r.labels == d.labels + LabelSet(m)
    ensures forall k :: k in r.rows ==> LabelSet(r.rows[k]) <= r.labels
  {
    forall k | k in r.rows ensures LabelSet(r.rows[k]) <= r.labels {
      if k != KeyOf(m) {
        assert LabelSet(d.rows[k]) <= d.labels;
      }
    }
  }

  /** Rewriting a stored row and replacing its labels keeps the label table a mirror. */
  lemma UpdateMirrored(d: Db, m: Model)
    requires WellFormed(d) && Mirrored(d) && KeyOf(m) in d.rows
    ensures Mirrored(PutRow(d, m).(labels := ReplaceLabels(d.labels, m)))
  {
    var r := PutRow(d, m).(labels := ReplaceLabels(d.labels, m));
    var kept := d.labels - Owned(d.labels, m.kind, m.pk);
    assert r.labels == kept + LabelSet(m);
    UpdateLabelsBelong(d, m, kept, r);
    UpdateRowsCovered(d, m, kept, r);
  }

  lemma UpdateLabelsBelong(d: Db, m: Model, kept: set<Label>, r: Db)
    requires WellFormed(d) && Mirrored(d)
    requires kept == d.labels - Owned(d.labels, m.kind, m.pk)
    requires r.rows == d.rows[KeyOf(m) := m] && r.labels == kept + LabelSet(m)
    ensures forall l :: l in r.labels ==>
      Key(l.kind, l.parent) in r.rows && l in LabelSet(r.rows[Key(l.kind, l.parent)])
  {
    forall l | l in r.labels
      ensures Key(l.kind, l.parent) in r.rows && l in LabelSet(r.rows[Key(l.kind, l.parent)])
    {
      if l in LabelSet(m) {
        LabelSetOwner(m, l);
      } else {
        assert l in d.labels && !OwnedBy(l, m.kind, m.pk);
        assert Key(l.kind, l.parent) != KeyOf(m);
      }
    }
  }

  lemma UpdateRowsCovered(d: Db, m: Model, kept: set<Label>, r: Db)
    requires WellFormed(d) && Mirrored(d)
    requires kept == d.labels - Owned(d.labels, m.kind, m.pk)
    requires r.rows == d.rows[KeyOf(m) := m] && r.labels == kept + LabelSet(m)
    ensures forall k :: k in r.rows ==> LabelSet(r.rows[k]) <= r.labels
  {
    forall k | k in r.rows ensures LabelSet(r.rows[k]) <= r.labels {
      if k != KeyOf(m) {
        forall l | l in LabelSet(d.rows[k]) ensures l in kept {
          LabelSetOwner(d.rows[k], l);
        }
      }
    }
  }

  /** Deleting a row and its labels keeps the label table a mirror. */
  lemma DeleteMirrored(d: Db, m: Model)
    requires WellFormed(d) && Mirrored(d)
    ensures Mirrored(RemoveRow(d, KeyOf(m)).(labels := DeleteLabels(d.labels, m)))
  {
    var r := RemoveRow(d, KeyOf(m)).(labels := DeleteLabels(d.labels, m));
    forall l | l in r.labels
      ensures Key(l.kind, l.parent) in r.rows && l in LabelSet(r.rows[Key(l.kind, l.parent)])
    {
      assert !OwnedBy(l, m.kind, m.pk);
    }
    forall k | k in r.rows ensures LabelSet(r.rows[k]) <= r.labels {
      forall l | l in LabelSet(r.rows[k]) ensures l in r.labels {
        LabelSetOwner(r.rows[k], l);
      }
    }
  }

  /** Events dispatched together with the matching change to the committed rows keep a watch in sync. */
  lemma DispatchKeepsInSync(c: Client, c': Client, evs: seq<Event>, i: nat)
    requires i < |c.watches| && InSync(c, i)
    requires c'.watches == c.watches
    requires c'.journal.dispatched == c.journal.dispatched + evs
    requires c'.committed.rows == Journals.Fold(c.committed.rows, evs)
    ensures InSync(c', i)
  {
    var w := c.watches[i];
    TailStep(w.replay, c.journal.dispatched, w.from, evs, w.kind, c.committed.rows);
    assert Delivered(c', i)
        == w.replay + Journals.Matching((c.journal.dispatched + evs)[w.from..], w.kind);
  }

  /** The stream-level step behind DispatchKeepsInSync. */
  lemma TailStep(replay: seq<Event>, sent: seq<Event>, from: nat, evs: seq<Event>,
                 kind: string, rows: map<Key, Model>)
    requires from <= |sent|
    requires Journals.Fold(map[], replay + Journals.Matching(sent[from..], kind)) == OfKind(rows, kind)
    ensures Journals.Fold(map[], replay + Journals.Matching((sent + evs)[from..], kind))
         == OfKind(Journals.Fold(rows, evs), kind)
  {
    var seen := replay + Journals.Matching(sent[from..], kind);
    TailSplit(replay, sent, from, evs, kind);
    FoldTail(seen, evs, kind, rows);
  }

  lemma TailSplit(replay: seq<Event>, sent: seq<Event>, from: nat, evs: seq<Event>, kind: string)
    requires from <= |sent|
    ensures replay + Journals.Matching((sent + evs)[from..], kind)
         == (replay + Journals.Matching(sent[from..], kind)) + Journals.Matching(evs, kind)
  {
    assert (sent + evs)[from..] == sent[from..] + evs;
    Journals.MatchingAppend(sent[from..], evs, kind);
  }

  lemma FoldTail(seen: seq<Event>, evs: seq<Event>, kind: string, rows: map<Key, Model>)
    requires Journals.Fold(map[], seen) == OfKind(rows, kind)
    ensures Journals.Fold(map[], seen + Journals.Matching(evs, kind)) == OfKind(Journals.Fold(rows, evs), kind)
  {
    Journals.FoldAppend(map[], seen, Journals.Matching(evs, kind));
    Journals.FoldOfKind(rows, evs, kind);
  }

  /** A step that neither dispatches nor commits keeps every watch in sync. */
  lemma QuietKeepsInSync(c: Client, c': Client)
    requires forall i :: 0 <= i < |c.watches| ==> InSync(c, i)
    requires c'.watches == c.watches
    requires c'.journal.dispatched == c.journal.dispatched
    requires c'.committed.rows == c.committed.rows
    ensures forall i :: 0 <= i < |c'.watches| ==> InSync(c', i)
  {
    forall i | 0 <= i < |c'.watches| ensures InSync(c', i) {
      assert InSync(c, i);
      assert Delivered(c', i) == Delivered(c, i);
    }
  }

  /** Writing `d` and recording `e` is sound when `d` is what `e` does to the current rows. */
  lemma RecordSound(c: Client, d: Db, e: Event)
    requires Sound(c)
    requires WellFormed(d) && Mirrored(d)
    requires d.rows == Journals.Apply(Current(c).rows, e)
    ensures Sound(Record(c, d, e))
  {
    var r := Record(c, d, e);
    if c.tx.Some? {
      Journals.FoldSnoc(c.committed.rows, c.journal.staged, e);
      QuietKeepsInSync(c, r);
    } else {
      assert r.journal.dispatched == c.journal.dispatched + [e];
      Journals.FoldSnoc(c.committed.rows, [], e);
      assert [] + [e] == [e];
      forall i | 0 <= i < |r.watches| ensures InSync(r, i) {
        DispatchKeepsInSync(c, r, [e], i);
      }
    }
  }

  lemma BeginSound(c: Client, fault: Option<string>)
    requires Sound(c)
    ensures Sound(Begin(c, fault).0)
  {
    var (r, res) := Begin(c, fault);
    if res.Ok? {
      QuietKeepsInSync(c, r);
    }
  }

  lemma InsertSound(c: Client, m: Model, fault: Fault)
    requires Sound(c) && !fault.LabelFault?
    ensures Sound(Insert(c, m, fault).0)
  {
    var d := Current(c);
    if fault.NoFault? && KeyOf(m) !in d.rows {
      InsertMirrored(d, m);
      RecordSound(c, AddRow(d, m).(labels := InsertLabels(d.labels, m)), Created(m));
    }
  }

  lemma UpdateSound(c: Client, m: Model, fault: Fault)
    requires Sound(c) && !fault.LabelFault?
    ensures Sound(Update(c, m, fault).0)
  {
    var d := Current(c);
    if fault.NoFault? && KeyOf(m) in d.rows {
      UpdateMirrored(d, m);
      RecordSound(c, PutRow(d, m).(labels := ReplaceLabels(d.labels, m)),
                  Updated(d.rows[KeyOf(m)], m));
    }
  }

  lemma DeleteSound(c: Client, m: Model, fault: Fault)
    requires Sound(c) && !fault.LabelFault?
    ensures Sound(Delete(c, m, fault).0)
  {
    var d := Current(c);
    if fault.NoFault? {
      DeleteMirrored(d, m);
      RecordSound(c, RemoveRow(d, KeyOf(m)).(labels := DeleteLabels(d.labels, m)), Deleted(m));
    }
  }

  /**
   The corrected Commit keeps the client sound: a successful commit
   publishes the view and dispatches exactly the events that produced it,
   and a failed one leaves nothing staged once the transaction is gone.
   */
  lemma CommitSound(c: Client, t: Tx, fault: Option<string>)
    requires Sound(c)
    ensures Sound(Commit(c, t, fault).0)
  {
    var r := Commit(c, t, fault).0;
    if Active(c, t) {
      if fault.None? {
        forall i | 0 <= i < |r.watches| ensures InSync(r, i) {
          DispatchKeepsInSync(c, r, c.journal.staged, i);
        }
      } else {
        QuietKeepsInSync(c, r);
      }
    }
  }

  lemma EndSound(c: Client, t: Tx, fault: Option<string>)
    requires Sound(c)
    ensures Sound(End(c, t, fault).0)
  {
    var r := End(c, t, fault).0;
    if Active(c, t) {
      QuietKeepsInSync(c, r);
    }
  }

  lemma GetForUpdateSound(c: Client, m: Model, beginFault: Option<string>, getFault: Option<string>)
    requires Sound(c)
    ensures Sound(GetForUpdate(c, m, beginFault, getFault).0)
  {
    var (began, result) := Begin(c, beginFault);
    BeginSound(c, beginFault);
    if result.Ok? {
      EndSound(began, result.value, None);
    }
  }

  /** The rows a watch replays are exactly the committed rows of its kind. */
  lemma ReplayRebuildsKind(d: Db, kind: string)
    requires WellFormed(d)
    ensures Journals.Fold(map[], Journals.Replay(List(d, kind))) == OfKind(d.rows, kind)
  {
    var ks := ListKeys(d.rows, d.order, kind);
    assert List(d, kind) == seq(|ks|, i requires 0 <= i < |ks| => d.rows[ks[i]]);
    KeysRebuildKind(d.rows, ks, kind);
  }

  /** Replaying the rows under exactly the stored keys of a kind rebuilds that kind. */
  lemma KeysRebuildKind(rows: map<Key, Model>, ks: seq<Key>, kind: string)
    requires forall k :: k in rows ==> KeyOf(rows[k]) == k
    requires forall k :: k in ks <==> k in rows && k.kind == kind
    ensures Journals.Fold(map[], Journals.Replay(seq(|ks|, i requires 0 <= i < |ks| => rows[ks[i]])))
         == OfKind(rows, kind)
  {
    Journals.FoldCreatesKeys(rows, ks);
    var built := map k | k in ks :: rows[k];
    assert forall k :: k in built <==> k in OfKind(rows, kind);
  }

  lemma WatchSound(c: Client, kind: string, fault: Option<string>)
    requires Sound(c)
    ensures Sound(Watch(c, kind, fault).0)
  {
    var (r, res) := Watch(c, kind, fault);
    if res.Ok? {
      forall i | 0 <= i < |r.watches| ensures InSync(r, i) {
        if i < |c.watches| {
          assert r.watches[i] == c.watches[i];
          assert InSync(c, i);
          assert Delivered(r, i) == Delivered(c, i);
        } else {
          ReplayRebuildsKind(c.committed, kind);
        }
      }
    }
  }
}
