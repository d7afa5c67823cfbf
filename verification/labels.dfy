/**
 Label synchronisation: the label table mirrors, for every (kind, primary
 key), the model's Labels() mapping. Insert adds one label row per pair,
 Delete removes every label row of the model's (kind, primary key), and
 Replace (used by Update) deletes then re-inserts.
 */
module Labels {
  import opened Models

  /** The label row the pair (name, m.labels[name]) denotes. */
  function LabelOf(m: Model, name: string): Label
    requires name in m.labels
  {
    Label(m.pk, m.kind, name, m.labels[name])
  }

  /** The label rows m's label mapping denotes. */
  function LabelSet(m: Model): set<Label> {
    set n | n in m.labels :: LabelOf(m, n)
  }

  /** Does label row l belong to the model of this kind and key? */
  predicate OwnedBy(l: Label, kind: string, pk: string) {
    l.kind == kind && l.parent == pk
  }

  /** The label rows of one (kind, primary key): what deleteLabels lists. */
  function Owned(labels: set<Label>, kind: string, pk: string): set<Label> {
    set l | l in labels && OwnedBy(l, kind, pk)
  }

  /** insertLabels: one label row per pair of m's label mapping. */
  function InsertLabels(labels: set<Label>, m: Model): (r: set<Label>)
    ensures Owned(r, m.kind, m.pk) == Owned(labels, m.kind, m.pk) + LabelSet(m)
    ensures forall l :: !OwnedBy(l, m.kind, m.pk) ==> (l in r <==> l in labels)
  {
    labels + LabelSet(m)
  }

  /** deleteLabels: every label row of m's (kind, primary key) removed. */
  function DeleteLabels(labels: set<Label>, m: Model): (r: set<Label>)
    ensures Owned(r, m.kind, m.pk) == {}
    ensures forall l :: !OwnedBy(l, m.kind, m.pk) ==> (l in r <==> l in labels)
    ensures r <= labels
  {
    labels - Owned(labels, m.kind, m.pk)
  }

  /** replaceLabels: delete, then insert. */
  function ReplaceLabels(labels: set<Label>, m: Model): (r: set<Label>)
    ensures Owned(r, m.kind, m.pk) == LabelSet(m)
    ensures forall l :: !OwnedBy(l, m.kind, m.pk) ==> (l in r <==> l in labels)
  {
    InsertLabels(DeleteLabels(labels, m), m)
  }

  /**
   A label synchronisation that failed part-way. `stale` are the rows the
   delete phase had to remove and `wanted` the rows the insert phase had to
   add; `removed` and `added` say which of those writes landed before the
   failing one. The insert phase only runs once every stale row is gone.
   */
  function PartialSync(labels: set<Label>, stale: set<Label>, wanted: set<Label>,
                       removed: set<Label>, added: set<Label>): (r: set<Label>)
    ensures labels - stale <= r <= labels + wanted
    ensures r * wanted - labels <= added
  {
    var gone := removed * stale;
    if gone == stale then (labels - stale) + (added * wanted) else labels - gone
  }

  /** deleteLabels undoes insertLabels for a model that owned no label rows before. */
  lemma DeleteUndoesInsertLabels(labels: set<Label>, m: Model)
    requires Owned(labels, m.kind, m.pk) == {}
    ensures DeleteLabels(InsertLabels(labels, m), m) == labels
  {
    var r := DeleteLabels(InsertLabels(labels, m), m);
    forall l ensures l in r <==> l in labels {
      if OwnedBy(l, m.kind, m.pk) {
        assert l !in Owned(labels, m.kind, m.pk);
        assert l !in Owned(r, m.kind, m.pk);
      }
    }
  }

  /** A model's label rows are exactly its label mapping, one row per pair. */
  lemma LabelSetMirrors(m: Model)
    ensures forall n :: n in m.labels ==> LabelOf(m, n) in LabelSet(m)
    ensures forall l :: l in LabelSet(m) ==>
      OwnedBy(l, m.kind, m.pk) && l.name in m.labels && l.value == m.labels[l.name]
    ensures |LabelSet(m)| == |m.labels|
  {
    LabelCount(m, m.labels.Keys);
  }

  /** Distinct label names give distinct label rows, so the image has as many rows as names. */
  lemma {:induction false} LabelCount(m: Model, names: set<string>)
    requires names <= m.labels.Keys
    ensures |set n | n in names :: LabelOf(m, n)| == |names|
    decreases names
  {
    if names != {} {
      var x :| x in names;
      var rest := names - {x};
      LabelCount(m, rest);
      var image := set n | n in names :: LabelOf(m, n);
      var restImage := set n | n in rest :: LabelOf(m, n);
      assert image == restImage + {LabelOf(m, x)};
      assert LabelOf(m, x) !in restImage;
    }
  }
}
