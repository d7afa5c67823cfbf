/**
 The records the store persists. A model is identified by its kind (the
 mapper's table name for its type) and its primary key, and reports a
 mapping of label names to label values. Labels and journal events are
 derived from models.
 */
module Models {

  /** A persisted record: its kind, primary key, column values and labels. */
  datatype Model = Model(
    kind: string,
    pk: string,
    fields: map<string, string>,
    labels: map<string, string>)

  /** Where a row lives: one table per kind, one row per primary key. */
  datatype Key = Key(kind: string, pk: string)

  function KeyOf(m: Model): Key {
    Key(m.kind, m.pk)
  }

  /** A row of the built-in label table. */
  datatype Label = Label(parent: string, kind: string, name: string, value: string)

  /** A journal entry; `model` is the new value (the deleted one for Deleted). */
  datatype Event =
    | Created(model: Model)
    | Updated(prior: Model, model: Model)
    | Deleted(model: Model)
}
