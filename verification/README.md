# Inventory model client: a sequential Dafny model

This project models the database `Client` of the inventory model package
(`pkg/inventory/model/client.go`). The client is an embedded, transactional
object store. It keeps typed records ("models") in a single-writer SQLite
backend. Next to every record it maintains a label table that mirrors the
record's `Labels()` mapping. It routes every change through a journal,
which hands change events to watches only when the data is committed.

The model is a sequential state machine. The client state is an immutable
record (`Store.Client`):

- `tx`: the open backend transaction, if any. It holds the transaction's
  identity and its uncommitted view of the tables, so that End can roll
  the transaction back. The write lease is simply "`tx` is Some".
- `committed`: the committed tables. These are what reads through the
  connection see: GetForUpdate's Get and Watch's List.
- `journal`: the staged events and the events already dispatched to watches.
- `watches`: the started watches. Each one records its kind, the snapshot
  it replayed, and the point in the dispatched stream where it went live.
- `nextRef`: the identity the next backend transaction gets. This models
  the pointer identity of `*sql.Tx` that a `Tx` handle is checked against.

Every public call is a pure function from a client state to a new state and
the call's result: `Begin`, `Insert`, `Update`, `Delete`, `Commit` and
`End` (`Tx.Commit` and `Tx.End` at client.go:433-443 only delegate to
`commit` and `end`), `GetForUpdate` and `Watch`. The answers the backend
gives are inputs:

- a `Fault` for each mutation: success, a failure of the mapper's own call,
  or a part-way label failure that names the label writes that landed;
- an optional error for Begin, commit, rollback, Get and List.

`TxInvalidError` is `Common.Error.TxInvalid`.

`Store.Commit` and `Store.End` are the corrected versions of `commit` and
`end` (see Findings): on a failed backend commit or rollback they discard
the staged events, which the code at client.go:386-391 and 410-415 does not.
`Store.CommitAsWritten` and `Store.EndAsWritten` model the code as written.
Runs of calls (`Traces.Step`, `Traces.Run`) and every invariant result below
use the corrected pair. As written, a failed commit or rollback breaks
`Invariants.Sound` and the watch mirror (`Findings.CommitFailureKeepsEventsStaged`,
`Findings.CommitFailureLeaksToWatch`).

Modules:

- `Common`: the result types and errors.
- `Models`: models, keys, labels and events.
- `Tables`: the backend behind the mapper. It holds rows, their List order
  (assumed to be insertion order, see Left out) and the label table.
- `Labels`: `insertLabels`, `deleteLabels` and `replaceLabels`.
- `Journals`: staging, commit and unstage, plus replaying an event stream
  over a table.
- `Store`: the client calls.
- `Invariants`: the invariant `Sound` and its preservation, call by call.
- `Traces`: runs of calls.
- `Findings`: the commit/rollback defect described below.

The central invariant (`Invariants.Sound`) has four parts:

- With no transaction open, nothing is staged.
- With a transaction open, replaying the staged events over the committed
  rows gives the transaction's view.
- The label table mirrors every row's labels.
- For every watch, replaying everything it has been handed gives exactly
  the committed rows of its kind. The stream itself is pinned down by
  `Traces.WatchStreamExact`: the snapshot in List order, then exactly the
  events of its kind dispatched since the watch started, in dispatch order.

## Model

| member | source | states |
|---|---|---|
| Store.Begin | pkg/inventory/model/client.go:170-180 | A new transaction is opened only when none is open and the backend agrees. Its handle is active and carries a fresh identity. The view it writes to starts as the committed tables. A backend failure opens nothing. |
| Store.Insert | pkg/inventory/model/client.go:184-209 | Succeeds exactly when the backend succeeds and the key is free. A failure of the primary write changes nothing, and no failure stages an event. On success the row is added, the model's label rows are added, and other models' labels are untouched. With no transaction open, Created is dispatched before return. Inside a transaction it is only staged, and committed data is not touched. |
| Store.Update | pkg/inventory/model/client.go:213-243 | A missing stored row gives NotFound before any write. On success the row is replaced, and the model's label rows become exactly its label mapping. The event is Updated(stored row, new row): dispatched at once under autocommit, staged inside a transaction. |
| Store.Delete | pkg/inventory/model/client.go:247-272 | On success the row and every label row of its kind and key are gone, and other labels are untouched. Deleted is dispatched at once under autocommit and staged inside a transaction. A primary failure changes nothing. |
| Store.Commit | pkg/inventory/model/client.go:376-394 | A handle that is not the open transaction gets TxInvalid and nothing changes. Otherwise the transaction always ends. On backend success the view becomes committed and the staged events are dispatched in staging order. On failure nothing is dispatched and nothing stays staged (corrected, see Findings). |
| Store.End | pkg/inventory/model/client.go:400-418 | A stale or foreign handle gets TxInvalid and nothing changes. Otherwise the transaction always ends, the committed tables are unchanged, and the staged events are discarded undispatched, whatever the backend answers (corrected, see Findings). |
| Store.CommitAsWritten | pkg/inventory/model/client.go:376-394 | The code as written: the TxInvalid guard, and the transaction always ends. A failed backend commit leaves the journal, and so the staged events, as it was. On a stale handle or a successful commit it behaves exactly like the corrected Store.Commit: the view is published and the staged events are dispatched. |
| Store.EndAsWritten | pkg/inventory/model/client.go:400-418 | The code as written: a failed rollback ends the transaction but leaves the staged events in the journal. On a stale handle or a successful rollback it behaves exactly like the corrected Store.End: the staged events are discarded. |
| Store.GetForUpdate | pkg/inventory/model/client.go:135-147 | Returns a handle and the stored row exactly when Begin succeeds and the row can be read. On any failure the transaction state is as before the call, so the transaction it began is ended. A missing row reports NotFound. On every path the committed tables, the dispatched stream and the watches are unchanged. |
| Store.Watch | pkg/inventory/model/client.go:276-306 | A new watch is appended and nothing else changes. What it has been handed is exactly one Created event per row the List returns, in List order. A registration or List failure changes nothing. |
| Labels.InsertLabels | pkg/inventory/model/client.go:316-331 | The label rows of the model's kind and key gain exactly the rows of its label mapping. Every other label row is unchanged. |
| Labels.DeleteLabels | pkg/inventory/model/client.go:335-355 | No label row of the model's kind and key remains. Every other label row is unchanged. |
| Labels.ReplaceLabels | pkg/inventory/model/client.go:359-370 | The label rows of the model's kind and key become exactly its label mapping. Every other label row is unchanged. |
| Labels.DeleteUndoesInsertLabels | pkg/inventory/model/client.go:316-355 | For a model that owned no label rows, deleteLabels after insertLabels gives the label table back. |
| Labels.PartialSync | pkg/inventory/model/client.go:347-352 | A label step that fails part-way keeps every label row it was not asked to remove. It adds no row it was not asked to add. Any new row is one of the writes that landed. |
| Labels.LabelSetMirrors | pkg/inventory/model/client.go:317-323 | The label rows a model denotes are one per (name, value) pair of its mapping, each tagged with its kind and key. There are exactly as many rows as pairs. |
| Tables.List | pkg/inventory/model/client.go:288-293 | Every stored row of the kind whose key is in List order is listed (on well-formed tables, every stored row of the kind), and every listed entry is a stored row of the kind. There is one entry per listed key. |
| Tables.ListInOrder | pkg/inventory/model/client.go:288-293 | On well-formed tables the List names each key once, in List order. |
| Tables.ListKeys | pkg/inventory/model/client.go:289-293 | The listed keys are exactly the stored keys of the kind that occur in List order (on well-formed tables, all stored keys of the kind). There are no duplicates when the order has none. |
| Tables.ListKeysInOrder | pkg/inventory/model/client.go:289-293 | The listed keys keep their relative List order. |
| Tables.AddRow | pkg/inventory/model/client.go:195 | The mapper's Insert on a free key: the row is stored under its key, every other row is kept, its key goes last in List order, the existing List order is kept, labels are untouched, and well-formed tables stay well formed. |
| Tables.PutRow | pkg/inventory/model/client.go:229 | The mapper's Update on a stored key: the row under its key becomes the new row, every other row, the set of keys, List order and labels are unchanged, and well-formed tables stay well formed. |
| Tables.RemoveRow | pkg/inventory/model/client.go:258 | After a delete by key the key is absent. Every other row is kept unchanged, labels are untouched, List order keeps every other key, and the tables stay well formed. |
| Tables.WithoutInOrder | pkg/inventory/model/client.go:258 | A delete keeps the remaining keys in their relative List order. |
| Journals.FoldOfKind | pkg/inventory/model/client.go:296-300 | Replaying a stream and then looking at one kind equals replaying only the events a watch of that kind receives. This is the per-kind matching of dispatched events. |
| Invariants.BeginSound | pkg/inventory/model/client.go:170-180 | Begin keeps the client sound: a new transaction starts with nothing staged, and its view equals the committed tables. |
| Invariants.InsertSound | pkg/inventory/model/client.go:184-209 | Insert keeps the client sound, watches included, unless label synchronisation fails part-way. |
| Invariants.UpdateSound | pkg/inventory/model/client.go:213-243 | Update keeps the client sound unless label synchronisation fails part-way. |
| Invariants.DeleteSound | pkg/inventory/model/client.go:247-272 | Delete keeps the client sound unless label synchronisation fails part-way. |
| Invariants.CommitSound | pkg/inventory/model/client.go:376-394 | Commit keeps the client sound. After success every watch still replays to the new committed rows. After failure nothing is left staged. |
| Invariants.EndSound | pkg/inventory/model/client.go:400-418 | End keeps the client sound: the write unit is dropped whole. |
| Invariants.GetForUpdateSound | pkg/inventory/model/client.go:135-147 | GetForUpdate keeps the client sound on every path. |
| Invariants.WatchSound | pkg/inventory/model/client.go:276-306 | A new watch is in sync from the start, and existing watches stay in sync. |
| Invariants.RecordSound | pkg/inventory/model/client.go:203-206 | Staging an event is sound when the event describes the write just made. Under autocommit it is dispatched at once and every watch stays in sync. |
| Invariants.DispatchKeepsInSync | pkg/inventory/model/client.go:386-391 | Dispatching events together with the matching change to the committed rows keeps a watch's stream replaying to the committed rows of its kind. |
| Invariants.ReplayRebuildsKind | pkg/inventory/model/client.go:288-301 | Replaying a watch's snapshot rebuilds exactly the committed rows of its kind. |
| Invariants.InsertMirrored | pkg/inventory/model/client.go:199-202 | Inserting a row with a free key and its labels keeps the label table an exact mirror of the rows. The new key owned no labels before. |
| Invariants.UpdateMirrored | pkg/inventory/model/client.go:233-236 | Replacing a row and its labels keeps the label table an exact mirror. |
| Invariants.DeleteMirrored | pkg/inventory/model/client.go:262-265 | Deleting a row and its labels keeps the label table an exact mirror. |
| Traces.RunSound | pkg/inventory/model/client.go:170-306 | With the corrected Commit/End, any run of calls without part-way label failures keeps the client sound. |
| Traces.RunAppends | pkg/inventory/model/client.go:203-206 | Calls only ever append to the dispatched stream and to the list of watches. |
| Traces.WatchStreamOnlyGrows | pkg/inventory/model/client.go:294-303 | A watch's stream is never rewritten. Later events of its kind are appended after the snapshot, in dispatch order. |
| Traces.WatchMirrorsTable | pkg/inventory/model/client.go:276-306 | With the corrected Commit/End, from a sound client, after any run without part-way label failures, replaying everything a watch was handed gives exactly the committed rows of its kind. |
| Traces.WatchStreamExact | pkg/inventory/model/client.go:276-306 | After a watch starts and any calls follow, it has been handed exactly the snapshot of its kind in List order, then the events of its kind dispatched since its start, in dispatch order, each once. |
| Traces.WatchReplaysSnapshot | pkg/inventory/model/client.go:288-303 | A new watch is handed one Created per committed row of its kind and nothing else. Each key appears once. |
| Traces.StepKeepsStale | pkg/inventory/model/client.go:178-179 | No call makes an old handle active again, because each new transaction gets a fresh identity. |
| Traces.RunKeepsStale | pkg/inventory/model/client.go:379-381 | A handle that is not active and is older than the next identity stays invalid through any run. |
| Traces.FinishedTxRefused | pkg/inventory/model/client.go:379-385 | After Commit or End, a second Commit or End on the same handle fails with TxInvalid and changes nothing. This holds after any further calls, new transactions included. |
| Traces.TxBodyIsolated | pkg/inventory/model/client.go:188-194 | Inside a transaction, mutations never open, close or switch it. They never touch committed data or the dispatched stream, and they only append to the staged events. |
| Traces.EndDiscardsWriteUnit | pkg/inventory/model/client.go:406-415 | Begin, then mutations, then End leaves the committed tables, the dispatched stream and the watches exactly as they were. |
| Traces.CommitPublishesWriteUnit | pkg/inventory/model/client.go:382-391 | At Commit all the transaction's staged events are dispatched together, in staging order. Replaying them over the old committed rows gives the new committed rows. |
| Traces.DispatchOne | pkg/inventory/model/client.go:204-206 | One dispatched event is appended to a watch's stream exactly when its kind matches. |
| Traces.AutocommitIsImmediate | pkg/inventory/model/client.go:203-206 | With no transaction open, a successful Insert, Update or Delete has its event appended to every existing watch of the model's kind before the call returns. |
| Traces.AutocommitInsert | pkg/inventory/model/client.go:203-206 | Under autocommit, a successful Insert appends Created to every matching watch before returning. |
| Traces.AutocommitUpdate | pkg/inventory/model/client.go:237-240 | Under autocommit, a successful Update appends Updated(stored row, new row) to every matching watch before returning. |
| Traces.AutocommitDelete | pkg/inventory/model/client.go:266-269 | Under autocommit, a successful Delete appends Deleted to every matching watch before returning. |
| Traces.InsertMirrorsLabels | pkg/inventory/model/client.go:199-202 | On a sound client, after a successful Insert, the model's label rows are exactly its label mapping. |
| Traces.StaleLabelsSurviveInsert | pkg/inventory/model/client.go:199-264 | Without soundness the mirror is not restored: a label row left by a Delete whose deleteLabels failed is still owned by the key after a later successful Insert of a model with no labels. |
| Traces.InsertThenDeleteRestores | pkg/inventory/model/client.go:184-272 | Under autocommit, Delete undoes Insert. The committed rows, List order and labels are restored, and watches see Created then Deleted. |
| Traces.DeleteUndoesInsert | pkg/inventory/model/client.go:258-265 | On well-formed, mirrored tables, deleting a row just inserted under a free key, with its labels, gives the tables back. |
| Traces.UpdateThenRestore | pkg/inventory/model/client.go:213-243 | Updating back to the replaced row restores the rows, List order and labels. Watches see both Updated events. |
| Traces.GetForUpdateThenEnd | pkg/inventory/model/client.go:135-147 | GetForUpdate returns the stored row. Ending the handle it returned leaves the client as it was, apart from the next transaction identity. |
| Findings.CommitFailureKeepsEventsStaged | pkg/inventory/model/client.go:386-389 | As written, a failed backend commit leaves a client with no transaction but with events staged, which breaks the invariant. |
| Findings.EndFailureKeepsEventsStaged | pkg/inventory/model/client.go:410-413 | As written, a failed rollback leaves a client with no transaction but with events staged. |
| Findings.CommitFailureLeaksToWatch | pkg/inventory/model/client.go:386-391 | Concrete run: a watch is handed Created for a row whose commit failed. |
| Findings.CommitFailureCorrected | pkg/inventory/model/client.go:386-391 | The same run with the corrected Commit: the watch is handed only the committed insert. |
| Findings.EndFailureLeaksToWatch | pkg/inventory/model/client.go:410-415 | Concrete run: a watch is handed Created for a row that was rolled back. |
| Findings.EndFailureCorrected | pkg/inventory/model/client.go:410-415 | The same run with the corrected End: the watch is handed only the committed insert. |

## Left out

- Locking (`sync.RWMutex`, `dbMutex`) and blocking are concurrency. Calls run one at a time, and the write lease is "`tx` is Some".
- Store.Begin: a Begin while a transaction is open deadlocks. It holds the client lock (client.go:171) while it waits for `dbMutex` (173), and the open transaction's `commit` and `end` must take that client lock (377, 401) before their deferred `dbMutex.Unlock()` (383, 407) can run. GetForUpdate (136) does the same. The sequential model reports `Blocked` and changes nothing. Begin also returns on a `db.Begin` error without releasing `dbMutex` (client.go:173-177). That leaks the write lock, which a model without locks cannot express.
- Store.Commit / Store.End: the model's transaction handles are never nil. In the source, Begin returns a nil `*Tx` on a `db.Begin` error (client.go:176), and GetForUpdate does so on either failure (138, 143). `Tx.Commit` and `Tx.End` on a nil handle dereference `r.client` (434, 442) and panic instead of returning TxInvalidError. The usage comment at 164-169 (`tx, _ := client.Begin(); defer tx.End()`) reaches that panic whenever Begin fails.
- `Open` and `Close` (connection, DDL, `os.Remove`) are I/O. `Store.Opened` starts from existing tables instead.
- `Get`, `List`, `Count` and `Journal()` are pass-throughs. GetForUpdate's Get and Watch's List are modelled as map and sequence reads of the committed tables.
- The `Table` mapper (SQL, predicates, DDL) is not part of this model. Two of its behaviours are assumed. A second row with a taken key is refused (`Duplicate`), as the primary-key constraint does. A delete of an absent key is a no-op.
- Journal internals (`copy`, watch registration, `notify`, `Start`, handler calls, closing a watch) are not part of this model. Dispatch is modelled as appending to one dispatched stream, and each watch receives the events of its kind from its start point. `copy` plus Get is modelled as reading the stored row. A watch whose List fails may stay registered in the journal; the model drops it, since the caller never gets it.
- Reflection in `Watch` is replaced by an explicit kind.
- `liberr.Wrap` is left out: errors are plain values.
- List order is an assumption: a SELECT without ORDER BY has no guaranteed order. The model takes it to be SQLite rowid order, that is, insertion order. Update keeps a row's place and Delete drops it.
- Event payloads: events hold the model's value at the time the event is staged (`Created(m)`, `Updated(prior, m)`, `Deleted(m)`). The source hands the journal the caller's model pointer (client.go:203, 237, 266). Inside a transaction the events stay staged until `commit` (391). The model therefore assumes the journal keeps a detached copy of that pointer. If it kept the pointer itself, a caller that mutates or reuses its model object before Tx.Commit would have the later value dispatched.
- Traces.InsertMirrorsLabels: holds only on a sound client. A Delete whose `deleteLabels` fails (client.go:262-264) keeps the row deletion but leaves label rows, and a later Insert under the same key calls `insertLabels` (199), which only adds rows. The stale rows stay owned by the new model, against the exact-mirror promise (`Traces.StaleLabelsSurviveInsert`).
- The label table is a set, so two identical label rows collapse into one. A table could hold both copies. This can happen when a failed `deleteLabels` left rows behind and the same key is inserted again.
- Labels.PartialSync: a failing label step is modelled by the sets of writes that landed, because Go map iteration order is unspecified. A failing insert phase may be modelled as having landed all its writes, which over-approximates the real outcomes.
- Store.GetForUpdate: the answer End gives is discarded, as in the source. With the corrected End the resulting state is the same either way, so the rollback's answer is not an input.
- Traces.RunSound: runs use the corrected Commit and End (client.go:386-391, 410-415); as written, a failed commit or rollback leaves events staged with no transaction, which breaks Sound and hands watches uncommitted rows. It is also stated only for runs in which label synchronisation does not fail part-way. As written, an autocommit mutation whose label step fails keeps its row write but stages no event, so watches never hear of that row. Inside a transaction the caller is expected to End after such a failure.

The code keeps the primary write when label synchronisation fails (client.go:199-201, 233-235, 262-264), and under autocommit that write is already committed.

## Findings

| source | as written | input that shows it | evidently intended | confidence | as-written member | corrected member |
|---|---|---|---|---|---|---|
| pkg/inventory/model/client.go:386-391 | When the backend commit fails, `commit` returns before `journal.Commit`, and the deferred cleanup clears `r.tx`. It never calls `journal.Unstage`, so the failed transaction's events stay staged and go out with the next journal commit. | Watch kind vm; Begin; Insert vm/a; Tx.Commit with the backend commit failing; autocommit Insert vm/b. The watch is handed Created(a) and Created(b), but a was never committed. | A failed commit discards the transaction's staged events, so watches only see committed changes. | medium, not executed (assumes the journal's Commit dispatches everything staged) | Store.CommitAsWritten, Findings.CommitFailureLeaksToWatch | Store.Commit, Invariants.CommitSound |
| pkg/inventory/model/client.go:410-415 | When the rollback fails, `end` returns before `journal.Unstage`, and the deferred cleanup clears `r.tx`. The rolled-back events stay staged and go out with the next journal commit. | Watch kind vm; Begin; Insert vm/a; Tx.End with the rollback failing; autocommit Insert vm/b. The watch is handed Created(a) for a row that was never committed. | End discards the staged events whatever the rollback answers. | medium, not executed (assumes the journal's Commit dispatches everything staged) | Store.EndAsWritten, Findings.EndFailureLeaksToWatch | Store.End, Invariants.EndSound |
