# Task store of the kanban board front end, in Dafny

This project models the client-side task store of a kanban board
(`frontend/src/features/task/TaskSlice.tsx`), a Redux slice with three async
thunks and one hand-written reorder thunk, and proves properties of that model.

The store holds:
- `byId`: each task record, keyed by its id.
- `byColumn`: for each column id, the ordered list of task ids shown in that column.
- `createLoading`, `dialogOpen` and `dialogColumn`.

It changes through a fixed set of transitions:
- seeding from a fetched board;
- replacing a record after a title update;
- the pending, fulfilled and rejected steps of task creation;
- deletion;
- three plain setters;
- an optimistic reorder that persists the new order and rolls back to a snapshot when persisting fails.

Layout, one module per file:

- `task_types.dfy` (`TaskTypes`): ids, task records, transport responses,
  toasts, how a thunk settles, and `err.toString()`.
- `columns.dfy` (`Columns`): the `byColumn` object. A JavaScript object
  iterates its keys in an order that `Object.values` and `Object.entries`
  follow. So `TasksByColumn` is a map plus an explicit, duplicate-free key
  order. `Assign` is property assignment: an existing key keeps its place and
  a new key goes last. That is insertion order, which differs from
  JavaScript's order for integer-like keys (see "## Left out"). `Flatten` is
  `Object.values(...).flat()`.
- `removal.dfy` (`Removal`): the delete reducer's scan (`Splice`), which
  splices a match out while its index keeps advancing. Beside it is the
  reference filter `Without`.
- `seeding.dfy` (`Seeding`): the board payload and the two objects the seed
  builds.
- `store_invariants.dfy` (`StoreInvariants`): the cross-structure invariants,
  and one lemma per transition saying when that transition keeps them.
  - `Membership`: every record sits under its own id, and every record's id
    appears exactly once across all column lists, stated as a multiset
    equality. So every listed id has a record.
  - `Placement`: each task's `column` field names the column it sits in.
- `task_slice.dfy` (`TaskSlice`): the class `TaskStore`, with the slice's
  fields and one method per reducer and per thunk.
  - The network call of each thunk is a `Response` parameter, either success
    with the server's record or failure with a JavaScript error.
  - The store keeps two logs. `toasts` records the toast actions dispatched to
    the notification slice. `requests` records the calls handed to the
    transport.

One would expect the store to keep two invariants after every transition.
The first is `Membership`. The second is `Placement`, which says each task's
`column` field names the column it sits in. The code keeps them only in part:
- **Reorder and the `column` field.** The reorder replaces `byColumn` and
  never touches `byId`. A reorder that carries the same ids keeps
  `Membership` (`ReorderKeepsMembership`). A task moved to another column,
  though, keeps its old `column` field until the server's record next
  replaces it, so `Placement` fails (`CrossColumnMoveMisplaces`). A reorder
  inside columns keeps both (`ReorderWithinColumnsConsistent`).
- **The delete scan.** The delete reducer splices a match out of a list while
  its index keeps advancing. So the element that slides into the spliced slot
  is never examined. One would expect every occurrence of the id to go.
  When the id occurs at most once per column, which `Membership` guarantees,
  the scan gives that (`SpliceRemovesSingle`). More generally it does
  whenever no two occurrences are neighbours (`SpliceRemovesSparse`). For the
  list [x, x] the scan keeps the second x (`SpliceSkipsAdjacent`).
- **How failures surface.** `createAsyncThunk` catches title-update and
  delete failures and settles with a rejected action carrying the error's
  message (`RejectedWithError`). Create failures settle with the message as
  the rejected value (`RejectedWithValue`).

## Model

| member | source | states |
|---|---|---|
| `TaskSlice.TaskStore.constructor` | frontend/src/features/task/TaskSlice.tsx:22-28 | The initial state has empty objects, both flags off and no dialog column. It is consistent. |
| `TaskSlice.TaskStore.SetTasksByColumn` | frontend/src/features/task/TaskSlice.tsx:67-69 | `byColumn` becomes the payload. No other field may change. |
| `TaskSlice.TaskStore.SetDialogOpen` | frontend/src/features/task/TaskSlice.tsx:70-72 | `dialogOpen` becomes the payload. Nothing else changes. |
| `TaskSlice.TaskStore.SetDialogColumn` | frontend/src/features/task/TaskSlice.tsx:73-75 | `dialogColumn` becomes the given column. Nothing else changes. |
| `TaskSlice.IndexColumn` | frontend/src/features/task/TaskSlice.tsx:82-84 | The inner loop of the seed extends the index built so far by one column's tasks, exactly as `IndexById` of the longer list. |
| `TaskSlice.TaskStore.SeedBoard` | frontend/src/features/task/TaskSlice.tsx:78-89 | `byColumn` and `byId` are replaced by objects built from the payload alone, with no merge with the old state. So seeding twice with one payload gives one state. A well-formed payload yields a consistent store. |
| `Seeding.SeedColumnsExact` | frontend/src/features/task/TaskSlice.tsx:79-87 | With distinct column ids, the seeded keys are the payload's column ids in payload order. `byColumn[col.id]` is the ids of `col.tasks` in input order. Flattening lists every task id of the board in board order. |
| `Seeding.IndexByIdExact` | frontend/src/features/task/TaskSlice.tsx:80-84 | With distinct task ids, every task is stored under its own id, and the keys are exactly the tasks' ids, each once. |
| `Seeding.SeedByIdExact` | frontend/src/features/task/TaskSlice.tsx:81-84 | When no task id repeats across the board, seeding files every task of every column under its id. This holds whatever the column ids and `column` fields are. |
| `StoreInvariants.SeedConsistent` | frontend/src/features/task/TaskSlice.tsx:78-89 | A payload with distinct column ids and task ids, where each task's `column` names the column it is in, seeds a store where `Membership` and `Placement` hold. |
| `TaskSlice.TaskStore.TitleFulfilled` | frontend/src/features/task/TaskSlice.tsx:90-92 | Only `byId[payload.id]` is overwritten, with the server's record. It keeps the store consistent when the record is for a known task in the same column. |
| `StoreInvariants.TitleUpdateConsistent` | frontend/src/features/task/TaskSlice.tsx:90-92 | Replacing a known record with one naming the same column keeps both invariants. |
| `TaskSlice.TaskStore.UpdateTaskTitle` | frontend/src/features/task/TaskSlice.tsx:30-36 | The patch request is logged. On success the server's record replaces the stored one and is the fulfilled value. On failure nothing changes and the rejection carries the error's message. No toast is dispatched. |
| `TaskSlice.TaskStore.CreatePending` | frontend/src/features/task/TaskSlice.tsx:93-95 | `createLoading` becomes true. Nothing else changes. |
| `TaskSlice.TaskStore.CreateRejected` | frontend/src/features/task/TaskSlice.tsx:102-104 | `createLoading` becomes false. Nothing else changes. |
| `TaskSlice.TaskStore.CreateFulfilled` | frontend/src/features/task/TaskSlice.tsx:96-101 | The record is stored and its id is appended at the end of its column, with the earlier ids, the other columns and the key order unchanged. The dialog closes and `createLoading` is cleared. When the record's column has no list, the push throws and nothing changes. A fresh id keeps the store consistent. |
| `StoreInvariants.CreateConsistent` | frontend/src/features/task/TaskSlice.tsx:96-101 | Storing a record with a fresh id and appending it to an existing column keeps both invariants. |
| `TaskSlice.TaskStore.CreateTask` | frontend/src/features/task/TaskSlice.tsx:38-52 | The post is logged, and the loading flag was already on when it went out (`loadingAtPost`). On failure the value is the error's message, no toast is dispatched, only the flag changes, and it ends off. On success exactly one "Task created" success toast is dispatched and the record is stored as in `CreateFulfilled`. If that reducer throws, the flag stays on. |
| `TaskSlice.TaskStore.SpliceColumn` | frontend/src/features/task/TaskSlice.tsx:107-111 | The in-place scan of one column leaves that column equal to `Splice` of its old list and leaves every other column and the key order alone. |
| `TaskSlice.TaskStore.DeleteFulfilled` | frontend/src/features/task/TaskSlice.tsx:105-114 | Every column is scanned in key order and the record is dropped. An id found in no column leaves `byColumn` unchanged. In a consistent store each column equals `Without` of its old list, so the id is gone and the order of the rest is kept, and the store stays consistent. |
| `Removal.SpliceRemovesSingle` | frontend/src/features/task/TaskSlice.tsx:106-111 | When the id occurs at most once in a column, the splice-while-iterating scan equals the order-preserving filter `Without`. |
| `Removal.SpliceAbsent` | frontend/src/features/task/TaskSlice.tsx:106-111 | The scan leaves a column that lacks the id exactly as it was. |
| `Removal.SpliceRemovesSparse` | frontend/src/features/task/TaskSlice.tsx:106-111 | Whenever no two occurrences of the id are neighbours, the scan equals the filter `Without`: every occurrence goes and the other ids keep their order. |
| `Removal.SpliceSkipsAdjacent` | frontend/src/features/task/TaskSlice.tsx:107-110 | For the list [x, x] the scan keeps the second x, while the filter removes both. |
| `Removal.FlattenWithout` | frontend/src/features/task/TaskSlice.tsx:105-114 | Removing an id from every column removes it from the flattened order and changes nothing else there. |
| `StoreInvariants.DeleteConsistent` | frontend/src/features/task/TaskSlice.tsx:105-114 | In a consistent store, delete removes the id from `byId` and from every column. Each column keeps the relative order of the other ids, and both invariants still hold. |
| `Removal.SpliceAllAbsent` | frontend/src/features/task/TaskSlice.tsx:105-112 | Deleting an id that is in no column leaves `byColumn` exactly as it was. |
| `TaskSlice.TaskStore.DeleteTask` | frontend/src/features/task/TaskSlice.tsx:54-61 | The delete request is logged. Only on success is the "Task deleted" info toast dispatched and the task removed as in `DeleteFulfilled`. On failure nothing changes and the rejection carries the error's message. |
| `TaskSlice.TaskStore.UpdateTasksByColumn` | frontend/src/features/task/TaskSlice.tsx:124-142 | The sort request carries the board id, the requested mapping and the flattened order. On success `byColumn` is the requested mapping and one "Tasks ordered" success toast follows. On failure `byColumn` is exactly the snapshot taken before the call and one error toast carries the failure's text. `byId` never changes. A reorder whose columns together carry the same ids, across columns too, keeps `Membership`. A failed reorder, or one that permutes ids within their columns, keeps the store consistent. |
| `Columns.FlattenCounts` | frontend/src/features/task/TaskSlice.tsx:135 | The flattened order's length is the sum of the column lengths. Each id occurs in it once per occurrence in a column. |
| `Columns.FlattenAssign` | frontend/src/features/task/TaskSlice.tsx:98 | Assigning an existing column puts the new list exactly where the old one stood in the flattened order. The columns before and after it keep their ids and their places. The multiset loses the old list's ids and gains the new list's. A new key's ids go at the end. |
| `StoreInvariants.ReorderWithinColumnsConsistent` | frontend/src/features/task/TaskSlice.tsx:124-142 | A new order with the same key order and the same ids in each column keeps both invariants. |
| `StoreInvariants.ReorderKeepsMembership` | frontend/src/features/task/TaskSlice.tsx:124-142 | A new order whose columns together hold the same ids as before keeps `Membership`: each listed id has a record and each record's id is listed once. This covers moves across columns. |
| `StoreInvariants.CrossColumnMoveMisplaces` | frontend/src/features/task/TaskSlice.tsx:131 | A reorder that moves a task to another column leaves its `column` field stale, so `Placement` fails. |
| `TaskTypes.ErrorText` | frontend/src/features/task/TaskSlice.tsx:140 | `err.toString()` starts with the error's name and ends with its message. With both present they are joined by ": ". With one empty it is the other. |

## Left out

- The HTTP transport (`api.patch`, `api.post`, `api.delete`, the URLs built from `API_TASKS` and `API_SORT_TASKS`). Each call is one logged `Request` and a `Response` parameter, either success or failure with an error.
- The toast slice and the board slice. A toast is one logged `Toast`. The board payload is a sequence of `BoardColumn`s. The board id read from `state.board.detail?.id` is an `Option` parameter.
- Redux Toolkit machinery: `createSlice`, `createAsyncThunk`, immer drafts, dispatch and action objects. What the model keeps of them is this: a reducer that throws leaves the state unchanged, and a thunk settles in one of the ways `Settled` lists. Of a serialized error only the message is kept.
- Asynchronous interleaving. Each thunk runs as one atomic step given its outcome. So overlapping reorders, including a stale rollback that overwrites a later optimistic order, are not modelled. Overlapping creates, where the first to settle clears `createLoading`, are not modelled either.
- The JavaScript rule that integer-like keys iterate first, in ascending order. Column ids are numbers, so the program iterates `byColumn` in ascending id order. The model's key order is insertion order. This affects what `Columns.Assign` says about where a new key goes, and the payload-order and board-order claims of `Seeding.SeedColumnsExact`. It also affects the order of the flattened list sent by `TaskSlice.TaskStore.UpdateTasksByColumn` and the order in which `TaskSlice.TaskStore.DeleteFulfilled` scans the columns.
- The record fields other than id, title and column are one opaque `details` string.
- `frontend/src/components/EditActions.tsx`, a presentational component with no store logic.
