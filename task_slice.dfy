/**
 * The task slice: its state, its reducers, the reducers it runs for other
 * slices' and its own thunks' actions, and the thunks themselves. Each
 * thunk's network call is a `Response` parameter; the calls handed to the
 * transport and the toasts dispatched to the notification slice are kept as
 * logs on the store.
 */
module TaskSlice {
  import opened TaskTypes
  import opened Columns
  import opened Removal
  import opened Seeding
  import StoreInvariants

  /** A call handed to the transport. */
  datatype Request =
    | PatchTitle(id: TaskId, title: string)
    | PostTask(task: NewTask)
    | DeleteById(id: TaskId)
    | SortTasks(board: Option<BoardId>, tasks: TasksByColumn, order: seq<TaskId>)

  const TaskCreated: string := "Task created"
  const TaskDeleted: string := "Task deleted"
  const TasksOrdered: string := "Tasks ordered"

  /**
   * The inner loop of the seed, `byId[task.id] = task` for each task of one
   * column, on top of the tasks of the columns before it.
   */
  method IndexColumn(index: map<TaskId, Task>, tasks: seq<Task>, ghost before: seq<Task>) returns (r: map<TaskId, Task>)
    requires index == IndexById(before)
    ensures r == IndexById(before + tasks)
  {
    r := index;
    assert before + tasks[..0] == before;
    for j := 0 to |tasks|
      invariant r == IndexById(before + tasks[..j])
    {
      IndexByIdSnoc(before + tasks[..j], tasks[j]);
      assert before + tasks[..j + 1] == (before + tasks[..j]) + [tasks[j]];
      r := r[tasks[j].id := tasks[j]];
    }
    assert tasks[..|tasks|] == tasks;
  }

  class TaskStore {
    var byColumn: TasksByColumn
    var byId: map<TaskId, Task>
    var createLoading: bool
    var dialogOpen: bool
    var dialogColumn: Option<ColumnId>
    /** Toast actions dispatched so far, oldest first. */
    var toasts: seq<Toast>
    /** Transport calls made so far, oldest first. */
    var requests: seq<Request>
    /**
     * The value `createLoading` had when the last create request was handed
     * to the transport; it records that `createTask.pending` is reduced
     * before the post goes out.
     */
    ghost var loadingAtPost: bool

    predicate Consistent()
      reads this
    {
      StoreInvariants.Consistent(byId, byColumn)
    }

    /** `initialState`: empty objects, both flags off, no dialog column. */
    constructor ()
      ensures byColumn == Empty && byId == map[]
      ensures !createLoading && !dialogOpen && dialogColumn == None
      ensures toasts == [] && requests == []
      ensures Consistent()
    {
      byColumn := Empty;
      byId := map[];
      createLoading := false;
      dialogOpen := false;
      dialogColumn := None;
      toasts := [];
      requests := [];
      loadingAtPost := false;
    }

    /** Reducer `setTasksByColumn`: replace `byColumn` wholesale. */
    method SetTasksByColumn(payload: TasksByColumn)
      modifies this`byColumn
      ensures byColumn == payload
    {
      byColumn := payload;
    }

    /** Reducer `setDialogOpen`. */
    method SetDialogOpen(open: bool)
      modifies this`dialogOpen
      ensures dialogOpen == open
    {
      dialogOpen := open;
    }

    /** Reducer `setDialogColumn`. */
    method SetDialogColumn(column: ColumnId)
      modifies this`dialogColumn
      ensures dialogColumn == Some(column)
    {
      dialogColumn := Some(column);
    }

    /**
     * `fetchBoardById.fulfilled`: build both objects afresh from the board's
     * columns and replace the old ones. The result depends on the payload
     * alone, so seeding twice with one payload gives one state.
     */
    method SeedBoard(board: seq<BoardColumn>)
      modifies this`byColumn, this`byId
      ensures byColumn == SeedColumns(board) && byId == SeedById(board)
      ensures WellFormedBoard(board) ==> Consistent()
    {
      var columns: TasksByColumn := Empty;
      var index: map<TaskId, Task> := map[];
      for k := 0 to |board|
        invariant columns == SeedColumns(board[..k])
        invariant index == IndexById(AllTasks(board[..k]))
      {
        var col := board[k];
        index := IndexColumn(index, col.tasks, AllTasks(board[..k]));
        SeedSnoc(board, k);
        columns := Assign(columns, col.id, TaskIds(col.tasks));
      }
      assert board[..|board|] == board;
      byColumn := columns;
      byId := index;
      if WellFormedBoard(board) {
        StoreInvariants.SeedConsistent(board);
      }
    }

    /** `updateTaskTitle.fulfilled`: the server's record replaces the one under its id. */
    method TitleFulfilled(task: Task)
      modifies this`byId
      ensures byId == old(byId)[task.id := task]
      ensures old(Consistent()) && task.id in old(byId) && task.column == old(byId)[task.id].column
        ==> Consistent()
    {
      ghost var before := byId;
      byId := byId[task.id := task];
      if StoreInvariants.Consistent(before, byColumn) && task.id in before && task.column == before[task.id].column {
        StoreInvariants.TitleUpdateConsistent(before, byColumn, task);
      }
    }

    /** `createTask.pending`. */
    method CreatePending()
      modifies this`createLoading
      ensures createLoading
    {
      createLoading := true;
    }

    /** `createTask.rejected`: only the loading flag changes. */
    method CreateRejected()
      modifies this`createLoading
      ensures !createLoading
    {
      createLoading := false;
    }

    /**
     * `createTask.fulfilled`: store the record, append its id at the end of
     * its column's list, close the dialog and clear the loading flag. When
     * the record names a column the store has no list for, pushing onto the
     * missing list throws and the reducer's changes are discarded: `threw`
     * reports that, and then nothing has changed.
     */
    method CreateFulfilled(task: Task) returns (threw: bool)
      modifies this`byId, this`byColumn, this`dialogOpen, this`createLoading
      ensures threw <==> task.column !in old(byColumn).ids
      ensures threw ==> byId == old(byId) && byColumn == old(byColumn)
                        && dialogOpen == old(dialogOpen) && createLoading == old(createLoading)
      ensures !threw ==> byId == old(byId)[task.id := task] && !dialogOpen && !createLoading
      ensures !threw ==> byColumn == Assign(old(byColumn), task.column, old(byColumn).ids[task.column] + [task.id])
      ensures !threw ==> byColumn.keys == old(byColumn).keys
      ensures !threw ==> byColumn.ids[task.column] == old(byColumn).ids[task.column] + [task.id]
      ensures !threw ==> forall c :: c in old(byColumn).ids && c != task.column ==> byColumn.ids[c] == old(byColumn).ids[c]
      ensures !threw && old(Consistent()) && task.id !in old(byId) ==> Consistent()
    {
      if task.column !in byColumn.ids {
        return true;
      }
      ghost var ids0, columns0 := byId, byColumn;
      byId := byId[task.id := task];
      byColumn := Assign(byColumn, task.column, byColumn.ids[task.column] + [task.id]);
      dialogOpen := false;
      createLoading := false;
      if StoreInvariants.Consistent(ids0, columns0) && task.id !in ids0 {
        StoreInvariants.CreateConsistent(ids0, columns0, task);
      }
      return false;
    }

    /** One column's scan: splice out each match while the index keeps advancing. */
    method SpliceColumn(column: ColumnId, id: TaskId)
      requires column in byColumn.ids
      modifies this`byColumn
      ensures byColumn.keys == old(byColumn).keys
      ensures byColumn.ids == old(byColumn).ids[column := Splice(old(byColumn).ids[column], id, 0)]
    {
      var i := 0;
      while i < |byColumn.ids[column]|
        invariant byColumn.keys == old(byColumn).keys && column in byColumn.ids
        invariant byColumn.ids == old(byColumn).ids[column := byColumn.ids[column]]
        invariant Splice(byColumn.ids[column], id, i) == Splice(old(byColumn).ids[column], id, 0)
        decreases |byColumn.ids[column]| - i
      {
        var tasks := byColumn.ids[column];
        if tasks[i] == id {
          byColumn := Assign(byColumn, column, tasks[..i] + tasks[i + 1..]);
        }
        i := i + 1;
      }
    }

    /**
     * `deleteTask.fulfilled`: scan every column in key order, then drop the
     * record. In a consistent store this removes the id from whichever
     * column holds it, keeps every other id in its order, and keeps the
     * store consistent; an id in no column leaves every column as it was.
     */
    method DeleteFulfilled(id: TaskId)
      modifies this`byColumn, this`byId
      ensures byColumn == SpliceAll(old(byColumn), id)
      ensures byId == old(byId) - {id}
      ensures (forall c :: c in old(byColumn).ids ==> id !in old(byColumn).ids[c]) ==> byColumn == old(byColumn)
      ensures old(Consistent()) ==> Consistent()
      ensures old(Consistent()) ==> forall c :: c in byColumn.ids ==> byColumn.ids[c] == Without(old(byColumn).ids[c], id)
    {
      var entries := byColumn.keys;
      for k := 0 to |entries|
        invariant byColumn.keys == entries && byId == old(byId)
        invariant byColumn.ids.Keys == old(byColumn).ids.Keys
        invariant forall c :: c in byColumn.ids ==>
          byColumn.ids[c] == if c in entries[..k] then Splice(old(byColumn).ids[c], id, 0) else old(byColumn).ids[c]
      {
        var column := entries[k];
        assert column in byColumn.ids;
        assert column !in entries[..k] by {
          assert forall j :: 0 <= j < k ==> entries[j] != entries[k];
        }
        SpliceColumn(column, id);
        assert entries[..k + 1] == entries[..k] + [column];
      }
      assert entries[..|entries|] == entries;
      forall c | c in byColumn.ids ensures byColumn.ids[c] == SpliceAll(old(byColumn), id).ids[c] {
        assert c in entries;
      }
      assert byColumn.ids == SpliceAll(old(byColumn), id).ids;
      byId := byId - {id};
      if forall c :: c in old(byColumn).ids ==> id !in old(byColumn).ids[c] {
        SpliceAllAbsent(old(byColumn), id);
      }
      if old(Consistent()) {
        StoreInvariants.DeleteConsistent(old(byId), old(byColumn), id);
      }
    }

    /**
     * Thunk `updateTaskTitle`: patch the title remotely; on success the
     * server's record replaces the stored one and is the fulfilled value, on
     * failure nothing changes and the rejection carries the error's message.
     * It dispatches no toast either way.
     */
    method UpdateTaskTitle(id: TaskId, title: string, response: Response<Task>) returns (result: Settled<Task>)
      modifies this`byId, this`requests
      ensures requests == old(requests) + [PatchTitle(id, title)]
      ensures response.Ok? ==> result == Fulfilled(response.value)
                               && byId == old(byId)[response.value.id := response.value]
      ensures response.Failed? ==> result == RejectedWithError(response.error.message) && byId == old(byId)
    {
      requests := requests + [PatchTitle(id, title)];
      match response
      case Ok(task) =>
        TitleFulfilled(task);
        result := Fulfilled(task);
      case Failed(e) =>
        result := RejectedWithError(e.message);
    }

    /**
     * Thunk `createTask`: the loading flag goes on before the request. On
     * success a "Task created" toast is dispatched and the record is stored
     * as `CreateFulfilled` says; on failure the flag goes off, no toast is
     * dispatched, nothing else changes, and the rejection carries the
     * error's message as its value.
     */
    method CreateTask(task: NewTask, response: Response<Task>) returns (result: Settled<Task>)
      modifies this`byId, this`byColumn, this`dialogOpen, this`createLoading, this`toasts, this`requests, this`loadingAtPost
      ensures requests == old(requests) + [PostTask(task)] && loadingAtPost
      ensures response.Failed? ==>
        && result == RejectedWithValue(response.error.message)
        && !createLoading && toasts == old(toasts)
        && byId == old(byId) && byColumn == old(byColumn) && dialogOpen == old(dialogOpen)
      ensures response.Ok? ==> toasts == old(toasts) + [Toast(Success, TaskCreated)]
      ensures response.Ok? && response.value.column in old(byColumn).ids ==>
        && result == Fulfilled(response.value)
        && !createLoading && !dialogOpen
        && byId == old(byId)[response.value.id := response.value]
        && byColumn == Assign(old(byColumn), response.value.column,
                              old(byColumn).ids[response.value.column] + [response.value.id])
      ensures response.Ok? && response.value.column !in old(byColumn).ids ==>
        && result == Threw
        && createLoading
        && byId == old(byId) && byColumn == old(byColumn) && dialogOpen == old(dialogOpen)
      ensures old(Consistent()) && (response.Ok? ==> response.value.id !in old(byId)) ==> Consistent()
    {
      CreatePending();
      requests := requests + [PostTask(task)];
      loadingAtPost := createLoading;
      match response
      case Ok(record) =>
        toasts := toasts + [Toast(Success, TaskCreated)];
        var threw := CreateFulfilled(record);
        result := if threw then Threw else Fulfilled(record);
      case Failed(e) =>
        CreateRejected();
        result := RejectedWithValue(e.message);
    }

    /**
     * Thunk `deleteTask`: delete remotely; only after that succeeds is the
     * "Task deleted" toast dispatched and the task removed as
     * `DeleteFulfilled` says. On failure nothing changes and the rejection
     * carries the error's message.
     */
    method DeleteTask(id: TaskId, response: Response<()>) returns (result: Settled<TaskId>)
      modifies this`byId, this`byColumn, this`toasts, this`requests
      ensures requests == old(requests) + [DeleteById(id)]
      ensures response.Ok? ==>
        && result == Fulfilled(id)
        && toasts == old(toasts) + [Toast(Info, TaskDeleted)]
        && byColumn == SpliceAll(old(byColumn), id) && byId == old(byId) - {id}
      ensures response.Failed? ==>
        && result == RejectedWithError(response.error.message)
        && toasts == old(toasts) && byColumn == old(byColumn) && byId == old(byId)
      ensures old(Consistent()) ==> Consistent()
    {
      requests := requests + [DeleteById(id)];
      match response
      case Ok(_) =>
        toasts := toasts + [Toast(Info, TaskDeleted)];
        DeleteFulfilled(id);
        result := Fulfilled(id);
      case Failed(e) =>
        result := RejectedWithError(e.message);
    }

    /**
     * Thunk `updateTasksByColumn`: snapshot `byColumn`, show the new order at
     * once, then persist it together with the flattened order. On success the
     * new order stays and a "Tasks ordered" toast is dispatched; on failure
     * the snapshot is put back exactly and an error toast carries the
     * failure's text. `byId` is never touched.
     */
    method UpdateTasksByColumn(tasksByColumn: TasksByColumn, boardId: Option<BoardId>, response: Response<()>)
      modifies this`byColumn, this`toasts, this`requests
      ensures requests == old(requests) + [SortTasks(boardId, tasksByColumn, Flatten(tasksByColumn))]
      ensures response.Ok? ==>
        byColumn == tasksByColumn && toasts == old(toasts) + [Toast(Success, TasksOrdered)]
      ensures response.Failed? ==>
        byColumn == old(byColumn) && toasts == old(toasts) + [Toast(Error, ErrorText(response.error))]
      ensures old(Consistent()) && response.Failed? ==> Consistent()
      ensures old(StoreInvariants.Membership(byId, byColumn))
              && multiset(Flatten(tasksByColumn)) == multiset(Flatten(old(byColumn)))
              ==> StoreInvariants.Membership(byId, byColumn)
      ensures old(Consistent()) && tasksByColumn.keys == old(byColumn).keys
              && (forall c :: c in old(byColumn).ids ==> multiset(tasksByColumn.ids[c]) == multiset(old(byColumn).ids[c]))
              ==> Consistent()
    {
      var previous := byColumn;
      SetTasksByColumn(tasksByColumn);
      requests := requests + [SortTasks(boardId, tasksByColumn, Flatten(tasksByColumn))];
      match response {
        case Ok(_) =>
          toasts := toasts + [Toast(Success, TasksOrdered)];
        case Failed(e) =>
          SetTasksByColumn(previous);
          toasts := toasts + [Toast(Error, ErrorText(e))];
      }
      if StoreInvariants.Membership(byId, previous) && multiset(Flatten(tasksByColumn)) == multiset(Flatten(previous)) {
        StoreInvariants.ReorderKeepsMembership(byId, previous, tasksByColumn);
      }
      if StoreInvariants.Consistent(byId, previous) && tasksByColumn.keys == previous.keys
         && (forall c :: c in previous.ids ==> multiset(tasksByColumn.ids[c]) == multiset(previous.ids[c])) {
        StoreInvariants.ReorderWithinColumnsConsistent(byId, previous, tasksByColumn);
      }
    }
  }
}
