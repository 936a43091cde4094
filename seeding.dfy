/**
 * Seeding the store from a fetched board: the board's columns, in order, each
 * with its tasks in order. Both result objects are built from scratch, so
 * nothing of the previous store survives.
 */
module Seeding {
  import opened TaskTypes
  import opened Columns

  /** One column of the fetched board payload. */
  datatype BoardColumn = BoardColumn(id: ColumnId, tasks: seq<Task>)

  /** `tasks.map(t => t.id)`. */
  function TaskIds(tasks: seq<Task>): (r: seq<TaskId>)
    ensures |r| == |tasks| && forall i :: 0 <= i < |tasks| ==> r[i] == tasks[i].id
  {
    seq(|tasks|, i requires 0 <= i < |tasks| => tasks[i].id)
  }

  /** The column ids of the payload, in payload order. */
  function ColumnIds(board: seq<BoardColumn>): (r: seq<ColumnId>)
    ensures |r| == |board| && forall k :: 0 <= k < |board| ==> r[k] == board[k].id
  {
    seq(|board|, k requires 0 <= k < |board| => board[k].id)
  }

  /** Every task of the payload, column after column. */
  function AllTasks(board: seq<BoardColumn>): seq<Task> {
    if board == [] then [] else AllTasks(board[..|board| - 1]) + board[|board| - 1].tasks
  }

  /**
   * `byId[task.id] = task` for each task in turn: every id of the list is a
   * key, and each key maps to a task of the list that carries that id (the
   * last one when the id repeats).
   */
  function IndexById(tasks: seq<Task>): (r: map<TaskId, Task>)
    ensures forall id :: id in r <==> id in TaskIds(tasks)
    ensures forall id :: id in r ==> r[id].id == id && r[id] in tasks
  {
    if tasks == [] then map[]
    else
      var init, last := tasks[..|tasks| - 1], tasks[|tasks| - 1];
      assert TaskIds(tasks) == TaskIds(init) + [last.id];
      IndexById(init)[last.id := last]
  }

  /**
   * `byColumn[col.id] = col.tasks.map(t => t.id)` for each column in turn,
   * starting from `{}`: the keys are exactly the payload's column ids.
   */
  function SeedColumns(board: seq<BoardColumn>): (r: TasksByColumn)
    ensures forall c :: c in r.ids <==> c in ColumnIds(board)
  {
    if board == [] then Empty
    else
      var init, last := board[..|board| - 1], board[|board| - 1];
      assert ColumnIds(board) == ColumnIds(init) + [last.id];
      Assign(SeedColumns(init), last.id, TaskIds(last.tasks))
  }

  /** The `byId` object the seed builds. */
  function SeedById(board: seq<BoardColumn>): map<TaskId, Task> {
    IndexById(AllTasks(board))
  }

  /**
   * A payload the store can hold consistently: no column id twice, no task
   * id twice across the whole board, and each task filed under the column
   * its `column` field names.
   */
  predicate WellFormedBoard(board: seq<BoardColumn>) {
    && NoDup(ColumnIds(board))
    && NoDup(TaskIds(AllTasks(board)))
    && forall k, j :: 0 <= k < |board| && 0 <= j < |board[k].tasks| ==> board[k].tasks[j].column == board[k].id
  }

  /** One more task indexes on top of the ones before it. */
  lemma IndexByIdSnoc(tasks: seq<Task>, t: Task)
    ensures IndexById(tasks + [t]) == IndexById(tasks)[t.id := t]
  {
    assert (tasks + [t])[..|tasks|] == tasks;
  }

  /** Seeding one more column extends both results by that column. */
  lemma SeedSnoc(board: seq<BoardColumn>, k: nat)
    requires k < |board|
    ensures AllTasks(board[..k + 1]) == AllTasks(board[..k]) + board[k].tasks
    ensures SeedColumns(board[..k + 1]) == Assign(SeedColumns(board[..k]), board[k].id, TaskIds(board[k].tasks))
  {
    assert board[..k + 1][..k] == board[..k];
  }

  lemma TaskIdsConcat(a: seq<Task>, b: seq<Task>)
    ensures TaskIds(a + b) == TaskIds(a) + TaskIds(b)
  {
  }

  lemma {:induction false} IndexByIdLookup(tasks: seq<Task>)
    requires NoDup(TaskIds(tasks))
    ensures forall i :: 0 <= i < |tasks| ==> tasks[i].id in IndexById(tasks) && IndexById(tasks)[tasks[i].id] == tasks[i]
  {
    if tasks != [] {
      var n := |tasks| - 1;
      var init, last := tasks[..n], tasks[n];
      var ids := TaskIds(tasks);
      assert TaskIds(init) == ids[..n];
      IndexByIdLookup(init);
      forall i | 0 <= i < |tasks| ensures tasks[i].id in IndexById(tasks) && IndexById(tasks)[tasks[i].id] == tasks[i] {
        if i < n {
          assert tasks[i] == init[i];
          assert ids[i] != ids[n];
        }
      }
    }
  }

  lemma {:induction false} IndexByIdKeys(tasks: seq<Task>)
    requires NoDup(TaskIds(tasks))
    ensures multiset(TaskIds(tasks)) == multiset(IndexById(tasks).Keys)
  {
    if tasks != [] {
      var n := |tasks| - 1;
      var init, last := tasks[..n], tasks[n];
      var ids := TaskIds(tasks);
      assert TaskIds(init) == ids[..n];
      IndexByIdKeys(init);
      var m := IndexById(init);
      assert last.id !in m by {
        assert forall i :: 0 <= i < n ==> ids[..n][i] != ids[n];
      }
      assert ids == ids[..n] + [last.id];
      assert multiset(ids) == multiset(ids[..n]) + multiset{last.id};
      assert IndexById(tasks) == m[last.id := last];
      assert IndexById(tasks).Keys == m.Keys + {last.id};
      MultisetAddFresh(m.Keys, last.id);
    }
  }

  lemma MultisetAddFresh<T>(keys: set<T>, x: T)
    requires x !in keys
    ensures multiset(keys + {x}) == multiset(keys) + multiset{x}
  {
    forall y ensures multiset(keys + {x})[y] == (multiset(keys) + multiset{x})[y] {
    }
  }

  /**
   * With distinct ids, every task of the list is stored under its own id,
   * and the keys are the list's ids once each.
   */
  lemma IndexByIdExact(tasks: seq<Task>)
    requires NoDup(TaskIds(tasks))
    ensures forall i :: 0 <= i < |tasks| ==> tasks[i].id in IndexById(tasks) && IndexById(tasks)[tasks[i].id] == tasks[i]
    ensures multiset(TaskIds(tasks)) == multiset(IndexById(tasks).Keys)
  {
    IndexByIdLookup(tasks);
    IndexByIdKeys(tasks);
  }

  /**
   * With distinct column ids, the seeded object has the payload's columns in
   * payload order, each holding its tasks' ids in payload order, and
   * flattening it lists every task id of the board in board order.
   */
  lemma {:induction false} SeedColumnsExact(board: seq<BoardColumn>)
    requires NoDup(ColumnIds(board))
    ensures SeedColumns(board).keys == ColumnIds(board)
    ensures forall k :: 0 <= k < |board| ==> SeedColumns(board).ids[board[k].id] == TaskIds(board[k].tasks)
    ensures Flatten(SeedColumns(board)) == TaskIds(AllTasks(board))
  {
    if board != [] {
      var n := |board| - 1;
      var init, last := board[..n], board[n];
      assert ColumnIds(init) == ColumnIds(board)[..n];
      assert NoDup(ColumnIds(init));
      SeedColumnsExact(init);
      var t := SeedColumns(init);
      assert last.id !in ColumnIds(init) by {
        assert forall k :: 0 <= k < n ==> ColumnIds(board)[k] != ColumnIds(board)[n];
      }
      assert last.id !in t.ids;
      var r := Assign(t, last.id, TaskIds(last.tasks));
      assert SeedColumns(board) == r;
      assert r.keys == ColumnIds(board);
      forall k | 0 <= k < |board| ensures r.ids[board[k].id] == TaskIds(board[k].tasks) {
        if k < n {
          assert board[k] == init[k];
          assert ColumnIds(board)[k] != ColumnIds(board)[n];
        }
      }
      FlattenAssignBag(t, last.id, TaskIds(last.tasks));
      TaskIdsConcat(AllTasks(init), last.tasks);
    }
  }

  lemma {:induction false} TaskInAllTasks(board: seq<BoardColumn>, k: nat, j: nat)
    requires k < |board| && j < |board[k].tasks|
    ensures board[k].tasks[j] in AllTasks(board)
  {
    var n := |board| - 1;
    if k < n {
      assert board[..n][k] == board[k];
      TaskInAllTasks(board[..n], k, j);
    } else {
      assert AllTasks(board)[|AllTasks(board[..n])| + j] == board[k].tasks[j];
    }
  }

  /**
   * When no task id repeats across the payload, seeding files every task of
   * every column under its own id, whatever the column ids and the tasks'
   * `column` fields are.
   */
  lemma SeedByIdExact(board: seq<BoardColumn>, k: nat, j: nat)
    requires NoDup(TaskIds(AllTasks(board)))
    requires k < |board| && j < |board[k].tasks|
    ensures board[k].tasks[j].id in SeedById(board) && SeedById(board)[board[k].tasks[j].id] == board[k].tasks[j]
  {
    var all := AllTasks(board);
    TaskInAllTasks(board, k, j);
    IndexByIdLookup(all);
    var i :| 0 <= i < |all| && all[i] == board[k].tasks[j];
  }
}
