/**
 * What it means for `byId` and `byColumn` to agree, and which transitions of
 * the slice keep them agreeing.
 */
module StoreInvariants {
  import opened TaskTypes
  import opened Columns
  import opened Removal
  import opened Seeding

  /**
   * Every record is stored under its own id, every id in a column list has a
   * record, and every record's id sits in the column lists exactly once.
   */
  predicate Membership(byId: map<TaskId, Task>, byColumn: TasksByColumn) {
    && (forall id :: id in byId ==> byId[id].id == id)
    && multiset(Flatten(byColumn)) == multiset(byId.Keys)
  }

  /** Every task sits in the column its record's `column` field names. */
  predicate Placement(byId: map<TaskId, Task>, byColumn: TasksByColumn) {
    forall c, x :: c in byColumn.ids && x in byColumn.ids[c] ==> x in byId && byId[x].column == c
  }

  predicate Consistent(byId: map<TaskId, Task>, byColumn: TasksByColumn) {
    Membership(byId, byColumn) && Placement(byId, byColumn)
  }

  /**
   * Under the membership invariant an id appears at most once in all columns
   * together, hence at most once in each, and a listed id has a record.
   */
  lemma MembershipMeans(byId: map<TaskId, Task>, byColumn: TasksByColumn, c: ColumnId, x: TaskId)
    requires Membership(byId, byColumn) && c in byColumn.ids
    ensures multiset(Flatten(byColumn))[x] == (if x in byId then 1 else 0)
    ensures multiset(byColumn.ids[c])[x] <= 1
    ensures x in byColumn.ids[c] ==> x in byId
  {
    ColumnWithinFlatten(byColumn, c);
  }

  lemma SeedPlacedAt(board: seq<BoardColumn>, c: ColumnId, x: TaskId)
    requires WellFormedBoard(board)
    requires c in SeedColumns(board).ids && x in SeedColumns(board).ids[c]
    ensures x in SeedById(board) && SeedById(board)[x].column == c
  {
    SeedColumnsExact(board);
    var k :| 0 <= k < |board| && ColumnIds(board)[k] == c;
    var tasks := board[k].tasks;
    assert SeedColumns(board).ids[c] == TaskIds(tasks);
    var j :| 0 <= j < |tasks| && TaskIds(tasks)[j] == x;
    SeedByIdExact(board, k, j);
  }

  lemma SeedMembership(board: seq<BoardColumn>)
    requires WellFormedBoard(board)
    ensures Membership(SeedById(board), SeedColumns(board))
  {
    SeedColumnsExact(board);
    IndexByIdKeys(AllTasks(board));
  }

  lemma SeedPlacement(board: seq<BoardColumn>)
    requires WellFormedBoard(board)
    ensures Placement(SeedById(board), SeedColumns(board))
  {
    var byId, cols := SeedById(board), SeedColumns(board);
    forall c, x | c in cols.ids && x in cols.ids[c] ensures x in byId && byId[x].column == c {
      SeedPlacedAt(board, c, x);
    }
  }

  /** Seeding from a well-formed payload yields a consistent store. */
  lemma SeedConsistent(board: seq<BoardColumn>)
    requires WellFormedBoard(board)
    ensures Consistent(SeedById(board), SeedColumns(board))
  {
    SeedMembership(board);
    SeedPlacement(board);
  }

  /**
   * A title update keeps the store consistent when the server's record is
   * for a known task and names the column the task sits in.
   */
  lemma TitleUpdateConsistent(byId: map<TaskId, Task>, byColumn: TasksByColumn, task: Task)
    requires Consistent(byId, byColumn)
    requires task.id in byId && task.column == byId[task.id].column
    ensures Consistent(byId[task.id := task], byColumn)
  {
    assert byId[task.id := task].Keys == byId.Keys;
  }

  /**
   * Creating a task with a fresh id in an existing column keeps the store
   * consistent.
   */
  lemma CreateConsistent(byId: map<TaskId, Task>, byColumn: TasksByColumn, task: Task)
    requires Consistent(byId, byColumn)
    requires task.id !in byId && task.column in byColumn.ids
    ensures Consistent(byId[task.id := task],
                       Assign(byColumn, task.column, byColumn.ids[task.column] + [task.id]))
  {
    var c := task.column;
    var before := byColumn.ids[c];
    var after := before + [task.id];
    var cols' := Assign(byColumn, c, after);
    var byId' := byId[task.id := task];
    FlattenAssignBag(byColumn, c, after);
    assert multiset(after) == multiset(before) + multiset{task.id};
    forall y ensures multiset(Flatten(cols'))[y] == (multiset(Flatten(byColumn)) + multiset{task.id})[y] {
      assert (multiset(Flatten(cols')) + multiset(before))[y] == (multiset(Flatten(byColumn)) + multiset(after))[y];
    }
    assert byId'.Keys == byId.Keys + {task.id};
    MultisetAddFresh(byId.Keys, task.id);
    forall c', x | c' in cols'.ids && x in cols'.ids[c'] ensures x in byId' && byId'[x].column == c' {
      if c' == c && x != task.id {
        assert x in before;
      }
    }
  }

  /** Under the invariant, the scan removes the id from each column like `Without`. */
  lemma DeleteColumns(byId: map<TaskId, Task>, byColumn: TasksByColumn, id: TaskId)
    requires Membership(byId, byColumn)
    ensures forall c :: c in byColumn.ids ==> SpliceAll(byColumn, id).ids[c] == Without(byColumn.ids[c], id)
  {
    forall c | c in byColumn.ids ensures SpliceAll(byColumn, id).ids[c] == Without(byColumn.ids[c], id) {
      MembershipMeans(byId, byColumn, c, id);
      SpliceRemovesSingle(byColumn.ids[c], id);
    }
  }

  lemma DeleteMembership(byId: map<TaskId, Task>, byColumn: TasksByColumn, id: TaskId)
    requires Membership(byId, byColumn)
    ensures Membership(byId - {id}, SpliceAll(byColumn, id))
  {
    var cols' := SpliceAll(byColumn, id);
    var byId' := byId - {id};
    DeleteColumns(byId, byColumn, id);
    FlattenWithout(byColumn, cols', id);
    assert multiset(Flatten(cols')) == multiset(Flatten(byColumn))[id := 0];
    forall y ensures multiset(byId'.Keys)[y] == multiset(byId.Keys)[id := 0][y] {
    }
  }

  lemma DeletePlacedAt(byId: map<TaskId, Task>, byColumn: TasksByColumn, id: TaskId, c: ColumnId, x: TaskId)
    requires Placement(byId, byColumn)
    requires c in byColumn.ids && x in Without(byColumn.ids[c], id)
    ensures x in byId - {id} && (byId - {id})[x].column == c
  {
    assert multiset(Without(byColumn.ids[c], id))[x] > 0;
    assert x in byColumn.ids[c] && x != id;
  }

  lemma DeletePlacement(byId: map<TaskId, Task>, byColumn: TasksByColumn, id: TaskId)
    requires Consistent(byId, byColumn)
    ensures Placement(byId - {id}, SpliceAll(byColumn, id))
  {
    var cols' := SpliceAll(byColumn, id);
    DeleteColumns(byId, byColumn, id);
    forall c, x | c in cols'.ids && x in cols'.ids[c] ensures x in byId - {id} && (byId - {id})[x].column == c {
      DeletePlacedAt(byId, byColumn, id, c, x);
    }
  }

  /**
   * Deleting a task from a consistent store: each column loses exactly the
   * id (the rest keep their order), the id is in no column afterwards, and
   * the store stays consistent.
   */
  lemma DeleteConsistent(byId: map<TaskId, Task>, byColumn: TasksByColumn, id: TaskId)
    requires Consistent(byId, byColumn)
    ensures forall c :: c in byColumn.ids ==> SpliceAll(byColumn, id).ids[c] == Without(byColumn.ids[c], id)
    ensures forall c :: c in byColumn.ids ==> id !in SpliceAll(byColumn, id).ids[c]
    ensures Consistent(byId - {id}, SpliceAll(byColumn, id))
  {
    DeleteColumns(byId, byColumn, id);
    forall c | c in byColumn.ids ensures id !in SpliceAll(byColumn, id).ids[c] {
      assert multiset(Without(byColumn.ids[c], id))[id] == 0;
    }
    DeleteMembership(byId, byColumn, id);
    DeletePlacement(byId, byColumn, id);
  }

  /**
   * A reorder that keeps the key order and permutes ids only within their
   * own columns keeps the store consistent.
   */
  lemma ReorderWithinColumnsConsistent(byId: map<TaskId, Task>, byColumn: TasksByColumn, next: TasksByColumn)
    requires Consistent(byId, byColumn)
    requires next.keys == byColumn.keys
    requires forall c :: c in byColumn.ids ==> multiset(next.ids[c]) == multiset(byColumn.ids[c])
    ensures Consistent(byId, next)
  {
    FlattenPermuted(next, byColumn);
    forall c, x | c in next.ids && x in next.ids[c] ensures x in byId && byId[x].column == c {
      assert multiset(next.ids[c])[x] > 0;
      assert x in byColumn.ids[c];
    }
  }

  /**
   * Any reorder whose columns together carry the same ids, including one
   * that moves tasks across columns, keeps every listed id backed by a
   * record and every record's id listed exactly once.
   */
  lemma ReorderKeepsMembership(byId: map<TaskId, Task>, byColumn: TasksByColumn, next: TasksByColumn)
    requires Membership(byId, byColumn)
    requires multiset(Flatten(next)) == multiset(Flatten(byColumn))
    ensures Membership(byId, next)
  {
  }

  /**
   * The reorder never touches `byId`, so a task moved to another column keeps
   * its old `column` field: a cross-column move leaves the store misplaced
   * until the record is next replaced by the server's.
   */
  lemma CrossColumnMoveMisplaces(byId: map<TaskId, Task>, byColumn: TasksByColumn, next: TasksByColumn, x: TaskId, a: ColumnId, b: ColumnId)
    requires Consistent(byId, byColumn)
    requires a in byColumn.ids && x in byColumn.ids[a]
    requires b in next.ids && x in next.ids[b] && a != b
    ensures !Placement(byId, next)
  {
    assert byId[x].column == a;
  }
}
