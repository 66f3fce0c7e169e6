/**
 * backend/internal/task/repo/repo.go: the layered task repository. The same
 * statement sequences as the flat repository, without an ownership check (the
 * task proxy does it) and with sql.ErrNoRows returned as it is (the task service
 * relabels it). Its checkPosition is the flat one, TaskFlat.CheckPosition.
 */
module TaskLayered {
  import opened Store
  import Ledger
  import opened UpdateRequest
  import TaskFlat

  function CreateEffect(columns: Columns, tasks: Tasks, c: ColumnId,
    id: TaskId, name: string, description: string, created: Timestamp, updated: Timestamp): (e: Result<Tasks>)
    ensures e == Failure(TaskLimitReached) <==> Count(tasks, c) >= MaxTasks
    ensures e.Success? <==> Count(tasks, c) < MaxTasks && id !in tasks && c in columns
  {
    if Count(tasks, c) >= MaxTasks then Failure(TaskLimitReached)
    else if id in tasks then Failure(UniqueViolation)
    else if c !in columns then Failure(ForeignKeyViolation)
    else Success(TaskFlat.AppendTask(tasks, c, id, name, description, created, updated))
  }

  /** UpdateContent runs the UPDATE without looking the task up: an unknown id changes no row and reports no error. */
  function UpdateContentEffect(tasks: Tasks, id: TaskId, req: Request, now: Timestamp): (e: Result<Tasks>)
    ensures e.Success?
    ensures id !in tasks ==> e.value == tasks
    ensures forall c :: Positions(e.value, c) == Positions(tasks, c)
  {
    if id !in tasks then Success(tasks)
    else
      RewriteKeepsPositions(tasks, id, TaskFlat.RewriteContent(tasks, id, req, now)[id]);
      assert TaskFlat.RewriteContent(tasks, id, req, now) == tasks[id := TaskFlat.RewriteContent(tasks, id, req, now)[id]];
      Success(TaskFlat.RewriteContent(tasks, id, req, now))
  }

  function UpdateColumnEffect(columns: Columns, tasks: Tasks, id: TaskId, dest: ColumnId, pos: int, now: Timestamp)
    : (e: Result<Tasks>)
    ensures e == Failure(NoRows) <==> id !in tasks
    ensures e == Failure(IncorrectPosition) <==> id in tasks && !(1 <= pos <= MaxPosition(tasks, tasks[id].parent))
    ensures e.Success? <==> id in tasks && 1 <= pos <= MaxPosition(tasks, tasks[id].parent) && dest in columns
  {
    var lookup := ParentAndPosition(tasks, id);
    if lookup.Failure? then Failure(lookup.error)
    else
      var check := TaskFlat.CheckPosition(Success(MaxPosition(tasks, lookup.value.0)), pos);
      if check.Fail? then Failure(check.error)
      else TaskFlat.MoveTaskRows(columns, tasks, id, dest, pos, now)
  }

  function UpdatePositionEffect(tasks: Tasks, id: TaskId, pos: int, now: Timestamp): (e: Result<Tasks>)
    ensures e == Failure(NoRows) <==> id !in tasks
    ensures e == Failure(IncorrectPosition) <==> id in tasks && !(1 <= pos + 1 <= MaxPosition(tasks, tasks[id].parent))
    ensures e.Success? || e.error in {NoRows, IncorrectPosition}
  {
    var lookup := ParentAndPosition(tasks, id);
    if lookup.Failure? then Failure(lookup.error)
    else
      var check := TaskFlat.CheckPosition(Success(MaxPosition(tasks, lookup.value.0)), pos + 1);
      if check.Fail? then Failure(check.error)
      else Success(TaskFlat.RepositionTask(tasks, id, pos, now))
  }

  function DeleteEffect(tasks: Tasks, id: TaskId): (e: Result<Tasks>)
    ensures e == Failure(NoRows) <==> id !in tasks
    ensures e.Success? <==> id in tasks
  {
    var lookup := ParentAndPosition(tasks, id);
    if lookup.Failure? then Failure(lookup.error)
    else Success(TaskFlat.DeleteTaskRows(tasks, id))
  }

  class Repository {
    const db: Database

    constructor (db: Database)
      ensures this.db == db
    {
      this.db := db;
    }

    method Create(c: ColumnId, id: TaskId, name: string, description: string, created: Timestamp, updated: Timestamp)
      returns (err: Outcome)
      modifies db
      ensures var e := CreateEffect(old(db.columns), old(db.tasks), c, id, name, description, created, updated);
        err == OutcomeOf(e) && db.tasks == Committed(e, old(db.tasks))
      ensures db.boards == old(db.boards) && db.columns == old(db.columns)
    {
      var count := Count(db.tasks, c);
      if count >= MaxTasks {
        return Fail(TaskLimitReached);
      }
      var position := MaxPosition(db.tasks, c);
      if id in db.tasks {
        return Fail(UniqueViolation);
      }
      if c !in db.columns {
        return Fail(ForeignKeyViolation);
      }
      db.tasks := db.tasks[id := Row(c, position, TaskData(name, description, false, None, created, updated))];
      return Pass;
    }

    /** Get: the task's row, or sql.ErrNoRows. */
    method Get(id: TaskId) returns (r: Result<TaskRow>)
      ensures r.Success? <==> id in db.tasks
      ensures r.Success? ==> r.value == db.tasks[id]
      ensures r.Failure? ==> r.error == NoRows
    {
      if id !in db.tasks {
        return Failure(NoRows);
      }
      return Success(db.tasks[id]);
    }

    /** GetAll: the rows of one column. */
    method GetAll(c: ColumnId) returns (r: Result<Tasks>)
      ensures r.Success?
      ensures forall k :: k in r.value <==> k in db.tasks && db.tasks[k].parent == c
      ensures forall k :: k in r.value ==> r.value[k] == db.tasks[k]
    {
      return Success(map k | k in db.tasks && db.tasks[k].parent == c :: db.tasks[k]);
    }

    method UpdateContent(id: TaskId, req: Request, now: Timestamp) returns (err: Outcome)
      modifies db
      ensures var e := UpdateContentEffect(old(db.tasks), id, req, now);
        err == OutcomeOf(e) && db.tasks == Committed(e, old(db.tasks))
      ensures db.boards == old(db.boards) && db.columns == old(db.columns)
    {
      db.tasks := TaskFlat.RewriteContent(db.tasks, id, req, now);
      return Pass;
    }

    method UpdateColumn(id: TaskId, req: Request, now: Timestamp) returns (err: Outcome)
      requires req.columnId.Some? && req.position.Some?
      modifies db
      ensures var e := UpdateColumnEffect(old(db.columns), old(db.tasks), id, req.columnId.value, req.position.value, now);
        err == OutcomeOf(e) && db.tasks == Committed(e, old(db.tasks))
      ensures db.boards == old(db.boards) && db.columns == old(db.columns)
    {
      var lookup := ParentAndPosition(db.tasks, id);
      if lookup.Failure? {
        return Fail(lookup.error);
      }
      var (src, oldPos) := lookup.value;

      var dest, pos := req.columnId.value, req.position.value;
      var check := TaskFlat.CheckPosition(Success(MaxPosition(db.tasks, src)), pos);
      if check.Fail? {
        return check;
      }

      var before := db.tasks;
      db.tasks := MoveForInsert(db.tasks, dest, pos);
      if dest !in db.columns {
        db.tasks := before;
        return Fail(ForeignKeyViolation);
      }
      db.tasks := db.tasks[id := db.tasks[id].(parent := dest, position := pos, data := db.tasks[id].data.(updatedAt := now))];
      db.tasks := DecreasePosition(db.tasks, src, oldPos);
      return Pass;
    }

    method UpdatePosition(id: TaskId, req: Request, now: Timestamp) returns (err: Outcome)
      requires req.position.Some?
      modifies db
      ensures var e := UpdatePositionEffect(old(db.tasks), id, req.position.value, now);
        err == OutcomeOf(e) && db.tasks == Committed(e, old(db.tasks))
      ensures db.boards == old(db.boards) && db.columns == old(db.columns)
    {
      var lookup := ParentAndPosition(db.tasks, id);
      if lookup.Failure? {
        return Fail(lookup.error);
      }
      var (c, oldPos) := lookup.value;

      var pos := req.position.value;
      var check := TaskFlat.CheckPosition(Success(MaxPosition(db.tasks, c)), pos + 1);
      if check.Fail? {
        return check;
      }

      if pos > oldPos {
        db.tasks := MoveLeft(db.tasks, c, oldPos, pos);
      } else if pos < oldPos {
        db.tasks := MoveRight(db.tasks, c, pos, oldPos);
      }
      db.tasks := db.tasks[id := db.tasks[id].(position := pos, data := db.tasks[id].data.(updatedAt := now))];
      return Pass;
    }

    method Delete(id: TaskId) returns (err: Outcome)
      modifies db
      ensures var e := DeleteEffect(old(db.tasks), id);
        err == OutcomeOf(e) && db.tasks == Committed(e, old(db.tasks))
      ensures db.boards == old(db.boards) && db.columns == old(db.columns)
    {
      var lookup := ParentAndPosition(db.tasks, id);
      if lookup.Failure? {
        return Fail(lookup.error);
      }
      var (c, pos) := lookup.value;

      db.tasks := DecreasePosition(db.tasks, c, pos);
      db.tasks := db.tasks - {id};
      return Pass;
    }

    /** GetUserByColumn: the owner of the column's board, or the lookup's error. */
    method GetUserByColumn(c: ColumnId) returns (r: Result<UserId>)
      ensures r.Success? <==> c in db.columns && db.columns[c].parent in db.boards
      ensures r.Success? ==> r.value == db.boards[db.columns[c].parent].userId
      ensures r.Failure? ==> r.error == NoRows
    {
      r := OwnerOfColumn(db.boards, db.columns, c);
    }

    /** GetUserByTask: the owner along task, column and board, or the lookup's error. */
    method GetUserByTask(k: TaskId) returns (r: Result<UserId>)
      ensures r.Success? <==>
        k in db.tasks && db.tasks[k].parent in db.columns && db.columns[db.tasks[k].parent].parent in db.boards
      ensures r.Success? ==> r.value == db.boards[db.columns[db.tasks[k].parent].parent].userId
      ensures r.Failure? ==> r.error == NoRows
    {
      r := OwnerOfTask(db.boards, db.columns, db.tasks, k);
    }
  }

  // ---------------------------------------------------------------------------
  // The layered effects against the ledger
  // ---------------------------------------------------------------------------

  /** Create appends at N + 1 without moving any task, not done, and keeps the store consistent. */
  lemma CreateAppends(boards: map<BoardId, Board>, columns: Columns, tasks: Tasks, c: ColumnId,
    id: TaskId, name: string, description: string, created: Timestamp, updated: Timestamp)
    requires Consistent(boards, columns, tasks)
    ensures var e := CreateEffect(columns, tasks, c, id, name, description, created, updated);
      e.Success? ==>
        && Positions(e.value, c) == Ledger.Append(Positions(tasks, c), id)
        && e.value[id].position == Count(tasks, c) + 1 && !e.value[id].data.done
        && Count(e.value, c) <= MaxTasks
        && (forall k :: k in tasks ==> e.value[k] == tasks[k])
        && Consistent(boards, columns, e.value)
  {
    if Count(tasks, c) < MaxTasks && id !in tasks && c in columns {
      TaskFlat.AppendTaskAppends(boards, columns, tasks, c, id, name, description, created, updated);
    }
  }

  /** UpdatePosition accepts exactly 0..N under a dense column, reorders, and keeps the store consistent except at 0. */
  lemma UpdatePositionReorders(boards: map<BoardId, Board>, columns: Columns, tasks: Tasks, id: TaskId, pos: int, now: Timestamp)
    requires Consistent(boards, columns, tasks) && id in tasks
    ensures var c, e := tasks[id].parent, UpdatePositionEffect(tasks, id, pos, now);
      && (e.Success? <==> 0 <= pos <= Count(tasks, c))
      && (e.Success? ==>
            && Positions(e.value, c) == Ledger.Reorder(Positions(tasks, c), id, pos)
            && (forall q :: q != c ==> Positions(e.value, q) == Positions(tasks, q))
            && (pos != 0 ==> Consistent(boards, columns, e.value)))
  {
    var c, e := tasks[id].parent, UpdatePositionEffect(tasks, id, pos, now);
    TaskFlat.ReorderBoundRange(boards, columns, tasks, c, pos);
    if e.Success? {
      TaskFlat.RepositionTaskReorders(tasks, id, pos, now);
      if pos != 0 {
        Ledger.ReorderKeepsDense(Positions(tasks, c), id, pos);
        DenseElsewhere(tasks, e.value, c);
      }
    }
  }

  /** UpdateColumn is the ledger's insert and remove, and keeps the store consistent when the position is a destination slot. */
  lemma UpdateColumnMoves(boards: map<BoardId, Board>, columns: Columns, tasks: Tasks,
    id: TaskId, dest: ColumnId, pos: int, now: Timestamp)
    requires Consistent(boards, columns, tasks)
    requires id in tasks && dest != tasks[id].parent
    ensures var src, e := tasks[id].parent, UpdateColumnEffect(columns, tasks, id, dest, pos, now);
      e.Success? ==>
        && Positions(e.value, dest) == Ledger.Insert(Positions(tasks, dest), id, pos)
        && Positions(e.value, src) == Ledger.Remove(Positions(tasks, src), id)
        && (forall q :: q != src && q != dest ==> Positions(e.value, q) == Positions(tasks, q))
        && (pos <= Count(tasks, dest) + 1 ==> Consistent(boards, columns, e.value))
  {
    var e := UpdateColumnEffect(columns, tasks, id, dest, pos, now);
    if e.Success? {
      assert 1 <= pos && dest in columns;
      assert e == TaskFlat.MoveTaskRows(columns, tasks, id, dest, pos, now);
      TaskFlat.MoveTaskRowsMoves(columns, tasks, id, dest, pos, now);
      if pos <= Count(tasks, dest) + 1 {
        TaskFlat.MovedKeepsConsistent(boards, columns, tasks, e.value, id, dest, pos);
      }
    }
  }

  /** Delete removes the task from its column's ledger, closes the gap, and keeps the store consistent. */
  lemma DeleteCompacts(boards: map<BoardId, Board>, columns: Columns, tasks: Tasks, id: TaskId)
    requires Consistent(boards, columns, tasks)
    ensures var e := DeleteEffect(tasks, id);
      e.Success? ==>
        var c := tasks[id].parent;
        && Positions(e.value, c) == Ledger.Remove(Positions(tasks, c), id)
        && (forall q :: q != c ==> Positions(e.value, q) == Positions(tasks, q))
        && Consistent(boards, columns, e.value)
  {
    var e := DeleteEffect(tasks, id);
    if e.Success? {
      var c := tasks[id].parent;
      TaskFlat.DeleteTaskRowsRemoves(tasks, id);
      Ledger.RemoveKeepsDense(Positions(tasks, c), id);
      DenseElsewhere(tasks, e.value, c);
    }
  }
}
