/**
 * backend/internal/task/repo.go: the flat task repository. Each operation is one
 * transaction that looks the task up, checks ownership of the column it is in,
 * bounds the requested position with checkPosition, then runs the task position
 * statements (see the assumptions at the head of the Store module).
 *
 * As in the column repositories, each operation has an effect function and a
 * method that runs the statements one by one and is proved to match it.
 */
module TaskFlat {
  import opened Store
  import Ledger
  import opened UpdateRequest

  // ---------------------------------------------------------------------------
  // Helpers of task/repo.go
  // ---------------------------------------------------------------------------

  /**
   * checkPosition: read COALESCE(MAX(position), 0) + 1 as max and reject a position outside 1..max.
   * A failed read leaves max at Go's zero value, so the check then rejects every
   * position and the read error itself is never reported.
   */
  function CheckPosition(maxPos: Result<int>, pos: int): (r: Outcome)
    ensures maxPos.Success? ==> (r == Pass <==> 1 <= pos <= maxPos.value)
    ensures r.Fail? ==> r.error == IncorrectPosition
    ensures maxPos.Failure? ==> r == Fail(IncorrectPosition)
  {
    var m := if maxPos.Success? then maxPos.value else 0;
    if pos > m || pos <= 0 then Fail(IncorrectPosition)
    else OutcomeOf(maxPos)
  }

  /** getColumnIDAndPosition: the task's column and position, sql.ErrNoRows reported as errTaskNotFound. */
  function ColumnIdAndPosition(tasks: Tasks, id: TaskId): (r: Result<(ColumnId, int)>)
    ensures r.Success? <==> id in tasks
    ensures r.Success? ==> r.value == (tasks[id].parent, tasks[id].position)
    ensures r.Failure? ==> r.error == TaskNotFound
  {
    var lookup := ParentAndPosition(tasks, id);
    if lookup.Failure? then Failure(NoRowsAs(lookup.error, TaskNotFound)) else lookup
  }

  // ---------------------------------------------------------------------------
  // Statement sequences shared with the layered repository
  // ---------------------------------------------------------------------------

  /** QueryCreateTask at the position QueryGetMaxTaskPosition read, not done, without a deadline. */
  function AppendTask(tasks: Tasks, c: ColumnId, id: TaskId, name: string, description: string,
    created: Timestamp, updated: Timestamp): Tasks
  {
    tasks[id := Row(c, MaxPosition(tasks, c), TaskData(name, description, false, None, created, updated))]
  }

  function Coalesce<T>(given: Option<T>, current: T): T {
    if given.Some? then given.value else current
  }

  /** QueryUpdateTaskContent: each content field kept when its parameter is NULL; no row changes when the id is unknown. */
  function RewriteContent(tasks: Tasks, id: TaskId, req: Request, now: Timestamp): Tasks {
    if id !in tasks then tasks
    else
      var d := tasks[id].data;
      tasks[id := tasks[id].(data := TaskData(
        Coalesce(req.name, d.name), Coalesce(req.description, d.description), Coalesce(req.done, d.done),
        if req.deadline.Some? then req.deadline else d.deadline, d.createdAt, now))]
  }

  /** The shift by direction of travel (QueryMoveTasksUp / QueryMoveTasksDown), then QueryUpdateTaskPosition. */
  function RepositionTask(tasks: Tasks, id: TaskId, pos: int, now: Timestamp): Tasks
    requires id in tasks
  {
    var shifted := Shift(tasks, tasks[id].parent, tasks[id].position, pos);
    shifted[id := shifted[id].(position := pos, data := shifted[id].data.(updatedAt := now))]
  }

  /**
   * QueryMoveTasksForInsert in the destination, QueryUpdateTaskColumn, then
   * QueryMoveTaskForDelete in the source. The reparenting UPDATE violates
   * task.column_id REFERENCES when the destination does not exist, and the
   * transaction rolls back.
   */
  function MoveTaskRows(columns: Columns, tasks: Tasks, id: TaskId, dest: ColumnId, pos: int, now: Timestamp): Result<Tasks>
    requires id in tasks
  {
    var withSlot := MoveForInsert(tasks, dest, pos);
    if dest !in columns then Failure(ForeignKeyViolation)
    else
      var moved := withSlot[id := withSlot[id].(parent := dest, position := pos, data := withSlot[id].data.(updatedAt := now))];
      Success(DecreasePosition(moved, tasks[id].parent, tasks[id].position))
  }

  /** QueryMoveTaskForDelete above the task, then QueryDeleteTask. */
  function DeleteTaskRows(tasks: Tasks, id: TaskId): Tasks
    requires id in tasks
  {
    DecreasePosition(tasks, tasks[id].parent, tasks[id].position) - {id}
  }

  // ---------------------------------------------------------------------------
  // Effects of the transactions
  // ---------------------------------------------------------------------------

  function CreateTaskEffect(
    boards: map<BoardId, Board>, columns: Columns, tasks: Tasks, c: ColumnId, user: UserId,
    id: TaskId, name: string, description: string, created: Timestamp, updated: Timestamp): (e: Result<Tasks>)
    ensures e == Failure(Forbidden) <==> !CheckColumnOwnership(boards, columns, c, user)
    ensures e == Failure(TaskLimitReached) <==> CheckColumnOwnership(boards, columns, c, user) && Count(tasks, c) >= MaxTasks
    ensures e.Success? <==> CheckColumnOwnership(boards, columns, c, user) && Count(tasks, c) < MaxTasks && id !in tasks
  {
    if !CheckColumnOwnership(boards, columns, c, user) then Failure(Forbidden)
    else if Count(tasks, c) >= MaxTasks then Failure(TaskLimitReached)
    else if id in tasks then Failure(UniqueViolation)
    else Success(AppendTask(tasks, c, id, name, description, created, updated))
  }

  function UpdateTaskContentEffect(
    boards: map<BoardId, Board>, columns: Columns, tasks: Tasks, id: TaskId, user: UserId,
    req: Request, now: Timestamp): (e: Result<Tasks>)
    ensures e == Failure(TaskNotFound) <==> id !in tasks
    ensures e == Failure(Forbidden) <==> id in tasks && !CheckColumnOwnership(boards, columns, tasks[id].parent, user)
    ensures e.Success? <==> id in tasks && CheckColumnOwnership(boards, columns, tasks[id].parent, user)
    ensures e.Success? ==> forall c :: Positions(e.value, c) == Positions(tasks, c)
  {
    if id !in tasks then Failure(TaskNotFound)
    else if !CheckColumnOwnership(boards, columns, tasks[id].parent, user) then Failure(Forbidden)
    else
      RewriteKeepsPositions(tasks, id, RewriteContent(tasks, id, req, now)[id]);
      assert RewriteContent(tasks, id, req, now) == tasks[id := RewriteContent(tasks, id, req, now)[id]];
      Success(RewriteContent(tasks, id, req, now))
  }

  function UpdateTaskPositionEffect(
    boards: map<BoardId, Board>, columns: Columns, tasks: Tasks, id: TaskId, user: UserId,
    pos: int, now: Timestamp): (e: Result<Tasks>)
    ensures e == Failure(TaskNotFound) <==> id !in tasks
    ensures e == Failure(Forbidden) <==> id in tasks && !CheckColumnOwnership(boards, columns, tasks[id].parent, user)
    ensures e == Failure(IncorrectPosition) <==>
      id in tasks && CheckColumnOwnership(boards, columns, tasks[id].parent, user)
      && !(1 <= pos + 1 <= MaxPosition(tasks, tasks[id].parent))
    ensures e.Success? || e.error in {TaskNotFound, Forbidden, IncorrectPosition}
  {
    var lookup := ColumnIdAndPosition(tasks, id);
    if lookup.Failure? then Failure(lookup.error)
    else if !CheckColumnOwnership(boards, columns, lookup.value.0, user) then Failure(Forbidden)
    else
      var check := CheckPosition(Success(MaxPosition(tasks, lookup.value.0)), pos + 1);
      if check.Fail? then Failure(check.error)
      else Success(RepositionTask(tasks, id, pos, now))
  }

  function UpdateTaskColumnEffect(
    boards: map<BoardId, Board>, columns: Columns, tasks: Tasks, id: TaskId, user: UserId,
    dest: ColumnId, pos: int, now: Timestamp): (e: Result<Tasks>)
    ensures e == Failure(TaskNotFound) <==> id !in tasks
    ensures e == Failure(Forbidden) <==> id in tasks && !CheckColumnOwnership(boards, columns, tasks[id].parent, user)
    ensures e == Failure(IncorrectPosition) <==>
      id in tasks && CheckColumnOwnership(boards, columns, tasks[id].parent, user)
      && !(1 <= pos <= MaxPosition(tasks, tasks[id].parent))
    ensures e.Success? <==>
      id in tasks && CheckColumnOwnership(boards, columns, tasks[id].parent, user)
      && 1 <= pos <= MaxPosition(tasks, tasks[id].parent) && dest in columns
  {
    var lookup := ColumnIdAndPosition(tasks, id);
    if lookup.Failure? then Failure(lookup.error)
    else if !CheckColumnOwnership(boards, columns, lookup.value.0, user) then Failure(Forbidden)
    else
      var check := CheckPosition(Success(MaxPosition(tasks, lookup.value.0)), pos);
      if check.Fail? then Failure(check.error)
      else MoveTaskRows(columns, tasks, id, dest, pos, now)
  }

  function DeleteTaskEffect(
    boards: map<BoardId, Board>, columns: Columns, tasks: Tasks, id: TaskId, user: UserId): (e: Result<Tasks>)
    ensures e == Failure(TaskNotFound) <==> id !in tasks
    ensures e == Failure(Forbidden) <==> id in tasks && !CheckColumnOwnership(boards, columns, tasks[id].parent, user)
    ensures e.Success? <==> id in tasks && CheckColumnOwnership(boards, columns, tasks[id].parent, user)
  {
    var lookup := ColumnIdAndPosition(tasks, id);
    if lookup.Failure? then Failure(lookup.error)
    else if !CheckColumnOwnership(boards, columns, lookup.value.0, user) then Failure(Forbidden)
    else Success(DeleteTaskRows(tasks, id))
  }

  // ---------------------------------------------------------------------------
  // The transactions, statement by statement
  // ---------------------------------------------------------------------------

  method CreateTask(db: Database, c: ColumnId, user: UserId, id: TaskId, name: string, description: string,
    created: Timestamp, updated: Timestamp) returns (err: Outcome)
    modifies db
    ensures var e := CreateTaskEffect(old(db.boards), old(db.columns), old(db.tasks), c, user, id, name, description, created, updated);
      err == OutcomeOf(e) && db.tasks == Committed(e, old(db.tasks))
    ensures db.boards == old(db.boards) && db.columns == old(db.columns)
  {
    var ok := CheckColumnOwnership(db.boards, db.columns, c, user);
    if !ok {
      return Fail(Forbidden);
    }
    var count := Count(db.tasks, c);
    if count >= MaxTasks {
      return Fail(TaskLimitReached);
    }
    var position := MaxPosition(db.tasks, c);
    if id in db.tasks {
      return Fail(UniqueViolation);
    }
    db.tasks := db.tasks[id := Row(c, position, TaskData(name, description, false, None, created, updated))];
    return Pass;
  }

  method UpdateTaskContent(db: Database, req: Request, id: TaskId, user: UserId, now: Timestamp) returns (err: Outcome)
    modifies db
    ensures var e := UpdateTaskContentEffect(old(db.boards), old(db.columns), old(db.tasks), id, user, req, now);
      err == OutcomeOf(e) && db.tasks == Committed(e, old(db.tasks))
    ensures db.boards == old(db.boards) && db.columns == old(db.columns)
  {
    if id !in db.tasks {
      return Fail(TaskNotFound);
    }
    var c := db.tasks[id].parent;
    var ok := CheckColumnOwnership(db.boards, db.columns, c, user);
    if !ok {
      return Fail(Forbidden);
    }
    db.tasks := RewriteContent(db.tasks, id, req, now);
    return Pass;
  }

  method UpdateTaskColumn(db: Database, req: Request, id: TaskId, user: UserId, now: Timestamp) returns (err: Outcome)
    requires req.columnId.Some? && req.position.Some?
    modifies db
    ensures var e := UpdateTaskColumnEffect(old(db.boards), old(db.columns), old(db.tasks), id, user,
        req.columnId.value, req.position.value, now);
      err == OutcomeOf(e) && db.tasks == Committed(e, old(db.tasks))
    ensures db.boards == old(db.boards) && db.columns == old(db.columns)
  {
    var lookup := ColumnIdAndPosition(db.tasks, id);
    if lookup.Failure? {
      return Fail(lookup.error);
    }
    var (src, oldPos) := lookup.value;

    var ok := CheckColumnOwnership(db.boards, db.columns, src, user);
    if !ok {
      return Fail(Forbidden);
    }

    var dest, pos := req.columnId.value, req.position.value;
    var check := CheckPosition(Success(MaxPosition(db.tasks, src)), pos);
    if check.Fail? {
      return check;
    }

    var before := db.tasks;
    db.tasks := MoveForInsert(db.tasks, dest, pos);
    if dest !in db.columns {
      db.tasks := before;
      return Fail(ForeignKeyViolation);
    }
    db.tasks := db.tasks[id := db.tasks[id].(parent := dest, position := pos, data := db.tasks[id].data.(updatedAt := now))];
    db.tasks := DecreasePosition(db.tasks, src, oldPos);
    return Pass;
  }

  method UpdateTaskPosition(db: Database, req: Request, id: TaskId, user: UserId, now: Timestamp) returns (err: Outcome)
    requires req.position.Some?
    modifies db
    ensures var e := UpdateTaskPositionEffect(old(db.boards), old(db.columns), old(db.tasks), id, user, req.position.value, now);
      err == OutcomeOf(e) && db.tasks == Committed(e, old(db.tasks))
    ensures db.boards == old(db.boards) && db.columns == old(db.columns)
  {
    var lookup := ColumnIdAndPosition(db.tasks, id);
    if lookup.Failure? {
      return Fail(lookup.error);
    }
    var (c, oldPos) := lookup.value;

    var ok := CheckColumnOwnership(db.boards, db.columns, c, user);
    if !ok {
      return Fail(Forbidden);
    }

    var pos := req.position.value;
    var check := CheckPosition(Success(MaxPosition(db.tasks, c)), pos + 1);
    if check.Fail? {
      return check;
    }

    if pos > oldPos {
      db.tasks := MoveLeft(db.tasks, c, oldPos, pos);
    } else if pos < oldPos {
      db.tasks := MoveRight(db.tasks, c, pos, oldPos);
    }
    db.tasks := db.tasks[id := db.tasks[id].(position := pos, data := db.tasks[id].data.(updatedAt := now))];
    return Pass;
  }

  method DeleteTask(db: Database, id: TaskId, user: UserId) returns (err: Outcome)
    modifies db
    ensures var e := DeleteTaskEffect(old(db.boards), old(db.columns), old(db.tasks), id, user);
      err == OutcomeOf(e) && db.tasks == Committed(e, old(db.tasks))
    ensures db.boards == old(db.boards) && db.columns == old(db.columns)
  {
    var lookup := ColumnIdAndPosition(db.tasks, id);
    if lookup.Failure? {
      return Fail(lookup.error);
    }
    var (c, pos) := lookup.value;

    var ok := CheckColumnOwnership(db.boards, db.columns, c, user);
    if !ok {
      return Fail(Forbidden);
    }

    db.tasks := DecreasePosition(db.tasks, c, pos);
    db.tasks := db.tasks - {id};
    return Pass;
  }

  // ---------------------------------------------------------------------------
  // The statement sequences against the ledger
  // ---------------------------------------------------------------------------

  /** The INSERT at COALESCE(MAX(position), 0) + 1 appends to the column's ledger and leaves every existing task as it was. */
  lemma AppendTaskAppends(boards: map<BoardId, Board>, columns: Columns, tasks: Tasks, c: ColumnId,
    id: TaskId, name: string, description: string, created: Timestamp, updated: Timestamp)
    requires Consistent(boards, columns, tasks) && c in columns && id !in tasks
    ensures var after := AppendTask(tasks, c, id, name, description, created, updated);
      && Positions(after, c) == Ledger.Append(Positions(tasks, c), id)
      && after[id].position == Count(tasks, c) + 1 && !after[id].data.done
      && Count(after, c) == Count(tasks, c) + 1
      && (forall k :: k in tasks ==> after[k] == tasks[k])
      && (forall q :: q != c ==> Positions(after, q) == Positions(tasks, q))
      && Consistent(boards, columns, after)
  {
    var after := AppendTask(tasks, c, id, name, description, created, updated);
    AppendBySql(tasks, c, id, TaskData(name, description, false, None, created, updated));
    Ledger.AppendKeepsDense(Positions(tasks, c), id);
    Ledger.NextOfDense(Positions(tasks, c));
    DenseElsewhere(tasks, after, c);
  }

  /** The shift and the row UPDATE are the ledger's reorder in the task's column. */
  lemma RepositionTaskReorders(tasks: Tasks, id: TaskId, pos: int, now: Timestamp)
    requires id in tasks
    ensures var c, after := tasks[id].parent, RepositionTask(tasks, id, pos, now);
      && Positions(after, c) == Ledger.Reorder(Positions(tasks, c), id, pos)
      && (forall q :: q != c ==> Positions(after, q) == Positions(tasks, q))
      && after.Keys == tasks.Keys
      && (forall k :: k in after ==> after[k].parent == tasks[k].parent)
  {
    var after := RepositionTask(tasks, id, pos, now);
    ReorderBySql(tasks, id, after[id]);
  }

  /**
   * Moving to another column is the ledger's insert there and remove in the
   * source; with the source as destination it is a reorder that lands one slot
   * short of the requested position when the task travels towards the end.
   */
  lemma MoveTaskRowsMoves(columns: Columns, tasks: Tasks, id: TaskId, dest: ColumnId, pos: int, now: Timestamp)
    requires id in tasks && dest in columns
    ensures var src, e := tasks[id].parent, MoveTaskRows(columns, tasks, id, dest, pos, now);
      && e.Success?
      && e.value.Keys == tasks.Keys && e.value[id].parent == dest
      && (forall k :: k in tasks && k != id ==> e.value[k].parent == tasks[k].parent)
      && (dest != src ==>
            && Positions(e.value, dest) == Ledger.Insert(Positions(tasks, dest), id, pos)
            && Positions(e.value, src) == Ledger.Remove(Positions(tasks, src), id))
      && (dest == src ==>
            Positions(e.value, src) == Ledger.Reorder(Positions(tasks, src), id, if pos > tasks[id].position then pos - 1 else pos))
      && (forall q :: q != src && q != dest ==> Positions(e.value, q) == Positions(tasks, q))
  {
    var src, o := tasks[id].parent, tasks[id].position;
    var withSlot := MoveForInsert(tasks, dest, pos);
    var r := withSlot[id].(parent := dest, position := pos, data := withSlot[id].data.(updatedAt := now));
    if dest != src {
      MoveBySql(tasks, id, r);
    } else {
      SameParentMoveBySql(tasks, id, r);
    }
  }

  /** Compacting above the task and deleting it is the ledger's remove in its column. */
  lemma DeleteTaskRowsRemoves(tasks: Tasks, id: TaskId)
    requires id in tasks
    ensures var c, after := tasks[id].parent, DeleteTaskRows(tasks, id);
      && Positions(after, c) == Ledger.Remove(Positions(tasks, c), id)
      && (forall q :: q != c ==> Positions(after, q) == Positions(tasks, q))
      && after.Keys == tasks.Keys - {id}
      && (forall k :: k in after ==> after[k].parent == tasks[k].parent)
  {
    RemoveBySql(tasks, id);
  }

  /** Under a dense column the reorder bound 1 <= position + 1 <= COALESCE(MAX(position), 0) + 1 admits exactly 0..N. */
  lemma ReorderBoundRange(boards: map<BoardId, Board>, columns: Columns, tasks: Tasks, c: ColumnId, pos: int)
    requires Consistent(boards, columns, tasks)
    ensures 1 <= pos + 1 <= MaxPosition(tasks, c) <==> 0 <= pos <= Count(tasks, c)
  {
    Ledger.NextOfDense(Positions(tasks, c));
  }

  // ---------------------------------------------------------------------------
  // The transactions against the ledger
  // ---------------------------------------------------------------------------

  /** A created task lands at N + 1 of its column, not done, nothing else moves, and the store stays consistent. */
  lemma CreateTaskAppends(boards: map<BoardId, Board>, columns: Columns, tasks: Tasks, c: ColumnId, user: UserId,
    id: TaskId, name: string, description: string, created: Timestamp, updated: Timestamp)
    requires Consistent(boards, columns, tasks)
    ensures var e := CreateTaskEffect(boards, columns, tasks, c, user, id, name, description, created, updated);
      e.Success? ==>
        && Positions(e.value, c) == Ledger.Append(Positions(tasks, c), id)
        && e.value[id].position == Count(tasks, c) + 1 && !e.value[id].data.done
        && Count(e.value, c) <= MaxTasks
        && (forall k :: k in tasks ==> e.value[k] == tasks[k])
        && Consistent(boards, columns, e.value)
  {
    if CheckColumnOwnership(boards, columns, c, user) && Count(tasks, c) < MaxTasks && id !in tasks {
      AppendTaskAppends(boards, columns, tasks, c, id, name, description, created, updated);
    }
  }

  /**
   * The cap: below 52 tasks the owner's create with a fresh id succeeds and adds
   * one task at the end; at 52 or more it fails with TaskLimitReached.
   */
  lemma TaskCapacity(boards: map<BoardId, Board>, columns: Columns, tasks: Tasks, c: ColumnId, user: UserId,
    id: TaskId, name: string, description: string, created: Timestamp, updated: Timestamp)
    requires Consistent(boards, columns, tasks)
    requires CheckColumnOwnership(boards, columns, c, user) && id !in tasks
    ensures Count(tasks, c) < MaxTasks ==>
      var e := CreateTaskEffect(boards, columns, tasks, c, user, id, name, description, created, updated);
      e.Success? && Count(e.value, c) == Count(tasks, c) + 1 && e.value[id].position == Count(tasks, c) + 1
    ensures Count(tasks, c) >= MaxTasks ==>
      CreateTaskEffect(boards, columns, tasks, c, user, id, name, description, created, updated) == Failure(TaskLimitReached)
  {
    if Count(tasks, c) < MaxTasks {
      AppendTaskAppends(boards, columns, tasks, c, id, name, description, created, updated);
    }
  }

  /** A create never takes a column past 52 tasks. */
  lemma CreateKeepsTaskCap(boards: map<BoardId, Board>, columns: Columns, tasks: Tasks, c: ColumnId, user: UserId,
    id: TaskId, name: string, description: string, created: Timestamp, updated: Timestamp)
    requires Consistent(boards, columns, tasks) && WithinCap(tasks, MaxTasks)
    ensures var e := CreateTaskEffect(boards, columns, tasks, c, user, id, name, description, created, updated);
      e.Success? ==> WithinCap(e.value, MaxTasks)
  {
    var e := CreateTaskEffect(boards, columns, tasks, c, user, id, name, description, created, updated);
    if e.Success? {
      assert Count(e.value, c) <= MaxTasks && forall q :: q != c ==> Positions(e.value, q) == Positions(tasks, q) by {
        AppendTaskAppends(boards, columns, tasks, c, id, name, description, created, updated);
      }
      CapElsewhere(tasks, e.value, c, MaxTasks);
    }
  }

  /**
   * A successful in-column reorder accepts exactly 0..N under a dense column, is
   * the ledger's reorder, touches no other column, and keeps the store
   * consistent for every position it accepts except 0.
   */
  lemma UpdateTaskPositionReorders(boards: map<BoardId, Board>, columns: Columns, tasks: Tasks,
    id: TaskId, user: UserId, pos: int, now: Timestamp)
    requires Consistent(boards, columns, tasks)
    requires id in tasks && CheckColumnOwnership(boards, columns, tasks[id].parent, user)
    ensures var c, e := tasks[id].parent, UpdateTaskPositionEffect(boards, columns, tasks, id, user, pos, now);
      && (e.Success? <==> 0 <= pos <= Count(tasks, c))
      && (e.Success? ==>
            && Positions(e.value, c) == Ledger.Reorder(Positions(tasks, c), id, pos)
            && e.value[id].position == pos
            && (forall q :: q != c ==> Positions(e.value, q) == Positions(tasks, q))
            && (pos != 0 ==> Consistent(boards, columns, e.value)))
  {
    var c, e := tasks[id].parent, UpdateTaskPositionEffect(boards, columns, tasks, id, user, pos, now);
    ReorderBoundRange(boards, columns, tasks, c, pos);
    if e.Success? {
      RepositionTaskReorders(tasks, id, pos, now);
      if pos != 0 {
        Ledger.ReorderKeepsDense(Positions(tasks, c), id, pos);
        DenseElsewhere(tasks, e.value, c);
      }
    }
  }

  /**
   * A successful cross-column move inserts the task into the destination's
   * ledger and removes it from the source's; both stay dense, and the store
   * consistent, when the position is also a slot of the destination.
   */
  lemma UpdateTaskColumnMoves(boards: map<BoardId, Board>, columns: Columns, tasks: Tasks,
    id: TaskId, user: UserId, dest: ColumnId, pos: int, now: Timestamp)
    requires Consistent(boards, columns, tasks)
    requires id in tasks && dest != tasks[id].parent
    ensures var src, e := tasks[id].parent, UpdateTaskColumnEffect(boards, columns, tasks, id, user, dest, pos, now);
      e.Success? ==>
        && Positions(e.value, dest) == Ledger.Insert(Positions(tasks, dest), id, pos)
        && Positions(e.value, src) == Ledger.Remove(Positions(tasks, src), id)
        && e.value[id].parent == dest && e.value[id].position == pos
        && (forall q :: q != src && q != dest ==> Positions(e.value, q) == Positions(tasks, q))
        && (pos <= Count(tasks, dest) + 1 ==> Consistent(boards, columns, e.value))
  {
    var src, e := tasks[id].parent, UpdateTaskColumnEffect(boards, columns, tasks, id, user, dest, pos, now);
    if e.Success? {
      assert 1 <= pos && dest in columns;
      assert e == MoveTaskRows(columns, tasks, id, dest, pos, now);
      MoveTaskRowsMoves(columns, tasks, id, dest, pos, now);
      if pos <= Count(tasks, dest) + 1 {
        MovedKeepsConsistent(boards, columns, tasks, e.value, id, dest, pos);
      }
    }
  }

  /** Insert into a destination slot 1..N + 1 and remove from the source keep every column dense and every task linked. */
  lemma MovedKeepsConsistent(boards: map<BoardId, Board>, columns: Columns, tasks: Tasks, after: Tasks,
    id: TaskId, dest: ColumnId, pos: int)
    requires Consistent(boards, columns, tasks)
    requires id in tasks && dest != tasks[id].parent && dest in columns
    requires 1 <= pos <= Count(tasks, dest) + 1
    requires Positions(after, dest) == Ledger.Insert(Positions(tasks, dest), id, pos)
    requires Positions(after, tasks[id].parent) == Ledger.Remove(Positions(tasks, tasks[id].parent), id)
    requires forall q :: q != tasks[id].parent && q != dest ==> Positions(after, q) == Positions(tasks, q)
    requires after.Keys == tasks.Keys && after[id].parent == dest
    requires forall k :: k in tasks && k != id ==> after[k].parent == tasks[k].parent
    ensures Consistent(boards, columns, after)
  {
    var src := tasks[id].parent;
    Ledger.InsertKeepsDense(Positions(tasks, dest), id, pos);
    Ledger.RemoveKeepsDense(Positions(tasks, src), id);
    forall q ensures Ledger.Dense(Positions(after, q)) {
      if q != src && q != dest {
        assert Positions(after, q) == Positions(tasks, q);
      }
    }
  }

  /** A successful delete removes the task from its column's ledger, closes the gap, and keeps the store consistent. */
  lemma DeleteTaskCompacts(boards: map<BoardId, Board>, columns: Columns, tasks: Tasks, id: TaskId, user: UserId)
    requires Consistent(boards, columns, tasks)
    ensures var e := DeleteTaskEffect(boards, columns, tasks, id, user);
      e.Success? ==>
        var c := tasks[id].parent;
        && Positions(e.value, c) == Ledger.Remove(Positions(tasks, c), id)
        && Count(e.value, c) == Count(tasks, c) - 1
        && (forall q :: q != c ==> Positions(e.value, q) == Positions(tasks, q))
        && Consistent(boards, columns, e.value)
  {
    var e := DeleteTaskEffect(boards, columns, tasks, id, user);
    if e.Success? {
      var c := tasks[id].parent;
      DeleteTaskRowsRemoves(tasks, id);
      Ledger.RemoveKeepsDense(Positions(tasks, c), id);
      DenseElsewhere(tasks, e.value, c);
    }
  }
}
