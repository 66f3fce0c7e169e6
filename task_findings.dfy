/**
 * Where the task repositories do not keep a column's positions 1..N, shown on
 * the flat repository as written (the layered one shares its bounds, see
 * TaskLayered), next to corrected definitions that do keep them.
 *
 *  1. The in-column reorder bounds position + 1, so position 0 is accepted.
 *  2. The cross-column move bounds the position against the source column,
 *     not the destination it is inserted into.
 *  3. The cross-column move checks the owner of the task's column only; the
 *     destination column may belong to another user.
 *  4. A "move" into the task's own column is not excluded; towards the end it
 *     lands one slot before the requested position.
 *  5. The cross-column move does not check the destination's count, so it
 *     puts a 53rd task into a full column.
 */
module TaskFindings {
  import opened Store
  import Ledger
  import TaskFlat

  // ---------------------------------------------------------------------------
  // As written
  // ---------------------------------------------------------------------------

  /** Reordering a task to position 0 succeeds and leaves its column with a position below 1. */
  lemma ReorderToZeroAccepted(boards: map<BoardId, Board>, columns: Columns, tasks: Tasks, id: TaskId, user: UserId, now: Timestamp)
    requires Consistent(boards, columns, tasks)
    requires id in tasks && CheckColumnOwnership(boards, columns, tasks[id].parent, user)
    ensures var e := TaskFlat.UpdateTaskPositionEffect(boards, columns, tasks, id, user, 0, now);
      e.Success? && e.value[id].position == 0 && !Ledger.Dense(Positions(e.value, tasks[id].parent))
  {
    var c := tasks[id].parent;
    assert id in Positions(tasks, c);
    TaskFlat.UpdateTaskPositionReorders(boards, columns, tasks, id, user, 0, now);
    Ledger.ReorderToZeroBreaksDense(Positions(tasks, c), id);
  }

  /** A position past the destination's end but within the source's bound is accepted, and leaves a hole in the destination. */
  lemma SourceBoundOverflowsDestination(boards: map<BoardId, Board>, columns: Columns, tasks: Tasks,
    id: TaskId, user: UserId, dest: ColumnId, pos: int, now: Timestamp)
    requires Consistent(boards, columns, tasks)
    requires id in tasks && CheckColumnOwnership(boards, columns, tasks[id].parent, user)
    requires dest in columns && dest != tasks[id].parent
    requires Count(tasks, dest) + 1 < pos <= Count(tasks, tasks[id].parent) + 1
    ensures var e := TaskFlat.UpdateTaskColumnEffect(boards, columns, tasks, id, user, dest, pos, now);
      e.Success? && !Ledger.Dense(Positions(e.value, dest))
  {
    Ledger.NextOfDense(Positions(tasks, tasks[id].parent));
    TaskFlat.UpdateTaskColumnMoves(boards, columns, tasks, id, user, dest, pos, now);
    assert id !in Positions(tasks, dest);
    Ledger.InsertPastEndBreaksDense(Positions(tasks, dest), id, pos);
  }

  /** A slot at the end of a longer destination is refused when the source column is shorter. */
  lemma SourceBoundRejectsDestinationSlot(boards: map<BoardId, Board>, columns: Columns, tasks: Tasks,
    id: TaskId, user: UserId, dest: ColumnId, pos: int, now: Timestamp)
    requires Consistent(boards, columns, tasks)
    requires id in tasks && CheckColumnOwnership(boards, columns, tasks[id].parent, user)
    requires Count(tasks, tasks[id].parent) + 1 < pos <= Count(tasks, dest) + 1
    ensures TaskFlat.UpdateTaskColumnEffect(boards, columns, tasks, id, user, dest, pos, now) == Failure(IncorrectPosition)
  {
    Ledger.NextOfDense(Positions(tasks, tasks[id].parent));
  }

  /** The owner of a task moves it into a column of a board they do not own. */
  lemma DestinationOwnerUnchecked(boards: map<BoardId, Board>, columns: Columns, tasks: Tasks,
    id: TaskId, user: UserId, dest: ColumnId, pos: int, now: Timestamp)
    requires Consistent(boards, columns, tasks)
    requires id in tasks && CheckColumnOwnership(boards, columns, tasks[id].parent, user)
    requires dest in columns && !CheckColumnOwnership(boards, columns, dest, user)
    requires 1 <= pos <= Count(tasks, tasks[id].parent)
    ensures var e := TaskFlat.UpdateTaskColumnEffect(boards, columns, tasks, id, user, dest, pos, now);
      e.Success? && e.value[id].parent == dest
  {
    Ledger.NextOfDense(Positions(tasks, tasks[id].parent));
    TaskFlat.UpdateTaskColumnMoves(boards, columns, tasks, id, user, dest, pos, now);
  }

  /** A move into the task's own column towards the end lands one slot before the requested position. */
  lemma SameColumnMoveLandsShort(boards: map<BoardId, Board>, columns: Columns, tasks: Tasks,
    id: TaskId, user: UserId, pos: int, now: Timestamp)
    requires Consistent(boards, columns, tasks)
    requires id in tasks && CheckColumnOwnership(boards, columns, tasks[id].parent, user)
    requires tasks[id].position < pos <= Count(tasks, tasks[id].parent)
    ensures var e := TaskFlat.UpdateTaskColumnEffect(boards, columns, tasks, id, user, tasks[id].parent, pos, now);
      e.Success? && e.value[id].position == pos - 1
  {
    var c := tasks[id].parent;
    Ledger.NextOfDense(Positions(tasks, c));
    var e := TaskFlat.UpdateTaskColumnEffect(boards, columns, tasks, id, user, c, pos, now);
    assert id in Positions(tasks, c) && Positions(tasks, c)[id] == tasks[id].position;
    assert 1 <= pos <= MaxPosition(tasks, c);
    assert e == TaskFlat.MoveTaskRows(columns, tasks, id, c, pos, now);
    TaskFlat.MoveTaskRowsMoves(columns, tasks, id, c, pos, now);
    Ledger.ReorderKeepsDense(Positions(tasks, c), id, pos - 1);
    assert Positions(e.value, c)[id] == pos - 1;
  }

  /** A move into a column that already holds 52 tasks succeeds and leaves it with 53. */
  lemma MoveIgnoresTaskLimit(boards: map<BoardId, Board>, columns: Columns, tasks: Tasks,
    id: TaskId, user: UserId, dest: ColumnId, now: Timestamp)
    requires Consistent(boards, columns, tasks)
    requires id in tasks && CheckColumnOwnership(boards, columns, tasks[id].parent, user)
    requires dest in columns && dest != tasks[id].parent && Count(tasks, dest) == MaxTasks
    ensures var e := TaskFlat.UpdateTaskColumnEffect(boards, columns, tasks, id, user, dest, 1, now);
      e.Success? && Count(e.value, dest) == MaxTasks + 1 && !WithinCap(e.value, MaxTasks) && Consistent(boards, columns, e.value)
  {
    var src := tasks[id].parent;
    assert id in Positions(tasks, src);
    Ledger.NextOfDense(Positions(tasks, src));
    var e := TaskFlat.UpdateTaskColumnEffect(boards, columns, tasks, id, user, dest, 1, now);
    assert e == TaskFlat.MoveTaskRows(columns, tasks, id, dest, 1, now);
    CrossMoveLands(boards, columns, tasks, id, dest, 1, now);
    TaskFlat.MoveTaskRowsMoves(columns, tasks, id, dest, 1, now);
    assert id !in Positions(tasks, dest);
    Ledger.InsertInRange(Positions(tasks, dest), id, 1);
    assert Count(e.value, dest) == MaxTasks + 1;
  }

  // ---------------------------------------------------------------------------
  // Corrected
  // ---------------------------------------------------------------------------

  /** The in-column reorder with the column repository's bound, 0 < position < MAX, where MAX is COALESCE(MAX(position), 0) + 1. */
  function UpdateTaskPositionEffect(
    boards: map<BoardId, Board>, columns: Columns, tasks: Tasks, id: TaskId, user: UserId,
    pos: int, now: Timestamp): (e: Result<Tasks>)
    ensures e == Failure(TaskNotFound) <==> id !in tasks
    ensures e == Failure(Forbidden) <==> id in tasks && !CheckColumnOwnership(boards, columns, tasks[id].parent, user)
    ensures e.Success? || e.error in {TaskNotFound, Forbidden, IncorrectPosition}
  {
    var lookup := TaskFlat.ColumnIdAndPosition(tasks, id);
    if lookup.Failure? then Failure(lookup.error)
    else if !CheckColumnOwnership(boards, columns, lookup.value.0, user) then Failure(Forbidden)
    else if pos >= MaxPosition(tasks, lookup.value.0) || pos <= 0 then Failure(IncorrectPosition)
    else Success(TaskFlat.RepositionTask(tasks, id, pos, now))
  }

  /** The corrected reorder accepts exactly 1..N, puts the task there, and keeps the store consistent. */
  lemma CorrectedReorderKeepsConsistent(boards: map<BoardId, Board>, columns: Columns, tasks: Tasks,
    id: TaskId, user: UserId, pos: int, now: Timestamp)
    requires Consistent(boards, columns, tasks)
    requires id in tasks && CheckColumnOwnership(boards, columns, tasks[id].parent, user)
    ensures var c, e := tasks[id].parent, UpdateTaskPositionEffect(boards, columns, tasks, id, user, pos, now);
      && (e.Success? <==> 1 <= pos <= Count(tasks, c))
      && (e.Success? ==>
            && Positions(e.value, c) == Ledger.Reorder(Positions(tasks, c), id, pos)
            && e.value[id].position == pos
            && Consistent(boards, columns, e.value))
  {
    var c, e := tasks[id].parent, UpdateTaskPositionEffect(boards, columns, tasks, id, user, pos, now);
    Ledger.NextOfDense(Positions(tasks, c));
    if e.Success? {
      TaskFlat.RepositionTaskReorders(tasks, id, pos, now);
      Ledger.ReorderKeepsDense(Positions(tasks, c), id, pos);
      DenseElsewhere(tasks, e.value, c);
    }
  }

  /**
   * The cross-column move checking the owner of both columns, refusing a full
   * destination as the create does, bounding the position by the destination
   * (1..N + 1 of another column), and treating a move into the task's own
   * column as the reorder (1..N).
   */
  function UpdateTaskColumnEffect(
    boards: map<BoardId, Board>, columns: Columns, tasks: Tasks, id: TaskId, user: UserId,
    dest: ColumnId, pos: int, now: Timestamp): (e: Result<Tasks>)
    ensures e == Failure(TaskNotFound) <==> id !in tasks
    ensures e == Failure(Forbidden) <==>
      id in tasks && !(CheckColumnOwnership(boards, columns, tasks[id].parent, user) && CheckColumnOwnership(boards, columns, dest, user))
    ensures e == Failure(TaskLimitReached) <==>
      id in tasks && CheckColumnOwnership(boards, columns, tasks[id].parent, user) && CheckColumnOwnership(boards, columns, dest, user)
      && dest != tasks[id].parent && Count(tasks, dest) >= MaxTasks
    ensures e.Success? ==> CheckColumnOwnership(boards, columns, dest, user)
  {
    var lookup := TaskFlat.ColumnIdAndPosition(tasks, id);
    if lookup.Failure? then Failure(lookup.error)
    else if !CheckColumnOwnership(boards, columns, lookup.value.0, user) || !CheckColumnOwnership(boards, columns, dest, user) then
      Failure(Forbidden)
    else if dest == lookup.value.0 then
      if pos >= MaxPosition(tasks, dest) || pos <= 0 then Failure(IncorrectPosition)
      else Success(TaskFlat.RepositionTask(tasks, id, pos, now))
    else if Count(tasks, dest) >= MaxTasks then Failure(TaskLimitReached)
    else if pos > MaxPosition(tasks, dest) || pos <= 0 then Failure(IncorrectPosition)
    else TaskFlat.MoveTaskRows(columns, tasks, id, dest, pos, now)
  }

  /**
   * The corrected move accepts exactly the destination's slots of a destination
   * below the cap, lands the task there, and keeps the store consistent.
   */
  lemma CorrectedMoveKeepsConsistent(boards: map<BoardId, Board>, columns: Columns, tasks: Tasks,
    id: TaskId, user: UserId, dest: ColumnId, pos: int, now: Timestamp)
    requires Consistent(boards, columns, tasks)
    requires id in tasks && CheckColumnOwnership(boards, columns, tasks[id].parent, user)
    requires CheckColumnOwnership(boards, columns, dest, user)
    ensures var src, e := tasks[id].parent, UpdateTaskColumnEffect(boards, columns, tasks, id, user, dest, pos, now);
      && (e.Success? <==>
            if dest == src then 1 <= pos <= Count(tasks, src)
            else Count(tasks, dest) < MaxTasks && 1 <= pos <= Count(tasks, dest) + 1)
      && (e.Success? ==> e.value[id].parent == dest && e.value[id].position == pos && Consistent(boards, columns, e.value))
  {
    var src, e := tasks[id].parent, UpdateTaskColumnEffect(boards, columns, tasks, id, user, dest, pos, now);
    if dest == src {
      assert e == UpdateTaskPositionEffect(boards, columns, tasks, id, user, pos, now);
      CorrectedReorderKeepsConsistent(boards, columns, tasks, id, user, pos, now);
    } else {
      Ledger.NextOfDense(Positions(tasks, dest));
      if e.Success? {
        CrossMoveLands(boards, columns, tasks, id, dest, pos, now);
      }
    }
  }

  /** A move to another column at a slot 1..N + 1 of the destination lands there and keeps the store consistent. */
  lemma CrossMoveLands(boards: map<BoardId, Board>, columns: Columns, tasks: Tasks,
    id: TaskId, dest: ColumnId, pos: int, now: Timestamp)
    requires Consistent(boards, columns, tasks)
    requires id in tasks && dest != tasks[id].parent && dest in columns
    requires 1 <= pos <= Count(tasks, dest) + 1
    ensures var e := TaskFlat.MoveTaskRows(columns, tasks, id, dest, pos, now);
      e.Success? && e.value[id].parent == dest && e.value[id].position == pos && Consistent(boards, columns, e.value)
  {
    var e := TaskFlat.MoveTaskRows(columns, tasks, id, dest, pos, now);
    TaskFlat.MoveTaskRowsMoves(columns, tasks, id, dest, pos, now);
    assert id !in Positions(tasks, dest);
    Ledger.InsertKeepsDense(Positions(tasks, dest), id, pos);
    assert Positions(e.value, dest)[id] == pos;
    TaskFlat.MovedKeepsConsistent(boards, columns, tasks, e.value, id, dest, pos);
  }

  /** The corrected move never takes a column past 52 tasks. */
  lemma CorrectedMoveKeepsTaskCap(boards: map<BoardId, Board>, columns: Columns, tasks: Tasks,
    id: TaskId, user: UserId, dest: ColumnId, pos: int, now: Timestamp)
    requires Consistent(boards, columns, tasks) && WithinCap(tasks, MaxTasks)
    ensures var e := UpdateTaskColumnEffect(boards, columns, tasks, id, user, dest, pos, now);
      e.Success? ==> WithinCap(e.value, MaxTasks)
  {
    var e := UpdateTaskColumnEffect(boards, columns, tasks, id, user, dest, pos, now);
    if e.Success? {
      var src := tasks[id].parent;
      if dest == src {
        assert Positions(e.value, src).Keys == Positions(tasks, src).Keys && forall q :: q != src ==> Positions(e.value, q) == Positions(tasks, q) by {
          TaskFlat.RepositionTaskReorders(tasks, id, pos, now);
          assert id in Positions(tasks, src);
          Ledger.NextOfDense(Positions(tasks, src));
          Ledger.ReorderKeepsDense(Positions(tasks, src), id, pos);
        }
        assert Count(e.value, src) == Count(tasks, src);
        CapElsewhere(tasks, e.value, src, MaxTasks);
      } else {
        Ledger.NextOfDense(Positions(tasks, dest));
        MovedCountsStayWithinCap(columns, tasks, id, dest, pos, now);
      }
    }
  }

  /** A move from a dense source into a dense destination below the cap keeps every column within it. */
  lemma MovedCountsStayWithinCap(columns: Columns, tasks: Tasks, id: TaskId, dest: ColumnId, pos: int, now: Timestamp)
    requires WithinCap(tasks, MaxTasks) && id in tasks && dest in columns && dest != tasks[id].parent
    requires Ledger.Dense(Positions(tasks, dest)) && Ledger.Dense(Positions(tasks, tasks[id].parent))
    requires Count(tasks, dest) < MaxTasks && 1 <= pos <= Count(tasks, dest) + 1
    ensures var e := TaskFlat.MoveTaskRows(columns, tasks, id, dest, pos, now);
      e.Success? && WithinCap(e.value, MaxTasks)
  {
    var src := tasks[id].parent;
    var e := TaskFlat.MoveTaskRows(columns, tasks, id, dest, pos, now);
    assert e.Success? && Count(e.value, dest) == Count(tasks, dest) + 1 && Count(e.value, src) == Count(tasks, src) - 1
      && forall q :: q != src && q != dest ==> Positions(e.value, q) == Positions(tasks, q) by {
      TaskFlat.MoveTaskRowsMoves(columns, tasks, id, dest, pos, now);
      assert id !in Positions(tasks, dest) && id in Positions(tasks, src);
      Ledger.InsertInRange(Positions(tasks, dest), id, pos);
      Ledger.RemoveKeepsDense(Positions(tasks, src), id);
    }
    forall q ensures Count(e.value, q) <= MaxTasks {
      if q != src && q != dest {
        assert Positions(e.value, q) == Positions(tasks, q);
        assert Count(tasks, q) <= MaxTasks;
      } else if q == src {
        assert Count(tasks, src) <= MaxTasks;
      }
    }
  }
}
