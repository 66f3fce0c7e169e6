/**
 * backend/internal/column/repo.go: the flat column repository. Each operation is
 * one transaction that checks board ownership itself, then runs the position
 * statements of queries.go. A failed check returns before any statement, and a
 * failed statement rolls the transaction back, so a failure leaves the table as it was.
 *
 * Each operation has an effect function (the outcome and the table the
 * transaction commits) and a method that runs the statements one by one and is
 * proved to match it. The lemmas check the effects against the ledger.
 */
module ColumnFlat {
  import opened Store
  import Ledger

  // ---------------------------------------------------------------------------
  // Statement sequences shared with the layered repository
  // ---------------------------------------------------------------------------

  /** QueryCreateColumn at the position QueryGetMaxColumnPosition read. */
  function AppendColumn(columns: Columns, b: BoardId, id: ColumnId, name: string, created: Timestamp, updated: Timestamp): Columns {
    columns[id := Row(b, MaxPosition(columns, b), ColumnData(name, created, updated))]
  }

  /** The shift by direction of travel when a position is given, then QueryUpdateColumn. */
  function RepositionColumn(columns: Columns, id: ColumnId, name: Option<string>, pos: Option<int>, now: Timestamp): Columns
    requires id in columns
  {
    var b, oldPos := columns[id].parent, columns[id].position;
    var shifted := if pos.Some? && pos.value != oldPos then Shift(columns, b, oldPos, pos.value) else columns;
    UpdateColumnRow(shifted, id, name, pos, now)
  }

  /** QueryDeleteColumn, then QueryDecreaseColumnsPosition above the freed slot. */
  function DeleteColumnRows(columns: Columns, id: ColumnId): Columns
    requires id in columns
  {
    DecreasePosition(columns - {id}, columns[id].parent, columns[id].position)
  }

  /** The position check of UpdateColumn: rejected unless 0 < pos < MAX, where MAX is COALESCE(MAX(position), 0) + 1. */
  function ColumnPositionAllowed(columns: Columns, b: BoardId, pos: Option<int>): bool {
    pos.None? || !(pos.value >= MaxPosition(columns, b) || pos.value <= 0)
  }

  /** The rows of the task table still pointing at a column make its DELETE violate task.column_id REFERENCES. */
  function StillReferenced(tasks: Tasks, id: ColumnId): bool {
    Count(tasks, id) != 0
  }

  // ---------------------------------------------------------------------------
  // Effects of the three transactions
  // ---------------------------------------------------------------------------

  function CreateColumnEffect(
    boards: map<BoardId, Board>, columns: Columns, b: BoardId, user: UserId,
    id: ColumnId, name: string, created: Timestamp, updated: Timestamp): (e: Result<Columns>)
    ensures e == Failure(Forbidden) <==> !CheckBoardOwnership(boards, b, user)
    ensures e == Failure(ColumnLimitReached) <==> CheckBoardOwnership(boards, b, user) && Count(columns, b) >= MaxColumns
    ensures e.Success? <==> CheckBoardOwnership(boards, b, user) && Count(columns, b) < MaxColumns && id !in columns
  {
    if !CheckBoardOwnership(boards, b, user) then Failure(Forbidden)
    else if Count(columns, b) >= MaxColumns then Failure(ColumnLimitReached)
    else if id in columns then Failure(UniqueViolation)
    else Success(AppendColumn(columns, b, id, name, created, updated))
  }

  function UpdateColumnEffect(
    boards: map<BoardId, Board>, columns: Columns, user: UserId,
    id: ColumnId, name: Option<string>, pos: Option<int>, now: Timestamp): (e: Result<Columns>)
    ensures e == Failure(ColumnNotFound) <==> id !in columns
    ensures e == Failure(Forbidden) <==> id in columns && !CheckBoardOwnership(boards, columns[id].parent, user)
    ensures e == Failure(IncorrectPosition) <==>
      id in columns && CheckBoardOwnership(boards, columns[id].parent, user) && !ColumnPositionAllowed(columns, columns[id].parent, pos)
    ensures e.Success? || e.error in {ColumnNotFound, Forbidden, IncorrectPosition}
  {
    if id !in columns then Failure(ColumnNotFound)
    else if !CheckBoardOwnership(boards, columns[id].parent, user) then Failure(Forbidden)
    else if !ColumnPositionAllowed(columns, columns[id].parent, pos) then Failure(IncorrectPosition)
    else Success(RepositionColumn(columns, id, name, pos, now))
  }

  function DeleteColumnEffect(
    boards: map<BoardId, Board>, columns: Columns, tasks: Tasks, user: UserId, id: ColumnId): (e: Result<Columns>)
    ensures e == Failure(ColumnNotFound) <==> id !in columns
    ensures e == Failure(Forbidden) <==> id in columns && !CheckBoardOwnership(boards, columns[id].parent, user)
    ensures e.Success? <==> id in columns && CheckBoardOwnership(boards, columns[id].parent, user) && !StillReferenced(tasks, id)
  {
    if id !in columns then Failure(ColumnNotFound)
    else if !CheckBoardOwnership(boards, columns[id].parent, user) then Failure(Forbidden)
    else if StillReferenced(tasks, id) then Failure(ForeignKeyViolation)
    else Success(DeleteColumnRows(columns, id))
  }

  // ---------------------------------------------------------------------------
  // The transactions, statement by statement
  // ---------------------------------------------------------------------------

  method CreateColumn(db: Database, b: BoardId, name: string, user: UserId, id: ColumnId, created: Timestamp, updated: Timestamp)
    returns (err: Outcome)
    modifies db
    ensures var e := CreateColumnEffect(old(db.boards), old(db.columns), b, user, id, name, created, updated);
      err == OutcomeOf(e) && db.columns == Committed(e, old(db.columns))
    ensures db.boards == old(db.boards) && db.tasks == old(db.tasks)
  {
    var owned := CheckBoardOwnership(db.boards, b, user);
    if !owned {
      return Fail(Forbidden);
    }
    var count := Count(db.columns, b);
    if count >= MaxColumns {
      return Fail(ColumnLimitReached);
    }
    var position := MaxPosition(db.columns, b);
    if id in db.columns {
      return Fail(UniqueViolation);
    }
    db.columns := db.columns[id := Row(b, position, ColumnData(name, created, updated))];
    return Pass;
  }

  method UpdateColumn(db: Database, user: UserId, id: ColumnId, name: Option<string>, pos: Option<int>, now: Timestamp)
    returns (err: Outcome)
    modifies db
    ensures var e := UpdateColumnEffect(old(db.boards), old(db.columns), user, id, name, pos, now);
      err == OutcomeOf(e) && db.columns == Committed(e, old(db.columns))
    ensures db.boards == old(db.boards) && db.tasks == old(db.tasks)
  {
    var lookup := ParentAndPosition(db.columns, id);
    if lookup.Failure? {
      return Fail(NoRowsAs(lookup.error, ColumnNotFound));
    }
    var (b, oldPos) := lookup.value;

    var ok := CheckBoardOwnership(db.boards, b, user);
    if !ok {
      return Fail(Forbidden);
    }

    if pos.Some? {
      var maxPos := MaxPosition(db.columns, b);
      if pos.value >= maxPos || pos.value <= 0 {
        return Fail(IncorrectPosition);
      }
    }

    if pos.Some? && pos.value != oldPos {
      if pos.value > oldPos {
        db.columns := MoveLeft(db.columns, b, oldPos, pos.value);
      } else {
        db.columns := MoveRight(db.columns, b, pos.value, oldPos);
      }
    }

    db.columns := UpdateColumnRow(db.columns, id, name, pos, now);
    return Pass;
  }

  method DeleteColumn(db: Database, user: UserId, id: ColumnId) returns (err: Outcome)
    modifies db
    ensures var e := DeleteColumnEffect(old(db.boards), old(db.columns), old(db.tasks), user, id);
      err == OutcomeOf(e) && db.columns == Committed(e, old(db.columns))
    ensures db.boards == old(db.boards) && db.tasks == old(db.tasks)
  {
    var lookup := ParentAndPosition(db.columns, id);
    if lookup.Failure? {
      return Fail(NoRowsAs(lookup.error, ColumnNotFound));
    }
    var (b, pos) := lookup.value;

    var ok := CheckBoardOwnership(db.boards, b, user);
    if !ok {
      return Fail(Forbidden);
    }

    if StillReferenced(db.tasks, id) {
      return Fail(ForeignKeyViolation);
    }
    db.columns := db.columns - {id};
    db.columns := DecreasePosition(db.columns, b, pos);
    return Pass;
  }

  // ---------------------------------------------------------------------------
  // The statement sequences against the ledger
  // ---------------------------------------------------------------------------

  /** The INSERT at COALESCE(MAX(position), 0) + 1 appends to the board's ledger and leaves every existing row as it was. */
  lemma AppendColumnAppends(boards: map<BoardId, Board>, columns: Columns, tasks: Tasks,
    b: BoardId, id: ColumnId, name: string, created: Timestamp, updated: Timestamp)
    requires Consistent(boards, columns, tasks) && b in boards && id !in columns
    ensures var after := AppendColumn(columns, b, id, name, created, updated);
      && Positions(after, b) == Ledger.Append(Positions(columns, b), id)
      && after[id].position == Count(columns, b) + 1
      && Count(after, b) == Count(columns, b) + 1
      && (forall c :: c in columns ==> after[c] == columns[c])
      && (forall q :: q != b ==> Positions(after, q) == Positions(columns, q))
      && Consistent(boards, after, tasks)
  {
    var after := AppendColumn(columns, b, id, name, created, updated);
    AppendBySql(columns, b, id, ColumnData(name, created, updated));
    Ledger.AppendKeepsDense(Positions(columns, b), id);
    Ledger.NextOfDense(Positions(columns, b));
    DenseElsewhere(columns, after, b);
  }

  /** The shift and the row UPDATE are the ledger's reorder, or change no position when none is given. */
  lemma RepositionColumnReorders(boards: map<BoardId, Board>, columns: Columns, tasks: Tasks,
    id: ColumnId, name: Option<string>, pos: Option<int>, now: Timestamp)
    requires id in columns
    ensures var b, after := columns[id].parent, RepositionColumn(columns, id, name, pos, now);
      && Positions(after, b) == (if pos.Some? then Ledger.Reorder(Positions(columns, b), id, pos.value) else Positions(columns, b))
      && (forall q :: q != b ==> Positions(after, q) == Positions(columns, q))
      && after.Keys == columns.Keys
      && (forall c :: c in after ==> after[c].parent == columns[c].parent)
      && after[id].data.name == (if name.Some? then name.value else columns[id].data.name)
      && ((pos.None? || pos.value == columns[id].position) ==> forall c :: c in columns && c != id ==> after[c] == columns[c])
  {
    var b, o := columns[id].parent, columns[id].position;
    var after := RepositionColumn(columns, id, name, pos, now);
    var n := if pos.Some? then pos.value else o;
    var shifted := Shift(columns, b, o, n);
    assert after == shifted[id := after[id]];
    ReorderBySql(columns, id, after[id]);
    if pos.None? {
      Ledger.ReorderToSelf(Positions(columns, b), id);
    }
  }

  /** Deleting and compacting is the ledger's remove on the column's board. */
  lemma DeleteColumnRowsRemoves(columns: Columns, id: ColumnId)
    requires id in columns
    ensures var b, after := columns[id].parent, DeleteColumnRows(columns, id);
      && Positions(after, b) == Ledger.Remove(Positions(columns, b), id)
      && (forall q :: q != b ==> Positions(after, q) == Positions(columns, q))
      && after.Keys == columns.Keys - {id}
      && (forall c :: c in after ==> after[c].parent == columns[c].parent)
  {
    RemoveBySql(columns, id);
  }

  /** Under a dense board, a requested position passes the check exactly when it names an existing slot 1..N. */
  lemma ColumnPositionRange(boards: map<BoardId, Board>, columns: Columns, tasks: Tasks, b: BoardId, p: int)
    requires Consistent(boards, columns, tasks)
    ensures ColumnPositionAllowed(columns, b, Some(p)) <==> 1 <= p <= Count(columns, b)
  {
    Ledger.NextOfDense(Positions(columns, b));
  }

  // ---------------------------------------------------------------------------
  // The transactions against the ledger
  // ---------------------------------------------------------------------------

  /** A created column lands at N + 1 of its board, nothing else moves, and the store stays consistent. */
  lemma CreateColumnAppends(boards: map<BoardId, Board>, columns: Columns, tasks: Tasks, b: BoardId, user: UserId,
    id: ColumnId, name: string, created: Timestamp, updated: Timestamp)
    requires Consistent(boards, columns, tasks)
    ensures var e := CreateColumnEffect(boards, columns, b, user, id, name, created, updated);
      e.Success? ==>
        && Positions(e.value, b) == Ledger.Append(Positions(columns, b), id)
        && e.value[id].position == Count(columns, b) + 1
        && Count(e.value, b) <= MaxColumns
        && (forall c :: c in columns ==> e.value[c] == columns[c])
        && Consistent(boards, e.value, tasks)
  {
    if CheckBoardOwnership(boards, b, user) && Count(columns, b) < MaxColumns && id !in columns {
      AppendColumnAppends(boards, columns, tasks, b, id, name, created, updated);
    }
  }

  /**
   * The cap: below 42 columns the owner's create with a fresh id succeeds and
   * adds one column at the end; at 42 or more it fails with ColumnLimitReached.
   */
  lemma ColumnCapacity(boards: map<BoardId, Board>, columns: Columns, tasks: Tasks, b: BoardId, user: UserId,
    id: ColumnId, name: string, created: Timestamp, updated: Timestamp)
    requires Consistent(boards, columns, tasks)
    requires CheckBoardOwnership(boards, b, user) && id !in columns
    ensures Count(columns, b) < MaxColumns ==>
      var e := CreateColumnEffect(boards, columns, b, user, id, name, created, updated);
      e.Success? && Count(e.value, b) == Count(columns, b) + 1 && e.value[id].position == Count(columns, b) + 1
    ensures Count(columns, b) >= MaxColumns ==>
      CreateColumnEffect(boards, columns, b, user, id, name, created, updated) == Failure(ColumnLimitReached)
  {
    if Count(columns, b) < MaxColumns {
      AppendColumnAppends(boards, columns, tasks, b, id, name, created, updated);
    }
  }

  /** No board reaches 43 columns: create, update and delete each keep every board within the cap. */
  lemma ColumnCapKept(boards: map<BoardId, Board>, columns: Columns, tasks: Tasks, user: UserId,
    b: BoardId, id: ColumnId, name: string, created: Timestamp, updated: Timestamp,
    target: ColumnId, rename: Option<string>, pos: Option<int>)
    requires Consistent(boards, columns, tasks) && WithinCap(columns, MaxColumns)
    ensures var e := CreateColumnEffect(boards, columns, b, user, id, name, created, updated);
      e.Success? ==> WithinCap(e.value, MaxColumns)
    ensures var e := UpdateColumnEffect(boards, columns, user, target, rename, pos, updated);
      e.Success? ==> WithinCap(e.value, MaxColumns)
    ensures var e := DeleteColumnEffect(boards, columns, tasks, user, target);
      e.Success? ==> WithinCap(e.value, MaxColumns)
  {
    CreateKeepsColumnCap(boards, columns, tasks, user, b, id, name, created, updated);
    UpdateKeepsColumnCap(boards, columns, tasks, user, target, rename, pos, updated);
    DeleteKeepsColumnCap(boards, columns, tasks, user, target);
  }

  lemma CreateKeepsColumnCap(boards: map<BoardId, Board>, columns: Columns, tasks: Tasks, user: UserId,
    b: BoardId, id: ColumnId, name: string, created: Timestamp, updated: Timestamp)
    requires Consistent(boards, columns, tasks) && WithinCap(columns, MaxColumns)
    ensures var e := CreateColumnEffect(boards, columns, b, user, id, name, created, updated);
      e.Success? ==> WithinCap(e.value, MaxColumns)
  {
    var e := CreateColumnEffect(boards, columns, b, user, id, name, created, updated);
    if e.Success? {
      assert Count(e.value, b) <= MaxColumns && forall q :: q != b ==> Positions(e.value, q) == Positions(columns, q) by {
        AppendColumnAppends(boards, columns, tasks, b, id, name, created, updated);
      }
      CapElsewhere(columns, e.value, b, MaxColumns);
    }
  }

  lemma UpdateKeepsColumnCap(boards: map<BoardId, Board>, columns: Columns, tasks: Tasks, user: UserId,
    id: ColumnId, name: Option<string>, pos: Option<int>, now: Timestamp)
    requires Consistent(boards, columns, tasks) && WithinCap(columns, MaxColumns)
    ensures var e := UpdateColumnEffect(boards, columns, user, id, name, pos, now);
      e.Success? ==> WithinCap(e.value, MaxColumns)
  {
    var e := UpdateColumnEffect(boards, columns, user, id, name, pos, now);
    if e.Success? {
      var b := columns[id].parent;
      assert Positions(e.value, b).Keys == Positions(columns, b).Keys && forall q :: q != b ==> Positions(e.value, q) == Positions(columns, q) by {
        UpdateColumnReorders(boards, columns, tasks, user, id, name, pos, now);
        if pos.Some? {
          assert id in Positions(columns, b);
          Ledger.ReorderKeepsDense(Positions(columns, b), id, pos.value);
        }
      }
      assert Count(e.value, b) == Count(columns, b);
      CapElsewhere(columns, e.value, b, MaxColumns);
    }
  }

  lemma DeleteKeepsColumnCap(boards: map<BoardId, Board>, columns: Columns, tasks: Tasks, user: UserId, id: ColumnId)
    requires Consistent(boards, columns, tasks) && WithinCap(columns, MaxColumns)
    ensures var e := DeleteColumnEffect(boards, columns, tasks, user, id);
      e.Success? ==> WithinCap(e.value, MaxColumns)
  {
    var e := DeleteColumnEffect(boards, columns, tasks, user, id);
    if e.Success? {
      var b := columns[id].parent;
      assert Count(e.value, b) < Count(columns, b) && forall q :: q != b ==> Positions(e.value, q) == Positions(columns, q) by {
        DeleteColumnCompacts(boards, columns, tasks, user, id);
      }
      CapElsewhere(columns, e.value, b, MaxColumns);
    }
  }

  /**
   * A successful update reorders the column within its board (or leaves every
   * position as it was when no position or the same one is given), renames it
   * when asked, touches no other board, and keeps the store consistent.
   */
  lemma UpdateColumnReorders(boards: map<BoardId, Board>, columns: Columns, tasks: Tasks, user: UserId,
    id: ColumnId, name: Option<string>, pos: Option<int>, now: Timestamp)
    requires Consistent(boards, columns, tasks)
    ensures var e := UpdateColumnEffect(boards, columns, user, id, name, pos, now);
      e.Success? ==>
        var b := columns[id].parent;
        && Positions(e.value, b) == (if pos.Some? then Ledger.Reorder(Positions(columns, b), id, pos.value) else Positions(columns, b))
        && (pos.Some? ==> e.value[id].position == pos.value && 1 <= pos.value <= Count(columns, b))
        && e.value[id].data.name == (if name.Some? then name.value else columns[id].data.name)
        && ((pos.None? || pos.value == columns[id].position) ==> forall c :: c in columns && c != id ==> e.value[c] == columns[c])
        && (forall q :: q != b ==> Positions(e.value, q) == Positions(columns, q))
        && Consistent(boards, e.value, tasks)
  {
    var e := UpdateColumnEffect(boards, columns, user, id, name, pos, now);
    if e.Success? {
      var b := columns[id].parent;
      RepositionColumnReorders(boards, columns, tasks, id, name, pos, now);
      if pos.Some? {
        ColumnPositionRange(boards, columns, tasks, b, pos.value);
        Ledger.ReorderKeepsDense(Positions(columns, b), id, pos.value);
      }
      DenseElsewhere(columns, e.value, b);
      assert Linked(boards, e.value, tasks);
    }
  }

  /** A successful delete removes the column from its board's ledger, closes the gap, and keeps the store consistent. */
  lemma DeleteColumnCompacts(boards: map<BoardId, Board>, columns: Columns, tasks: Tasks, user: UserId, id: ColumnId)
    requires Consistent(boards, columns, tasks)
    ensures var e := DeleteColumnEffect(boards, columns, tasks, user, id);
      e.Success? ==>
        var b := columns[id].parent;
        && Positions(e.value, b) == Ledger.Remove(Positions(columns, b), id)
        && Count(e.value, b) == Count(columns, b) - 1
        && (forall q :: q != b ==> Positions(e.value, q) == Positions(columns, q))
        && Consistent(boards, e.value, tasks)
  {
    var e := DeleteColumnEffect(boards, columns, tasks, user, id);
    if e.Success? {
      var b := columns[id].parent;
      DeleteColumnRowsRemoves(columns, id);
      Ledger.RemoveKeepsDense(Positions(columns, b), id);
      DenseElsewhere(columns, e.value, b);
      assert Positions(tasks, id).Keys == {};
      forall k | k in tasks ensures tasks[k].parent in e.value {
        assert k !in Positions(tasks, id);
      }
    }
  }
}
