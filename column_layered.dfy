/**
 * backend/internal/column/repo/repo.go: the layered column repository. The same
 * statement sequences as the flat repository, without an ownership check (the
 * proxy in front of the service does it) and with the lookup's sql.ErrNoRows
 * returned as it is. Without the ownership check the INSERT may also name a
 * board that does not exist, which the column.board_id REFERENCES constraint rejects.
 */
module ColumnLayered {
  import opened Store
  import Ledger
  import ColumnFlat

  function CreateEffect(
    boards: map<BoardId, Board>, columns: Columns, b: BoardId,
    id: ColumnId, name: string, created: Timestamp, updated: Timestamp): (e: Result<Columns>)
    ensures e == Failure(ColumnLimitReached) <==> Count(columns, b) >= MaxColumns
    ensures e.Success? <==> Count(columns, b) < MaxColumns && id !in columns && b in boards
  {
    if Count(columns, b) >= MaxColumns then Failure(ColumnLimitReached)
    else if id in columns then Failure(UniqueViolation)
    else if b !in boards then Failure(ForeignKeyViolation)
    else Success(ColumnFlat.AppendColumn(columns, b, id, name, created, updated))
  }

  function UpdateEffect(
    columns: Columns, id: ColumnId, name: Option<string>, pos: Option<int>, now: Timestamp): (e: Result<Columns>)
    ensures e == Failure(NoRows) <==> id !in columns
    ensures e == Failure(IncorrectPosition) <==> id in columns && !ColumnFlat.ColumnPositionAllowed(columns, columns[id].parent, pos)
    ensures e.Success? || e.error in {NoRows, IncorrectPosition}
  {
    if id !in columns then Failure(NoRows)
    else if !ColumnFlat.ColumnPositionAllowed(columns, columns[id].parent, pos) then Failure(IncorrectPosition)
    else Success(ColumnFlat.RepositionColumn(columns, id, name, pos, now))
  }

  function DeleteEffect(columns: Columns, tasks: Tasks, id: ColumnId): (e: Result<Columns>)
    ensures e == Failure(NoRows) <==> id !in columns
    ensures e.Success? <==> id in columns && !ColumnFlat.StillReferenced(tasks, id)
  {
    if id !in columns then Failure(NoRows)
    else if ColumnFlat.StillReferenced(tasks, id) then Failure(ForeignKeyViolation)
    else Success(ColumnFlat.DeleteColumnRows(columns, id))
  }

  class Repository {
    const db: Database

    constructor (db: Database)
      ensures this.db == db
    {
      this.db := db;
    }

    method Create(b: BoardId, id: ColumnId, name: string, created: Timestamp, updated: Timestamp) returns (err: Outcome)
      modifies db
      ensures var e := CreateEffect(old(db.boards), old(db.columns), b, id, name, created, updated);
        err == OutcomeOf(e) && db.columns == Committed(e, old(db.columns))
      ensures db.boards == old(db.boards) && db.tasks == old(db.tasks)
    {
      var count := Count(db.columns, b);
      if count >= MaxColumns {
        return Fail(ColumnLimitReached);
      }
      var position := MaxPosition(db.columns, b);
      if id in db.columns {
        return Fail(UniqueViolation);
      }
      if b !in db.boards {
        return Fail(ForeignKeyViolation);
      }
      db.columns := db.columns[id := Row(b, position, ColumnData(name, created, updated))];
      return Pass;
    }

    method Update(id: ColumnId, name: Option<string>, pos: Option<int>, now: Timestamp) returns (err: Outcome)
      modifies db
      ensures var e := UpdateEffect(old(db.columns), id, name, pos, now);
        err == OutcomeOf(e) && db.columns == Committed(e, old(db.columns))
      ensures db.boards == old(db.boards) && db.tasks == old(db.tasks)
    {
      var lookup := ParentAndPosition(db.columns, id);
      if lookup.Failure? {
        return Fail(lookup.error);
      }
      var (b, oldPos) := lookup.value;

      if pos.Some? {
        var maxPos := MaxPosition(db.columns, b);
        if pos.value >= maxPos || pos.value <= 0 {
          return Fail(IncorrectPosition);
        }
      }

      if pos.Some? && pos.value != oldPos {
        if pos.value > oldPos {
          db.columns := MoveLeft(db.columns, b, oldPos, pos.value);
        } else {
          db.columns := MoveRight(db.columns, b, pos.value, oldPos);
        }
      }

      db.columns := UpdateColumnRow(db.columns, id, name, pos, now);
      return Pass;
    }

    method Delete(id: ColumnId) returns (err: Outcome)
      modifies db
      ensures var e := DeleteEffect(old(db.columns), old(db.tasks), id);
        err == OutcomeOf(e) && db.columns == Committed(e, old(db.columns))
      ensures db.boards == old(db.boards) && db.tasks == old(db.tasks)
    {
      var lookup := ParentAndPosition(db.columns, id);
      if lookup.Failure? {
        return Fail(lookup.error);
      }
      var (b, pos) := lookup.value;

      if ColumnFlat.StillReferenced(db.tasks, id) {
        return Fail(ForeignKeyViolation);
      }
      db.columns := db.columns - {id};
      db.columns := DecreasePosition(db.columns, b, pos);
      return Pass;
    }

    /** GetUserByBoard: the board's owner, or the lookup's error. */
    method GetUserByBoard(b: BoardId) returns (r: Result<UserId>)
      ensures r.Success? <==> b in db.boards
      ensures r.Success? ==> r.value == db.boards[b].userId
      ensures r.Failure? ==> r.error == NoRows
    {
      r := OwnerOfBoard(db.boards, b);
    }

    /** GetUserByColumn: the owner of the column's board, or the lookup's error. */
    method GetUserByColumn(c: ColumnId) returns (r: Result<UserId>)
      ensures r.Success? <==> c in db.columns && db.columns[c].parent in db.boards
      ensures r.Success? ==> r.value == db.boards[db.columns[c].parent].userId
      ensures r.Failure? ==> r.error == NoRows
    {
      r := OwnerOfColumn(db.boards, db.columns, c);
    }
  }

  // ---------------------------------------------------------------------------
  // The layered effects against the ledger
  // ---------------------------------------------------------------------------

  /** Create appends at N + 1 without moving any existing column, and keeps the store consistent. */
  lemma CreateAppends(boards: map<BoardId, Board>, columns: Columns, tasks: Tasks, b: BoardId,
    id: ColumnId, name: string, created: Timestamp, updated: Timestamp)
    requires Consistent(boards, columns, tasks)
    ensures var e := CreateEffect(boards, columns, b, id, name, created, updated);
      e.Success? ==>
        && Positions(e.value, b) == Ledger.Append(Positions(columns, b), id)
        && e.value[id].position == Count(columns, b) + 1
        && Count(e.value, b) <= MaxColumns
        && (forall c :: c in columns ==> e.value[c] == columns[c])
        && Consistent(boards, e.value, tasks)
  {
    if Count(columns, b) < MaxColumns && id !in columns && b in boards {
      ColumnFlat.AppendColumnAppends(boards, columns, tasks, b, id, name, created, updated);
    }
  }

  /** Update reorders within the column's board exactly as the flat repository does, and keeps the store consistent. */
  lemma UpdateReorders(boards: map<BoardId, Board>, columns: Columns, tasks: Tasks,
    id: ColumnId, name: Option<string>, pos: Option<int>, now: Timestamp)
    requires Consistent(boards, columns, tasks)
    ensures var e := UpdateEffect(columns, id, name, pos, now);
      e.Success? ==>
        var b := columns[id].parent;
        && Positions(e.value, b) == (if pos.Some? then Ledger.Reorder(Positions(columns, b), id, pos.value) else Positions(columns, b))
        && (pos.Some? ==> e.value[id].position == pos.value && 1 <= pos.value <= Count(columns, b))
        && ((pos.None? || pos.value == columns[id].position) ==> forall c :: c in columns && c != id ==> e.value[c] == columns[c])
        && (forall q :: q != b ==> Positions(e.value, q) == Positions(columns, q))
        && Consistent(boards, e.value, tasks)
  {
    var e := UpdateEffect(columns, id, name, pos, now);
    if e.Success? {
      var b := columns[id].parent;
      ColumnFlat.RepositionColumnReorders(boards, columns, tasks, id, name, pos, now);
      if pos.Some? {
        ColumnFlat.ColumnPositionRange(boards, columns, tasks, b, pos.value);
        Ledger.ReorderKeepsDense(Positions(columns, b), id, pos.value);
      }
      DenseElsewhere(columns, e.value, b);
      assert Linked(boards, e.value, tasks);
    }
  }

  /** Delete removes the column from its board's ledger and closes the gap, and keeps the store consistent. */
  lemma DeleteCompacts(boards: map<BoardId, Board>, columns: Columns, tasks: Tasks, id: ColumnId)
    requires Consistent(boards, columns, tasks)
    ensures var e := DeleteEffect(columns, tasks, id);
      e.Success? ==>
        var b := columns[id].parent;
        && Positions(e.value, b) == Ledger.Remove(Positions(columns, b), id)
        && Count(e.value, b) == Count(columns, b) - 1
        && (forall q :: q != b ==> Positions(e.value, q) == Positions(columns, q))
        && Consistent(boards, e.value, tasks)
  {
    var e := DeleteEffect(columns, tasks, id);
    if e.Success? {
      var b := columns[id].parent;
      ColumnFlat.DeleteColumnRowsRemoves(columns, id);
      Ledger.RemoveKeepsDense(Positions(columns, b), id);
      DenseElsewhere(columns, e.value, b);
      assert Positions(tasks, id).Keys == {};
      forall k | k in tasks ensures tasks[k].parent in e.value {
        assert k !in Positions(tasks, id);
      }
    }
  }
}
