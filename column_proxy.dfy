/**
 * backend/internal/column/proxy/proxy.go in front of the column service of
 * backend/internal/column/service/service.go. The service only delegates to the
 * layered repository and reports sql.ErrNoRows as ErrColumnNotFound (also for
 * its owner lookups); that relabelling is folded in here. CreateColumn is gated
 * on the board's owner, UpdateColumn and DeleteColumn on the column's.
 */
module ColumnProxy {
  import opened Store
  import opened Ownership
  import ColumnLayered

  /** The column service's `errors.Is(err, sql.ErrNoRows)` mapped to ErrColumnNotFound. */
  function NotFound<T>(r: Result<T>): (r': Result<T>)
    ensures r'.Success? <==> r.Success?
    ensures r'.Success? ==> r' == r
    ensures r'.Failure? ==> r'.error != NoRows
    ensures r'.Failure? ==> (r'.error == ColumnNotFound <==> r.error in {NoRows, ColumnNotFound})
  {
    if r.Failure? then Failure(NoRowsAs(r.error, ColumnNotFound)) else r
  }

  /** checkBoardOwnership. */
  function BoardGate(boards: map<BoardId, Board>, b: BoardId, user: UserId): (r: Route)
    ensures r.Delegate? <==> CheckBoardOwnership(boards, b, user)
    ensures r.Deny? ==> r.error == (if b !in boards then ColumnNotFound else Forbidden)
  {
    GateMatchesBoardCheck(boards, b, user, ColumnNotFound);
    Gate(NotFound(OwnerOfBoard(boards, b)), user)
  }

  /** checkColumnOwnership. */
  function ColumnGate(boards: map<BoardId, Board>, columns: Columns, c: ColumnId, user: UserId): (r: Route)
    ensures r.Delegate? <==> CheckColumnOwnership(boards, columns, c, user)
    ensures r.Deny? ==> r.error == (if OwnerOfColumn(boards, columns, c).Failure? then ColumnNotFound else Forbidden)
  {
    GateMatchesColumnCheck(boards, columns, c, user, ColumnNotFound);
    Gate(NotFound(OwnerOfColumn(boards, columns, c)), user)
  }

  class Proxy {
    const repo: ColumnLayered.Repository

    constructor (repo: ColumnLayered.Repository)
      ensures this.repo == repo
    {
      this.repo := repo;
    }

    method CreateColumn(b: BoardId, name: string, user: UserId, id: ColumnId, created: Timestamp, updated: Timestamp)
      returns (err: Outcome)
      modifies repo.db
      ensures var db := repo.db;
        var e := Through(BoardGate(old(db.boards), b, user),
          ColumnLayered.CreateEffect(old(db.boards), old(db.columns), b, id, name, created, updated));
        err == OutcomeOf(e) && db.columns == Committed(e, old(db.columns))
      ensures repo.db.boards == old(repo.db.boards) && repo.db.tasks == old(repo.db.tasks)
    {
      var owner := repo.GetUserByBoard(b);
      var route := Gate(NotFound(owner), user);
      if route.Deny? {
        return Fail(route.error);
      }
      err := repo.Create(b, id, name, created, updated);
    }

    method UpdateColumn(c: ColumnId, user: UserId, name: Option<string>, pos: Option<int>, now: Timestamp)
      returns (err: Outcome)
      modifies repo.db
      ensures var db := repo.db;
        var e := Through(ColumnGate(old(db.boards), old(db.columns), c, user),
          NotFound(ColumnLayered.UpdateEffect(old(db.columns), c, name, pos, now)));
        err == OutcomeOf(e) && db.columns == Committed(e, old(db.columns))
      ensures repo.db.boards == old(repo.db.boards) && repo.db.tasks == old(repo.db.tasks)
    {
      var owner := repo.GetUserByColumn(c);
      var route := Gate(NotFound(owner), user);
      if route.Deny? {
        return Fail(route.error);
      }
      err := repo.Update(c, name, pos, now);
      if err.Fail? {
        err := Fail(NoRowsAs(err.error, ColumnNotFound));
      }
    }

    method DeleteColumn(c: ColumnId, user: UserId) returns (err: Outcome)
      modifies repo.db
      ensures var db := repo.db;
        var e := Through(ColumnGate(old(db.boards), old(db.columns), c, user),
          NotFound(ColumnLayered.DeleteEffect(old(db.columns), old(db.tasks), c)));
        err == OutcomeOf(e) && db.columns == Committed(e, old(db.columns))
      ensures repo.db.boards == old(repo.db.boards) && repo.db.tasks == old(repo.db.tasks)
    {
      var owner := repo.GetUserByColumn(c);
      var route := Gate(NotFound(owner), user);
      if route.Deny? {
        return Fail(route.error);
      }
      err := repo.Delete(c);
      if err.Fail? {
        err := Fail(NoRowsAs(err.error, ColumnNotFound));
      }
    }
  }
}
