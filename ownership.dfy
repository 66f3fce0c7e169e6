/**
 * The ownership gate shared by the layered proxies (backend/internal/task/proxy/proxy.go,
 * backend/internal/column/proxy/proxy.go, backend/internal/board/proxy/proxy.go):
 * checkXOwnership resolves the owner through the service, then the gated method
 * compares it with the caller and either delegates or refuses.
 */
module Ownership {
  import opened Store

  /** What a gated proxy method does: call the service, or return an error without calling it. */
  datatype Route = Delegate | Deny(error: Error)

  /**
   * checkXOwnership followed by `if isOwner`: a failed lookup is returned as an
   * error (never as an allow), a different owner is refused with Forbidden.
   */
  function Gate(owner: Result<UserId>, caller: UserId): (r: Route)
    ensures r.Delegate? <==> owner == Success(caller)
    ensures owner.Failure? ==> r == Deny(owner.error)
    ensures owner.Success? && owner.value != caller ==> r == Deny(Forbidden)
  {
    if owner.Failure? then Deny(owner.error)
    else if owner.value == caller then Delegate
    else Deny(Forbidden)
  }

  /** A delegated result, or the refusal as a failed result. */
  function Through<T>(r: Route, delegated: Result<T>): Result<T> {
    if r.Delegate? then delegated else Failure(r.error)
  }

  /** The gate over the column owner lookup lets through exactly the callers the flat EXISTS check accepts. */
  lemma GateMatchesColumnCheck(boards: map<BoardId, Board>, columns: Columns, c: ColumnId, caller: UserId, notFound: Error)
    requires notFound != NoRows
    ensures var owner := OwnerOfColumn(boards, columns, c);
      var relabelled := if owner.Failure? then Failure(NoRowsAs(owner.error, notFound)) else owner;
      Gate(relabelled, caller).Delegate? <==> CheckColumnOwnership(boards, columns, c, caller)
  {
    OwnershipChecksAgree(boards, columns, "", c, caller);
  }

  /** The same for the board owner lookup. */
  lemma GateMatchesBoardCheck(boards: map<BoardId, Board>, b: BoardId, caller: UserId, notFound: Error)
    requires notFound != NoRows
    ensures var owner := OwnerOfBoard(boards, b);
      var relabelled := if owner.Failure? then Failure(NoRowsAs(owner.error, notFound)) else owner;
      Gate(relabelled, caller).Delegate? <==> CheckBoardOwnership(boards, b, caller)
  {
    OwnershipChecksAgree(boards, map[], b, "", caller);
  }
}
