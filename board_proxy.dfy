/**
 * backend/internal/board/proxy/proxy.go: which board operations the proxy gates.
 * CreateBoard and GetAllBoards act on the caller's own boards and delegate
 * without a lookup; GetBoard, UpdateBoard and DeleteBoard go through the gate
 * with the owner the board service returns. The board service and repository
 * are not part of this model, so that owner lookup is a parameter.
 */
module BoardProxy {
  import opened Store
  import opened Ownership

  datatype Operation = CreateBoard | GetAllBoards | GetBoard | UpdateBoard | DeleteBoard

  /** The operations that resolve the board's owner before delegating. */
  predicate Gated(op: Operation) {
    op.GetBoard? || op.UpdateBoard? || op.DeleteBoard?
  }

  /** The proxy's decision for one call; `owner` is what checkBoardOwnership's lookup returns. */
  function Dispatch(op: Operation, owner: Result<UserId>, caller: UserId): (r: Route)
    ensures !Gated(op) ==> r == Delegate
    ensures Gated(op) ==> (r.Delegate? <==> owner == Success(caller))
    ensures Gated(op) && owner.Failure? ==> r == Deny(owner.error)
    ensures Gated(op) && owner.Success? && owner.value != caller ==> r == Deny(Forbidden)
  {
    if Gated(op) then Gate(owner, caller) else Delegate
  }

  /** A gated operation reaches the service only for the board's owner, whatever the lookup returns for anyone else. */
  lemma GatedOnlyForOwner(op: Operation, boards: map<BoardId, Board>, b: BoardId, caller: UserId)
    requires Gated(op)
    ensures Dispatch(op, OwnerOfBoard(boards, b), caller).Delegate? <==> CheckBoardOwnership(boards, b, caller)
  {
    OwnershipChecksAgree(boards, map[], b, "", caller);
  }
}
