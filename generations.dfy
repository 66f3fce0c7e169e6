/**
 * The two generations against each other. The flat repositories check ownership
 * inside the transaction; the layered ones leave it to the proxy in front of
 * the service. On a store whose rows all point at existing containers they
 * produce the same result and the same new table, except where the order of
 * the checks differs; those differences are stated exactly.
 */
module Generations {
  import opened Store
  import opened Ownership
  import opened UpdateRequest
  import ColumnFlat
  import ColumnLayered
  import ColumnProxy
  import TaskFlat
  import TaskHandler
  import TaskService
  import TaskLayered
  import TaskProxy

  /** CreateColumn: the same outcome on an existing board; on a missing board Forbidden against ColumnNotFound. */
  lemma CreateColumnAgrees(boards: map<BoardId, Board>, columns: Columns, b: BoardId, user: UserId,
    id: ColumnId, name: string, created: Timestamp, updated: Timestamp)
    ensures var flat := ColumnFlat.CreateColumnEffect(boards, columns, b, user, id, name, created, updated);
      var layered := Through(ColumnProxy.BoardGate(boards, b, user),
        ColumnLayered.CreateEffect(boards, columns, b, id, name, created, updated));
      && (b in boards ==> flat == layered)
      && (b !in boards ==> flat == Failure(Forbidden) && layered == Failure(ColumnNotFound))
  {
    var layered := Through(ColumnProxy.BoardGate(boards, b, user),
      ColumnLayered.CreateEffect(boards, columns, b, id, name, created, updated));
    if b in boards && CheckBoardOwnership(boards, b, user) {
      assert layered == ColumnLayered.CreateEffect(boards, columns, b, id, name, created, updated);
    }
  }

  /** UpdateColumn: the same outcome and the same new table. */
  lemma UpdateColumnAgrees(boards: map<BoardId, Board>, columns: Columns, tasks: Tasks, user: UserId,
    id: ColumnId, name: Option<string>, pos: Option<int>, now: Timestamp)
    requires Linked(boards, columns, tasks)
    ensures ColumnFlat.UpdateColumnEffect(boards, columns, user, id, name, pos, now)
         == Through(ColumnProxy.ColumnGate(boards, columns, id, user),
              ColumnProxy.NotFound(ColumnLayered.UpdateEffect(columns, id, name, pos, now)))
  {
    var layered := ColumnLayered.UpdateEffect(columns, id, name, pos, now);
    if CheckColumnOwnership(boards, columns, id, user) {
      assert layered != Failure(NoRows);
    }
  }

  /** DeleteColumn: the same outcome and the same new table. */
  lemma DeleteColumnAgrees(boards: map<BoardId, Board>, columns: Columns, tasks: Tasks, user: UserId, id: ColumnId)
    requires Linked(boards, columns, tasks)
    ensures ColumnFlat.DeleteColumnEffect(boards, columns, tasks, user, id)
         == Through(ColumnProxy.ColumnGate(boards, columns, id, user),
              ColumnProxy.NotFound(ColumnLayered.DeleteEffect(columns, tasks, id)))
  {
    var layered := ColumnLayered.DeleteEffect(columns, tasks, id);
    if CheckColumnOwnership(boards, columns, id, user) {
      assert layered != Failure(NoRows);
    }
  }

  /** CreateTask: the same outcome in an existing column; in a missing one Forbidden against TaskNotFound. */
  lemma CreateTaskAgrees(boards: map<BoardId, Board>, columns: Columns, tasks: Tasks, c: ColumnId, user: UserId,
    id: TaskId, name: string, created: Timestamp, updated: Timestamp)
    requires Linked(boards, columns, tasks)
    ensures var flat := TaskFlat.CreateTaskEffect(boards, columns, tasks, c, user, id, name, "", created, updated);
      var layered := Through(TaskProxy.ColumnGate(boards, columns, c, user),
        TaskLayered.CreateEffect(columns, tasks, c, id, name, "", created, updated));
      && (c in columns ==> flat == layered)
      && (c !in columns ==> flat == Failure(Forbidden) && layered == Failure(TaskNotFound))
  {
  }

  /**
   * UpdateTask: the same outcome and new table for every request with a route.
   * For an undefined combination the flat handler answers BadUpdateRequest at
   * once, while the layered proxy first resolves the owner: an unknown task is
   * TaskNotFound there and another user's task Forbidden.
   */
  lemma UpdateTaskAgrees(boards: map<BoardId, Board>, columns: Columns, tasks: Tasks, id: TaskId, user: UserId,
    req: Request, now: Timestamp)
    requires Linked(boards, columns, tasks)
    ensures var flat := TaskHandler.UpdateTaskEffect(boards, columns, tasks, id, user, req, now);
      var layered := Through(TaskProxy.TaskGate(boards, columns, tasks, id, user),
        TaskService.UpdateTaskEffect(columns, tasks, id, req, now));
      && (Classify(req) != Undefined ==> flat == layered)
      && (Classify(req) == Undefined ==>
            && flat == Failure(BadUpdateRequest)
            && layered == (if id !in tasks then Failure(TaskNotFound)
                           else if !CheckColumnOwnership(boards, columns, tasks[id].parent, user) then Failure(Forbidden)
                           else Failure(BadUpdateRequest)))
  {
    var flat := TaskHandler.UpdateTaskEffect(boards, columns, tasks, id, user, req, now);
    var service := TaskService.UpdateTaskEffect(columns, tasks, id, req, now);
    if id in tasks && CheckColumnOwnership(boards, columns, tasks[id].parent, user) {
      match Classify(req)
      case Content =>
        assert flat == service;
      case Column =>
        assert TaskLayered.UpdateColumnEffect(columns, tasks, id, req.columnId.value, req.position.value, now) != Failure(NoRows);
        assert flat == service;
      case Position =>
        assert TaskLayered.UpdatePositionEffect(tasks, id, req.position.value, now) != Failure(NoRows);
        assert flat == service;
      case Undefined =>
    }
  }

  /** DeleteTask: the same outcome and the same new table. */
  lemma DeleteTaskAgrees(boards: map<BoardId, Board>, columns: Columns, tasks: Tasks, id: TaskId, user: UserId)
    requires Linked(boards, columns, tasks)
    ensures TaskFlat.DeleteTaskEffect(boards, columns, tasks, id, user)
         == Through(TaskProxy.TaskGate(boards, columns, tasks, id, user),
              TaskService.NotFound(TaskLayered.DeleteEffect(tasks, id)))
  {
  }
}
