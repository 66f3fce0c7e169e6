/**
 * The update dispatch of UpdateTaskHandler in backend/internal/task/handler.go:
 * the flat generation classifies the request (with the same
 * validateUpdateTaskRequest as the service, UpdateRequest.ValidateUpdateTaskRequest)
 * and calls one flat repository function for the route. An undefined
 * combination is answered before any repository function runs. Request
 * binding, the authenticated user lookup and the status mapping are not modelled.
 */
module TaskHandler {
  import opened Store
  import opened UpdateRequest
  import TaskFlat

  function UpdateTaskEffect(
    boards: map<BoardId, Board>, columns: Columns, tasks: Tasks, id: TaskId, user: UserId,
    req: Request, now: Timestamp): (e: Result<Tasks>)
    ensures Classify(req) == Undefined <==> e == Failure(BadUpdateRequest)
    ensures Classify(req) != Undefined ==> (e == Failure(TaskNotFound) <==> id !in tasks)
    ensures Classify(req) != Undefined && id in tasks && !CheckColumnOwnership(boards, columns, tasks[id].parent, user) ==>
      e == Failure(Forbidden)
    ensures e.Success? ==> id in tasks && CheckColumnOwnership(boards, columns, tasks[id].parent, user)
  {
    match Classify(req)
    case Column =>
      TaskFlat.UpdateTaskColumnEffect(boards, columns, tasks, id, user, req.columnId.value, req.position.value, now)
    case Position =>
      TaskFlat.UpdateTaskPositionEffect(boards, columns, tasks, id, user, req.position.value, now)
    case Content =>
      TaskFlat.UpdateTaskContentEffect(boards, columns, tasks, id, user, req, now)
    case Undefined =>
      Failure(BadUpdateRequest)
  }

  method UpdateTask(db: Database, id: TaskId, user: UserId, req: Request, now: Timestamp) returns (err: Outcome)
    modifies db
    ensures var e := UpdateTaskEffect(old(db.boards), old(db.columns), old(db.tasks), id, user, req, now);
      err == OutcomeOf(e) && db.tasks == Committed(e, old(db.tasks))
    ensures db.boards == old(db.boards) && db.columns == old(db.columns)
  {
    var updCase := ValidateUpdateTaskRequest(req);
    RoutesHaveTheirFields(req);
    match updCase {
      case Column =>
        err := TaskFlat.UpdateTaskColumn(db, req, id, user, now);
      case Position =>
        err := TaskFlat.UpdateTaskPosition(db, req, id, user, now);
      case Content =>
        err := TaskFlat.UpdateTaskContent(db, req, id, user, now);
      case Undefined =>
        err := Fail(BadUpdateRequest);
    }
  }
}
