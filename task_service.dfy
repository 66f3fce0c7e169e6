/**
 * backend/internal/task/service/service.go: the task service. It classifies an
 * update request and calls one repository operation for it, refuses an
 * undefined combination without calling the repository, and reports the
 * repository's sql.ErrNoRows as ErrTaskNotFound.
 */
module TaskService {
  import opened Store
  import opened UpdateRequest
  import TaskLayered

  /** `errors.Is(err, sql.ErrNoRows)` mapped to ErrTaskNotFound; every other result passes unchanged. */
  function NotFound<T>(r: Result<T>): (r': Result<T>)
    ensures r'.Success? <==> r.Success?
    ensures r'.Success? ==> r' == r
    ensures r'.Failure? ==> r'.error != NoRows
    ensures r'.Failure? ==> (r'.error == TaskNotFound <==> r.error in {NoRows, TaskNotFound})
  {
    if r.Failure? then Failure(NoRowsAs(r.error, TaskNotFound)) else r
  }

  /** UpdateTask: the route validateUpdateTaskRequest picks, then the repository operation for it. */
  function UpdateTaskEffect(columns: Columns, tasks: Tasks, id: TaskId, req: Request, now: Timestamp): (e: Result<Tasks>)
    ensures Classify(req) == Undefined <==> e == Failure(BadUpdateRequest)
    ensures e != Failure(NoRows)
    ensures Classify(req) == Content ==> e.Success? && forall c :: Positions(e.value, c) == Positions(tasks, c)
    ensures Classify(req) in {Column, Position} ==> (e == Failure(TaskNotFound) <==> id !in tasks)
  {
    match Classify(req)
    case Content => TaskLayered.UpdateContentEffect(tasks, id, req, now)
    case Column => NotFound(TaskLayered.UpdateColumnEffect(columns, tasks, id, req.columnId.value, req.position.value, now))
    case Position => NotFound(TaskLayered.UpdatePositionEffect(tasks, id, req.position.value, now))
    case Undefined => Failure(BadUpdateRequest)
  }

  class Service {
    const repo: TaskLayered.Repository

    constructor (repo: TaskLayered.Repository)
      ensures this.repo == repo
    {
      this.repo := repo;
    }

    /** CreateTask: a task with the requested name and an empty description; repository errors are passed on. */
    method CreateTask(c: ColumnId, name: string, id: TaskId, created: Timestamp, updated: Timestamp) returns (err: Outcome)
      modifies repo.db
      ensures var e := TaskLayered.CreateEffect(old(repo.db.columns), old(repo.db.tasks), c, id, name, "", created, updated);
        err == OutcomeOf(e) && repo.db.tasks == Committed(e, old(repo.db.tasks))
      ensures repo.db.boards == old(repo.db.boards) && repo.db.columns == old(repo.db.columns)
    {
      err := repo.Create(c, id, name, "", created, updated);
    }

    method GetAllTasks(c: ColumnId) returns (r: Result<Tasks>)
      ensures r.Success?
      ensures forall k :: k in r.value <==> k in repo.db.tasks && repo.db.tasks[k].parent == c
      ensures forall k :: k in r.value ==> r.value[k] == repo.db.tasks[k]
    {
      r := repo.GetAll(c);
    }

    /** GetTask: the task, or TaskNotFound for an unknown id. */
    method GetTask(id: TaskId) returns (r: Result<TaskRow>)
      ensures r.Success? <==> id in repo.db.tasks
      ensures r.Success? ==> r.value == repo.db.tasks[id]
      ensures r.Failure? ==> r.error == TaskNotFound
    {
      r := repo.Get(id);
      r := NotFound(r);
    }

    method UpdateTask(id: TaskId, req: Request, now: Timestamp) returns (err: Outcome)
      modifies repo.db
      ensures var e := UpdateTaskEffect(old(repo.db.columns), old(repo.db.tasks), id, req, now);
        err == OutcomeOf(e) && repo.db.tasks == Committed(e, old(repo.db.tasks))
      ensures repo.db.boards == old(repo.db.boards) && repo.db.columns == old(repo.db.columns)
    {
      var updCase := ValidateUpdateTaskRequest(req);
      RoutesHaveTheirFields(req);
      match updCase {
        case Content =>
          err := repo.UpdateContent(id, req, now);
        case Column =>
          err := repo.UpdateColumn(id, req, now);
        case Position =>
          err := repo.UpdatePosition(id, req, now);
        case Undefined =>
          return Fail(BadUpdateRequest);
      }
      if err.Fail? {
        err := Fail(NoRowsAs(err.error, TaskNotFound));
      }
    }

    method DeleteTask(id: TaskId) returns (err: Outcome)
      modifies repo.db
      ensures var e := NotFound(TaskLayered.DeleteEffect(old(repo.db.tasks), id));
        err == OutcomeOf(e) && repo.db.tasks == Committed(e, old(repo.db.tasks))
      ensures repo.db.boards == old(repo.db.boards) && repo.db.columns == old(repo.db.columns)
    {
      err := repo.Delete(id);
      if err.Fail? {
        err := Fail(NoRowsAs(err.error, TaskNotFound));
      }
    }

    /** GetUserByColumn: the column's owner; a missing column or board is reported as TaskNotFound. */
    method GetUserByColumn(c: ColumnId) returns (r: Result<UserId>)
      ensures r == NotFound(OwnerOfColumn(repo.db.boards, repo.db.columns, c))
      ensures r.Failure? ==> r.error == TaskNotFound
    {
      r := repo.GetUserByColumn(c);
      r := NotFound(r);
    }

    /** GetUserByTask: the task's owner; a missing task, column or board is reported as TaskNotFound. */
    method GetUserByTask(k: TaskId) returns (r: Result<UserId>)
      ensures r == NotFound(OwnerOfTask(repo.db.boards, repo.db.columns, repo.db.tasks, k))
      ensures r.Failure? ==> r.error == TaskNotFound
    {
      r := repo.GetUserByTask(k);
      r := NotFound(r);
    }
  }

  /** An undefined combination leaves every table as it was; the other routes move positions only as the ledger does. */
  lemma UpdateTaskRoutes(boards: map<BoardId, Board>, columns: Columns, tasks: Tasks, id: TaskId, req: Request, now: Timestamp)
    requires Consistent(boards, columns, tasks)
    ensures var e := UpdateTaskEffect(columns, tasks, id, req, now);
      && (Classify(req) == Undefined ==> Committed(e, tasks) == tasks)
      && (e.Success? && Classify(req) == Position && req.position.value != 0 ==> Consistent(boards, columns, e.value))
      && ((e.Success? && Classify(req) == Column && req.columnId.value != tasks[id].parent &&
           req.position.value <= Count(tasks, req.columnId.value) + 1) ==> Consistent(boards, columns, e.value))
      && (e.Success? && Classify(req) == Content ==> Consistent(boards, columns, e.value))
  {
    var e := UpdateTaskEffect(columns, tasks, id, req, now);
    if e.Success? {
      match Classify(req)
      case Position =>
        TaskLayered.UpdatePositionReorders(boards, columns, tasks, id, req.position.value, now);
      case Column =>
        if req.columnId.value != tasks[id].parent {
          TaskLayered.UpdateColumnMoves(boards, columns, tasks, id, req.columnId.value, req.position.value, now);
        }
      case Content =>
        assert e.value == TaskLayered.UpdateContentEffect(tasks, id, req, now).value;
        ContentKeepsLinks(boards, columns, tasks, id, req, now);
      case Undefined =>
    }
  }

  /** A content rewrite keeps every task in its column, so links and density are unaffected. */
  lemma ContentKeepsLinks(boards: map<BoardId, Board>, columns: Columns, tasks: Tasks, id: TaskId, req: Request, now: Timestamp)
    requires Consistent(boards, columns, tasks)
    ensures Consistent(boards, columns, TaskLayered.UpdateContentEffect(tasks, id, req, now).value)
  {
    var after := TaskLayered.UpdateContentEffect(tasks, id, req, now).value;
    assert after.Keys == tasks.Keys;
    assert forall k :: k in after ==> after[k].parent == tasks[k].parent;
  }
}
