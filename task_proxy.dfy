/**
 * backend/internal/task/proxy/proxy.go: the ownership gate in front of the task
 * service. Create and GetAll resolve the owner through the column, Get, Update
 * and Delete through the task; the service reports a failed lookup as
 * TaskNotFound, and the proxy returns it without calling the service.
 */
module TaskProxy {
  import opened Store
  import opened Ownership
  import opened UpdateRequest
  import TaskLayered
  import TaskService

  /** checkColumnOwnership: the service's owner lookup for a column, then the gate. */
  function ColumnGate(boards: map<BoardId, Board>, columns: Columns, c: ColumnId, user: UserId): (r: Route)
    ensures r.Delegate? <==> CheckColumnOwnership(boards, columns, c, user)
    ensures r.Deny? ==> r.error == (if OwnerOfColumn(boards, columns, c).Failure? then TaskNotFound else Forbidden)
  {
    GateMatchesColumnCheck(boards, columns, c, user, TaskNotFound);
    Gate(TaskService.NotFound(OwnerOfColumn(boards, columns, c)), user)
  }

  /** checkTaskOwnership: the service's owner lookup for a task, then the gate. */
  function TaskGate(boards: map<BoardId, Board>, columns: Columns, tasks: Tasks, id: TaskId, user: UserId): (r: Route)
    ensures r.Delegate? <==> id in tasks && CheckColumnOwnership(boards, columns, tasks[id].parent, user)
    ensures r.Deny? ==> r.error == (if OwnerOfTask(boards, columns, tasks, id).Failure? then TaskNotFound else Forbidden)
  {
    if id !in tasks then Gate(TaskService.NotFound(OwnerOfTask(boards, columns, tasks, id)), user)
    else
      GateMatchesColumnCheck(boards, columns, tasks[id].parent, user, TaskNotFound);
      Gate(TaskService.NotFound(OwnerOfTask(boards, columns, tasks, id)), user)
  }

  class Proxy {
    const service: TaskService.Service

    constructor (service: TaskService.Service)
      ensures this.service == service
    {
      this.service := service;
    }

    method CreateTask(c: ColumnId, user: UserId, name: string, id: TaskId, created: Timestamp, updated: Timestamp)
      returns (err: Outcome)
      modifies service.repo.db
      ensures var db := service.repo.db;
        var e := Through(ColumnGate(old(db.boards), old(db.columns), c, user),
          TaskLayered.CreateEffect(old(db.columns), old(db.tasks), c, id, name, "", created, updated));
        err == OutcomeOf(e) && db.tasks == Committed(e, old(db.tasks))
      ensures service.repo.db.boards == old(service.repo.db.boards) && service.repo.db.columns == old(service.repo.db.columns)
    {
      var owner := service.GetUserByColumn(c);
      var route := Gate(owner, user);
      if route.Deny? {
        return Fail(route.error);
      }
      err := service.CreateTask(c, name, id, created, updated);
    }

    method GetAllTasks(c: ColumnId, user: UserId) returns (r: Result<Tasks>)
      ensures var db := service.repo.db;
        && (r.Success? <==> CheckColumnOwnership(db.boards, db.columns, c, user))
        && (r.Success? ==> forall k :: k in r.value <==> k in db.tasks && db.tasks[k].parent == c)
        && (r.Success? ==> forall k :: k in r.value ==> r.value[k] == db.tasks[k])
        && (r.Failure? ==> r.error == ColumnGate(db.boards, db.columns, c, user).error)
    {
      var owner := service.GetUserByColumn(c);
      var route := Gate(owner, user);
      if route.Deny? {
        return Failure(route.error);
      }
      r := service.GetAllTasks(c);
    }

    method GetTask(id: TaskId, user: UserId) returns (r: Result<TaskRow>)
      ensures var db := service.repo.db;
        && (r.Success? <==> id in db.tasks && CheckColumnOwnership(db.boards, db.columns, db.tasks[id].parent, user))
        && (r.Success? ==> r.value == db.tasks[id])
        && (r.Failure? ==> r.error == TaskGate(db.boards, db.columns, db.tasks, id, user).error)
    {
      var owner := service.GetUserByTask(id);
      var route := Gate(owner, user);
      if route.Deny? {
        return Failure(route.error);
      }
      r := service.GetTask(id);
    }

    method UpdateTask(id: TaskId, user: UserId, req: Request, now: Timestamp) returns (err: Outcome)
      modifies service.repo.db
      ensures var db := service.repo.db;
        var e := Through(TaskGate(old(db.boards), old(db.columns), old(db.tasks), id, user),
          TaskService.UpdateTaskEffect(old(db.columns), old(db.tasks), id, req, now));
        err == OutcomeOf(e) && db.tasks == Committed(e, old(db.tasks))
      ensures service.repo.db.boards == old(service.repo.db.boards) && service.repo.db.columns == old(service.repo.db.columns)
    {
      var owner := service.GetUserByTask(id);
      var route := Gate(owner, user);
      if route.Deny? {
        return Fail(route.error);
      }
      err := service.UpdateTask(id, req, now);
    }

    method DeleteTask(id: TaskId, user: UserId) returns (err: Outcome)
      modifies service.repo.db
      ensures var db := service.repo.db;
        var e := Through(TaskGate(old(db.boards), old(db.columns), old(db.tasks), id, user),
          TaskService.NotFound(TaskLayered.DeleteEffect(old(db.tasks), id)));
        err == OutcomeOf(e) && db.tasks == Committed(e, old(db.tasks))
      ensures service.repo.db.boards == old(service.repo.db.boards) && service.repo.db.columns == old(service.repo.db.columns)
    {
      var owner := service.GetUserByTask(id);
      var route := Gate(owner, user);
      if route.Deny? {
        return Fail(route.error);
      }
      err := service.DeleteTask(id);
    }
  }
}
