# Kanban position ledger

A model of the position bookkeeping in the Go backend of a kanban board. Columns
sit in a board and tasks sit in a column. Every column and every task has an
integer `position`, and the repositories keep the positions of one container
dense: exactly `1..N`, with no gaps and no duplicates. Four operations change
them:

- append on create, capped at 42 columns per board and 52 tasks per column;
- reorder within a container, which shifts a half-open range by ±1 and then
  writes the new slot;
- moving a task to another column, which opens a slot in the destination,
  reparents the task and closes the gap in the source;
- delete with compaction.

Around them sit the update-request classifier, which picks the content,
position or column route of a task PATCH from the optional fields that are
set, and the ownership gate, which resolves the owner of a board, column or
task and either refuses the caller or delegates.

The code exists in two generations, and both are modelled against the same
ledger:

- The flat packages `column/repo.go` and `task/repo.go` check ownership inside
  the transaction. `task/handler.go` dispatches the update routes.
- The layered packages `*/repo/repo.go`, `task/service`, `*/proxy` check
  ownership in a proxy in front of the service.

Modules:

- `Ledger` (ledger.dfy): one container as a map from item to position.
  - `Dense` means the positions are exactly 1..N.
  - The operations `Append`, `Reorder`, `Remove` and `Insert` are each proved
    to keep a container dense.
  - Each operation is also checked against a second definition: the container
    read as a sequence in position order and spliced the way a list is.
- `Store` (store.dfy): the `column` and `task` tables and the SQL statements
  of `postgres/queries.go`.
  - The tables are maps from row id to a `Row(parent, position, data)`.
  - Each UPDATE statement is a function from the old table to the new one.
  - Lemmas show that each statement sequence the repositories run is a
    ledger operation on one container and leaves every other container
    alone.
  - `class Database` holds the three tables that the repositories mutate.
- `ColumnFlat`, `TaskFlat`, `TaskHandler`: the flat generation. Each
  transaction is a method that assigns the tables statement by statement. It
  is proved equal to an effect function, which gives the error and the new
  table. Lemmas about the effect functions connect them to the ledger.
- `ColumnLayered`, `TaskLayered`, `TaskService`, `Ownership`, `TaskProxy`,
  `ColumnProxy`, `BoardProxy`: the layered generation, as classes holding the
  repository, the service and the proxy.
- `UpdateRequest`: the classifier. Its counting loop is proved equal to a
  reference classification written from the field combinations.
- `Generations`: the flat and the layered results compared on every input.
- `TaskFindings`: where the task code does not keep positions dense, next to
  corrected definitions that do.

Transactions are atomic. A statement that fails after an earlier one succeeded
rolls the transaction back, and the model restores the snapshot taken at its
start.

## Model

Throughout the table, MAX is the value the repositories' MAX query returns,
`COALESCE(MAX(position), 0) + 1` (`Store.MaxPosition`): N + 1 on a dense
container with N items, and 1 on an empty one.

| member | source | states |
|---|---|---|
| Ledger.Next | backend/internal/postgres/queries.go:54 | COALESCE(MAX(position), 0) + 1: 1 on an empty container, otherwise one past the largest position and above every position |
| Ledger.DenseIffExactly | backend/internal/postgres/queries.go:54 | a container is dense exactly when its positions are the set {1..N} |
| Ledger.NextOfDense | backend/internal/postgres/queries.go:54 | in a dense container the next position is N + 1 |
| Ledger.AppendKeepsDense | backend/internal/column/repo.go:42-58 | writing a new item at the next position keeps a dense container dense, with N + 1 items |
| Ledger.ReorderKeepsDense | backend/internal/column/repo.go:152-163 | moving an item to any slot 1..N keeps the container dense and puts the item at that slot |
| Ledger.ReorderToSelf | backend/internal/column/repo.go:152 | moving an item to its own position changes no position |
| Ledger.RemoveKeepsDense | backend/internal/column/repo.go:197-205 | removing an item and compacting above it turns 1..N into 1..N-1 |
| Ledger.InsertKeepsDense | backend/internal/task/repo.go:228-241 | inserting an item at a slot 1..N+1 keeps the container dense, with the item at that slot |
| Ledger.InsertPastEndBreaksDense | backend/internal/task/repo.go:218-233 | inserting past N + 1 leaves a gap: the container is no longer dense |
| Ledger.ReorderToZeroBreaksDense | backend/internal/task/repo.go:268-287 | reordering an item to position 0 leaves the container not dense |
| Ledger.ListedIsDense | backend/internal/column/repo.go:152-163 | a container listed by a duplicate-free sequence in position order is dense |
| Ledger.AppendMatchesListing | backend/internal/column/repo.go:42-58 | append is adding the item at the end of the listing |
| Ledger.ReorderMatchesListing | backend/internal/column/repo.go:152-163 | the shift-then-write reorder is taking the item out of the listing and inserting it at the new index |
| Ledger.RemoveMatchesListing | backend/internal/column/repo.go:197-205 | delete with compaction is taking the item out of the listing |
| Ledger.InsertMatchesListing | backend/internal/task/repo.go:228-241 | the destination half of a move is inserting into the listing at the requested index |
| Store.ParentAndPosition | backend/internal/postgres/queries.go:82 | returns the row's container and position, or sql.ErrNoRows exactly when the id is unknown |
| Store.UpdateColumnRow | backend/internal/postgres/queries.go:92-96 | COALESCE keeps the old name or position when the parameter is NULL; only the named row changes and it keeps its board |
| Store.AppendBySql | backend/internal/postgres/queries.go:54-64 | an INSERT at MAX is the ledger's append in that container and leaves every other container unchanged |
| Store.ReorderBySql | backend/internal/postgres/queries.go:84-96 | the shift by direction of travel (MoveColumnsLeft over (old, new], MoveColumnsRight over [new, old)) followed by writing the new position is the ledger's reorder, and other containers do not change |
| Store.RemoveBySql | backend/internal/postgres/queries.go:75-80 | DELETE plus DecreaseColumnsPosition above the removed slot, in either order, is the ledger's remove, and other containers do not change |
| Store.MoveBySql | backend/internal/postgres/queries.go:77-80 | the insert shift in the destination, the reparenting and the decrement in the source are the ledger's insert into the destination and remove from the source |
| Store.SameParentMoveBySql | backend/internal/postgres/queries.go:77-80 | the same three statements with the source as destination are a reorder to pos - 1 when the item travels towards the end, and to pos otherwise |
| Store.RewriteKeepsPositions | backend/internal/postgres/queries.go:92-96 | rewriting a row's other fields changes no container's positions |
| Store.OwnershipChecksAgree | backend/internal/postgres/queries.go:56-58 | the EXISTS ownership check is true exactly when the owner lookup returns the caller |
| Store.DenseElsewhere | backend/internal/postgres/queries.go:77-90 | a change that keeps one container dense and leaves all the others as they were keeps every container dense |
| UpdateRequest.IsNilMeansAbsent | backend/internal/task/service/service.go:169-171 | a boxed pointer field is nil exactly when the field is absent, and is never the untyped nil |
| UpdateRequest.ContentCount | backend/internal/task/service/service.go:140-152 | the count of set content fields is 0 exactly when none is set and 1 exactly when one is set |
| UpdateRequest.ValidateUpdateTaskRequest | backend/internal/task/service/service.go:139-167 | the counting loop and switch return exactly the reference classification: content iff one content field and neither column nor position; column iff no content and both; position iff no content, no column, and a position |
| UpdateRequest.RoutesHaveTheirFields | backend/internal/task/service/service.go:157-163 | each accepted route guarantees the fields its repository operation dereferences, and the three routes exclude each other |
| UpdateRequest.UndefinedCombinations | backend/internal/task/service/service.go:164-165 | an empty request, a column without a position, content mixed with a move, and two content fields are all undefined |
| ColumnFlat.CreateColumnEffect | backend/internal/column/repo.go:17-61 | Forbidden iff the caller does not own the board; else ColumnLimitReached iff it has 42 or more columns; success needs a fresh id |
| ColumnFlat.UpdateColumnEffect | backend/internal/column/repo.go:114-169 | ColumnNotFound iff unknown; Forbidden iff not the owner; IncorrectPosition iff a given position is outside 1..MAX - 1 (1..N on a dense board); no other error |
| ColumnFlat.DeleteColumnEffect | backend/internal/column/repo.go:171-208 | ColumnNotFound iff unknown; Forbidden iff not the owner; success iff no task still references the column |
| ColumnFlat.CreateColumn | backend/internal/column/repo.go:17-61 | the transaction returns the effect's error and leaves the column table as the effect says, with boards and tasks unchanged |
| ColumnFlat.UpdateColumn | backend/internal/column/repo.go:114-169 | the same for the update transaction |
| ColumnFlat.DeleteColumn | backend/internal/column/repo.go:171-208 | the same for the delete transaction |
| ColumnFlat.AppendColumnAppends | backend/internal/column/repo.go:42-58 | the INSERT is the ledger's append at N + 1 and keeps the store consistent |
| ColumnFlat.RepositionColumnReorders | backend/internal/column/repo.go:152-163 | the shift and COALESCE update are the ledger's reorder, or move nobody when the position is absent or unchanged |
| ColumnFlat.DeleteColumnRowsRemoves | backend/internal/column/repo.go:197-205 | the delete and decrement are the ledger's remove |
| ColumnFlat.ColumnPositionRange | backend/internal/column/repo.go:140-149 | on a dense board the bound 1 <= p < MAX admits exactly 1..N |
| ColumnFlat.CreateColumnAppends | backend/internal/column/repo.go:17-61 | a successful create lands at N + 1, moves no existing column, and keeps the store consistent |
| ColumnFlat.ColumnCapacity | backend/internal/column/repo.go:33-40 | on a board with fewer than 42 columns the owner's create with a fresh id succeeds and adds one column at N + 1; with 42 or more it fails with ColumnLimitReached |
| ColumnFlat.ColumnCapKept | backend/internal/column/repo.go:33-40 | no board reaches 43 columns: on a consistent store with every board at 42 or fewer, a successful create, update or delete leaves every board at 42 or fewer |
| ColumnFlat.UpdateColumnReorders | backend/internal/column/repo.go:140-163 | a successful update is the ledger's reorder within the column's board, leaves other boards alone, and keeps the store consistent |
| ColumnFlat.DeleteColumnCompacts | backend/internal/column/repo.go:171-208 | a successful delete is the ledger's remove, N becomes N - 1, and the store stays consistent |
| ColumnLayered.CreateEffect | backend/internal/column/repo/repo.go:25-60 | ColumnLimitReached iff 42 or more columns; success iff under the cap, a fresh id and an existing board |
| ColumnLayered.UpdateEffect | backend/internal/column/repo/repo.go:110-152 | raw NoRows iff unknown; IncorrectPosition iff a given position is outside 1..MAX - 1 (1..N on a dense board) |
| ColumnLayered.DeleteEffect | backend/internal/column/repo/repo.go:154-179 | raw NoRows iff unknown; success iff no task references the column |
| ColumnLayered.Repository.Create | backend/internal/column/repo/repo.go:25-60 | the transaction returns the effect's error and leaves the tables as the effect says |
| ColumnLayered.Repository.Update | backend/internal/column/repo/repo.go:110-152 | the same for update |
| ColumnLayered.Repository.Delete | backend/internal/column/repo/repo.go:154-179 | the same for delete |
| ColumnLayered.Repository.GetUserByBoard | backend/internal/column/repo/repo.go:181-188 | the board's owner, or NoRows exactly for an unknown board |
| ColumnLayered.Repository.GetUserByColumn | backend/internal/column/repo/repo.go:190-197 | the owner of the column's board, or NoRows |
| ColumnLayered.CreateAppends | backend/internal/column/repo/repo.go:41-54 | a successful create appends at N + 1 without moving others and keeps the store consistent |
| ColumnLayered.UpdateReorders | backend/internal/column/repo/repo.go:124-146 | the layered update is the same reorder as the flat one and keeps the store consistent |
| ColumnLayered.DeleteCompacts | backend/internal/column/repo/repo.go:161-176 | the layered delete is the ledger's remove and keeps the store consistent |
| TaskFlat.CheckPosition | backend/internal/task/repo.go:353-360 | passes iff 1 <= pos <= MAX; rejects every position with IncorrectPosition when reading MAX failed |
| TaskFlat.ColumnIdAndPosition | backend/internal/task/repo.go:343-351 | the task's column and position, or TaskNotFound exactly for an unknown id |
| TaskFlat.CreateTaskEffect | backend/internal/task/repo.go:17-62 | Forbidden iff the caller does not own the column; else TaskLimitReached iff 52 or more tasks; success needs a fresh id |
| TaskFlat.UpdateTaskContentEffect | backend/internal/task/repo.go:162-196 | TaskNotFound iff unknown; Forbidden iff not the owner; succeeds exactly for the owner of an existing task; on success no position changes |
| TaskFlat.UpdateTaskPositionEffect | backend/internal/task/repo.go:248-293 | TaskNotFound, then Forbidden, then IncorrectPosition iff position + 1 is outside 1..MAX |
| TaskFlat.UpdateTaskColumnEffect | backend/internal/task/repo.go:198-246 | TaskNotFound, then Forbidden for the source column's owner, then IncorrectPosition iff pos is outside 1..MAX of the source; success iff also the destination exists |
| TaskFlat.DeleteTaskEffect | backend/internal/task/repo.go:295-326 | TaskNotFound iff unknown; Forbidden iff not the owner; success otherwise |
| TaskFlat.CreateTask | backend/internal/task/repo.go:17-62 | the transaction returns the effect's error and leaves the task table as the effect says |
| TaskFlat.UpdateTaskContent | backend/internal/task/repo.go:162-196 | the same for the content update |
| TaskFlat.UpdateTaskColumn | backend/internal/task/repo.go:198-246 | the same for the move, rolling back when the destination does not exist |
| TaskFlat.UpdateTaskPosition | backend/internal/task/repo.go:248-293 | the same for the reorder |
| TaskFlat.DeleteTask | backend/internal/task/repo.go:295-326 | the same for the delete |
| TaskFlat.AppendTaskAppends | backend/internal/task/repo.go:41-56 | the INSERT is the ledger's append at N + 1 with done = false, and keeps the store consistent |
| TaskFlat.RepositionTaskReorders | backend/internal/task/repo.go:273-287 | MoveTasksUp or MoveTasksDown by direction, then the write, is the ledger's reorder to pos |
| TaskFlat.MoveTaskRowsMoves | backend/internal/task/repo.go:223-241 | insert shift, reparent, decrement: the ledger's insert and remove for another column, a reorder to pos - 1 or pos for the same column |
| TaskFlat.DeleteTaskRowsRemoves | backend/internal/task/repo.go:315-323 | the decrement and delete are the ledger's remove |
| TaskFlat.ReorderBoundRange | backend/internal/task/repo.go:268-271 | on a dense column the bound on position + 1 admits exactly 0..N |
| TaskFlat.CreateTaskAppends | backend/internal/task/repo.go:17-62 | a successful create lands at N + 1, not done, moves no task, and keeps the store consistent |
| TaskFlat.TaskCapacity | backend/internal/task/repo.go:32-39 | in a column with fewer than 52 tasks the owner's create with a fresh id succeeds and adds one task at N + 1; with 52 or more it fails with TaskLimitReached |
| TaskFlat.CreateKeepsTaskCap | backend/internal/task/repo.go:32-39 | a successful create leaves every column at 52 or fewer tasks when every column was at 52 or fewer; the cross-column move does not (see Findings) |
| TaskFlat.UpdateTaskPositionReorders | backend/internal/task/repo.go:248-293 | success iff 0 <= pos <= N; the result is the ledger's reorder; the store stays consistent for every accepted position except 0 |
| TaskFlat.UpdateTaskColumnMoves | backend/internal/task/repo.go:198-246 | a successful move to another column is the ledger's insert and remove; the store stays consistent when pos is also a destination slot |
| TaskFlat.MovedKeepsConsistent | backend/internal/task/repo.go:223-241 | insert at a destination slot 1..N+1 plus remove from the source keeps every column dense and every task linked |
| TaskFlat.DeleteTaskCompacts | backend/internal/task/repo.go:295-326 | a successful delete is the ledger's remove, N becomes N - 1, and the store stays consistent |
| TaskHandler.UpdateTaskEffect | backend/internal/task/handler.go:173-188 | BadUpdateRequest iff the combination is undefined, before any lookup; otherwise TaskNotFound iff unknown and Forbidden for another user's task |
| TaskHandler.UpdateTask | backend/internal/task/handler.go:173-188 | the dispatch calls the flat function for the route and leaves the tables as the effect says |
| TaskLayered.CreateEffect | backend/internal/task/repo/repo.go:24-61 | TaskLimitReached iff 52 or more tasks; success iff under the cap, a fresh id and an existing column |
| TaskLayered.UpdateContentEffect | backend/internal/task/repo/repo.go:137-158 | always succeeds; an unknown id changes nothing; no position changes |
| TaskLayered.UpdateColumnEffect | backend/internal/task/repo/repo.go:160-200 | raw NoRows iff unknown; IncorrectPosition iff pos is outside 1..MAX of the source; success iff also the destination exists |
| TaskLayered.UpdatePositionEffect | backend/internal/task/repo/repo.go:202-239 | raw NoRows iff unknown; IncorrectPosition iff position + 1 is outside 1..MAX |
| TaskLayered.DeleteEffect | backend/internal/task/repo/repo.go:241-264 | raw NoRows iff unknown; success otherwise |
| TaskLayered.Repository.Create | backend/internal/task/repo/repo.go:24-61 | the transaction returns the effect's error and leaves the tables as the effect says |
| TaskLayered.Repository.Get | backend/internal/task/repo/repo.go:106-135 | the task's row, or NoRows exactly for an unknown id |
| TaskLayered.Repository.GetAll | backend/internal/task/repo/repo.go:63-104 | exactly the rows of the column |
| TaskLayered.Repository.UpdateContent | backend/internal/task/repo/repo.go:137-158 | the same for the content update |
| TaskLayered.Repository.UpdateColumn | backend/internal/task/repo/repo.go:160-200 | the same for the move, rolling back when the destination does not exist |
| TaskLayered.Repository.UpdatePosition | backend/internal/task/repo/repo.go:202-239 | the same for the reorder |
| TaskLayered.Repository.Delete | backend/internal/task/repo/repo.go:241-264 | the same for the delete |
| TaskLayered.Repository.GetUserByColumn | backend/internal/task/repo/repo.go:266-270 | the column's owner, or NoRows |
| TaskLayered.Repository.GetUserByTask | backend/internal/task/repo/repo.go:272-276 | the owner along task, column and board, or NoRows |
| TaskLayered.CreateAppends | backend/internal/task/repo/repo.go:31-55 | a successful create appends at N + 1, not done, and keeps the store consistent |
| TaskLayered.UpdatePositionReorders | backend/internal/task/repo/repo.go:202-239 | success iff 0 <= pos <= N; the ledger's reorder; consistent except at 0 |
| TaskLayered.UpdateColumnMoves | backend/internal/task/repo/repo.go:160-200 | a successful move to another column is the ledger's insert and remove; consistent when pos is a destination slot |
| TaskLayered.DeleteCompacts | backend/internal/task/repo/repo.go:241-264 | a successful delete is the ledger's remove and keeps the store consistent |
| TaskService.NotFound | backend/internal/task/service/service.go:92-96 | sql.ErrNoRows becomes TaskNotFound; success and every other error pass unchanged |
| TaskService.UpdateTaskEffect | backend/internal/task/service/service.go:77-100 | BadUpdateRequest iff the combination is undefined (no repository call); never NoRows; TaskNotFound iff the task is unknown on the column and position routes; the content route always succeeds without moving positions |
| TaskService.Service.CreateTask | backend/internal/task/service/service.go:42-54 | creates through the repository with the requested name and an empty description, passing its error on |
| TaskService.Service.GetAllTasks | backend/internal/task/service/service.go:56-63 | exactly the rows of the column |
| TaskService.Service.GetTask | backend/internal/task/service/service.go:65-75 | the task, or TaskNotFound exactly for an unknown id |
| TaskService.Service.UpdateTask | backend/internal/task/service/service.go:77-100 | classifies, calls the repository operation of the route, relabels NoRows, and leaves the tables as UpdateTaskEffect says |
| TaskService.Service.DeleteTask | backend/internal/task/service/service.go:102-112 | the repository delete with NoRows relabelled as TaskNotFound |
| TaskService.Service.GetUserByColumn | backend/internal/task/service/service.go:115-125 | the column's owner; any missing row is TaskNotFound |
| TaskService.Service.GetUserByTask | backend/internal/task/service/service.go:127-137 | the task's owner; any missing row is TaskNotFound |
| TaskService.UpdateTaskRoutes | backend/internal/task/service/service.go:77-100 | an undefined request changes nothing; successful content, nonzero position, and in-bounds moves to another column keep the store consistent |
| TaskService.ContentKeepsLinks | backend/internal/task/repo/repo.go:137-158 | a content rewrite keeps the store consistent |
| Ownership.Gate | backend/internal/task/proxy/proxy.go:94-110 | delegates exactly when the lookup returns the caller; a failed lookup is returned as its error, never as allow; another owner gives Forbidden |
| Ownership.GateMatchesColumnCheck | backend/internal/task/proxy/proxy.go:94-101 | the gate over the relabelled column owner lookup delegates exactly when the flat EXISTS check passes |
| Ownership.GateMatchesBoardCheck | backend/internal/column/proxy/proxy.go:95-102 | the same for the board owner lookup |
| TaskProxy.ColumnGate | backend/internal/task/proxy/proxy.go:94-101 | delegates exactly for the column's owner; TaskNotFound when the lookup fails, Forbidden otherwise |
| TaskProxy.TaskGate | backend/internal/task/proxy/proxy.go:103-110 | delegates exactly for the owner of the task's column; TaskNotFound when the lookup fails, Forbidden otherwise |
| TaskProxy.Proxy.CreateTask | backend/internal/task/proxy/proxy.go:29-40 | calls the service only when the column gate delegates; otherwise returns the refusal and changes nothing |
| TaskProxy.Proxy.GetAllTasks | backend/internal/task/proxy/proxy.go:42-53 | the column's rows exactly for its owner, else the gate's error |
| TaskProxy.Proxy.GetTask | backend/internal/task/proxy/proxy.go:55-66 | the task exactly for its owner, else the gate's error |
| TaskProxy.Proxy.UpdateTask | backend/internal/task/proxy/proxy.go:68-79 | the service update only through the task gate |
| TaskProxy.Proxy.DeleteTask | backend/internal/task/proxy/proxy.go:81-92 | the service delete only through the task gate |
| ColumnProxy.NotFound | backend/internal/column/service/service.go:67-77 | the column service maps NoRows to ColumnNotFound and passes everything else |
| ColumnProxy.BoardGate | backend/internal/column/proxy/proxy.go:95-102 | delegates exactly for the board's owner; ColumnNotFound for an unknown board, Forbidden otherwise |
| ColumnProxy.ColumnGate | backend/internal/column/proxy/proxy.go:104-111 | delegates exactly for the column's owner; ColumnNotFound when the lookup fails, Forbidden otherwise |
| ColumnProxy.Proxy.CreateColumn | backend/internal/column/proxy/proxy.go:30-41 | the layered create only through the board gate |
| ColumnProxy.Proxy.UpdateColumn | backend/internal/column/proxy/proxy.go:69-80 | the layered update only through the column gate, NoRows relabelled |
| ColumnProxy.Proxy.DeleteColumn | backend/internal/column/proxy/proxy.go:82-93 | the layered delete only through the column gate, NoRows relabelled |
| BoardProxy.Dispatch | backend/internal/board/proxy/proxy.go:28-73 | CreateBoard and GetAllBoards always delegate; GetBoard, UpdateBoard and DeleteBoard delegate exactly for the owner, refuse others with Forbidden and pass a failed lookup on |
| BoardProxy.GatedOnlyForOwner | backend/internal/board/proxy/proxy.go:75-82 | a gated board operation delegates exactly when the board's EXISTS ownership check passes |
| Generations.CreateColumnAgrees | backend/internal/column/proxy/proxy.go:30-41 | flat and layered create give the same result on an existing board; on a missing one Forbidden against ColumnNotFound |
| Generations.UpdateColumnAgrees | backend/internal/column/proxy/proxy.go:69-80 | flat and layered update give the same result and table on a linked store |
| Generations.DeleteColumnAgrees | backend/internal/column/proxy/proxy.go:82-93 | flat and layered delete give the same result and table on a linked store |
| Generations.CreateTaskAgrees | backend/internal/task/proxy/proxy.go:29-40 | flat and layered task create agree in an existing column; in a missing one Forbidden against TaskNotFound |
| Generations.UpdateTaskAgrees | backend/internal/task/proxy/proxy.go:68-79 | flat handler and layered proxy agree for every routed request; for an undefined one the flat side says BadUpdateRequest first, the layered side checks the owner first |
| Generations.DeleteTaskAgrees | backend/internal/task/proxy/proxy.go:81-92 | flat and layered task delete agree on a linked store |
| TaskFindings.ReorderToZeroAccepted | backend/internal/task/repo.go:268-271 | reordering any owned task to 0 succeeds and leaves its column not dense |
| TaskFindings.SourceBoundOverflowsDestination | backend/internal/task/repo.go:218-221 | a position past the destination's N + 1 but within the source's bound is accepted and leaves a gap in the destination |
| TaskFindings.SourceBoundRejectsDestinationSlot | backend/internal/task/repo.go:218-221 | a valid end slot of a longer destination is refused when the source is shorter |
| TaskFindings.DestinationOwnerUnchecked | backend/internal/task/repo.go:210-216 | a task's owner moves it into another user's column successfully |
| TaskFindings.SameColumnMoveLandsShort | backend/internal/task/repo.go:223-241 | a column move into the task's own column towards the end lands at pos - 1 |
| TaskFindings.MoveIgnoresTaskLimit | backend/internal/task/repo.go:218-223 | moving a task at position 1 into another column that already holds 52 succeeds and leaves that column with 53 tasks, over the cap, while the store stays consistent |
| TaskFindings.UpdateTaskPositionEffect | backend/internal/task/repo.go:248-293 | corrected reorder: TaskNotFound, Forbidden, IncorrectPosition only, with the column repository's bound |
| TaskFindings.CorrectedReorderKeepsConsistent | backend/internal/task/repo.go:248-293 | the corrected reorder accepts exactly 1..N, lands there, and keeps the store consistent |
| TaskFindings.UpdateTaskColumnEffect | backend/internal/task/repo.go:198-246 | corrected move: Forbidden unless the caller owns both columns; TaskLimitReached exactly when the owned destination is another column already holding 52 or more; success only into an owned column |
| TaskFindings.CrossMoveLands | backend/internal/task/repo.go:223-241 | a move to another column at a destination slot 1..N + 1 succeeds, lands the task at that slot, and keeps the store consistent |
| TaskFindings.CorrectedMoveKeepsConsistent | backend/internal/task/repo.go:198-246 | the corrected move accepts exactly the destination's slots (1..N in the task's own column, 1..N + 1 in another column below 52 tasks), lands the task there, and keeps the store consistent |
| TaskFindings.CorrectedMoveKeepsTaskCap | backend/internal/task/repo.go:198-246 | a successful corrected move leaves every column at 52 or fewer tasks when every column was at 52 or fewer |

## Left out

- HTTP binding, the authenticated-user lookup and the mapping from errors to status codes in the handlers are not modelled. Of `task/handler.go` only the update dispatch is modelled. The other handlers, the router and the `Init` wiring are not part of this model either.
- Authentication (bcrypt, JWT, Bearer middleware), configuration, connection retries and migrations are not modelled.
- Concurrency and isolation: each transaction is one atomic step. Both task deletes run their two statements on the connection instead of the transaction. The interleavings this allows are not modelled.
- Timestamps and UUIDs are caller-supplied parameters (`created`, `updated`, `now`, `id`). `UniqueViolation` stands for a generated id that is already taken.
- Driver and connection errors are not modelled. The only failures are sql.ErrNoRows, the schema's REFERENCES and primary-key violations, and the repositories' own errors.
- The row-scanning loops of the GetAll functions are not modelled. A read returns the set of rows, not their order.
- The flat GetAllColumns, GetColumn, GetAllTasks and GetTask, and the column proxy's GetColumn and GetAllColumns, are reads with no position logic, and are not modelled. The layered column `Repository.Get` and `GetAll` pass one argument to queries that take two (backend/internal/postgres/queries.go:66-73). That is not modelled.
- The task-side SQL statements are not defined in backend/internal/postgres/queries.go. The header of store.dfy lists each one with the meaning the model gives it. Most are taken to be the column statement with column_id for board_id. QueryUpdateTaskContent is taken to COALESCE each content field, like QueryUpdateColumn.
- QueryMoveTasksForInsert (backend/internal/task/repo.go:223, backend/internal/task/repo/repo.go:177) and QueryUpdateTaskColumn (backend/internal/task/repo.go:228-233) have no column counterpart. Their meaning is assumed from their names and argument lists alone:
  - QueryMoveTasksForInsert is taken as `position + 1` for every task in the column at or above the given position.
  - QueryUpdateTaskColumn is taken as moving the row to the given column at the given position.
- Store.MoveBySql, Store.SameParentMoveBySql, and the Findings rows for TaskFindings.SourceBoundOverflowsDestination and TaskFindings.SameColumnMoveLandsShort hold only for these assumed meanings.
- The board repository and service are not modelled. BoardProxy.Dispatch takes the owner lookup's result as a parameter.
- The column service is folded into ColumnProxy: it only delegates and relabels NoRows. Its CreateColumn generates the id, which is a parameter here.
- Go's `int` is 64 bits wide and the model's integers are unbounded. `position + 1` in the reorder bound could overflow only at the largest int. That position is rejected either way, so the width is not modelled.
- The update request's JSON decoding is not modelled. Each pointer field is an `Option`, and the `[]any` boxing is modelled by `Box`. The flat handler's copy of validateUpdateTaskRequest and isNil (backend/internal/task/handler.go:255-287) is the same text as the service's. One member, UpdateRequest.ValidateUpdateTaskRequest, models both.
- TaskLayered.Repository.GetAll: returns the column's rows as a map, not as the ordered slice the scan builds.
- The task table's `done` and `deadline` columns are modelled as they are written by the create and update statements. The CREATE TABLE text of backend/internal/postgres/queries.go:19-36 lacks them, so the live schema is the one the migrations create (backend/internal/postgres/postgres.go:49-50), and the migration files are not part of this model.
- The REFERENCES constraints are taken from backend/internal/postgres/queries.go:19-36, with no ON DELETE CASCADE on `task.column_id`. Only under that assumption does a column delete fail with ForeignKeyViolation while tasks remain (ColumnFlat.DeleteColumnEffect, ColumnLayered.DeleteEffect). A cascading migration would delete the tasks instead, and the model does not capture that.

## Findings

| source | as written | input that shows it | evidently intended | confidence | as-written member | corrected member |
|---|---|---|---|---|---|---|
| backend/internal/task/repo.go:268 | the in-column reorder checks `position + 1` against 1..MAX, so it accepts 0..N | a column with tasks a at 1 and b at 2; move b to 0: accepted, b is written at 0 and the column is no longer 1..N | accept 1..N, as the column repository does; the frontend sends 1-based positions | high, not executed | TaskFindings.ReorderToZeroAccepted | TaskFindings.CorrectedReorderKeepsConsistent |
| backend/internal/task/repo.go:218 | the cross-column move bounds the position by the source column's MAX | source with 3 tasks, empty destination; move to position 3: accepted, and the destination's only task sits at 3 | bound by the destination: 1..N + 1 of the destination | high, not executed | TaskFindings.SourceBoundOverflowsDestination | TaskFindings.CorrectedMoveKeepsConsistent |
| backend/internal/task/repo.go:218 | the same bound refuses valid destination slots | source with 1 task, destination with 2; move to position 3 (the destination's end): IncorrectPosition | accept the destination's N + 1 | high, not executed | TaskFindings.SourceBoundRejectsDestinationSlot | TaskFindings.CorrectedMoveKeepsConsistent |
| backend/internal/task/repo.go:210-223 | only the source column's owner is checked before the move | user u owns the task's column; column c2 belongs to user v; u moves the task to c2 at 1: accepted | refuse with Forbidden unless the caller also owns the destination | high, not executed | TaskFindings.DestinationOwnerUnchecked | TaskFindings.UpdateTaskColumnEffect |
| backend/internal/task/repo.go:218-223 | the cross-column move never reads the destination's task count, so the 52-task cap of the create does not hold for it | destination with 52 tasks; move a task from another column there at position 1: accepted, and the destination holds 53 | refuse with TaskLimitReached, as the create does | medium, not executed | TaskFindings.MoveIgnoresTaskLimit | TaskFindings.CorrectedMoveKeepsTaskCap |
| backend/internal/task/repo.go:223-241 | a column move whose destination is the task's own column is not excluded | tasks a at 1, b at 2, c at 3; move a into its own column at 3: a lands at 2 | treat it as the in-column reorder, landing at the requested slot | medium, not executed | TaskFindings.SameColumnMoveLandsShort | TaskFindings.CorrectedMoveKeepsConsistent |

The same bounds and the same missing count check are in the layered task repository (backend/internal/task/repo/repo.go:160-200,214), and the same owner check is in its proxy. Generations.UpdateTaskAgrees carries these findings over to the layered generation. The repository models stay as written. The corrected definitions live in TaskFindings.
