/**
 * The relational store and the SQL statements of backend/internal/postgres/queries.go.
 *
 * The `column` and `task` tables are maps from row id to a `Row` whose `parent`
 * is the container (board_id for a column, column_id for a task). Every
 * position statement filters on the parent, so it is written once, generically,
 * and used for both tables. The SELECTs are functions of the tables; the
 * UPDATE/DELETE statements are functions from the old table to the new one,
 * which the repositories assign to the `Database` fields they mutate.
 *
 * The task-side statements are referenced by the repositories but are not
 * defined in backend/internal/postgres/queries.go. Each is given the meaning
 * below, taken from its name, its argument list at the call sites in
 * backend/internal/task/repo.go and backend/internal/task/repo/repo.go, and,
 * where one exists, the column statement with column_id for board_id:
 *   QueryMoveTasksUp(col, lo, hi)       = MoveLeft   (position - 1 where lo < position <= hi), as MoveColumnsLeft
 *   QueryMoveTasksDown(col, lo, hi)     = MoveRight  (position + 1 where lo <= position < hi), as MoveColumnsRight
 *   QueryMoveTaskForDelete(col, pos)    = DecreasePosition (position - 1 where position > pos), as DecreaseColumnsPosition
 *   QueryGetMaxTaskPosition(col)        = COALESCE(MAX(position), 0) + 1, as QueryGetMaxColumnPosition
 *   QueryGetTasksCount(col)             = COUNT(*), as QueryGetColumnsCount
 *   QueryGetColumnIDAndPosition(task)   = ParentAndPosition (TaskFlat.ColumnIdAndPosition), as QueryGetBoardIDAndColumnPos
 *   QueryCheckBoardOwnershipForTask(col, user) = EXISTS column JOIN board with that owner, as QueryCheckBoardOwnership
 *   QueryGetUserByBoardID / ByColumnID / ByTaskID = the owner found along task -> column -> board
 *   QueryCreateTask(id, col, created, updated, name, description, position, done)
 *                                       = one new row (TaskFlat.AppendTask), as QueryCreateColumn
 *   QueryUpdateTaskContent(name, description, done, deadline, updated, task)
 *                                       = COALESCE on each content field (TaskFlat.RewriteContent), as QueryUpdateColumn
 *   QueryUpdateTaskPosition(position, updated, task)
 *                                       = the row's position written (the last step of TaskFlat.RepositionTask)
 *   QueryDeleteTask(task)               = the row removed (the last step of TaskFlat.DeleteTaskRows), as QueryDeleteColumn
 *   QueryGetColumnID(task)              = the row's column, NoRows for an unknown id (TaskFlat.UpdateTaskContentEffect)
 *   QueryGetTask(task) / QueryGetAllTasks(col) = the row / the column's rows (TaskLayered.Repository.Get / GetAll)
 * Two of them have no column counterpart at all and are assumed from their
 * names and argument lists alone:
 *   QueryMoveTasksForInsert(col, pos)   = MoveForInsert (position + 1 where position >= pos)
 *   QueryUpdateTaskColumn(col, position, updated, task)
 *                                       = the row reparented to col at position (the middle step of TaskFlat.MoveTaskRows)
 * Store.MoveBySql, Store.SameParentMoveBySql and the findings that rest on
 * them (TaskFindings.SourceBoundOverflowsDestination and
 * TaskFindings.SameColumnMoveLandsShort) hold for these assumed meanings.
 */
module Store {
  import Ledger

  type UserId = string
  type BoardId = string
  type ColumnId = string
  type TaskId = string
  /** Timestamps are opaque values supplied by the caller (utils.GenerateTimestamp). */
  type Timestamp = int

  datatype Option<T> = None | Some(value: T)

  /** The error values the core distinguishes (Go wraps them with %w; errors.Is identity is kept). */
  datatype Error =
    | Forbidden              // errForbidden / ErrForbidden
    | ColumnNotFound         // errColumnNotFound / ErrColumnNotFound
    | TaskNotFound           // errTaskNotFound / ErrTaskNotFound
    | ColumnLimitReached
    | TaskLimitReached
    | IncorrectPosition
    | BadUpdateRequest
    | NoRows                 // sql.ErrNoRows
    | ForeignKeyViolation    // a REFERENCES constraint of the schema
    | UniqueViolation        // a duplicate primary key

  /** A Go `error` result: nil or an error value. */
  datatype Outcome = Pass | Fail(error: Error)

  datatype Result<T> = Success(value: T) | Failure(error: Error)

  /** The `errors.Is(err, sql.ErrNoRows)` relabelling: a missing row reported as the caller's not-found error. */
  function NoRowsAs(e: Error, notFound: Error): Error {
    if e == NoRows then notFound else e
  }

  /** Capacity guard constants (column/repo.go:10, task/repo.go:10 and their layered copies). */
  const MaxColumns: int := 42
  const MaxTasks: int := 52

  datatype Board = Board(userId: UserId, name: string, createdAt: Timestamp, updatedAt: Timestamp)

  /** A row of the column or task table: its container, its position, and the other fields. */
  datatype Row<P, D> = Row(parent: P, position: int, data: D)

  datatype ColumnData = ColumnData(name: string, createdAt: Timestamp, updatedAt: Timestamp)

  datatype TaskData = TaskData(
    name: string, description: string, done: bool, deadline: Option<Timestamp>,
    createdAt: Timestamp, updatedAt: Timestamp)

  type ColumnRow = Row<BoardId, ColumnData>
  type TaskRow = Row<ColumnId, TaskData>
  type Table<K, P, D> = map<K, Row<P, D>>

  type Columns = map<ColumnId, ColumnRow>
  type Tasks = map<TaskId, TaskRow>

  /** The whole store. The repositories mutate these tables in place; that a change keeps them
   *  Consistent is proved of the effect function each mutating method is tied to. */
  class Database {
    var boards: map<BoardId, Board>
    var columns: Columns
    var tasks: Tasks
  }

  /** Every column's board and every task's column exists (the REFERENCES constraints of the schema). */
  ghost predicate Linked(boards: map<BoardId, Board>, columns: Columns, tasks: Tasks) {
    && (forall c :: c in columns ==> columns[c].parent in boards)
    && (forall k :: k in tasks ==> tasks[k].parent in columns)
  }

  /** The ledger invariant: every board's columns and every column's tasks are dense, and rows are linked. */
  ghost predicate Consistent(boards: map<BoardId, Board>, columns: Columns, tasks: Tasks) {
    && (forall b :: Ledger.Dense(Positions(columns, b)))
    && (forall c :: Ledger.Dense(Positions(tasks, c)))
    && Linked(boards, columns, tasks)
  }

  /** What a transaction reports: nil, or the error it returned. */
  function OutcomeOf<T>(r: Result<T>): Outcome {
    if r.Success? then Pass else Fail(r.error)
  }

  /** What a transaction leaves behind: the new table when it commits, the old one when it rolls back. */
  function Committed<T>(r: Result<T>, before: T): T {
    if r.Success? then r.value else before
  }

  // ---------------------------------------------------------------------------
  // SELECT statements
  // ---------------------------------------------------------------------------

  /** The positions of the rows of one container. */
  function Positions<K, P(==), D>(t: Table<K, P, D>, p: P): map<K, int> {
    map k | k in t && t[k].parent == p :: t[k].position
  }

  /** QueryGetColumnsCount / QueryGetTasksCount: SELECT COUNT(*) ... WHERE parent = $1. */
  function Count<K, P(==), D>(t: Table<K, P, D>, p: P): int {
    |Positions(t, p)|
  }

  /** QueryGetMaxColumnPosition / QueryGetMaxTaskPosition: COALESCE(MAX(position), 0) + 1. */
  function MaxPosition<K, P(==), D>(t: Table<K, P, D>, p: P): int {
    Ledger.Next(Positions(t, p))
  }

  /** No container holds more than cap rows: the limit the create operations enforce. */
  ghost predicate WithinCap<K, P(!new), D>(t: Table<K, P, D>, cap: int) {
    forall p :: Count(t, p) <= cap
  }

  /** QueryCheckBoardOwnership: EXISTS a board with id $1 and user_id $2. */
  function CheckBoardOwnership(boards: map<BoardId, Board>, b: BoardId, u: UserId): bool {
    b in boards && boards[b].userId == u
  }

  /** QueryCheckBoardOwnershipForTask: EXISTS column $1 whose board has user_id $2. */
  function CheckColumnOwnership(
    boards: map<BoardId, Board>, columns: map<ColumnId, ColumnRow>, c: ColumnId, u: UserId): bool
  {
    c in columns && CheckBoardOwnership(boards, columns[c].parent, u)
  }

  /** QueryGetBoardIDAndColumnPos / QueryGetColumnIDAndPosition: the row's container and position. */
  function ParentAndPosition<K, P, D>(t: Table<K, P, D>, k: K): (r: Result<(P, int)>)
    ensures r.Success? <==> k in t
    ensures r.Failure? ==> r.error == NoRows
    ensures r.Success? ==> r.value == (t[k].parent, t[k].position)
  {
    if k in t then Success((t[k].parent, t[k].position)) else Failure(NoRows)
  }

  /** QueryGetUserByBoardID: the owner of a board. */
  function OwnerOfBoard(boards: map<BoardId, Board>, b: BoardId): Result<UserId> {
    if b in boards then Success(boards[b].userId) else Failure(NoRows)
  }

  /** QueryGetUserByColumnID: the owner of the board holding a column. */
  function OwnerOfColumn(
    boards: map<BoardId, Board>, columns: map<ColumnId, ColumnRow>, c: ColumnId): Result<UserId>
  {
    if c in columns then OwnerOfBoard(boards, columns[c].parent) else Failure(NoRows)
  }

  /** QueryGetUserByTaskID: the owner along task -> column -> board. */
  function OwnerOfTask(
    boards: map<BoardId, Board>, columns: map<ColumnId, ColumnRow>, tasks: map<TaskId, TaskRow>,
    k: TaskId): Result<UserId>
  {
    if k in tasks then OwnerOfColumn(boards, columns, tasks[k].parent) else Failure(NoRows)
  }

  // ---------------------------------------------------------------------------
  // UPDATE statements
  // ---------------------------------------------------------------------------

  /** QueryDecreaseColumnsPosition / QueryMoveTaskForDelete: position - 1 WHERE parent = $1 AND position > $2. */
  function DecreasePosition<K, P(==), D>(t: Table<K, P, D>, p: P, pos: int): Table<K, P, D> {
    map k | k in t :: if t[k].parent == p && t[k].position > pos then t[k].(position := t[k].position - 1) else t[k]
  }

  /** QueryMoveColumnsRight / QueryMoveTasksDown: position + 1 WHERE parent = $1 AND $2 <= position < $3. */
  function MoveRight<K, P(==), D>(t: Table<K, P, D>, p: P, lo: int, hi: int): Table<K, P, D> {
    map k | k in t :: if t[k].parent == p && lo <= t[k].position < hi then t[k].(position := t[k].position + 1) else t[k]
  }

  /** QueryMoveColumnsLeft / QueryMoveTasksUp: position - 1 WHERE parent = $1 AND $2 < position <= $3. */
  function MoveLeft<K, P(==), D>(t: Table<K, P, D>, p: P, lo: int, hi: int): Table<K, P, D> {
    map k | k in t :: if t[k].parent == p && lo < t[k].position <= hi then t[k].(position := t[k].position - 1) else t[k]
  }

  /** QueryMoveTasksForInsert: position + 1 WHERE parent = $1 AND position >= $2. */
  function MoveForInsert<K, P(==), D>(t: Table<K, P, D>, p: P, pos: int): Table<K, P, D> {
    map k | k in t :: if t[k].parent == p && t[k].position >= pos then t[k].(position := t[k].position + 1) else t[k]
  }

  /**
   * The reorder shift, chosen by direction of travel: rows in (from, to] move down
   * when the item moves towards the end, rows in [to, from) move up when it moves
   * towards the start, and nothing moves when it stays.
   */
  function Shift<K, P(==), D>(t: Table<K, P, D>, p: P, from: int, to: int): Table<K, P, D> {
    if to > from then MoveLeft(t, p, from, to) else if to < from then MoveRight(t, p, to, from) else t
  }

  /** QueryUpdateColumn: name = COALESCE($1, name), position = COALESCE($2, position), updated_at = $3 WHERE id = $4. */
  function UpdateColumnRow(
    columns: map<ColumnId, ColumnRow>, id: ColumnId, name: Option<string>, pos: Option<int>, now: Timestamp)
    : (r: map<ColumnId, ColumnRow>)
    ensures r.Keys == columns.Keys
    ensures id in columns ==>
      && r[id].parent == columns[id].parent
      && r[id].position == (if pos.Some? then pos.value else columns[id].position)
      && r[id].data.name == (if name.Some? then name.value else columns[id].data.name)
      && r[id].data.createdAt == columns[id].data.createdAt
      && r[id].data.updatedAt == now
    ensures forall c :: c in columns && c != id ==> r[c] == columns[c]
  {
    if id !in columns then columns
    else
      var row := columns[id];
      columns[id := Row(
        row.parent,
        if pos.Some? then pos.value else row.position,
        row.data.(name := if name.Some? then name.value else row.data.name, updatedAt := now))]
  }

  // ---------------------------------------------------------------------------
  // The statement sequences, checked against the ledger
  // ---------------------------------------------------------------------------

  /** A row written by INSERT at MaxPosition is the ledger's append; no other container changes. */
  lemma AppendBySql<K, P, D>(t: Table<K, P, D>, p: P, k: K, d: D)
    requires k !in t
    ensures Positions(t[k := Row(p, MaxPosition(t, p), d)], p) == Ledger.Append(Positions(t, p), k)
    ensures forall q :: q != p ==> Positions(t[k := Row(p, MaxPosition(t, p), d)], q) == Positions(t, q)
  {
    var t' := t[k := Row(p, MaxPosition(t, p), d)];
    assert Positions(t', p).Keys == Positions(t, p).Keys + {k};
    forall q | q != p ensures Positions(t', q) == Positions(t, q) {
      assert Positions(t', q).Keys == Positions(t, q).Keys;
    }
  }

  /**
   * The shift chosen by direction of travel followed by the row's own UPDATE is the
   * ledger's reorder; no other container changes.
   */
  lemma ReorderBySql<K, P, D>(t: Table<K, P, D>, k: K, r: Row<P, D>)
    requires k in t && r.parent == t[k].parent
    ensures
      var p, o, n := t[k].parent, t[k].position, r.position;
      var after := Shift(t, p, o, n)[k := r];
      && k in Positions(t, p)
      && Positions(after, p) == Ledger.Reorder(Positions(t, p), k, n)
      && forall q :: q != p ==> Positions(after, q) == Positions(t, q)
  {
    var p, o, n := t[k].parent, t[k].position, r.position;
    var after := Shift(t, p, o, n)[k := r];
    var before, final := Positions(t, p), Positions(after, p);
    var reordered := Ledger.Reorder(before, k, n);
    assert before[k] == o;
    forall j | j in reordered ensures j in final && final[j] == reordered[j] {
      assert j in t && t[j].parent == p && t[j].position == before[j];
    }
    assert final.Keys == reordered.Keys;
    forall q | q != p ensures Positions(after, q) == Positions(t, q) {
      assert Positions(after, q).Keys == Positions(t, q).Keys;
    }
  }

  /** Deleting the row and compacting above it, in either order, is the ledger's remove. */
  lemma RemoveBySql<K, P, D>(t: Table<K, P, D>, k: K)
    requires k in t
    ensures
      var p, o := t[k].parent, t[k].position;
      && DecreasePosition(t, p, o) - {k} == DecreasePosition(t - {k}, p, o)
      && k in Positions(t, p)
      && Positions(DecreasePosition(t - {k}, p, o), p) == Ledger.Remove(Positions(t, p), k)
      && forall q :: q != p ==> Positions(DecreasePosition(t - {k}, p, o), q) == Positions(t, q)
  {
    var p, o := t[k].parent, t[k].position;
    var after := DecreasePosition(t - {k}, p, o);
    assert (DecreasePosition(t, p, o) - {k}).Keys == after.Keys;
    assert Positions(after, p).Keys == Positions(t, p).Keys - {k};
    forall q | q != p ensures Positions(after, q) == Positions(t, q) {
      assert Positions(after, q).Keys == Positions(t, q).Keys;
    }
  }

  /**
   * The cross-container move: open a slot in the destination, rewrite the row
   * there, close the gap in the source. With distinct containers this is the
   * ledger's insert in the destination and remove in the source.
   */
  lemma MoveBySql<K, P, D>(t: Table<K, P, D>, k: K, r: Row<P, D>)
    requires k in t && r.parent != t[k].parent
    ensures
      var src, o, dest, n := t[k].parent, t[k].position, r.parent, r.position;
      var after := DecreasePosition(MoveForInsert(t, dest, n)[k := r], src, o);
      && k in Positions(t, src) && k !in Positions(t, dest)
      && Positions(after, dest) == Ledger.Insert(Positions(t, dest), k, n)
      && Positions(after, src) == Ledger.Remove(Positions(t, src), k)
      && forall q :: q != src && q != dest ==> Positions(after, q) == Positions(t, q)
  {
    MoveIntoDestination(t, k, r);
    MoveOutOfSource(t, k, r);
    MoveLeavesOthers(t, k, r);
  }

  /** The destination half of the move: a slot opens at n and the reparented row fills it. */
  lemma MoveIntoDestination<K, P, D>(t: Table<K, P, D>, k: K, r: Row<P, D>)
    requires k in t && r.parent != t[k].parent
    ensures
      var src, o, dest, n := t[k].parent, t[k].position, r.parent, r.position;
      Positions(DecreasePosition(MoveForInsert(t, dest, n)[k := r], src, o), dest) == Ledger.Insert(Positions(t, dest), k, n)
  {
    var src, o, dest, n := t[k].parent, t[k].position, r.parent, r.position;
    var widened := MoveForInsert(t, dest, n);
    var moved := widened[k := r];
    OpenSlotAt(t, dest, n);
    assert Positions(moved, dest).Keys == Positions(widened, dest).Keys + {k};
    assert Positions(moved, dest) == Positions(widened, dest)[k := n];
    ShiftsElsewhere(moved, src, n, o, dest);
  }

  /** The source half of the move: the row leaves and the gap above its slot closes. */
  lemma MoveOutOfSource<K, P, D>(t: Table<K, P, D>, k: K, r: Row<P, D>)
    requires k in t && r.parent != t[k].parent
    ensures
      var src, o, dest, n := t[k].parent, t[k].position, r.parent, r.position;
      Positions(DecreasePosition(MoveForInsert(t, dest, n)[k := r], src, o), src) == Ledger.Remove(Positions(t, src), k)
  {
    var src, o, dest, n := t[k].parent, t[k].position, r.parent, r.position;
    var moved := MoveForInsert(t, dest, n)[k := r];
    ShiftsElsewhere(t, dest, n, o, src);
    assert Positions(moved, src).Keys == Positions(t, src).Keys - {k};
    LeaveAndClose(t, k, moved, src);
  }

  /** No container other than the two the move names changes. */
  lemma MoveLeavesOthers<K, P, D>(t: Table<K, P, D>, k: K, r: Row<P, D>)
    requires k in t && r.parent != t[k].parent
    ensures
      var src, o, dest, n := t[k].parent, t[k].position, r.parent, r.position;
      forall q :: q != src && q != dest ==> Positions(DecreasePosition(MoveForInsert(t, dest, n)[k := r], src, o), q) == Positions(t, q)
  {
    var src, o, dest, n := t[k].parent, t[k].position, r.parent, r.position;
    var widened := MoveForInsert(t, dest, n);
    var moved := widened[k := r];
    forall q | q != src && q != dest ensures Positions(DecreasePosition(moved, src, o), q) == Positions(t, q) {
      ShiftsElsewhere(t, dest, n, o, q);
      assert Positions(moved, q).Keys == Positions(t, q).Keys;
      ShiftsElsewhere(moved, src, n, o, q);
    }
  }

  /** The two slot statements of a move touch only the container they name. */
  lemma ShiftsElsewhere<K, P, D>(t: Table<K, P, D>, p: P, n: int, o: int, q: P)
    requires q != p
    ensures Positions(MoveForInsert(t, p, n), q) == Positions(t, q)
    ensures Positions(DecreasePosition(t, p, o), q) == Positions(t, q)
  {
    assert Positions(MoveForInsert(t, p, n), q).Keys == Positions(t, q).Keys;
    assert Positions(DecreasePosition(t, p, o), q).Keys == Positions(t, q).Keys;
  }

  /** Once a row has left its container, closing the gap above its old slot is the ledger's remove. */
  lemma LeaveAndClose<K, P, D>(t: Table<K, P, D>, k: K, moved: Table<K, P, D>, src: P)
    requires k in t && t[k].parent == src
    requires Positions(moved, src) == Positions(t, src) - {k}
    ensures Positions(DecreasePosition(moved, src, t[k].position), src) == Ledger.Remove(Positions(t, src), k)
  {
    var before, o := Positions(t, src), t[k].position;
    CloseSlotAt(moved, src, o);
    var closed, removed := Positions(DecreasePosition(moved, src, o), src), Ledger.Remove(before, k);
    forall j | j in removed ensures j in closed && closed[j] == removed[j] {
      assert j in before - {k};
    }
    assert closed.Keys == removed.Keys;
  }

  /** QueryMoveTasksForInsert shifts its own container as the ledger's insert does. */
  lemma OpenSlotAt<K, P, D>(t: Table<K, P, D>, p: P, n: int)
    ensures Positions(MoveForInsert(t, p, n), p) == map j | j in Positions(t, p) :: if Positions(t, p)[j] >= n then Positions(t, p)[j] + 1 else Positions(t, p)[j]
  {
    assert Positions(MoveForInsert(t, p, n), p).Keys == Positions(t, p).Keys;
  }

  /** DecreasePosition shifts its own container down above the freed slot. */
  lemma CloseSlotAt<K, P, D>(t: Table<K, P, D>, p: P, o: int)
    ensures Positions(DecreasePosition(t, p, o), p) == map j | j in Positions(t, p) :: if Positions(t, p)[j] > o then Positions(t, p)[j] - 1 else Positions(t, p)[j]
  {
    assert Positions(DecreasePosition(t, p, o), p).Keys == Positions(t, p).Keys;
  }

  /**
   * The same statements when the destination is the source container: the
   * container stays dense-shaped, but an item moved towards the end lands one
   * short of the requested position.
   */
  lemma SameParentMoveBySql<K, P, D>(t: Table<K, P, D>, k: K, r: Row<P, D>)
    requires k in t && r.parent == t[k].parent
    ensures
      var p, o, n := t[k].parent, t[k].position, r.position;
      var after := DecreasePosition(MoveForInsert(t, p, n)[k := r], p, o);
      && k in Positions(t, p)
      && Positions(after, p) == Ledger.Reorder(Positions(t, p), k, if n > o then n - 1 else n)
      && forall q :: q != p ==> Positions(after, q) == Positions(t, q)
  {
    var p, o, n := t[k].parent, t[k].position, r.position;
    var after := DecreasePosition(MoveForInsert(t, p, n)[k := r], p, o);
    var before, final := Positions(t, p), Positions(after, p);
    var reordered := Ledger.Reorder(before, k, if n > o then n - 1 else n);
    assert before[k] == o;
    forall j | j in reordered ensures j in final && final[j] == reordered[j] {
      assert j in t && t[j].parent == p && t[j].position == before[j];
    }
    assert final.Keys == reordered.Keys;
    forall q | q != p ensures Positions(after, q) == Positions(t, q) {
      assert Positions(after, q).Keys == Positions(t, q).Keys;
    }
  }

  /** Rewriting a row's non-position fields in place changes no container's positions. */
  lemma RewriteKeepsPositions<K, P, D>(t: Table<K, P, D>, k: K, r: Row<P, D>)
    requires k in t && r.parent == t[k].parent && r.position == t[k].position
    ensures forall q :: Positions(t[k := r], q) == Positions(t, q)
  {
    forall q ensures Positions(t[k := r], q) == Positions(t, q) {
      assert Positions(t[k := r], q).Keys == Positions(t, q).Keys;
    }
  }

  // ---------------------------------------------------------------------------
  // Ownership: the in-transaction EXISTS checks agree with the owner lookups
  // ---------------------------------------------------------------------------

  /** The flat repositories' EXISTS check allows exactly when the layered proxies' owner lookup returns the caller. */
  lemma OwnershipChecksAgree(
    boards: map<BoardId, Board>, columns: map<ColumnId, ColumnRow>, b: BoardId, c: ColumnId, u: UserId)
    ensures CheckBoardOwnership(boards, b, u) <==> OwnerOfBoard(boards, b) == Success(u)
    ensures CheckColumnOwnership(boards, columns, c, u) <==> OwnerOfColumn(boards, columns, c) == Success(u)
  {
  }

  /** A store-wide dense invariant survives a change confined to one container that stays dense. */
  lemma DenseElsewhere<K, P, D>(t: Table<K, P, D>, t': Table<K, P, D>, p: P)
    requires forall q :: Ledger.Dense(Positions(t, q))
    requires forall q :: q != p ==> Positions(t', q) == Positions(t, q)
    requires Ledger.Dense(Positions(t', p))
    ensures forall q :: Ledger.Dense(Positions(t', q))
  {
    forall q ensures Ledger.Dense(Positions(t', q)) {
      if q != p { assert Positions(t', q) == Positions(t, q); }
    }
  }

  /** A change that keeps one container within the cap and leaves all the others as they were keeps the whole table within it. */
  lemma CapElsewhere<K, P(!new), D>(t: Table<K, P, D>, t': Table<K, P, D>, p: P, cap: int)
    requires WithinCap(t, cap)
    requires forall q :: q != p ==> Positions(t', q) == Positions(t, q)
    requires Count(t', p) <= cap
    ensures WithinCap(t', cap)
  {
    forall q ensures Count(t', q) <= cap {
      if q != p {
        assert Positions(t', q) == Positions(t, q);
        assert Count(t, q) <= cap;
      }
    }
  }
}
