/**
 * The update-request classifier: validateUpdateTaskRequest and isNil of
 * backend/internal/task/service/service.go, which backend/internal/task/handler.go
 * repeats word for word for the flat handler. It picks one of three update
 * routes from which optional fields of a PATCH body are present.
 */
module UpdateRequest {
  import opened Store

  /** taskModel.UpdateRequest (and the flat updateTaskRequest): every field is a pointer, nil when absent. */
  datatype Request = Request(
    columnId: Option<ColumnId>,
    name: Option<string>,
    description: Option<string>,
    position: Option<int>,
    done: Option<bool>,
    deadline: Option<Timestamp>)

  datatype UpdateCase = Content | Column | Position | Undefined

  /** A Go `any`: the untyped nil, or a boxed pointer that may itself be nil. */
  datatype Any = NilInterface | Pointer(isNull: bool)

  /** Putting a typed pointer field into an `[]any` boxes it; the box is never the untyped nil. */
  function Box<T>(field: Option<T>): Any {
    Pointer(field.None?)
  }

  /** isNil: the untyped nil, or a typed nil pointer seen through reflection. */
  function IsNil(v: Any): bool {
    v.NilInterface? || v.isNull
  }

  /** The four content fields in the order the classifier lists them. */
  function ContentFields(req: Request): seq<Any> {
    [Box(req.name), Box(req.description), Box(req.done), Box(req.deadline)]
  }

  /** How many values of a slice are not nil. */
  function CountSet(fields: seq<Any>): nat {
    if |fields| == 0 then 0
    else CountSet(fields[..|fields| - 1]) + (if IsNil(fields[|fields| - 1]) then 0 else 1)
  }

  // The reference classification, written from the field combinations rather than from a count.

  predicate NoContent(req: Request) {
    req.name.None? && req.description.None? && req.done.None? && req.deadline.None?
  }

  predicate OneContent(req: Request) {
    || (req.name.Some? && req.description.None? && req.done.None? && req.deadline.None?)
    || (req.name.None? && req.description.Some? && req.done.None? && req.deadline.None?)
    || (req.name.None? && req.description.None? && req.done.Some? && req.deadline.None?)
    || (req.name.None? && req.description.None? && req.done.None? && req.deadline.Some?)
  }

  function Classify(req: Request): UpdateCase {
    if OneContent(req) && req.columnId.None? && req.position.None? then Content
    else if NoContent(req) && req.columnId.Some? && req.position.Some? then Column
    else if NoContent(req) && req.columnId.None? && req.position.Some? then Position
    else Undefined
  }

  /** A boxed field counts as absent exactly when its pointer is nil. */
  lemma IsNilMeansAbsent<T>(field: Option<T>)
    ensures IsNil(Box(field)) <==> field.None?
    ensures Box(field) != NilInterface
  {
  }

  /** The count of set content fields is 0 or 1 exactly in the reference's two cases. */
  lemma {:induction false} ContentCount(req: Request)
    ensures CountSet(ContentFields(req)) == 0 <==> NoContent(req)
    ensures CountSet(ContentFields(req)) == 1 <==> OneContent(req)
  {
    var f := ContentFields(req);
    assert f[..3][..2][..1][..0] == [];
    assert CountSet(f[..3][..2][..1]) == (if req.name.Some? then 1 else 0);
    assert CountSet(f[..3][..2]) == CountSet(f[..3][..2][..1]) + (if req.description.Some? then 1 else 0);
    assert CountSet(f[..3]) == CountSet(f[..3][..2]) + (if req.done.Some? then 1 else 0);
    assert CountSet(f) == CountSet(f[..3]) + (if req.deadline.Some? then 1 else 0);
  }

  /**
   * validateUpdateTaskRequest: count the non-nil content fields in a loop, then
   * pick the route. It agrees with the reference classification on every request.
   */
  method ValidateUpdateTaskRequest(req: Request) returns (c: UpdateCase)
    ensures c == Classify(req)
  {
    var contentFields := ContentFields(req);
    var contentCount := 0;
    for i := 0 to |contentFields|
      invariant contentCount == CountSet(contentFields[..i])
    {
      assert contentFields[..i + 1][..i] == contentFields[..i];
      if !IsNil(contentFields[i]) {
        contentCount := contentCount + 1;
      }
    }
    assert contentFields[..|contentFields|] == contentFields;
    ContentCount(req);

    var columnSet := req.columnId.Some?;
    var positionSet := req.position.Some?;
    if contentCount == 1 && !columnSet && !positionSet {
      c := Content;
    } else if contentCount == 0 && columnSet && positionSet {
      c := Column;
    } else if contentCount == 0 && !columnSet && positionSet {
      c := Position;
    } else {
      c := Undefined;
    }
  }

  /** Each accepted route guarantees the fields its repository operation dereferences. */
  lemma RoutesHaveTheirFields(req: Request)
    ensures Classify(req) == Column ==> req.columnId.Some? && req.position.Some? && NoContent(req)
    ensures Classify(req) == Position ==> req.position.Some? && req.columnId.None? && NoContent(req)
    ensures Classify(req) == Content ==> req.columnId.None? && req.position.None? && OneContent(req)
  {
  }

  /** The combinations that match no route: nothing set, a column without a position, content mixed with a move, two content fields. */
  lemma UndefinedCombinations(req: Request)
    ensures NoContent(req) && req.position.None? ==> Classify(req) == Undefined
    ensures req.columnId.Some? && req.position.None? && !OneContent(req) ==> Classify(req) == Undefined
    ensures !NoContent(req) && (req.columnId.Some? || req.position.Some?) ==> Classify(req) == Undefined
    ensures req.name.Some? && req.description.Some? ==> Classify(req) == Undefined
    ensures req.done.Some? && req.deadline.Some? ==> Classify(req) == Undefined
  {
  }
}
