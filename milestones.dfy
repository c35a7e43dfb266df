/** The `/api/milestones` endpoints: listing, the create-or-delete POST, and
    the PUT that pushes one `col = ?` fragment per supplied field. */
module Milestones {
  import opened Text
  import opened Js
  import opened Http
  import opened Sql

  const Table := "milestones"

  const ListFallback := "查询失败"
  const PostFallback := "操作失败"
  const PutFallback := "更新失败"
  const MissingFields := "缺少必要字段"
  const MissingId := "缺少 id"
  const NothingToUpdate := "没有要更新的字段"

  // ----- GET -----

  /** `SELECT * FROM milestones ORDER BY date ASC, created_at DESC` */
  const ListSql := "SELECT * FROM milestones " + "ORDER BY date ASC, " + "created_at DESC"

  function RowObjects(rows: seq<seq<(string, Value)>>): (r: seq<Value>)
    ensures |r| == |rows| && forall i :: 0 <= i < |rows| ==> r[i] == Obj(rows[i])
  {
    if rows == [] then [] else RowObjects(rows[..|rows| - 1]) + [Obj(rows[|rows| - 1])]
  }

  /** `GET /api/milestones` once the store has answered: the rows as stored,
      in the store's order. */
  function ListResponse(results: Attempt<seq<seq<(string, Value)>>>): (r: Response)
    ensures results.Done? ==> r.status == 200 && r.body == Json(SuccessBody(Arr(RowObjects(results.value))))
    ensures results.Throws? ==> r == Failure(results.thrown, ListFallback)
  {
    match results
    case Throws(t) => Failure(t, ListFallback)
    case Done(rows) => JsonResponse(200, SuccessBody(Arr(RowObjects(rows))), map[])
  }

  // ----- POST -----

  /** The INSERT as the source writes it, line break and indentation included. */
  const InsertSql := "INSERT INTO milestones " + "(title, date, type, description) "
    + "\n       " + "VALUES (" + MarkerList(4) + ")"

  lemma InsertSqlPlaceholders()
    ensures Placeholders(InsertSql) == 4
  {
    var a := "INSERT INTO milestones ";
    var b := "(title, date, type, description) ";
    var d := "\n       ";
    var e := "VALUES (";
    OccurrencesAbsent(a, '?');
    OccurrencesAbsent(b, '?');
    OccurrencesAbsent(d, '?');
    OccurrencesAbsent(e, '?');
    OccurrencesAbsent(")", '?');
    OccurrencesAppend(a, b, '?');
    OccurrencesAppend(a + b, d, '?');
    OccurrencesAppend(a + b + d, e, '?');
    OccurrencesAppend(a + b + d + e, MarkerList(4), '?');
    OccurrencesAppend(a + b + d + e + MarkerList(4), ")", '?');
  }

  /** `POST /api/milestones`: delete when `delete` and `id` are both truthy,
      otherwise create from the required title, date and type, with a falsy
      description bound as null. */
  function PostPlan(body: Attempt<Value>): Plan {
    match body
    case Throws(t) => Reply(Failure(t, PostFallback))
    case Done(v) =>
      if Nullish(v) then Reply(Failure(ReadError(v, "delete"), PostFallback))
      else if Truthy(Get(v, "delete")) && Truthy(Get(v, "id")) then
        Execute(DeleteStatement(Table, Get(v, "id")))
      else if !Truthy(Get(v, "title")) || !Truthy(Get(v, "date")) || !Truthy(Get(v, "type")) then
        Reply(ErrorResponse(400, MissingFields))
      else
        Execute(Statement(InsertSql, [Get(v, "title"), Get(v, "date"), Get(v, "type"),
          OrNull(Get(v, "description"))]))
  }

  /** A truthy `delete` with a truthy `id` deletes that row and never inserts. */
  lemma PostDeletes(v: Value)
    requires !Nullish(v) && Truthy(Get(v, "delete")) && Truthy(Get(v, "id"))
    ensures PostPlan(Done(v)) == Execute(Statement(DeleteSql(Table), [Get(v, "id")]))
    ensures WellBound(PostPlan(Done(v)).statement)
  {
  }

  /** A create without a truthy title, date or type is refused with 400 and
      issues nothing. */
  lemma PostRequiresFields(v: Value)
    requires !Nullish(v) && !(Truthy(Get(v, "delete")) && Truthy(Get(v, "id")))
    ensures PostPlan(Done(v)).Reply?
        <==> !Truthy(Get(v, "title")) || !Truthy(Get(v, "date")) || !Truthy(Get(v, "type"))
    ensures PostPlan(Done(v)).Reply? ==> PostPlan(Done(v)).response == ErrorResponse(400, MissingFields)
  {
  }

  /** A create binds its four markers to title, date, type and description,
      in that order, with a falsy description as null. */
  lemma PostCreateBindings(v: Value)
    requires !Nullish(v) && !(Truthy(Get(v, "delete")) && Truthy(Get(v, "id")))
    requires Truthy(Get(v, "title")) && Truthy(Get(v, "date")) && Truthy(Get(v, "type"))
    ensures var st := PostPlan(Done(v)).statement;
      && PostPlan(Done(v)).Execute?
      && WellBound(st)
      && st.bindings[..3] == [Get(v, "title"), Get(v, "date"), Get(v, "type")]
      && (Truthy(Get(v, "description")) ==> st.bindings[3] == Get(v, "description"))
      && (!Truthy(Get(v, "description")) ==> st.bindings[3] == Null)
  {
    InsertSqlPlaceholders();
  }

  // ----- PUT -----

  /** The columns a PUT may set, in push order: title, date and type when
      truthy; description whenever not `undefined`. */
  const Columns: seq<Column> := [
    Column("title", "title", WhenTruthy),
    Column("date", "date", WhenTruthy),
    Column("type", "type", WhenTruthy),
    Column("description", "description", WhenDefined)]

  /** What `PUT /api/milestones` does with a body. */
  function PutPlan(body: Attempt<Value>): Plan {
    match body
    case Throws(t) => Reply(Failure(t, PutFallback))
    case Done(v) =>
      if Nullish(v) then Reply(Failure(ReadError(v, "id"), PutFallback))
      else if !Truthy(Get(v, "id")) then Reply(ErrorResponse(400, MissingId))
      else if SuppliedColumns(v, Columns) == [] then Reply(ErrorResponse(400, NothingToUpdate))
      else Execute(UpdateStatement(Table, Columns, v))
  }

  /** The four `if (...) { fields.push(...); values.push(...); }` statements,
      one per column of the table `Put` passes (`Columns`), in order. */
  method PushSupplied(v: Value, cols: seq<Column>) returns (fields: seq<string>, values: seq<Value>)
    requires !Nullish(v) && |cols| == 4
    ensures PushedUpTo(v, cols, 4, fields, values)
  {
    fields, values := [], [];
    assert cols[..0] == [];
    fields, values := PushIfSupplied(v, cols, 0, fields, values);
    fields, values := PushIfSupplied(v, cols, 1, fields, values);
    fields, values := PushIfSupplied(v, cols, 2, fields, values);
    fields, values := PushIfSupplied(v, cols, 3, fields, values);
  }

  /** `onRequestPut`. */
  method Put(body: Attempt<Value>) returns (plan: Plan)
    ensures plan == PutPlan(body)
  {
    if body.Throws? {
      return Reply(Failure(body.thrown, PutFallback));
    }
    var v := body.value;
    if Nullish(v) {
      return Reply(Failure(ReadError(v, "id"), PutFallback));
    }
    if !Truthy(Get(v, "id")) {
      return Reply(ErrorResponse(400, MissingId));
    }
    var fields, values := PushSupplied(v, Columns);
    PushedAll(v, Columns, fields, values);
    if |fields| == 0 {
      return Reply(ErrorResponse(400, NothingToUpdate));
    }
    fields := fields + [Touch];
    values := values + [Get(v, "id")];
    plan := Execute(Statement(UpdateSql(Table, fields), values));
  }

  /** A PUT without a truthy id is refused with 400 and issues nothing. */
  lemma PutRequiresId(v: Value)
    requires !Nullish(v) && !Truthy(Get(v, "id"))
    ensures PutPlan(Done(v)) == Reply(ErrorResponse(400, MissingId))
  {
  }

  /** Title, date and type are written only when truthy; description
      whenever present, so an empty description is written. */
  lemma PutColumnChoice(v: Value)
    requires !Nullish(v)
    ensures var picked := SuppliedColumns(v, Columns);
      && (Columns[0] in picked <==> Truthy(Get(v, "title")))
      && (Columns[1] in picked <==> Truthy(Get(v, "date")))
      && (Columns[2] in picked <==> Truthy(Get(v, "type")))
      && (Columns[3] in picked <==> Get(v, "description") != Undefined)
  {
    SuppliedColumnsMembership(v, Columns, Columns[0]);
    SuppliedColumnsMembership(v, Columns, Columns[1]);
    SuppliedColumnsMembership(v, Columns, Columns[2]);
    SuppliedColumnsMembership(v, Columns, Columns[3]);
  }

  /** A PUT with an id but no field to change is refused with 400. */
  lemma PutNothingToUpdate(v: Value)
    requires !Nullish(v) && Truthy(Get(v, "id"))
    ensures PutPlan(Done(v)) == Reply(ErrorResponse(400, NothingToUpdate))
        <==> !Truthy(Get(v, "title")) && !Truthy(Get(v, "date")) && !Truthy(Get(v, "type"))
             && Get(v, "description") == Undefined
  {
    SuppliedColumnsEmpty(v, Columns);
    var none := !Supplied(v, Columns[0]) && !Supplied(v, Columns[1])
             && !Supplied(v, Columns[2]) && !Supplied(v, Columns[3]);
    if none {
      forall i | 0 <= i < |Columns| ensures !Supplied(v, Columns[i]) {
        assert i == 0 || i == 1 || i == 2 || i == 3;
      }
    }
    assert (SuppliedColumns(v, Columns) == []) == none;
  }

  lemma ColumnsMarkerFree()
    ensures forall i :: 0 <= i < |Columns| ==> '?' !in Columns[i].name
  {
  }

  /** An issued PUT has as many markers as bindings, ends its SET list with
      `updated_at`, and binds the id last. */
  lemma PutStatementShape(v: Value)
    requires !Nullish(v) && Truthy(Get(v, "id"))
    requires PutPlan(Done(v)).Execute?
    ensures var st := PutPlan(Done(v)).statement;
      && WellBound(st)
      && st.bindings[|st.bindings| - 1] == Get(v, "id")
      && st.sql == UpdateSql(Table, Assignments(ColumnNames(SuppliedColumns(v, Columns))) + [Touch])
  {
    assert PutPlan(Done(v)) == Execute(UpdateStatement(Table, Columns, v));
    ColumnsMarkerFree();
    UpdateStatementShape(Table, Columns, v);
  }
}
