/** The `/api/memories` endpoints: listing with the column renaming, the
    create-or-delete POST, and the PUT that pushes one `col = ?` fragment per
    supplied field. */
module Memories {
  import opened Text
  import opened Js
  import opened Http
  import opened Sql

  const Table := "memories"

  const ListFallback := "查询失败"
  const PostFallback := "操作失败"
  const PutFallback := "更新失败"
  const MissingFields := "缺少必要字段"
  const MissingId := "缺少 id"
  const NothingToUpdate := "没有要更新的字段"

  // ----- GET -----

  /** `SELECT * FROM memories ORDER BY date DESC, created_at DESC` */
  const ListSql := "SELECT * FROM memories " + "ORDER BY date DESC, " + "created_at DESC"

  /** The response field and the row column it is read from, in response order. */
  const FieldMap: seq<(string, string)> := [
    ("id", "id"), ("title", "title"), ("content", "content"), ("date", "date"),
    ("location", "location"), ("mood", "mood"), ("imageUrl", "image_url"),
    ("createdAt", "created_at"), ("updatedAt", "updated_at")]

  /** Each target field paired with the row's value for its source column. */
  function Rename(row: seq<(string, Value)>, table: seq<(string, string)>): (r: seq<(string, Value)>)
    ensures |r| == |table|
    ensures forall i :: 0 <= i < |table| ==> r[i] == (table[i].0, Lookup(row, table[i].1))
  {
    if table == [] then []
    else Rename(row, table[..|table| - 1]) + [(table[|table| - 1].0, Lookup(row, table[|table| - 1].1))]
  }

  /** `mapMemoryFields(row)` */
  function MapMemoryFields(row: seq<(string, Value)>): Value {
    Obj(Rename(row, FieldMap))
  }

  /** The object's value under a key it holds exactly once. */
  lemma {:induction false} LookupUnique(fields: seq<(string, Value)>, i: nat)
    requires i < |fields|
    requires forall j :: 0 <= j < |fields| && j != i ==> fields[j].0 != fields[i].0
    ensures Lookup(fields, fields[i].0) == fields[i].1
  {
    var n := |fields| - 1;
    if i < n {
      LookupUnique(fields[..n], i);
    }
  }

  /** The mapped record has exactly the nine response fields, in order;
      `imageUrl`, `createdAt` and `updatedAt` read the snake-case columns and
      the other six read the column of the same name. */
  lemma MapMemoryFieldsRenames(row: seq<(string, Value)>)
    ensures var m := MapMemoryFields(row);
      && |m.fields| == 9
      && (forall i :: 0 <= i < 9 ==> m.fields[i].0 == FieldMap[i].0)
      && Get(m, "imageUrl") == Lookup(row, "image_url")
      && Get(m, "createdAt") == Lookup(row, "created_at")
      && Get(m, "updatedAt") == Lookup(row, "updated_at")
      && Get(m, "id") == Lookup(row, "id")
      && Get(m, "title") == Lookup(row, "title")
      && Get(m, "content") == Lookup(row, "content")
      && Get(m, "date") == Lookup(row, "date")
      && Get(m, "location") == Lookup(row, "location")
      && Get(m, "mood") == Lookup(row, "mood")
  {
    var f := Rename(row, FieldMap);
    forall i | 0 <= i < 9 ensures Lookup(f, f[i].0) == f[i].1 {
      LookupUnique(f, i);
    }
    assert f[0].0 == "id" && f[1].0 == "title" && f[2].0 == "content";
    assert f[3].0 == "date" && f[4].0 == "location" && f[5].0 == "mood";
    assert f[6].0 == "imageUrl" && f[7].0 == "createdAt" && f[8].0 == "updatedAt";
  }

  function MapRows(rows: seq<seq<(string, Value)>>): (r: seq<Value>)
    ensures |r| == |rows| && forall i :: 0 <= i < |rows| ==> r[i] == MapMemoryFields(rows[i])
  {
    if rows == [] then [] else MapRows(rows[..|rows| - 1]) + [MapMemoryFields(rows[|rows| - 1])]
  }

  /** `GET /api/memories` once the store has answered the list query: the
      rows, in the store's order, each renamed. */
  function ListResponse(results: Attempt<seq<seq<(string, Value)>>>): (r: Response)
    ensures results.Done? ==> r.status == 200 && r.body == Json(SuccessBody(Arr(MapRows(results.value))))
    ensures results.Throws? ==> r == Failure(results.thrown, ListFallback)
  {
    match results
    case Throws(t) => Failure(t, ListFallback)
    case Done(rows) => JsonResponse(200, SuccessBody(Arr(MapRows(rows))), map[])
  }

  // ----- POST -----

  /** The INSERT as the source writes it: a trailing space, a line break and
      seven spaces before `VALUES`. */
  const InsertSql := "INSERT INTO memories " + "(title, content, date, " + "location, mood, image_url) "
    + "\n       " + "VALUES (" + MarkerList(6) + ")"

  lemma InsertSqlPlaceholders()
    ensures Placeholders(InsertSql) == 6
  {
    var a := "INSERT INTO memories ";
    var b := "(title, content, date, ";
    var c := "location, mood, image_url) ";
    var d := "\n       ";
    var e := "VALUES (";
    OccurrencesAbsent(a, '?');
    OccurrencesAbsent(b, '?');
    OccurrencesAbsent(c, '?');
    OccurrencesAbsent(d, '?');
    OccurrencesAbsent(e, '?');
    OccurrencesAbsent(")", '?');
    OccurrencesAppend(a, b, '?');
    OccurrencesAppend(a + b, c, '?');
    OccurrencesAppend(a + b + c, d, '?');
    OccurrencesAppend(a + b + c + d, e, '?');
    OccurrencesAppend(a + b + c + d + e, MarkerList(6), '?');
    OccurrencesAppend(a + b + c + d + e + MarkerList(6), ")", '?');
  }

  /** `POST /api/memories`: delete when `delete` and `id` are both truthy,
      otherwise create from the required title, content and date, with the
      falsy optional fields bound as null. */
  function PostPlan(body: Attempt<Value>): Plan {
    match body
    case Throws(t) => Reply(Failure(t, PostFallback))
    case Done(v) =>
      if Nullish(v) then Reply(Failure(ReadError(v, "delete"), PostFallback))
      else if Truthy(Get(v, "delete")) && Truthy(Get(v, "id")) then
        Execute(DeleteStatement(Table, Get(v, "id")))
      else if !Truthy(Get(v, "title")) || !Truthy(Get(v, "content")) || !Truthy(Get(v, "date")) then
        Reply(ErrorResponse(400, MissingFields))
      else
        Execute(Statement(InsertSql, [Get(v, "title"), Get(v, "content"), Get(v, "date"),
          OrNull(Get(v, "location")), OrNull(Get(v, "mood")), OrNull(Get(v, "imageUrl"))]))
  }

  /** A truthy `delete` with a truthy `id` deletes that row and never inserts,
      whatever else the body holds. */
  lemma PostDeletes(v: Value)
    requires !Nullish(v) && Truthy(Get(v, "delete")) && Truthy(Get(v, "id"))
    ensures PostPlan(Done(v)) == Execute(Statement(DeleteSql(Table), [Get(v, "id")]))
    ensures WellBound(PostPlan(Done(v)).statement)
  {
  }

  /** A create without a truthy title, content or date is refused with 400
      and issues nothing. */
  lemma PostRequiresFields(v: Value)
    requires !Nullish(v) && !(Truthy(Get(v, "delete")) && Truthy(Get(v, "id")))
    ensures PostPlan(Done(v)).Reply?
        <==> !Truthy(Get(v, "title")) || !Truthy(Get(v, "content")) || !Truthy(Get(v, "date"))
    ensures PostPlan(Done(v)).Reply? ==> PostPlan(Done(v)).response == ErrorResponse(400, MissingFields)
  {
  }

  /** A create binds its six markers to title, content, date, location, mood
      and image URL, in that order, with falsy optional values as null. */
  lemma PostCreateBindings(v: Value)
    requires !Nullish(v) && !(Truthy(Get(v, "delete")) && Truthy(Get(v, "id")))
    requires Truthy(Get(v, "title")) && Truthy(Get(v, "content")) && Truthy(Get(v, "date"))
    ensures var st := PostPlan(Done(v)).statement;
      && PostPlan(Done(v)).Execute?
      && WellBound(st) && |st.bindings| == 6
      && st.bindings[..3] == [Get(v, "title"), Get(v, "content"), Get(v, "date")]
      && (Truthy(Get(v, "location")) ==> st.bindings[3] == Get(v, "location"))
      && (!Truthy(Get(v, "location")) ==> st.bindings[3] == Null)
      && (Truthy(Get(v, "mood")) ==> st.bindings[4] == Get(v, "mood"))
      && (!Truthy(Get(v, "mood")) ==> st.bindings[4] == Null)
      && (Truthy(Get(v, "imageUrl")) ==> st.bindings[5] == Get(v, "imageUrl"))
      && (!Truthy(Get(v, "imageUrl")) ==> st.bindings[5] == Null)
  {
    InsertSqlPlaceholders();
  }

  // ----- PUT -----

  /** The columns a PUT may set, in push order: title, content and date when
      truthy; location, mood and image URL whenever not `undefined`. */
  const Columns: seq<Column> := [
    Column("title", "title", WhenTruthy),
    Column("content", "content", WhenTruthy),
    Column("date", "date", WhenTruthy),
    Column("location", "location", WhenDefined),
    Column("mood", "mood", WhenDefined),
    Column("imageUrl", "image_url", WhenDefined)]

  /** What `PUT /api/memories` does with a body. */
  function PutPlan(body: Attempt<Value>): Plan {
    match body
    case Throws(t) => Reply(Failure(t, PutFallback))
    case Done(v) =>
      if Nullish(v) then Reply(Failure(ReadError(v, "id"), PutFallback))
      else if !Truthy(Get(v, "id")) then Reply(ErrorResponse(400, MissingId))
      else if SuppliedColumns(v, Columns) == [] then Reply(ErrorResponse(400, NothingToUpdate))
      else Execute(UpdateStatement(Table, Columns, v))
  }

  /** The six `if (...) { fields.push(...); values.push(...); }` statements,
      one per column of the table `Put` passes (`Columns`), in order. */
  method PushSupplied(v: Value, cols: seq<Column>) returns (fields: seq<string>, values: seq<Value>)
    requires !Nullish(v) && |cols| == 6
    ensures PushedUpTo(v, cols, 6, fields, values)
  {
    fields, values := [], [];
    assert cols[..0] == [];
    fields, values := PushIfSupplied(v, cols, 0, fields, values);
    fields, values := PushIfSupplied(v, cols, 1, fields, values);
    fields, values := PushIfSupplied(v, cols, 2, fields, values);
    fields, values := PushIfSupplied(v, cols, 3, fields, values);
    fields, values := PushIfSupplied(v, cols, 4, fields, values);
    fields, values := PushIfSupplied(v, cols, 5, fields, values);
  }

  /** `onRequestPut`. */
  method Put(body: Attempt<Value>) returns (plan: Plan)
    ensures plan == PutPlan(body)
  {
    if body.Throws? {
      return Reply(Failure(body.thrown, PutFallback));
    }
    var v := body.value;
    if Nullish(v) {
      return Reply(Failure(ReadError(v, "id"), PutFallback));
    }
    if !Truthy(Get(v, "id")) {
      return Reply(ErrorResponse(400, MissingId));
    }
    var fields, values := PushSupplied(v, Columns);
    PushedAll(v, Columns, fields, values);
    if |fields| == 0 {
      return Reply(ErrorResponse(400, NothingToUpdate));
    }
    fields := fields + [Touch];
    values := values + [Get(v, "id")];
    plan := Execute(Statement(UpdateSql(Table, fields), values));
  }

  lemma ColumnsMarkerFree()
    ensures forall i :: 0 <= i < |Columns| ==> '?' !in Columns[i].name
  {
  }

  /** A PUT without a truthy id is refused with 400 and issues nothing. */
  lemma PutRequiresId(v: Value)
    requires !Nullish(v) && !Truthy(Get(v, "id"))
    ensures PutPlan(Done(v)) == Reply(ErrorResponse(400, MissingId))
  {
  }

  /** Title, content and date are written only when truthy; location, mood
      and image URL whenever present, so an empty string is written for them
      but not for the first three. */
  lemma PutColumnChoice(v: Value)
    requires !Nullish(v)
    ensures var picked := SuppliedColumns(v, Columns);
      && (Columns[0] in picked <==> Truthy(Get(v, "title")))
      && (Columns[1] in picked <==> Truthy(Get(v, "content")))
      && (Columns[2] in picked <==> Truthy(Get(v, "date")))
      && (Columns[3] in picked <==> Get(v, "location") != Undefined)
      && (Columns[4] in picked <==> Get(v, "mood") != Undefined)
      && (Columns[5] in picked <==> Get(v, "imageUrl") != Undefined)
  {
    SuppliedColumnsMembership(v, Columns, Columns[0]);
    SuppliedColumnsMembership(v, Columns, Columns[1]);
    SuppliedColumnsMembership(v, Columns, Columns[2]);
    SuppliedColumnsMembership(v, Columns, Columns[3]);
    SuppliedColumnsMembership(v, Columns, Columns[4]);
    SuppliedColumnsMembership(v, Columns, Columns[5]);
  }

  /** A PUT with an id but no field to change is refused with 400. */
  lemma PutNothingToUpdate(v: Value)
    requires !Nullish(v) && Truthy(Get(v, "id"))
    ensures PutPlan(Done(v)) == Reply(ErrorResponse(400, NothingToUpdate))
        <==> !Truthy(Get(v, "title")) && !Truthy(Get(v, "content")) && !Truthy(Get(v, "date"))
             && Get(v, "location") == Undefined && Get(v, "mood") == Undefined
             && Get(v, "imageUrl") == Undefined
  {
    SuppliedColumnsEmpty(v, Columns);
    var none := !Supplied(v, Columns[0]) && !Supplied(v, Columns[1]) && !Supplied(v, Columns[2])
             && !Supplied(v, Columns[3]) && !Supplied(v, Columns[4]) && !Supplied(v, Columns[5]);
    if none {
      forall i | 0 <= i < |Columns| ensures !Supplied(v, Columns[i]) {
        assert i == 0 || i == 1 || i == 2 || i == 3 || i == 4 || i == 5;
      }
    }
    assert (SuppliedColumns(v, Columns) == []) == none;
  }

  /** An issued PUT has as many markers as bindings, ends its SET list with
      `updated_at`, and binds the id last. */
  lemma PutStatementShape(v: Value)
    requires !Nullish(v) && Truthy(Get(v, "id"))
    requires PutPlan(Done(v)).Execute?
    ensures var st := PutPlan(Done(v)).statement;
      && WellBound(st)
      && st.bindings[|st.bindings| - 1] == Get(v, "id")
      && st.sql == UpdateSql(Table, Assignments(ColumnNames(SuppliedColumns(v, Columns))) + [Touch])
  {
    assert PutPlan(Done(v)) == Execute(UpdateStatement(Table, Columns, v));
    ColumnsMarkerFree();
    UpdateStatementShape(Table, Columns, v);
  }
}
