/** The generic `/api/data` endpoints: a table name checked against a
    whitelist, then a SELECT with a row limit, an INSERT or an UPDATE whose
    column names and values come from the keys and values of the request's
    `data` object. */
module Data {
  import opened Text
  import opened Js
  import opened Http
  import opened Sql

  const MissingTable := "缺少 table 参数"
  const InvalidTable := "无效的表名"
  const MissingTableOrData := "缺少 table 或 data 参数"
  const MissingParams := "缺少必要参数"
  const GetFallback := "查询失败"
  const PostFallback := "插入失败"
  const PutFallback := "更新失败"

  /** `['users', 'memories', 'milestones']` */
  const AllowedTables: seq<string> := ["users", "memories", "milestones"]

  /** `allowedTables.includes(x)`: strict equality, so only those three strings pass. */
  predicate Allowed(x: Value) {
    x.Str? && x.s in AllowedTables
  }

  /** No whitelisted name holds a parameter marker. */
  lemma AllowedMarkerFree(x: Value)
    requires Allowed(x)
    ensures '?' !in x.s
  {
  }

  // ----- GET -----

  /** `parseInt(param || '50')` */
  function Limit(param: Option<string>): Value {
    ParseInt(if param.None? || param.value == "" then "50" else param.value)
  }

  /** With no `limit` parameter, or an empty one, the limit is 50. */
  lemma LimitDefault(param: Option<string>)
    ensures (param.None? || param.value == "") ==> Limit(param) == Num(50)
    ensures (param.Some? && param.value != "") ==> Limit(param) == ParseInt(param.value)
  {
    ParseIntOfDecimal(50);
    assert NatToString(50) == "50";
  }

  /** `SELECT * FROM <table> ORDER BY created_at DESC LIMIT ?` */
  function SelectSql(table: string): string {
    "SELECT * FROM " + table + " ORDER BY " + "created_at DESC" + " LIMIT " + "?"
  }

  lemma SelectSqlPlaceholders(table: string)
    requires '?' !in table
    ensures Placeholders(SelectSql(table)) == 1
  {
    var head := "SELECT * FROM " + table + " ORDER BY ";
    MarkerFreeAround("SELECT * FROM ", table, " ORDER BY ");
    OccurrencesAbsent("created_at DESC", '?');
    OccurrencesAbsent(" LIMIT ", '?');
    OccurrencesAppend(head, "created_at DESC", '?');
    OccurrencesAppend(head + "created_at DESC", " LIMIT ", '?');
    EndsInMarker(head + "created_at DESC" + " LIMIT ");
  }

  /** `GET /api/data?table=..&limit=..`; each parameter is the value of
      `searchParams.get`, `None` when absent. */
  function GetPlan(table: Option<string>, limit: Option<string>): Plan {
    if table.None? || table.value == "" then Reply(ErrorResponse(400, MissingTable))
    else if !Allowed(Str(table.value)) then Reply(ErrorResponse(400, InvalidTable))
    else Execute(Statement(SelectSql(table.value), [Limit(limit)]))
  }

  /** A GET without a table is refused; a table outside the whitelist is
      refused; otherwise one SELECT over a whitelisted table, bound to the
      limit. */
  lemma GetOutcomes(table: Option<string>, limit: Option<string>)
    ensures (table.None? || table.value == "") ==> GetPlan(table, limit) == Reply(ErrorResponse(400, MissingTable))
    ensures GetPlan(table, limit).Execute? <==> table.Some? && table.value in AllowedTables
    ensures GetPlan(table, limit).Execute? ==>
      && GetPlan(table, limit).statement.sql == SelectSql(table.value)
      && GetPlan(table, limit).statement.bindings == [Limit(limit)]
      && WellBound(GetPlan(table, limit).statement)
  {
    if table.Some? && table.value in AllowedTables {
      AllowedMarkerFree(Str(table.value));
      SelectSqlPlaceholders(table.value);
    }
  }

  // ----- POST / PUT -----

  /** `Object.keys(data)` */
  function Keys(entries: seq<(string, Value)>): (r: seq<string>)
    ensures |r| == |entries| && forall i :: 0 <= i < |entries| ==> r[i] == entries[i].0
  {
    if entries == [] then [] else Keys(entries[..|entries| - 1]) + [entries[|entries| - 1].0]
  }

  /** `Object.values(data)` */
  function Values(entries: seq<(string, Value)>): (r: seq<Value>)
    ensures |r| == |entries| && forall i :: 0 <= i < |entries| ==> r[i] == entries[i].1
  {
    if entries == [] then [] else Values(entries[..|entries| - 1]) + [entries[|entries| - 1].1]
  }

  /** `INSERT INTO <table> (<fields>) VALUES (<placeholders>)` */
  function InsertSql(table: string, fields: seq<string>): string {
    InsertInto(table, fields) + ValuesList(|fields|)
  }

  /** `INSERT INTO <table> (<fields>` */
  function InsertInto(table: string, fields: seq<string>): string {
    "INSERT INTO " + table + " (" + Join(fields, ", ")
  }

  /** `) VALUES (?, ..., ?)` */
  function ValuesList(n: nat): string {
    ") VALUES (" + MarkerList(n) + ")"
  }

  /** `POST /api/data` */
  function PostPlan(body: Attempt<Value>): Plan {
    match body
    case Throws(t) => Reply(Failure(t, PostFallback))
    case Done(v) =>
      if Nullish(v) then Reply(Failure(ReadError(v, "table"), PostFallback))
      else if !Truthy(Get(v, "table")) || !Truthy(Get(v, "data")) then
        Reply(ErrorResponse(400, MissingTableOrData))
      else if !Allowed(Get(v, "table")) then Reply(ErrorResponse(400, InvalidTable))
      else
        var entries := Entries(Get(v, "data"));
        Execute(Statement(InsertSql(Get(v, "table").s, Keys(entries)), Values(entries)))
  }

  /** A POST without a truthy table or data is refused with 400; one naming
      a table outside the whitelist is refused with 400 whatever its data. */
  lemma PostRefusals(v: Value)
    requires !Nullish(v)
    ensures !Truthy(Get(v, "table")) || !Truthy(Get(v, "data"))
        ==> PostPlan(Done(v)) == Reply(ErrorResponse(400, MissingTableOrData))
    ensures Truthy(Get(v, "table")) && Truthy(Get(v, "data")) && !Allowed(Get(v, "table"))
        ==> PostPlan(Done(v)) == Reply(ErrorResponse(400, InvalidTable))
    ensures PostPlan(Done(v)).Execute? <==> Truthy(Get(v, "data")) && Allowed(Get(v, "table"))
  {
  }

  /** Text free of markers, joined around a table name free of markers. */
  lemma MarkerFreeAround(before: string, table: string, after: string)
    requires '?' !in before && '?' !in table && '?' !in after
    ensures Placeholders(before + table + after) == 0
  {
    OccurrencesAbsent(before + table + after, '?');
  }

  lemma InsertIntoPlaceholders(table: string, fields: seq<string>)
    requires '?' !in table
    ensures Placeholders(InsertInto(table, fields)) == SumPlaceholders(fields)
  {
    MarkerFreeAround("INSERT INTO ", table, " (");
    JoinPlaceholders(fields, ", ");
    OccurrencesAppend("INSERT INTO " + table + " (", Join(fields, ", "), '?');
  }

  lemma ValuesListPlaceholders(n: nat)
    ensures Placeholders(ValuesList(n)) == n
  {
    OccurrencesAbsent(") VALUES (", '?');
    OccurrencesAbsent(")", '?');
    OccurrencesAppend(") VALUES (", MarkerList(n), '?');
    OccurrencesAppend(") VALUES (" + MarkerList(n), ")", '?');
  }

  lemma InsertSqlPlaceholders(table: string, fields: seq<string>)
    requires '?' !in table
    ensures Placeholders(InsertSql(table, fields)) == |fields| + SumPlaceholders(fields)
  {
    InsertIntoPlaceholders(table, fields);
    ValuesListPlaceholders(|fields|);
    OccurrencesAppend(InsertInto(table, fields), ValuesList(|fields|), '?');
  }




  /** An INSERT names the data's keys as columns and binds its values in the
      same order; it carries one marker per key plus any marker written
      inside a key, so markers and bindings agree exactly when no key holds
      a `?`. */
  lemma InsertShape(v: Value)
    requires !Nullish(v) && PostPlan(Done(v)).Execute?
    ensures var entries := Entries(Get(v, "data"));
      var st := PostPlan(Done(v)).statement;
      && Get(v, "table").s in AllowedTables
      && st.sql == InsertSql(Get(v, "table").s, Keys(entries))
      && |st.bindings| == |entries|
      && (forall i :: 0 <= i < |entries| ==> st.bindings[i] == entries[i].1)
      && Placeholders(st.sql) == |entries| + SumPlaceholders(Keys(entries))
      && (WellBound(st) <==> SumPlaceholders(Keys(entries)) == 0)
  {
    AllowedMarkerFree(Get(v, "table"));
    InsertSqlPlaceholders(Get(v, "table").s, Keys(Entries(Get(v, "data"))));
  }

  /** `PUT /api/data` */
  function PutPlan(body: Attempt<Value>): Plan {
    match body
    case Throws(t) => Reply(Failure(t, PutFallback))
    case Done(v) =>
      if Nullish(v) then Reply(Failure(ReadError(v, "table"), PutFallback))
      else if !Truthy(Get(v, "table")) || !Truthy(Get(v, "id")) || !Truthy(Get(v, "data")) then
        Reply(ErrorResponse(400, MissingParams))
      else if !Allowed(Get(v, "table")) then Reply(ErrorResponse(400, InvalidTable))
      else
        var entries := Entries(Get(v, "data"));
        Execute(Statement(UpdateSql(Get(v, "table").s, Assignments(Keys(entries))),
                          Values(entries) + [Get(v, "id")]))
  }

  /** A PUT without a truthy table, id or data is refused with 400; one
      naming a table outside the whitelist is refused with 400. */
  lemma PutRefusals(v: Value)
    requires !Nullish(v)
    ensures !Truthy(Get(v, "table")) || !Truthy(Get(v, "id")) || !Truthy(Get(v, "data"))
        ==> PutPlan(Done(v)) == Reply(ErrorResponse(400, MissingParams))
    ensures Truthy(Get(v, "id")) && Truthy(Get(v, "data")) && Truthy(Get(v, "table"))
            && !Allowed(Get(v, "table"))
        ==> PutPlan(Done(v)) == Reply(ErrorResponse(400, InvalidTable))
    ensures PutPlan(Done(v)).Execute?
        <==> Truthy(Get(v, "id")) && Truthy(Get(v, "data")) && Allowed(Get(v, "table"))
  {
  }

  /** The statement built for a whitelisted table from the data's entries
      and the id. */
  lemma KeyedUpdateShape(table: string, entries: seq<(string, Value)>, id: Value)
    requires '?' !in table
    ensures var st := Statement(UpdateSql(table, Assignments(Keys(entries))), Values(entries) + [id]);
      && |st.bindings| == |entries| + 1
      && (forall i :: 0 <= i < |entries| ==> st.bindings[i] == entries[i].1)
      && st.bindings[|entries|] == id
      && Placeholders(st.sql) == |entries| + SumPlaceholders(Keys(entries)) + 1
      && (WellBound(st) <==> SumPlaceholders(Keys(entries)) == 0)
  {
    UpdateSqlAssignments(table, Keys(entries));
  }

  /** An UPDATE has one `key = ?` per data key, binds the values in key order
      and the id after them; markers and bindings agree exactly when no key
      holds a `?`. */
  lemma UpdateShape(v: Value)
    requires !Nullish(v) && PutPlan(Done(v)).Execute?
    ensures var entries := Entries(Get(v, "data"));
      var st := PutPlan(Done(v)).statement;
      && st.sql == UpdateSql(Get(v, "table").s, Assignments(Keys(entries)))
      && |st.bindings| == |entries| + 1
      && (forall i :: 0 <= i < |entries| ==> st.bindings[i] == entries[i].1)
      && st.bindings[|entries|] == Get(v, "id")
      && Placeholders(st.sql) == |entries| + SumPlaceholders(Keys(entries)) + 1
      && (WellBound(st) <==> SumPlaceholders(Keys(entries)) == 0)
  {
    var entries := Entries(Get(v, "data"));
    var table := Get(v, "table").s;
    AllowedMarkerFree(Get(v, "table"));
    KeyedUpdateShape(table, entries, Get(v, "id"));
  }
}
