/** What a handler hands to the table store: the SQL text and its bindings.
    Executing it is outside the model; a handler either replies without
    touching the store or issues exactly one statement. */
module Sql {
  import opened Text
  import opened Js
  import opened Http

  datatype Statement = Statement(sql: string, bindings: seq<Value>)

  datatype Plan = Reply(response: Response) | Execute(statement: Statement)

  /** Number of `?` parameter markers in SQL text. */
  function Placeholders(sql: string): nat {
    Occurrences(sql, '?')
  }

  /** Every marker has exactly one binding. */
  predicate WellBound(st: Statement) {
    Placeholders(st.sql) == |st.bindings|
  }

  function SumPlaceholders(parts: seq<string>): nat {
    if parts == [] then 0 else SumPlaceholders(parts[..|parts| - 1]) + Placeholders(parts[|parts| - 1])
  }

  lemma SumPlaceholdersAppend(a: seq<string>, b: seq<string>)
    ensures SumPlaceholders(a + b) == SumPlaceholders(a) + SumPlaceholders(b)
  {
    if b != [] {
      assert (a + b)[..|a + b| - 1] == a + b[..|b| - 1];
      SumPlaceholdersAppend(a, b[..|b| - 1]);
    } else {
      assert a + b == a;
    }
  }

  /** Joining with a separator free of `?` adds no marker. */
  lemma {:induction false} JoinPlaceholders(parts: seq<string>, sep: string)
    requires '?' !in sep
    ensures Placeholders(Join(parts, sep)) == SumPlaceholders(parts)
  {
    if |parts| > 1 {
      var init := parts[..|parts| - 1];
      JoinPlaceholders(init, sep);
      OccurrencesAbsent(sep, '?');
      OccurrencesAppend(Join(init, sep), sep, '?');
      OccurrencesAppend(Join(init, sep) + sep, parts[|parts| - 1], '?');
    } else if |parts| == 1 {
      assert parts[..0] == [];
    }
  }

  /** `fields.map(() => '?')` */
  function Marks(n: nat): (r: seq<string>)
    ensures |r| == n && forall i :: 0 <= i < n ==> r[i] == "?"
  {
    if n == 0 then [] else Marks(n - 1) + ["?"]
  }

  lemma {:induction false} MarksPlaceholders(n: nat)
    ensures SumPlaceholders(Marks(n)) == n
  {
    if n > 0 {
      MarksPlaceholders(n - 1);
      assert Marks(n)[..n - 1] == Marks(n - 1);
    }
  }

  /** The SET fragment `col = ?` */
  function Assignment(col: string): string {
    col + " = ?"
  }

  /** A text ending in one marker, whose other characters are marker-free. */
  lemma EndsInMarker(prefix: string)
    requires '?' !in prefix
    ensures Placeholders(prefix + "?") == 1
  {
    OccurrencesAbsent(prefix, '?');
    assert (prefix + "?")[..|prefix|] == prefix;
  }

  lemma AssignmentPlaceholders(col: string)
    ensures Placeholders(Assignment(col)) == Placeholders(col) + 1
  {
    EndsInMarker(" = ");
    assert " = ?" == " = " + "?";
    OccurrencesAppend(col, " = ?", '?');
  }

  /** `fields.map(f => `${f} = ?`)` */
  function Assignments(cols: seq<string>): (r: seq<string>)
    ensures |r| == |cols| && forall i :: 0 <= i < |cols| ==> r[i] == Assignment(cols[i])
  {
    if cols == [] then [] else Assignments(cols[..|cols| - 1]) + [Assignment(cols[|cols| - 1])]
  }

  /** Each fragment carries its own marker plus any marker inside the column name. */
  lemma {:induction false} AssignmentsPlaceholders(cols: seq<string>)
    ensures SumPlaceholders(Assignments(cols)) == |cols| + SumPlaceholders(cols)
  {
    if cols != [] {
      var init := cols[..|cols| - 1];
      AssignmentsPlaceholders(init);
      AssignmentPlaceholders(cols[|cols| - 1]);
      assert Assignments(cols)[..|cols| - 1] == Assignments(init);
    }
  }

  lemma {:induction false} SumPlaceholdersZero(parts: seq<string>)
    requires forall i :: 0 <= i < |parts| ==> '?' !in parts[i]
    ensures SumPlaceholders(parts) == 0
  {
    if parts != [] {
      SumPlaceholdersZero(parts[..|parts| - 1]);
      OccurrencesAbsent(parts[|parts| - 1], '?');
    }
  }

  /** How a PUT handler decides that a body key is to be written: when its
      value is truthy, or whenever it is not `undefined` (so `''` is written). */
  datatype Presence = WhenTruthy | WhenDefined

  /** An updatable column: the body key, the column name, and its test. */
  datatype Column = Column(key: string, name: string, presence: Presence)

  predicate Supplied(body: Value, c: Column)
    requires !Nullish(body)
  {
    match c.presence
    case WhenTruthy => Truthy(Get(body, c.key))
    case WhenDefined => Get(body, c.key) != Undefined
  }

  /** The columns, in table order, that the body supplies. */
  function SuppliedColumns(body: Value, cols: seq<Column>): (r: seq<Column>)
    requires !Nullish(body)
    ensures |r| <= |cols|
  {
    if cols == [] then []
    else
      var init := SuppliedColumns(body, cols[..|cols| - 1]);
      var c := cols[|cols| - 1];
      if Supplied(body, c) then init + [c] else init
  }

  /** A column is picked exactly when it is in the table and the body supplies it. */
  lemma {:induction false} SuppliedColumnsMembership(body: Value, cols: seq<Column>, c: Column)
    requires !Nullish(body)
    ensures c in SuppliedColumns(body, cols) <==> c in cols && Supplied(body, c)
  {
    if cols != [] {
      var init := cols[..|cols| - 1];
      SuppliedColumnsMembership(body, init, c);
      assert cols == init + [cols[|cols| - 1]];
    }
  }

  function ColumnNames(cols: seq<Column>): (r: seq<string>)
    ensures |r| == |cols| && forall i :: 0 <= i < |cols| ==> r[i] == cols[i].name
  {
    if cols == [] then [] else ColumnNames(cols[..|cols| - 1]) + [cols[|cols| - 1].name]
  }

  /** The body's values for the columns, in the same order. */
  function ColumnValues(body: Value, cols: seq<Column>): (r: seq<Value>)
    requires !Nullish(body)
    ensures |r| == |cols| && forall i :: 0 <= i < |cols| ==> r[i] == Get(body, cols[i].key)
  {
    if cols == [] then [] else ColumnValues(body, cols[..|cols| - 1]) + [Get(body, cols[|cols| - 1].key)]
  }

  /** The trailing SET fragment every typed PUT appends. */
  const Touch := "updated_at = CURRENT_TIMESTAMP"

  /** `UPDATE <table> SET <fields> WHERE id = ?` */
  function UpdateSql(table: string, fields: seq<string>): string {
    "UPDATE " + table + " SET " + Join(fields, ", ") + " WHERE id = ?"
  }

  lemma UpdateSqlPlaceholders(table: string, fields: seq<string>)
    requires '?' !in table
    ensures Placeholders(UpdateSql(table, fields)) == SumPlaceholders(fields) + 1
  {
    JoinPlaceholders(fields, ", ");
    var a := "UPDATE " + table + " SET ";
    OccurrencesAbsent("UPDATE ", '?');
    OccurrencesAbsent(" SET ", '?');
    OccurrencesAbsent(table, '?');
    OccurrencesAppend("UPDATE ", table, '?');
    OccurrencesAppend("UPDATE " + table, " SET ", '?');
    OccurrencesAppend(a, Join(fields, ", "), '?');
    EndsInMarker(" WHERE id = ");
    assert " WHERE id = ?" == " WHERE id = " + "?";
    OccurrencesAppend(a + Join(fields, ", "), " WHERE id = ?", '?');
  }

  /** The statement a typed PUT issues once at least one column is supplied:
      one fragment per supplied column, then `updated_at`, with the row id
      bound last. Its markers and bindings always agree. */
  lemma TypedUpdateWellBound(table: string, cols: seq<Column>, body: Value, id: Value)
    requires !Nullish(body)
    requires '?' !in table
    requires forall i :: 0 <= i < |cols| ==> '?' !in cols[i].name
    ensures var picked := SuppliedColumns(body, cols);
      WellBound(Statement(UpdateSql(table, Assignments(ColumnNames(picked)) + [Touch]),
                          ColumnValues(body, picked) + [id]))
  {
    var names := ColumnNames(SuppliedColumns(body, cols));
    PickedNamesMarkerFree(body, cols);
    SumPlaceholdersZero(names);
    AssignmentsPlaceholders(names);
    SumPlaceholdersAppend(Assignments(names), [Touch]);
    assert [Touch][..0] == [];
    OccurrencesAbsent(Touch, '?');
    UpdateSqlPlaceholders(table, Assignments(names) + [Touch]);
  }

  lemma {:induction false} PickedNamesMarkerFree(body: Value, cols: seq<Column>)
    requires !Nullish(body)
    requires forall i :: 0 <= i < |cols| ==> '?' !in cols[i].name
    ensures forall i :: 0 <= i < |SuppliedColumns(body, cols)| ==> '?' !in ColumnNames(SuppliedColumns(body, cols))[i]
  {
    if cols != [] {
      PickedNamesMarkerFree(body, cols[..|cols| - 1]);
    }
  }

  /** No column is picked exactly when the body supplies none of them. */
  lemma {:induction false} SuppliedColumnsEmpty(body: Value, cols: seq<Column>)
    requires !Nullish(body)
    ensures SuppliedColumns(body, cols) == [] <==> forall i :: 0 <= i < |cols| ==> !Supplied(body, cols[i])
  {
    if cols != [] {
      var init := cols[..|cols| - 1];
      SuppliedColumnsEmpty(body, init);
      if SuppliedColumns(body, init) != [] {
        var j :| 0 <= j < |init| && Supplied(body, init[j]);
        assert cols[j] == init[j];
      }
    }
  }



  /** Filtering distributes over concatenation, so the supplied columns keep
      the table's column order. */
  lemma {:induction false} SuppliedColumnsAppend(body: Value, a: seq<Column>, b: seq<Column>)
    requires !Nullish(body)
    ensures SuppliedColumns(body, a + b) == SuppliedColumns(body, a) + SuppliedColumns(body, b)
  {
    if b != [] {
      var n := |b| - 1;
      assert (a + b)[..|a + b| - 1] == a + b[..n];
      SuppliedColumnsAppend(body, a, b[..n]);
    } else {
      assert a + b == a;
    }
  }

  /** One `if (...) { fields.push(...); values.push(...); }` step of a PUT
      handler: column `k` is appended to the fragments and its value to the
      bindings exactly when the body supplies it. */
  lemma PickStep(body: Value, cols: seq<Column>, k: nat)
    requires !Nullish(body) && k < |cols|
    ensures var prev := SuppliedColumns(body, cols[..k]);
      var next := SuppliedColumns(body, cols[..k + 1]);
      && (Supplied(body, cols[k]) ==>
            && Assignments(ColumnNames(next)) == Assignments(ColumnNames(prev)) + [Assignment(cols[k].name)]
            && ColumnValues(body, next) == ColumnValues(body, prev) + [Get(body, cols[k].key)])
      && (!Supplied(body, cols[k]) ==> next == prev)
  {
    var prefix := cols[..k + 1];
    assert prefix[..k] == cols[..k];
    var prev := SuppliedColumns(body, cols[..k]);
    var next := SuppliedColumns(body, prefix);
    if Supplied(body, cols[k]) {
      assert next == prev + [cols[k]];
      assert next[..|next| - 1] == prev;
      assert ColumnNames(next)[..|next| - 1] == ColumnNames(prev);
    }
  }

  /** The statement a typed PUT issues: one fragment per supplied column in
      table order, then `updated_at`, bound to the supplied values and then
      the row id. */
  function UpdateStatement(table: string, cols: seq<Column>, body: Value): Statement
    requires !Nullish(body)
  {
    var picked := SuppliedColumns(body, cols);
    Statement(UpdateSql(table, Assignments(ColumnNames(picked)) + [Touch]),
              ColumnValues(body, picked) + [Get(body, "id")])
  }

  /** A typed PUT's statement: markers and bindings agree, `updated_at` is the
      last fragment, the id is the last binding and every other binding is a
      supplied value in column order. */
  lemma UpdateStatementShape(table: string, cols: seq<Column>, body: Value)
    requires !Nullish(body)
    requires '?' !in table
    requires forall i :: 0 <= i < |cols| ==> '?' !in cols[i].name
    ensures var st := UpdateStatement(table, cols, body);
      var picked := SuppliedColumns(body, cols);
      && WellBound(st)
      && |st.bindings| == |picked| + 1
      && st.bindings[|picked|] == Get(body, "id")
      && (forall i :: 0 <= i < |picked| ==> st.bindings[i] == Get(body, picked[i].key))
      && st.sql == UpdateSql(table, Assignments(ColumnNames(picked)) + [Touch])
  {
    TypedUpdateWellBound(table, cols, body, Get(body, "id"));
  }

  /** `DELETE FROM <table> WHERE id = ?` */
  function DeleteSql(table: string): string {
    "DELETE FROM " + table + " WHERE id = ?"
  }

  /** The delete branch of a typed POST: one marker, bound to the id. */
  function DeleteStatement(table: string, id: Value): (st: Statement)
    requires '?' !in table
    ensures WellBound(st) && st.bindings == [id]
  {
    OccurrencesAbsent("DELETE FROM ", '?');
    OccurrencesAbsent(table, '?');
    OccurrencesAppend("DELETE FROM ", table, '?');
    EndsInMarker(" WHERE id = ");
    assert " WHERE id = ?" == " WHERE id = " + "?";
    OccurrencesAppend("DELETE FROM " + table, " WHERE id = ?", '?');
    Statement(DeleteSql(table), [id])
  }

  /** `fields.map(() => '?').join(', ')`: `n` markers separated by commas. */
  function MarkerList(n: nat): (r: string)
    ensures Placeholders(r) == n
  {
    OccurrencesAbsent(", ", '?');
    JoinPlaceholders(Marks(n), ", ");
    MarksPlaceholders(n);
    Join(Marks(n), ", ")
  }

  /** The fragments and bindings pushed for the first `k` columns. */
  predicate PushedUpTo(body: Value, cols: seq<Column>, k: nat, fields: seq<string>, values: seq<Value>)
    requires !Nullish(body) && k <= |cols|
  {
    && fields == Assignments(ColumnNames(SuppliedColumns(body, cols[..k])))
    && values == ColumnValues(body, SuppliedColumns(body, cols[..k]))
  }

  lemma PushedAll(body: Value, cols: seq<Column>, fields: seq<string>, values: seq<Value>)
    requires !Nullish(body)
    requires PushedUpTo(body, cols, |cols|, fields, values)
    ensures fields == Assignments(ColumnNames(SuppliedColumns(body, cols)))
    ensures values == ColumnValues(body, SuppliedColumns(body, cols))
  {
    assert cols[..|cols|] == cols;
  }

  /** One `if (...) { fields.push('col = ?'); values.push(body.key); }` step
      of a PUT handler, for column `k` of its table. */
  method PushIfSupplied(body: Value, cols: seq<Column>, k: nat, fields: seq<string>, values: seq<Value>)
    returns (fields': seq<string>, values': seq<Value>)
    requires !Nullish(body) && k < |cols|
    requires PushedUpTo(body, cols, k, fields, values)
    ensures fields' == fields + (if Supplied(body, cols[k]) then [Assignment(cols[k].name)] else [])
    ensures values' == values + (if Supplied(body, cols[k]) then [Get(body, cols[k].key)] else [])
    ensures PushedUpTo(body, cols, k + 1, fields', values')
  {
    fields', values' := fields, values;
    if Supplied(body, cols[k]) {
      fields' := fields' + [Assignment(cols[k].name)];
      values' := values' + [Get(body, cols[k].key)];
    }
    PickStep(body, cols, k);
  }

  /** `UPDATE <table> SET k1 = ?, ..., kn = ? WHERE id = ?` over arbitrary
      column names: one marker per column, one for the id, and any marker
      written inside a name. */
  lemma UpdateSqlAssignments(table: string, names: seq<string>)
    requires '?' !in table
    ensures Placeholders(UpdateSql(table, Assignments(names))) == |names| + SumPlaceholders(names) + 1
  {
    AssignmentsPlaceholders(names);
    UpdateSqlPlaceholders(table, Assignments(names));
  }
}
