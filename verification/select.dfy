/** `select_all`, `select_by_column`, `select_in_column` and the custom
    select form: `select <columns of a default record> from <table> ` followed
    by the generator's where fragment. */
module SelectSql {
  import opened Values
  import opened Sql
  import opened Results
  import opened Crud

  /** `select ` trim ',': for k,_ in table: ${k},  ` from ${table_name} ` <tail> */
  function SelectTemplate(fs: Record, tableName: string, tail: Out): (o: Out)
    ensures o.binds == tail.binds
    ensures WellFormed(tail) ==> WellFormed(o)
    ensures o.sql == Text("select ") + JoinComma(Lits(Names(fs))).sql + Text(" from " + tableName + " ") + tail.sql
  {
    Cat(Cat(Cat(Lit("select "), ColumnList(fs)), Lit(" from " + tableName + " ")), tail)
  }

  /** The custom form `impl_select!(T{f(..) => "<tail>"})`: the tail as the
      template engine renders it for the call's arguments. The column list
      comes from the entity's default record; the statement is never a count
      query; an evaluation error of the tail is passed on unchanged. */
  function SelectWith(default: Record, table: TableRef, tail: Result<Out>): (r: Result<Query>)
    ensures r.Ok? <==> tail.Ok?
    ensures tail.Err? ==> r.msg == tail.msg
    ensures r.Ok? ==>
      && !r.value.isCount
      && r.value.binds == tail.value.binds
      && r.value.sql == Text("select ") + JoinComma(Lits(Names(default))).sql
                        + Text(" from " + TableName(table) + " ") + tail.value.sql
      && (WellFormed(tail.value) ==> QueryWellFormed(r.value))
  {
    var t :- tail;
    Ok(ToQuery(SelectTemplate(default, TableName(table), t), false))
  }

  /** `select_all`: the empty tail; no binds. */
  function SelectAll(default: Record, table: TableRef): (r: Result<Query>)
    ensures r.Ok? && !r.value.isCount && r.value.binds == []
    ensures r.value.sql == Text("select ") + JoinComma(Lits(Names(default))).sql + Text(" from " + TableName(table) + " ")
  {
    SelectWith(default, table, Ok(Empty))
  }

  /** "` where ${column} = #{column_value}`" */
  function ColumnEquals(column: string, value: Value): (o: Out)
    ensures o.binds == [value]
    ensures o.sql == Text(" where " + column + " = ") + [Hole]
    ensures WellFormed(o)
  {
    Cat(Lit(" where " + column + " = "), Param(value))
  }

  /** `select_by_column`: binds exactly the one value, behind one placeholder. */
  function SelectByColumn(default: Record, table: TableRef, column: string, value: Value): (r: Result<Query>)
    ensures r.Ok? && !r.value.isCount
    ensures r.value.binds == [value]
    ensures QueryWellFormed(r.value) && Holes(r.value.sql) == 1
    ensures r.value.sql == Text("select ") + JoinComma(Lits(Names(default))).sql
                           + Text(" from " + TableName(table) + " ") + Text(" where " + column + " = ") + [Hole]
  {
    SelectWith(default, table, Ok(ColumnEquals(column, value)))
  }

  /** "` where ${column} in (` trim ',': for _,item in column_values: #{item}, `)`" */
  function ColumnIn(column: string, values: seq<Value>): (o: Out)
    ensures o.binds == values
    ensures WellFormed(o)
    ensures o.sql == Text(" where " + column + " in (") + JoinComma(Params(values)).sql + Text(")")
  {
    Cat(Cat(Lit(" where " + column + " in ("), InList(values)), Lit(")"))
  }

  /** `select_in_column`: binds exactly the given values, in order, one
      placeholder each, inside `in (...)`. */
  function SelectInColumn(default: Record, table: TableRef, column: string, values: seq<Value>): (r: Result<Query>)
    ensures r.Ok? && !r.value.isCount
    ensures r.value.binds == values
    ensures QueryWellFormed(r.value) && Holes(r.value.sql) == |values|
    ensures r.value.sql == Text("select ") + JoinComma(Lits(Names(default))).sql
                           + Text(" from " + TableName(table) + " ") + Text(" where " + column + " in (")
                           + JoinComma(Params(values)).sql + Text(")")
  {
    var head := Text("select ") + JoinComma(Lits(Names(default))).sql + Text(" from " + TableName(table) + " ");
    var list := JoinComma(Params(values)).sql;
    assert head + (Text(" where " + column + " in (") + list + Text(")"))
        == head + Text(" where " + column + " in (") + list + Text(")");
    SelectWith(default, table, Ok(ColumnIn(column, values)))
  }

  /** Values reach the select statements only through binds: the text of
      `select_by_column` is the same whatever value is looked up, and that of
      `select_in_column` depends only on how many values there are. */
  lemma SelectTextIgnoresValues(default: Record, table: TableRef, column: string,
                                v1: Value, v2: Value, vs1: seq<Value>, vs2: seq<Value>)
    requires |vs1| == |vs2|
    ensures SelectByColumn(default, table, column, v1).value.sql == SelectByColumn(default, table, column, v2).value.sql
    ensures SelectInColumn(default, table, column, vs1).value.sql == SelectInColumn(default, table, column, vs2).value.sql
  {
    InListTextIgnoresValues(vs1, vs2);
  }
}
