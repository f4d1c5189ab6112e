/** `delete_by_column`, `delete_in_column`, `delete_by_column_batch` and the
    custom delete form: `delete from <table> ` followed by a where fragment;
    an empty where-template is refused. */
module DeleteSql {
  import opened Values
  import opened Sql
  import opened Results
  import opened Seqs
  import opened Ranges
  import opened Crud

  /** `delete from ${table_name} ` <where> */
  function DeleteTemplate(tableName: string, where: Out): (o: Out)
    ensures o.binds == where.binds
    ensures o.sql == Text("delete from " + tableName + " ") + where.sql
    ensures WellFormed(where) ==> WellFormed(o)
  {
    Cat(Lit("delete from " + tableName + " "), where)
  }

  /** The custom form `impl_delete!(T{f(..) => "<where>"})`: an empty where
      template is refused before any SQL is produced; otherwise an
      evaluation error of the where fragment is passed on, and success is
      the delete statement, never a count query. */
  function DeleteWhere(table: TableRef, where: Where): (r: Result<Query>)
    ensures where.source == "" ==> r == Err(WhereEmptyError)
    ensures where.source != "" ==> (r.Ok? <==> where.rendered.Ok?)
    ensures where.source != "" && where.rendered.Err? ==> r == Err(where.rendered.msg)
    ensures r.Ok? ==>
      && !r.value.isCount
      && r.value.binds == where.rendered.value.binds
      && r.value.sql == Text("delete from " + TableName(table) + " ") + where.rendered.value.sql
      && (WellFormed(where.rendered.value) ==> QueryWellFormed(r.value))
  {
    if where.source == "" then Err(WhereEmptyError)
    else
      var w :- where.rendered;
      Ok(ToQuery(DeleteTemplate(TableName(table), w), false))
  }

  /** "`where ${column} in (` trim ',': for _,item in column_values: #{item}, `)`" */
  function ColumnInWhere(column: string, values: seq<Value>): (w: Where)
    ensures w.source != ""
    ensures w.rendered.Ok? && WellFormed(w.rendered.value)
    ensures w.rendered.value.binds == values
    ensures w.rendered.value.sql == Text("where " + column + " in (") + JoinComma(Params(values)).sql + Text(")")
  {
    Where("`where ${column} in (` trim ',': for _,item in column_values: #{item}, `)`",
          Ok(Cat(Cat(Lit("where " + column + " in ("), InList(values)), Lit(")"))))
  }

  /** `delete_by_column`: never fails; binds exactly the one value. */
  function DeleteByColumn(table: TableRef, column: string, value: Value): (r: Result<Query>)
    ensures r.Ok? && !r.value.isCount
    ensures r.value.binds == [value]
    ensures QueryWellFormed(r.value) && Holes(r.value.sql) == 1
    ensures r.value.sql == Text("delete from " + TableName(table) + " ") + Text("where " + column + " = ") + [Hole]
  {
    DeleteWhere(table, ColumnEqualsWhere(column, value))
  }

  /** `delete_in_column`: never fails; binds exactly the given values, in
      order, one placeholder each. */
  function DeleteInColumn(table: TableRef, column: string, values: seq<Value>): (r: Result<Query>)
    ensures r.Ok? && !r.value.isCount
    ensures r.value.binds == values
    ensures QueryWellFormed(r.value) && Holes(r.value.sql) == |values|
    ensures r.value.sql == Text("delete from " + TableName(table) + " ") + Text("where " + column + " in (")
                           + JoinComma(Params(values)).sql + Text(")")
  {
    var head := Text("delete from " + TableName(table) + " ");
    var list := JoinComma(Params(values)).sql;
    assert head + (Text("where " + column + " in (") + list + Text(")"))
        == head + Text("where " + column + " in (") + list + Text(")");
    DeleteWhere(table, ColumnInWhere(column, values))
  }

  /** The `delete_in_column` statement for one chunk of values. */
  function DeleteChunk(table: TableRef, column: string, chunk: seq<Value>): Query {
    DeleteInColumn(table, column, chunk).value
  }

  function DeleteChunks(table: TableRef, column: string, values: seq<Value>, r: seq<Range>): (qs: seq<Query>)
    requires Within(r, |values|)
    ensures |qs| == |r|
    ensures forall i :: 0 <= i < |r| ==> qs[i] == DeleteChunk(table, column, values[r[i].offset..r[i].limit])
  {
    seq(|r|, i requires 0 <= i < |r| => DeleteChunk(table, column, values[r[i].offset..r[i].limit]))
  }

  /** `delete_by_column_batch`: one `delete_in_column` statement per batch
      range, in range order, none a count query, each binding exactly that
      range's values in order. No values means no statements. */
  function DeleteByColumnBatch(table: TableRef, column: string, values: seq<Value>, batchSize: nat): (r: Result<seq<Query>>)
    requires batchSize > 0
    ensures r.Ok?
    ensures values == [] ==> r.value == []
    ensures var ranges := MakeRanges(|values|, batchSize);
      && |r.value| == |ranges|
      && forall i :: 0 <= i < |ranges| ==>
        && !r.value[i].isCount
        && QueryWellFormed(r.value[i])
        && r.value[i].binds == values[ranges[i].offset..ranges[i].limit]
        && r.value[i] == DeleteInColumn(table, column, values[ranges[i].offset..ranges[i].limit]).value
  {
    Ok(DeleteChunks(table, column, values, MakeRanges(|values|, batchSize)))
  }

  lemma {:induction false} ChunkBindsFrom(values: seq<Value>, r: seq<Range>, start: nat, size: nat, qs: seq<Query>)
    requires TilesFrom(r, start, |values|, size)
    requires |qs| == |r|
    requires forall i :: 0 <= i < |r| ==> qs[i].binds == values[r[i].offset..r[i].limit]
    ensures QueryBinds(qs) == values[start..]
  {
    if r == [] {
      assert values[start..] == [];
    } else {
      var mid := r[0].limit;
      TilesTail(r, start, |values|, size);
      ChunkBindsFrom(values, r[1..], mid, size, qs[1..]);
      SplitSlice(values, start, mid);
    }
  }

  /** Taken in order, the batch's binds are exactly the input values: every
      value is deleted by exactly one statement, and in input order. */
  lemma DeleteBatchBindsEveryValue(table: TableRef, column: string, values: seq<Value>, batchSize: nat)
    requires batchSize > 0
    ensures QueryBinds(DeleteByColumnBatch(table, column, values, batchSize).value) == values
  {
    ChunkBindsFrom(values, MakeRanges(|values|, batchSize), 0, batchSize,
                   DeleteByColumnBatch(table, column, values, batchSize).value);
  }

  /** Values reach a delete statement only through binds: the text of
      `delete_by_column` ignores the value, and that of `delete_in_column`
      depends only on how many values there are. */
  lemma DeleteTextIgnoresValues(table: TableRef, column: string, v1: Value, v2: Value, vs1: seq<Value>, vs2: seq<Value>)
    requires |vs1| == |vs2|
    ensures DeleteByColumn(table, column, v1).value.sql == DeleteByColumn(table, column, v2).value.sql
    ensures DeleteInColumn(table, column, vs1).value.sql == DeleteInColumn(table, column, vs2).value.sql
  {
    InListTextIgnoresValues(vs1, vs2);
  }
}
