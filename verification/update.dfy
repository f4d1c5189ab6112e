/** `update_by_column_value`, `update_by_column`, `update_by_column_batch`
    and the custom update form: `update <table> set k=?,... ` followed by a
    where fragment. The set clause leaves out the filter column and every
    null field (a partial update); an empty where-template is refused. */
module UpdateSql {
  import opened Values
  import opened Sql
  import opened Results
  import opened Seqs
  import opened Ranges
  import opened Crud

  /** `if k == column || v == null: continue:` */
  predicate SkippedOnUpdate(f: Field, column: string) {
    f.name == column || f.value.Null?
  }

  /** The fields the set clause writes, in field order. */
  function SetFields(fs: Record, column: string): (r: Record)
    ensures |r| <= |fs|
    ensures forall f :: f in r <==> f in fs && !SkippedOnUpdate(f, column)
  {
    if fs == [] then []
    else if SkippedOnUpdate(fs[0], column) then SetFields(fs[1..], column)
    else [fs[0]] + SetFields(fs[1..], column)
  }

  /** One field is written exactly when it is neither the filter column nor
      null. */
  lemma SetFieldsSingle(f: Field, column: string)
    ensures SetFields([f], column) == if SkippedOnUpdate(f, column) then [] else [f]
  {
    assert [f][1..] == [];
  }

  /** Filtering distributes over concatenation; with `SetFieldsSingle` this
      fixes the written fields as the record's own fields, in field order,
      each once. */
  lemma {:induction false} SetFieldsAppend(a: Record, b: Record, column: string)
    ensures SetFields(a + b, column) == SetFields(a, column) + SetFields(b, column)
  {
    if a == [] {
      assert a + b == b;
    } else {
      TailOfAppend(a, b);
      SetFieldsAppend(a[1..], b, column);
    }
  }

  /** `${k}=#{v}` */
  function Assign(f: Field): (o: Out)
    ensures WellFormed(o)
  {
    Cat(Lit(f.name + "="), Param(f.value))
  }

  function Assigns(fs: Record): (os: seq<Out>)
    ensures |os| == |fs|
    ensures forall i :: 0 <= i < |fs| ==> os[i] == Assign(fs[i])
  {
    seq(|fs|, i requires 0 <= i < |fs| => Assign(fs[i]))
  }

  /** `for k,v in table: if k == column || v == null: continue: ${k}=#{v},` */
  function SetLoop(fs: Record, column: string): (o: Out)
    ensures o.binds == FieldValues(SetFields(fs, column))
    ensures WellFormed(o)
  {
    if fs == [] then Empty
    else if SkippedOnUpdate(fs[0], column) then SetLoop(fs[1..], column)
    else Cat(Cat(Assign(fs[0]), Comma), SetLoop(fs[1..], column))
  }

  lemma {:induction false} SetLoopIsConcat(fs: Record, column: string)
    ensures SetLoop(fs, column) == ConcatComma(Assigns(SetFields(fs, column)))
  {
    if fs != [] {
      SetLoopIsConcat(fs[1..], column);
      if !SkippedOnUpdate(fs[0], column) {
        assert Assigns(SetFields(fs, column))[1..] == Assigns(SetFields(fs[1..], column));
      }
    }
  }

  /** `trim ',': <set loop>`: the assignments of the written fields,
      comma separated, binding their values in field order. */
  function SetClause(fs: Record, column: string): (o: Out)
    ensures o == JoinComma(Assigns(SetFields(fs, column)))
    ensures o.binds == FieldValues(SetFields(fs, column))
    ensures WellFormed(o)
  {
    SetLoopIsConcat(fs, column);
    TrimConcatComma(Assigns(SetFields(fs, column)));
    TrimComma(SetLoop(fs, column))
  }

  /** `update ${table_name} set ` <set clause> ` ` <where> */
  function UpdateTemplate(fs: Record, tableName: string, column: string, where: Out): (o: Out)
    ensures o.binds == FieldValues(SetFields(fs, column)) + where.binds
    ensures WellFormed(where) ==> WellFormed(o)
    ensures o.sql == Text("update " + tableName + " set ") + JoinComma(Assigns(SetFields(fs, column))).sql
                     + Text(" ") + where.sql
  {
    var clause := SetClause(fs, column);
    var head := Cat(Cat(Lit("update " + tableName + " set "), clause), Lit(" "));
    assert head.binds == [] + clause.binds + [];
    assert head.binds == clause.binds;
    Cat(head, where)
  }

  /** The custom form `impl_update!(T{f(..) => "<where>"})`: an empty where
      template is refused before any SQL is produced; otherwise an evaluation
      error of the where fragment is passed on, and success is the update
      statement, never a count query. `column` names the field the set
      clause leaves out. */
  function UpdateWhere(fs: Record, table: TableRef, column: string, where: Where): (r: Result<Query>)
    ensures where.source == "" ==> r == Err(WhereEmptyError)
    ensures where.source != "" ==> (r.Ok? <==> where.rendered.Ok?)
    ensures where.source != "" && where.rendered.Err? ==> r == Err(where.rendered.msg)
    ensures r.Ok? ==>
      && !r.value.isCount
      && r.value.binds == FieldValues(SetFields(fs, column)) + where.rendered.value.binds
      && r.value.sql == Text("update " + TableName(table) + " set ") + JoinComma(Assigns(SetFields(fs, column))).sql
                        + Text(" ") + where.rendered.value.sql
      && (WellFormed(where.rendered.value) ==> QueryWellFormed(r.value))
  {
    if where.source == "" then Err(WhereEmptyError)
    else
      var w :- where.rendered;
      Ok(ToQuery(UpdateTemplate(fs, TableName(table), column, w), false))
  }

  /** `update_by_column_value`: never fails; binds the written fields'
      values in field order and the filter value last. */
  function UpdateByColumnValue(fs: Record, table: TableRef, column: string, value: Value): (r: Result<Query>)
    ensures r.Ok? && !r.value.isCount
    ensures r.value.binds == FieldValues(SetFields(fs, column)) + [value]
    ensures QueryWellFormed(r.value)
    ensures r.value.sql == Text("update " + TableName(table) + " set ") + JoinComma(Assigns(SetFields(fs, column))).sql
                           + Text(" ") + Text("where " + column + " = ") + [Hole]
  {
    UpdateWhere(fs, table, column, ColumnEqualsWhere(column, value))
  }

  /** `update_by_column`: the filter value is the record's own field named
      `column` (null when the record has none). */
  function UpdateByColumn(fs: Record, table: TableRef, column: string): (r: Result<Query>)
    ensures r.Ok? && !r.value.isCount && QueryWellFormed(r.value)
    ensures r.value.binds == FieldValues(SetFields(fs, column)) + [Get(fs, column)]
    ensures r.value.sql == Text("update " + TableName(table) + " set ") + JoinComma(Assigns(SetFields(fs, column))).sql
                           + Text(" ") + Text("where " + column + " = ") + [Hole]
    ensures UniqueNames(fs) ==> forall i :: 0 <= i < |fs| && fs[i].name == column ==>
              r.value.binds[|r.value.binds| - 1] == fs[i].value
  {
    UpdateByColumnValue(fs, table, column, Get(fs, column))
  }

  /** The statement `update_by_column` produces for one record. */
  function UpdateOne(fs: Record, table: TableRef, column: string): Query {
    UpdateByColumn(fs, table, column).value
  }

  /** `for table in &tables[offset..limit]: update_by_column(table, column)` */
  function UpdateChunk(chunk: seq<Record>, table: TableRef, column: string): (qs: seq<Query>)
    ensures |qs| == |chunk|
    ensures forall j :: 0 <= j < |chunk| ==> qs[j] == UpdateOne(chunk[j], table, column)
  {
    seq(|chunk|, j requires 0 <= j < |chunk| => UpdateOne(chunk[j], table, column))
  }

  function UpdateChunks(tables: seq<Record>, r: seq<Range>, table: TableRef, column: string): (qss: seq<seq<Query>>)
    requires Within(r, |tables|)
    ensures |qss| == |r|
    ensures forall i :: 0 <= i < |r| ==> qss[i] == UpdateChunk(tables[r[i].offset..r[i].limit], table, column)
  {
    seq(|r|, i requires 0 <= i < |r| => UpdateChunk(tables[r[i].offset..r[i].limit], table, column))
  }

  lemma ChunkOfSlice(tables: seq<Record>, lo: nat, hi: nat, table: TableRef, column: string)
    requires lo <= hi <= |tables|
    ensures UpdateChunk(tables[lo..hi], table, column) == UpdateChunk(tables, table, column)[lo..hi]
  {
  }

  /** `update_by_column_batch`: one statement per record, in input order,
      each exactly what `update_by_column` gives for that record; the batch
      size only decides how the loop is grouped. */
  function UpdateByColumnBatch(tables: seq<Record>, table: TableRef, column: string, batchSize: nat): (r: Result<seq<Query>>)
    requires batchSize > 0
    ensures r.Ok?
    ensures |r.value| == |tables|
    ensures forall i :: 0 <= i < |tables| ==> r.value[i] == UpdateOne(tables[i], table, column)
    ensures forall i :: 0 <= i < |tables| ==> !r.value[i].isCount
  {
    var ranges := MakeRanges(|tables|, batchSize);
    var all := UpdateChunk(tables, table, column);
    SlicesFlatten(all, ranges, 0, batchSize);
    forall i | 0 <= i < |ranges|
      ensures UpdateChunk(tables[ranges[i].offset..ranges[i].limit], table, column) == all[ranges[i].offset..ranges[i].limit]
    {
      ChunkOfSlice(tables, ranges[i].offset, ranges[i].limit, table, column);
    }
    assert UpdateChunks(tables, ranges, table, column) == Slices(all, ranges);
    Ok(Flatten(UpdateChunks(tables, ranges, table, column)))
  }

  lemma {:induction false} SetLoopIgnoresValues(a: Record, b: Record, column: string)
    requires Alike(a, b)
    ensures SetLoop(a, column).sql == SetLoop(b, column).sql
  {
    if a != [] {
      assert Alike(a[1..], b[1..]);
      SetLoopIgnoresValues(a[1..], b[1..], column);
    }
  }

  /** Values reach an update statement only through binds: records that
      agree on field names and on which fields are null give the same text,
      whatever their other values and whatever the filter value. */
  lemma UpdateTextIgnoresValues(a: Record, b: Record, table: TableRef, column: string, v1: Value, v2: Value)
    requires Alike(a, b)
    ensures UpdateByColumnValue(a, table, column, v1).value.sql == UpdateByColumnValue(b, table, column, v2).value.sql
  {
    SetLoopIgnoresValues(a, b, column);
  }
}
