/** What every CRUD generator shares: the statement triple it returns, the
    table-name rule, the where-template guard, and the two list fragments
    that several templates embed (the column list of a record and the
    placeholder list of an `in (...)` clause). */
module Crud {
  import opened Values
  import opened Sql
  import opened Results

  /** One generated statement: SQL text, binds in placeholder order, and
      whether it is the count query of a paged select. */
  datatype Query = Query(sql: seq<Tok>, binds: seq<Value>, isCount: bool)

  function ToQuery(o: Out, isCount: bool): (q: Query)
    ensures q.sql == o.sql && q.binds == o.binds && q.isCount == isCount
  {
    Query(o.sql, o.binds, isCount)
  }

  predicate QueryWellFormed(q: Query) {
    WellFormed(Out(q.sql, q.binds))
  }

  /** The binds of a sequence of statements, statement after statement. */
  function QueryBinds(qs: seq<Query>): seq<Value> {
    if qs == [] then [] else qs[0].binds + QueryBinds(qs[1..])
  }

  /** The name an entity's statements use: an explicitly configured table
      name (empty when none was given), otherwise the naming collaborator's
      snake-case conversion of the type name. */
  datatype TableRef = TableRef(explicit: string, typeName: string, snake: string -> string)

  function TableName(t: TableRef): (name: string)
    ensures t.explicit != "" ==> name == t.explicit
    ensures t.explicit == "" ==> name == t.snake(t.typeName)
  {
    if t.explicit == "" then t.snake(t.typeName) else t.explicit
  }

  const WhereEmptyError: string := "sql_where can't be empty!"

  /** A where-template of the update and delete generators: its source text,
      and what it renders to against the call's parameters (the template
      engine may fail, for example on an undeclared name). */
  datatype Where = Where(source: string, rendered: Result<Out>)

  /** "`where ${column} = #{column_value}`", the where-template of
      `update_by_column_value` and `delete_by_column`: never empty, and
      rendering it binds exactly the one value behind one placeholder. */
  function ColumnEqualsWhere(column: string, value: Value): (w: Where)
    ensures w.source != ""
    ensures w.rendered.Ok? && WellFormed(w.rendered.value)
    ensures w.rendered.value.binds == [value]
    ensures w.rendered.value.sql == Text("where " + column + " = ") + [Hole]
  {
    Where("`where ${column} = #{column_value}`", Ok(Cat(Lit("where " + column + " = "), Param(value))))
  }

  /** `for k,_ in table: ${k},` */
  function ColumnLoop(fs: Record): (o: Out)
    ensures o.binds == []
  {
    if fs == [] then Empty else Cat(Cat(Lit(fs[0].name), Comma), ColumnLoop(fs[1..]))
  }

  lemma {:induction false} ColumnLoopIsConcat(fs: Record)
    ensures ColumnLoop(fs) == ConcatComma(Lits(Names(fs)))
  {
    if fs != [] {
      ColumnLoopIsConcat(fs[1..]);
      assert Lits(Names(fs))[1..] == Lits(Names(fs[1..]));
    }
  }

  /** `trim ',': for k,_ in table: ${k},` -- the record's field names in
      field order, separated by commas; no binds. */
  function ColumnList(fs: Record): (o: Out)
    ensures o == JoinComma(Lits(Names(fs)))
    ensures o.binds == []
  {
    ColumnLoopIsConcat(fs);
    TrimConcatComma(Lits(Names(fs)));
    TrimComma(ColumnLoop(fs))
  }

  /** `for _,item in column_values: #{item},` */
  function InLoop(vs: seq<Value>): (o: Out)
    ensures o.binds == vs
    ensures WellFormed(o)
  {
    if vs == [] then Empty else Cat(Cat(Param(vs[0]), Comma), InLoop(vs[1..]))
  }

  lemma {:induction false} InLoopIsConcat(vs: seq<Value>)
    ensures InLoop(vs) == ConcatComma(Params(vs))
  {
    if vs != [] {
      InLoopIsConcat(vs[1..]);
      assert Params(vs)[1..] == Params(vs[1..]);
    }
  }

  /** `trim ',': for _,item in column_values: #{item},` -- one placeholder
      per value, comma separated, binding the values in order. */
  function InList(vs: seq<Value>): (o: Out)
    ensures o == JoinComma(Params(vs))
    ensures o.binds == vs
    ensures WellFormed(o)
  {
    InLoopIsConcat(vs);
    TrimConcatComma(Params(vs));
    TrimComma(InLoop(vs))
  }

  /** The text of an `in (...)` list depends on how many values there are,
      never on what they are. */
  lemma InListTextIgnoresValues(a: seq<Value>, b: seq<Value>)
    requires |a| == |b|
    ensures InList(a).sql == InList(b).sql
  {
    JoinSameText(Params(a), Params(b));
  }
}
