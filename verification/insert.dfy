/** `insert_batch` and `insert`: one multi-row `insert into` statement per
    batch range. The column list is taken from the chunk's first record and
    an `id` field is left out of a record whenever its value is null. */
module InsertSql {
  import opened Values
  import opened Sql
  import opened Results
  import opened Seqs
  import opened Ranges
  import opened Crud

  const EmptyBatchError: string := "insert can not insert empty array tables!"

  /** `if k == 'id' && v == null: continue:` */
  predicate SkippedOnInsert(f: Field) {
    f.name == "id" && f.value.Null?
  }

  /** The fields an insert writes for one record, in field order. */
  function KeptFields(t: Record): (r: Record)
    ensures |r| <= |t|
    ensures forall f :: f in r <==> f in t && !SkippedOnInsert(f)
  {
    if t == [] then []
    else if SkippedOnInsert(t[0]) then KeptFields(t[1..])
    else [t[0]] + KeptFields(t[1..])
  }

  /** One field is kept exactly when it is not a null `id`. */
  lemma KeptFieldsSingle(f: Field)
    ensures KeptFields([f]) == if SkippedOnInsert(f) then [] else [f]
  {
    assert [f][1..] == [];
  }

  /** Filtering distributes over concatenation; with `KeptFieldsSingle` this
      fixes the kept fields as the record's own fields, in field order, each
      once. */
  lemma {:induction false} KeptFieldsAppend(a: Record, b: Record)
    ensures KeptFields(a + b) == KeptFields(a) + KeptFields(b)
  {
    if a == [] {
      assert a + b == b;
    } else {
      TailOfAppend(a, b);
      KeptFieldsAppend(a[1..], b);
    }
  }

  function Columns(t: Record): seq<string> {
    Names(KeptFields(t))
  }

  function RowValues(t: Record): seq<Value> {
    FieldValues(KeptFields(t))
  }

  /** Every record's row values, record after record. */
  function AllRowValues(ts: seq<Record>): seq<Value> {
    if ts == [] then [] else RowValues(ts[0]) + AllRowValues(ts[1..])
  }

  lemma {:induction false} AllRowValuesAppend(a: seq<Record>, b: seq<Record>)
    ensures AllRowValues(a + b) == AllRowValues(a) + AllRowValues(b)
  {
    if a == [] {
      assert a + b == b;
    } else {
      TailOfAppend(a, b);
      AllRowValuesAppend(a[1..], b);
    }
  }

  lemma AllRowValuesFrom(tables: seq<Record>, idx: nat)
    requires idx < |tables|
    ensures AllRowValues(tables[idx..]) == RowValues(tables[idx]) + AllRowValues(tables[idx + 1..])
  {
    assert tables[idx..][1..] == tables[idx + 1..];
  }

  // ---------------------------------------------------------------------
  // The template, loop by loop

  /** `for k,v in table: if k == 'id' && v == null: continue: ${k},` */
  function HeaderLoop(t: Record): (o: Out)
    ensures o.binds == []
    ensures WellFormed(o)
  {
    if t == [] then Empty
    else if SkippedOnInsert(t[0]) then HeaderLoop(t[1..])
    else Cat(Cat(Lit(t[0].name), Comma), HeaderLoop(t[1..]))
  }

  /** `for k,v in table: if k == 'id' && v == null: continue: #{v},` */
  function ValueLoop(t: Record): (o: Out)
    ensures o.binds == RowValues(t)
    ensures WellFormed(o)
  {
    if t == [] then Empty
    else if SkippedOnInsert(t[0]) then ValueLoop(t[1..])
    else Cat(Cat(Param(t[0].value), Comma), ValueLoop(t[1..]))
  }

  /** `( trim ',': <column loop> ) VALUES ` */
  function Header(t: Record): (o: Out)
    ensures o.binds == []
    ensures WellFormed(o)
  {
    Cat(Cat(Lit("("), TrimComma(HeaderLoop(t))), Lit(") VALUES "))
  }

  /** `if idx == 0: <header>` */
  function HeaderAt(tables: seq<Record>, idx: nat): (o: Out)
    requires idx < |tables|
    ensures o.binds == []
    ensures WellFormed(o)
  {
    if idx == 0 then Header(tables[0]) else Empty
  }

  /** `( trim ',': <value loop> ),` */
  function Row(t: Record): (o: Out)
    ensures o.binds == RowValues(t)
    ensures WellFormed(o)
  {
    Cat(Cat(Lit("("), TrimComma(ValueLoop(t))), Lit("),"))
  }

  /** `for idx,table in tables: if idx == 0: <header>  <row>` from `idx` on. */
  function TablesLoop(tables: seq<Record>, idx: nat): (o: Out)
    requires idx <= |tables|
    ensures o.binds == AllRowValues(tables[idx..])
    ensures WellFormed(o)
    decreases |tables| - idx
  {
    if idx == |tables| then
      assert tables[idx..] == [];
      Empty
    else
      AllRowValuesFrom(tables, idx);
      var h := HeaderAt(tables, idx);
      var row := Row(tables[idx]);
      assert Cat(h, row).binds == row.binds;
      Cat(Cat(h, row), TablesLoop(tables, idx + 1))
  }

  /** The whole insert template for one chunk of records: placeholders and
      binds agree, and the binds are the row values of every record, record
      after record, null `id`s left out. */
  function InsertTemplate(tables: seq<Record>, tableName: string): (o: Out)
    ensures WellFormed(o)
    ensures o.binds == AllRowValues(tables)
  {
    Cat(Lit("insert into " + tableName + " "), TrimComma(TablesLoop(tables, 0)))
  }

  // ---------------------------------------------------------------------
  // The statement the template is meant to produce

  /** `(c1,c2,...) VALUES ` from the kept columns of one record. */
  function HeaderRef(t: Record): Out {
    Cat(Cat(Lit("("), JoinComma(Lits(Columns(t)))), Lit(") VALUES "))
  }

  /** `(?,?,...)`, one placeholder per kept value. */
  function RowRef(t: Record): Out {
    Cat(Cat(Lit("("), JoinComma(Params(RowValues(t)))), Lit(")"))
  }

  function RowRefs(ts: seq<Record>): (os: seq<Out>)
    ensures |os| == |ts|
    ensures forall i :: 0 <= i < |ts| ==> os[i] == RowRef(ts[i])
  {
    seq(|ts|, i requires 0 <= i < |ts| => RowRef(ts[i]))
  }

  /** `insert into T (cols of the first record) VALUES (row),(row),...` */
  function InsertRef(ts: seq<Record>, tableName: string): Out
    requires ts != []
  {
    Cat(Cat(Lit("insert into " + tableName + " "), HeaderRef(ts[0])), JoinComma(RowRefs(ts)))
  }

  lemma {:induction false} HeaderLoopIsConcat(t: Record)
    ensures HeaderLoop(t) == ConcatComma(Lits(Columns(t)))
  {
    if t != [] {
      HeaderLoopIsConcat(t[1..]);
      if !SkippedOnInsert(t[0]) {
        assert KeptFields(t) == [t[0]] + KeptFields(t[1..]);
        assert Lits(Columns(t))[1..] == Lits(Columns(t[1..]));
      }
    }
  }

  lemma {:induction false} ValueLoopIsConcat(t: Record)
    ensures ValueLoop(t) == ConcatComma(Params(RowValues(t)))
  {
    if t != [] {
      ValueLoopIsConcat(t[1..]);
      if !SkippedOnInsert(t[0]) {
        assert KeptFields(t) == [t[0]] + KeptFields(t[1..]);
        assert Params(RowValues(t))[1..] == Params(RowValues(t[1..]));
      }
    }
  }

  lemma HeaderIsRef(t: Record)
    ensures Header(t) == HeaderRef(t)
  {
    HeaderLoopIsConcat(t);
    TrimConcatComma(Lits(Columns(t)));
  }

  /** Each row the loop emits is the reference row followed by a comma. */
  lemma RowIsRefThenComma(t: Record)
    ensures Row(t) == Cat(RowRef(t), Comma)
  {
    ValueLoopIsConcat(t);
    TrimConcatComma(Params(RowValues(t)));
    assert ")" + "," == "),";
    LitAppend(")", ",");
    var inner := Cat(Lit("("), JoinComma(Params(RowValues(t))));
    CatAssoc(inner, Lit(")"), Comma);
  }

  lemma RowRefsSlice(ts: seq<Record>, k: nat)
    requires k <= |ts|
    ensures RowRefs(ts)[k..] == RowRefs(ts[k..])
  {
    var a, b := RowRefs(ts)[k..], RowRefs(ts[k..]);
    forall i | 0 <= i < |a|
      ensures a[i] == b[i]
    {
      assert ts[k..][i] == ts[k + i];
    }
  }

  lemma {:induction false} RowsLoopIsConcat(tables: seq<Record>, idx: nat)
    requires 0 < idx <= |tables|
    ensures TablesLoop(tables, idx) == ConcatComma(RowRefs(tables[idx..]))
    decreases |tables| - idx
  {
    if idx < |tables| {
      RowsLoopIsConcat(tables, idx + 1);
      RowIsRefThenComma(tables[idx]);
      RowRefsSlice(tables[idx..], 1);
      assert tables[idx..][1..] == tables[idx + 1..];
      assert Cat(HeaderAt(tables, idx), Row(tables[idx])) == Row(tables[idx]);
    }
  }

  /** The loop over a chunk: the first record's header, then every row. */
  lemma TablesLoopIsHeaderThenRows(ts: seq<Record>)
    requires ts != []
    ensures TablesLoop(ts, 0) == Cat(Header(ts[0]), ConcatComma(RowRefs(ts)))
  {
    var rows := RowRefs(ts);
    var h := Header(ts[0]);
    var first := Cat(rows[0], Comma);
    var rest := ConcatComma(rows[1..]);
    RowRefsSlice(ts, 1);
    if |ts| > 1 {
      RowsLoopIsConcat(ts, 1);
    } else {
      assert rows[1..] == [];
    }
    assert TablesLoop(ts, 1) == rest;
    RowIsRefThenComma(ts[0]);
    assert TablesLoop(ts, 0) == Cat(Cat(h, first), rest);
    assert ConcatComma(rows) == Cat(first, rest);
    CatAssoc(h, first, rest);
  }

  /** The insert template produces exactly the reference statement: the
      column list once, from the first record, then one parenthesised row
      per record, rows separated by commas and no trailing comma. */
  lemma InsertTemplateIsRef(ts: seq<Record>, tableName: string)
    requires ts != []
    ensures InsertTemplate(ts, tableName) == InsertRef(ts, tableName)
  {
    var rows := RowRefs(ts);
    var h := Header(ts[0]);
    HeaderIsRef(ts[0]);
    TablesLoopIsHeaderThenRows(ts);
    ConcatIsJoinThenComma(rows);
    TrimCat(h, ConcatComma(rows));
    TrimConcatComma(rows);
    CatAssoc(Lit("insert into " + tableName + " "), h, JoinComma(rows));
  }

  lemma RowRefEndsWithParen(t: Record)
    ensures RowRef(t).sql != [] && RowRef(t).sql[|RowRef(t).sql| - 1] == Chr(')')
  {
    var inner := Cat(Lit("("), JoinComma(Params(RowValues(t))));
    assert RowRef(t).sql == inner.sql + Text(")");
    LastOfAppend(inner.sql, Text(")"));
  }

  /** No trailing comma survives: a non-empty chunk's statement ends with the
      closing parenthesis of its last row. */
  lemma InsertEndsWithRow(ts: seq<Record>, tableName: string)
    requires ts != []
    ensures !EndsWithComma(InsertTemplate(ts, tableName).sql)
    ensures InsertTemplate(ts, tableName).sql[|InsertTemplate(ts, tableName).sql| - 1] == Chr(')')
  {
    var rows := RowRefs(ts);
    RowRefEndsWithParen(ts[|ts| - 1]);
    JoinEndsWithLast(rows);
    InsertTemplateIsRef(ts, tableName);
    EndsWithParen(InsertTemplate(ts, tableName).sql,
                  Cat(Lit("insert into " + tableName + " "), HeaderRef(ts[0])).sql, JoinComma(rows).sql);
  }

  lemma EndsWithParen(s: seq<Tok>, pre: seq<Tok>, j: seq<Tok>)
    requires s == pre + j && j != [] && j[|j| - 1] == Chr(')')
    ensures !EndsWithComma(s) && s[|s| - 1] == Chr(')')
  {
    LastOfAppend(pre, j);
  }

  // ---------------------------------------------------------------------
  // Injection safety: values reach the statement only through binds

  lemma {:induction false} LoopsIgnoreValues(a: Record, b: Record)
    requires Alike(a, b)
    ensures HeaderLoop(a) == HeaderLoop(b)
    ensures ValueLoop(a).sql == ValueLoop(b).sql
  {
    if a != [] {
      assert Alike(a[1..], b[1..]);
      LoopsIgnoreValues(a[1..], b[1..]);
    }
  }

  /** Alike records keep the same columns and as many values. */
  lemma RefsIgnoreValues(a: Record, b: Record)
    requires Alike(a, b)
    ensures HeaderRef(a) == HeaderRef(b)
    ensures RowRef(a).sql == RowRef(b).sql
  {
    LoopsIgnoreValues(a, b);
    HeaderIsRef(a);
    HeaderIsRef(b);
    assert |RowValues(a)| == |RowValues(b)| by {
      assert Holes(ValueLoop(a).sql) == |RowValues(a)|;
      assert Holes(ValueLoop(b).sql) == |RowValues(b)|;
    }
    InListTextIgnoresValues(RowValues(a), RowValues(b));
  }

  /** The statement text depends on the records only through their field
      names and which fields are null: replacing any non-null value by any
      other non-null value changes the binds, never the SQL. */
  lemma InsertTextIgnoresValues(a: seq<Record>, b: seq<Record>, tableName: string)
    requires AllAlike(a, b)
    ensures InsertTemplate(a, tableName).sql == InsertTemplate(b, tableName).sql
  {
    if a != [] {
      InsertTemplateIsRef(a, tableName);
      InsertTemplateIsRef(b, tableName);
      RefsIgnoreValues(a[0], b[0]);
      forall i | 0 <= i < |a|
        ensures RowRefs(a)[i].sql == RowRefs(b)[i].sql
      {
        RefsIgnoreValues(a[i], b[i]);
      }
      JoinSameText(RowRefs(a), RowRefs(b));
    }
  }

  /** A record whose `id` is null contributes neither the `id` column nor a
      value for it: `{id: null, name: "a"}` gives the column list `(name)`
      and the single bind `"a"`. */
  lemma NullIdExample()
    ensures var t := [Field("id", Null), Field("name", Str("a"))];
      && Columns(t) == ["name"]
      && RowValues(t) == [Str("a")]
  {
    var t := [Field("id", Null), Field("name", Str("a"))];
    assert t[1..] == [Field("name", Str("a"))];
    assert KeptFields(t) == [Field("name", Str("a"))];
  }

  // ---------------------------------------------------------------------
  // Row width against the column list

  predicate HasNullId(t: Record) {
    exists i :: 0 <= i < |t| && SkippedOnInsert(t[i])
  }

  lemma {:induction false} KeptCount(t: Record)
    requires UniqueNames(t)
    ensures |KeptFields(t)| == |t| - (if HasNullId(t) then 1 else 0)
  {
    if t != [] {
      assert UniqueNames(t[1..]);
      KeptCount(t[1..]);
      if SkippedOnInsert(t[0]) {
        assert !HasNullId(t[1..]);
      } else {
        assert HasNullId(t) <==> HasNullId(t[1..]) by {
          if HasNullId(t) {
            var i :| 0 <= i < |t| && SkippedOnInsert(t[i]);
            assert i > 0 && SkippedOnInsert(t[1..][i - 1]);
          }
        }
      }
    }
  }

  /** Every row of a chunk is built with its own null-`id` rule while the
      column list comes from the first record only: for records of the same
      shape a row is as wide as the column list exactly when it agrees with
      the first record on whether its `id` is null. */
  lemma RowWidthMatchesHeader(first: Record, t: Record)
    requires Names(first) == Names(t)
    requires UniqueNames(first) && UniqueNames(t)
    ensures |RowValues(t)| == |Columns(first)| <==> (HasNullId(t) <==> HasNullId(first))
  {
    KeptCount(first);
    KeptCount(t);
  }

  // ---------------------------------------------------------------------
  // The generators

  /** The statement for one non-empty chunk of records. */
  function ChunkQuery(chunk: seq<Record>, tableName: string): (q: Query)
    requires chunk != []
    ensures !q.isCount
    ensures QueryWellFormed(q)
    ensures q.binds == AllRowValues(chunk)
    ensures q.sql == InsertRef(chunk, tableName).sql
  {
    InsertTemplateIsRef(chunk, tableName);
    ToQuery(InsertTemplate(chunk, tableName), false)
  }

  /** One statement per range, built from `tables[offset..limit]`. */
  function InsertChunks(tables: seq<Record>, r: seq<Range>, tableName: string): (qs: seq<Query>)
    requires Within(r, |tables|)
    requires forall i :: 0 <= i < |r| ==> r[i].offset < r[i].limit
    ensures |qs| == |r|
    ensures forall i :: 0 <= i < |r| ==> qs[i] == ChunkQuery(tables[r[i].offset..r[i].limit], tableName)
  {
    seq(|r|, i requires 0 <= i < |r| => ChunkQuery(tables[r[i].offset..r[i].limit], tableName))
  }

  /** `insert_batch`: an empty slice is refused with an error and no SQL;
      otherwise one statement per batch range, in range order, each built
      from exactly that range's records and none of them a count query. */
  function InsertBatch(tables: seq<Record>, tableName: string, batchSize: nat): (r: Result<seq<Query>>)
    requires tables == [] || batchSize > 0
    ensures r.Err? <==> tables == []
    ensures r.Err? ==> r.msg == EmptyBatchError
    ensures r.Ok? ==>
      var ranges := MakeRanges(|tables|, batchSize);
      && |r.value| == |ranges|
      && forall i :: 0 <= i < |ranges| ==>
        && !r.value[i].isCount
        && QueryWellFormed(r.value[i])
        && r.value[i].binds == AllRowValues(tables[ranges[i].offset..ranges[i].limit])
        && r.value[i].sql == InsertRef(tables[ranges[i].offset..ranges[i].limit], tableName).sql
  {
    if tables == [] then Err(EmptyBatchError)
    else Ok(InsertChunks(tables, MakeRanges(|tables|, batchSize), tableName))
  }

  lemma ChunkBindsTail(tables: seq<Record>, r: seq<Range>, qs: seq<Query>)
    requires Within(r, |tables|) && |qs| == |r| && r != []
    requires forall i :: 0 <= i < |r| ==> qs[i].binds == AllRowValues(tables[r[i].offset..r[i].limit])
    ensures forall i :: 0 <= i < |r| - 1 ==> qs[1..][i].binds == AllRowValues(tables[r[1..][i].offset..r[1..][i].limit])
  {
    forall i | 0 <= i < |r| - 1
      ensures qs[1..][i].binds == AllRowValues(tables[r[1..][i].offset..r[1..][i].limit])
    {
      assert qs[1..][i] == qs[i + 1] && r[1..][i] == r[i + 1];
    }
  }

  lemma {:induction false} ChunksBindsFrom(tables: seq<Record>, r: seq<Range>, start: nat, size: nat, qs: seq<Query>)
    requires TilesFrom(r, start, |tables|, size)
    requires |qs| == |r|
    requires forall i :: 0 <= i < |r| ==> qs[i].binds == AllRowValues(tables[r[i].offset..r[i].limit])
    ensures QueryBinds(qs) == AllRowValues(tables[start..])
  {
    if r == [] {
      assert tables[start..] == [];
    } else {
      var mid := r[0].limit;
      TilesTail(r, start, |tables|, size);
      ChunkBindsTail(tables, r, qs);
      ChunksBindsFrom(tables, r[1..], mid, size, qs[1..]);
      var first := AllRowValues(tables[start..mid]);
      assert qs[0].binds == first;
      assert QueryBinds(qs) == first + AllRowValues(tables[mid..]);
      AllRowValuesAppend(tables[start..mid], tables[mid..]);
      SplitSlice(tables, start, mid);
    }
  }

  /** Across the whole batch, the binds of the statements taken in order are
      every record's row values in input order: splitting into ranges loses,
      repeats and reorders nothing. */
  lemma InsertBatchBindsEveryRecord(tables: seq<Record>, tableName: string, batchSize: nat)
    requires tables != [] && batchSize > 0
    ensures InsertBatch(tables, tableName, batchSize).Ok?
    ensures QueryBinds(InsertBatch(tables, tableName, batchSize).value) == AllRowValues(tables)
  {
    var ranges := MakeRanges(|tables|, batchSize);
    ChunksBindsFrom(tables, ranges, 0, batchSize, InsertBatch(tables, tableName, batchSize).value);
  }

  /** `insert`: a batch of one record with batch size one, so exactly one
      statement, whose binds are that record's row values. */
  function Insert(t: Record, tableName: string): (r: Result<seq<Query>>)
    ensures r.Ok? && |r.value| == 1
    ensures !r.value[0].isCount
    ensures r.value[0].binds == RowValues(t)
    ensures r.value[0].sql == InsertRef([t], tableName).sql
  {
    assert [t][0..1] == [t];
    assert AllRowValues([t]) == RowValues(t) + AllRowValues([]);
    InsertBatch([t], tableName, 1)
  }
}
