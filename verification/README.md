# rbatis CRUD SQL generators in Dafny

This project models the SQL generators that rbatis' `crud!`, `impl_insert!`,
`impl_select!`, `impl_update!`, `impl_delete!`, `impl_select_page!`,
`htmlsql_select_page!` and `pysql_select_page!` macros expand to. Each
generator turns records and parameters into `(sql, binds, is_count)` triples,
or a sequence of them. A record is the ordered list of field-name/value pairs
that serialisation projects an entity to.

Each embedded py_sql template is written as a pure function. The function
realises the template's `for`, `if`, `continue` and `trim ','` blocks directly:

- `${}` raw splices and literal template text add characters to the SQL.
- `#{}` substitutions add an abstract placeholder token (`Sql.Tok.Hole`) and
  append the value to the bind list.

As a result, a value can only reach the statement through the bind list, never
through the text.

Modules:

- `Values`: the value graph (`rbs::Value`), fields and records, and map
  indexing.
- `Sql`: placeholder-aware text and the template primitives: literal, raw
  splice, bound substitution, concatenation and `trim ','`. It also holds the
  declarative comma-join that every loop is proved against.
- `Results`: the `Result` type the generators return, failure-compatible with
  `:-`. The error messages themselves are `Crud.WhereEmptyError` and
  `InsertSql.EmptyBatchError`.
- `Ranges`: the batch range splitter (`Page::make_ranges`), given by its tiling
  contract.
- `Crud`: the shared pieces: the statement triple, the table-name rule, the
  where-template guard, the column list, and the `in (...)` placeholder list.
- `InsertSql`, `SelectSql`, `UpdateSql`, `DeleteSql`: one module per generator
  family.
- `PageSql`: the paged selects:
  - the page offset;
  - the `" limit ${page_no},${page_size}"` clause, built by two `str::replace`
    calls;
  - the count-then-data protocol.
- `Seqs`: generic sequence facts the proofs use.

Each template loop has a partner that states what the loop is meant to produce,
and a lemma proves the loop equals it. Examples:

- The `trim ','` column list equals the names joined by commas.
- The insert template equals the header followed by the comma-joined rows.

The batch generators are proved to lose, repeat and reorder nothing:

- `insert_batch`: taken in order, the binds of its statements are every
  record's kept values (null `id`s left out), record after record.
- `delete_by_column_batch`: taken in order, the binds of its statements are
  exactly the input values.
- `update_by_column_batch`: it yields one statement per input record, in input
  order, each exactly what `update_by_column` gives for that record.

Three behaviours of the code are worth stating up front:

- The insert skip rule is the literal field name `id` with a null value
  (src/crud.rs:50, 57).
- The insert column list is emitted once, from the first record of each chunk
  (src/crud.rs:46-53), and every later record contributes only its row.
- `htmlsql_select_page` and `pysql_select_page` pass the page's offset, not its
  number, as the template parameter `page_no` (src/crud.rs:422, 426, 483, 487).

## Model

| member | source | states |
|---|---|---|
| Values.Get | src/crud.rs:180-181 | `columns[column]` is the value of the record's field with that name, and null when the record has no such field |
| Sql.TrimComma | src/crud.rs:44 | `trim ','` removes exactly one trailing comma from the text when there is one, leaves the text alone otherwise, and never touches the binds |
| Sql.TrimConcatComma | src/crud.rs:48-52 | a `trim ','` block around a loop that emits `<item>,` yields exactly the items joined by commas; an empty loop yields nothing |
| Crud.ColumnList | src/crud.rs:141-143 | the select column list is the record's field names in field order, comma separated, with no binds |
| Crud.ColumnEqualsWhere | src/crud.rs:255 | the `where col = #{value}` template of `update_by_column_value` and `delete_by_column` is never empty and binds exactly the one value behind one placeholder |
| Crud.InList | src/crud.rs:128-131 | the `in (...)` list has one placeholder per value, comma separated, and binds exactly the values in order |
| Crud.InListTextIgnoresValues | src/crud.rs:129-130 | the text of an `in (...)` list depends only on how many values there are |
| Ranges.MakeRanges | src/crud.rs:81 | the batch ranges tile `[0, n)` without gap or overlap, each non-empty, at most `batch_size` wide and all but the last exactly `batch_size`; no elements gives no ranges, and at most `batch_size` elements give the single range `(0, n)` |
| Ranges.TilingIsUnique | src/crud.rs:81 | only one sequence of ranges meets that tiling contract, so the contract fixes the batch ranges |
| Ranges.RangeBounds | src/crud.rs:82 | the i-th range is `[i*size, min((i+1)*size, n))` |
| Ranges.SlicesFlatten | src/crud.rs:192-194 | cutting a sequence along the ranges and putting the slices back together gives the sequence back |
| InsertSql.KeptFields | src/crud.rs:49-51 | the fields an insert writes are exactly the record's fields except an `id` whose value is null |
| InsertSql.KeptFieldsSingle | src/crud.rs:49-51 | a single field is kept exactly when it is not an `id` with a null value |
| InsertSql.KeptFieldsAppend | src/crud.rs:49-51 | the kept fields of a concatenation are the kept fields of each part, in order, so the kept fields follow field order and each appears once |
| InsertSql.HeaderLoopIsConcat | src/crud.rs:49-52 | the column loop emits each kept field name followed by a comma, in field order |
| InsertSql.ValueLoopIsConcat | src/crud.rs:56-59 | the value loop emits one placeholder followed by a comma per kept field, in field order |
| InsertSql.InsertTemplate | src/crud.rs:43-61 | the insert statement has as many placeholders as binds, and the binds are every record's kept values, record after record and field after field |
| InsertSql.InsertTemplateIsRef | src/crud.rs:43-61 | the template's output is `insert into T ` + `(` first record's columns `) VALUES ` + the rows `(?,..)` joined by commas |
| InsertSql.InsertEndsWithRow | src/crud.rs:44-60 | no trailing comma survives: the statement ends with the last row's `)` |
| InsertSql.InsertTextIgnoresValues | src/crud.rs:52-59 | records with the same field names and the same null fields give the same insert text, whatever their other values |
| InsertSql.RowWidthMatchesHeader | src/crud.rs:46-59 | for records of one shape, a row is as wide as the column list taken from the first record exactly when it agrees with that record on whether `id` is null |
| InsertSql.NullIdExample | src/crud.rs:49-59 | `{id: null, name: "a"}` gives the column list `(name)` and the single bind `"a"` |
| InsertSql.ChunkQuery | src/crud.rs:83-88 | the statement for one chunk is not a count query, is well formed, binds the chunk's kept values and has the reference text |
| InsertSql.InsertBatch | src/crud.rs:70-93 | an empty slice is refused with "insert can not insert empty array tables!"; otherwise there is one statement per batch range, in range order, built from exactly that range's records, none of them a count query |
| InsertSql.InsertBatchBindsEveryRecord | src/crud.rs:80-93 | taken in order, the batch's binds are every record's kept values in input order |
| InsertSql.Insert | src/crud.rs:96-100 | `insert` yields exactly one statement, binding that record's kept values |
| SelectSql.SelectTemplate | src/crud.rs:140-144 | `select ` + the default record's columns + ` from T ` + the tail, with the tail's binds |
| SelectSql.SelectWith | src/crud.rs:136-155 | the custom select succeeds exactly when its tail renders, passes on the tail's error, is never a count query, and has the select text with the tail's binds |
| SelectSql.SelectAll | src/crud.rs:125 | `select_all` never fails and has no binds |
| SelectSql.SelectByColumn | src/crud.rs:126 | `select_by_column` binds exactly the one value, behind the only placeholder, after ` where col = ` |
| SelectSql.SelectInColumn | src/crud.rs:127-131 | `select_in_column` binds exactly the given values in order, one placeholder each, inside ` where col in (...)` |
| SelectSql.SelectTextIgnoresValues | src/crud.rs:126-131 | the select text does not depend on the looked-up value, and for `in` depends only on how many values there are |
| UpdateSql.SetFields | src/crud.rs:214-216 | the set clause writes exactly the fields that are neither the filter column nor null |
| UpdateSql.SetFieldsSingle | src/crud.rs:214-216 | a single field is written exactly when it is neither the filter column nor null |
| UpdateSql.SetFieldsAppend | src/crud.rs:214-216 | the written fields of a concatenation are the written fields of each part, in order, so the set clause follows field order and names each field once |
| UpdateSql.SetLoopIsConcat | src/crud.rs:213-217 | the set loop emits `k=?,` for each written field, in field order |
| UpdateSql.SetClause | src/crud.rs:212-217 | the trimmed set clause is the assignments joined by commas, binding the written values in field order |
| UpdateSql.UpdateTemplate | src/crud.rs:212-218 | `update T set ` + assignments + ` ` + where fragment, binding the written values and then the where fragment's binds |
| UpdateSql.UpdateWhere | src/crud.rs:209-233 | an empty where-template is refused with "sql_where can't be empty!"; otherwise the statement succeeds exactly when the fragment renders, passes on its error, and is never a count query |
| UpdateSql.UpdateByColumnValue | src/crud.rs:175 | `update_by_column_value` is `update T set ` + the assignments of the fields that are neither the filter column nor null, comma separated + ` where col = ?`; it binds the written values in field order and the filter value last |
| UpdateSql.UpdateByColumn | src/crud.rs:177-183 | `update_by_column` has the same text, and takes the filter value from the record's own field named `column`, or null when there is none |
| UpdateSql.UpdateByColumnBatch | src/crud.rs:185-200 | one statement per record, in input order, each exactly what `update_by_column` gives for that record, none a count query |
| UpdateSql.UpdateTextIgnoresValues | src/crud.rs:212-218 | records with the same field names and null fields give the same update text, whatever their values and the filter value |
| DeleteSql.DeleteTemplate | src/crud.rs:286 | `delete from T ` + where fragment, with the fragment's binds |
| DeleteSql.DeleteWhere | src/crud.rs:282-299 | an empty where-template is refused with "sql_where can't be empty!"; otherwise the statement succeeds exactly when the fragment renders, passes on its error, and is never a count query |
| DeleteSql.DeleteByColumn | src/crud.rs:255 | `delete_by_column` binds exactly the one value behind the only placeholder |
| DeleteSql.DeleteInColumn | src/crud.rs:256-260 | `delete_in_column` is `delete from T where col in (?,..)` with one placeholder per value, binding exactly the given values in order |
| DeleteSql.DeleteByColumnBatch | src/crud.rs:263-275 | one statement per batch range, in range order, each exactly the `delete_in_column` statement for that range's values, so it binds exactly those values; no values gives no statements |
| DeleteSql.DeleteBatchBindsEveryValue | src/crud.rs:268-274 | taken in order, the batch's binds are exactly the input values |
| DeleteSql.DeleteTextIgnoresValues | src/crud.rs:255-260 | the delete text does not depend on the value, and for `in` depends only on how many values there are |
| PageSql.FirstPageLimit | src/crud.rs:344-346 | the data statement of page 1 ends with ` limit 0,<page_size>` |
| PageSql.ConsecutivePageLimits | src/crud.rs:344-346 | the offsets read back from the limit clauses of pages n and n+1 are exactly one page size apart |
| PageSql.Decimal | src/crud.rs:345 | a number's decimal text is non-empty, all digits, and without a leading zero |
| PageSql.DecimalRoundTrip | src/crud.rs:345-346 | the decimal text of a number reads back as that number |
| PageSql.ReplaceSkipsPlainPrefix | src/crud.rs:345-346 | `str::replace` copies text that cannot start the pattern unchanged |
| PageSql.ReplaceAtMatch | src/crud.rs:345-346 | `str::replace` substitutes an occurrence at the front and continues after it |
| PageSql.LimitClause | src/crud.rs:344-346 | the default limit clause is exactly `" limit " + offset + "," + page_size` in decimal |
| PageSql.LimitClauseRoundTrip | src/crud.rs:344-346 | the offset and the page size can be read back from the limit clause |
| PageSql.PageTemplate | src/crud.rs:350-360 | the count rendering is `select count(1) as count from T ` + where, with no column list and no limit; the data rendering has the column list and ends with the limit text; both have the where fragment's binds |
| PageSql.CountQuery | src/crud.rs:365-367 | the count statement is flagged as a count and has no column list and no limit clause |
| PageSql.DataQuery | src/crud.rs:370-371 | the data statement is not flagged and ends with the limit clause for the requested page |
| PageSql.SelectPage | src/crud.rs:363-372 | with `do_count`, the count statement and then the data statement; without it, the data statement alone; it succeeds exactly when the phases it runs render, and the count phase's error comes first |
| PageSql.SecondPageExample | src/crud.rs:344-371 | page 2 of size 10 with `do_count` gives two statements, the count first, and the data statement ends with ` limit 10,10` |
| PageSql.TemplateSelectPage | src/crud.rs:419-428 | the same protocol for `htmlsql_select_page`, the caller's template rendered with the offset as `page_no`; it is also `pysql_select_page` at lines 480-489 |
| PageSql.RenderPageQueries | src/crud.rs:350-360 | rendering the page template for a request gives exactly the count statement and the data statement, or the where fragment's error |
| PageSql.SelectPageIsTemplatePage | src/crud.rs:363-372 | `impl_select_page` is the template-driven page protocol applied to its own fixed template |

## Left out

- The py_sql and html_sql template engines: their parsers are not part of this model. Each embedded template is written out as a function. A user-supplied where fragment or page template is a parameter holding its rendered output or its evaluation error.
- The `crud!`, `pysql!` and `htmlsql!` wrapper macros (crud.rs lines 3-16 and 494-549) only forward to other code. The Rust macro pattern matching and generics are left out too.
- Serde projection of an entity to `rbs::Value`: records are taken as already projected, ordered field lists.
- `to_snake_name` is not part of this model: it is a function-typed field of `Crud.TableRef`.
- The commented-out executor code and the unused `page` and `total` locals of the paged selects: they have no observable effect on the returned triples.
- The PostgreSQL timestamptz codec and the value benchmarks elsewhere in the repository: they are not SQL generation.
- Whitespace: template text inside backticks is kept exactly, while bare template lines contribute their trimmed text. The newlines that `impl_select_page` puts around its where fragment are not modelled.
- UpdateSql.UpdateWhere: takes the name the set loop skips (`k == column`) as a plain string. In the custom `impl_update!` form the template reads a variable `column` that the user's signature need not declare, and what the template engine does with an undeclared name is not part of this model. For such a form, callers pass a name no field has, so that only null fields are skipped.
- Sql.TrimComma: only a trailing comma is removed. A leading comma is never produced by these templates.
- Ranges.MakeRanges: requires a batch size above zero. Its implementation is not part of this model, and a zero batch size has no defined result. The same precondition carries over to InsertSql.InsertBatch, UpdateSql.UpdateByColumnBatch and DeleteSql.DeleteByColumnBatch.
- PageSql.PageRequest: page numbers start at 1, and the offset is `(page_no - 1) * page_size`. `IPageRequest::offset` is not part of this model, and page 0 has no documented offset.
- Integer widths: lengths, offsets and page sizes are unbounded, so u64 overflow of `(page_no - 1) * page_size` is not modelled. Floating-point values are reals, and only their nullness matters to the generators.
- Execution against a database is out of scope, so the error type is a plain message.
