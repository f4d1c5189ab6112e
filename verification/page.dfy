/** The paged selects: `impl_select_page` and the `htmlsql_select_page` /
    `pysql_select_page` wrappers. Each yields an optional count statement
    followed by the data statement, whose limit clause is produced by
    textual replacement in `" limit ${page_no},${page_size}"`. */
module PageSql {
  import opened Values
  import opened Sql
  import opened Results
  import opened Crud

  type PageNo = n: nat | n >= 1 witness 1

  /** A page request: page number counted from 1, page size, and whether the
      count statement is wanted. */
  datatype PageRequest = PageRequest(pageNo: PageNo, pageSize: nat, doCount: bool)

  /** The number of rows before the requested page. */
  function Offset(p: PageRequest): nat {
    (p.pageNo - 1) * p.pageSize
  }

  // ---------------------------------------------------------------------
  // Decimal rendering of the two numbers (`u64::to_string`)

  predicate AllDigits(s: string) {
    forall i :: 0 <= i < |s| ==> '0' <= s[i] <= '9'
  }

  function DigitChar(d: nat): (c: char)
    requires d < 10
    ensures '0' <= c <= '9'
    ensures c as int - '0' as int == d
  {
    ('0' as int + d) as char
  }

  /** The decimal text of `n`: digits only, at least one, no leading zero. */
  function Decimal(n: nat): (s: string)
    ensures |s| >= 1
    ensures AllDigits(s)
    ensures |s| > 1 ==> s[0] != '0'
    decreases n
  {
    if n < 10 then [DigitChar(n)] else Decimal(n / 10) + [DigitChar(n % 10)]
  }

  /** Reading decimal digits back as a number. */
  function ParseDecimal(s: string): nat
    requires AllDigits(s)
  {
    if s == [] then 0 else 10 * ParseDecimal(s[..|s| - 1]) + (s[|s| - 1] as int - '0' as int)
  }

  /** Decimal rendering loses nothing: the number can be read back. */
  lemma {:induction false} DecimalRoundTrip(n: nat)
    ensures ParseDecimal(Decimal(n)) == n
    decreases n
  {
    var s := Decimal(n);
    if n < 10 {
      assert s[..0] == [];
    } else {
      DecimalRoundTrip(n / 10);
      assert s[..|s| - 1] == Decimal(n / 10);
    }
  }

  // ---------------------------------------------------------------------
  // `str::replace`: every non-overlapping occurrence, left to right

  function Replace(s: string, pat: string, rep: string): string
    requires |pat| > 0
    decreases |s|
  {
    if |s| < |pat| then s
    else if s[..|pat|] == pat then rep + Replace(s[|pat|..], pat, rep)
    else [s[0]] + Replace(s[1..], pat, rep)
  }

  /** A character that cannot start the pattern is copied unchanged. */
  lemma ReplaceStep(c: char, t: string, pat: string, rep: string)
    requires |pat| > 0 && c != pat[0]
    ensures Replace([c] + t, pat, rep) == [c] + Replace(t, pat, rep)
  {
    var s := [c] + t;
    assert s[1..] == t;
    if |s| >= |pat| {
      assert s[..|pat|][0] == c;
    }
  }

  /** Text free of `$` is copied unchanged when the pattern starts with `$`. */
  lemma {:induction false} ReplaceSkipsPlainPrefix(p: string, t: string, pat: string, rep: string)
    requires |pat| > 0 && pat[0] == '$'
    requires forall i :: 0 <= i < |p| ==> p[i] != '$'
    ensures Replace(p + t, pat, rep) == p + Replace(t, pat, rep)
    decreases |p|
  {
    if p == [] {
      assert p + t == t;
    } else {
      assert p + t == [p[0]] + (p[1..] + t);
      ReplaceStep(p[0], p[1..] + t, pat, rep);
      ReplaceSkipsPlainPrefix(p[1..], t, pat, rep);
      assert p == [p[0]] + p[1..];
    }
  }

  /** An occurrence at the front is replaced, and replacing resumes after it. */
  lemma ReplaceAtMatch(t: string, pat: string, rep: string)
    requires |pat| > 0
    ensures Replace(pat + t, pat, rep) == rep + Replace(t, pat, rep)
  {
    assert (pat + t)[..|pat|] == pat;
    assert (pat + t)[|pat|..] == t;
  }

  const PageNoToken: string := "${page_no}"
  const PageSizeToken: string := "${page_size}"
  const LimitKeyword: string := " limit "

  /** `" limit ${page_no},${page_size}"` */
  const LimitTemplate: string := LimitKeyword + PageNoToken + "," + PageSizeToken

  /** The default limit clause: both tokens replaced by the decimal text of
      the offset and of the page size, so exactly
      `" limit " + offset + "," + page_size`. */
  function LimitClause(offset: nat, size: nat): (s: string)
    ensures s == " limit " + Decimal(offset) + "," + Decimal(size)
  {
    LimitClauseShape(offset, size);
    Replace(Replace(LimitTemplate, PageNoToken, Decimal(offset)), PageSizeToken, Decimal(size))
  }

  /** Replacing the page-number token leaves the page-size token intact. */
  lemma PageSizeTokenSurvives(d: string)
    ensures Replace(PageSizeToken, PageNoToken, d) == PageSizeToken
  {
    var ps, pn := PageSizeToken, PageNoToken;
    assert ps[..|pn|][7] != pn[7];
    var rest := ps[1..];
    assert forall i :: 0 <= i < |rest| ==> rest[i] != '$';
    ReplaceSkipsPlainPrefix(rest, [], pn, d);
    assert rest + [] == rest;
    assert ps == [ps[0]] + rest;
  }

  /** Digits and the fixed text around them hold no `$`. */
  lemma LimitPrefixIsPlain(d: string)
    requires AllDigits(d)
    ensures forall i :: 0 <= i < |" limit " + d + ","| ==> (" limit " + d + ",")[i] != '$'
  {
    var q := " limit " + d + ",";
    forall i | 0 <= i < |q|
      ensures q[i] != '$'
    {
      if i < 7 {
        assert q[i] == " limit "[i];
      } else if i < 7 + |d| {
        assert q[i] == d[i - 7];
      }
    }
  }

  lemma ReplacePageNoTail(d: string)
    ensures Replace(PageNoToken + ("," + PageSizeToken), PageNoToken, d) == d + ("," + PageSizeToken)
  {
    var pn, ps := PageNoToken, PageSizeToken;
    ReplaceAtMatch("," + ps, pn, d);
    assert "," + ps == [','] + ps;
    ReplaceStep(',', ps, pn, d);
    PageSizeTokenSurvives(d);
  }

  /** First pass: the page-number token becomes `d`. */
  lemma ReplacePageNo(d: string)
    ensures Replace(LimitTemplate, PageNoToken, d) == " limit " + d + "," + PageSizeToken
  {
    var pn, ps, lim := PageNoToken, PageSizeToken, LimitKeyword;
    var tail := pn + ("," + ps);
    assert LimitTemplate == lim + tail;
    KeywordIsPlain();
    ReplaceSkipsPlainPrefix(lim, tail, pn, d);
    ReplacePageNoTail(d);
  }

  lemma KeywordIsPlain()
    ensures forall i :: 0 <= i < |LimitKeyword| ==> LimitKeyword[i] != '$'
  {
  }

  /** Second pass: the page-size token becomes `e`. */
  lemma ReplacePageSize(d: string, e: string)
    requires AllDigits(d)
    ensures Replace(" limit " + d + "," + PageSizeToken, PageSizeToken, e) == " limit " + d + "," + e
  {
    var ps := PageSizeToken;
    var q := " limit " + d + ",";
    LimitPrefixIsPlain(d);
    ReplaceSkipsPlainPrefix(q, ps, ps, e);
    assert ps == ps + [];
    ReplaceAtMatch([], ps, e);
    assert e + [] == e;
  }

  lemma LimitClauseShape(offset: nat, size: nat)
    ensures Replace(Replace(LimitTemplate, PageNoToken, Decimal(offset)), PageSizeToken, Decimal(size))
         == " limit " + Decimal(offset) + "," + Decimal(size)
  {
    ReplacePageNo(Decimal(offset));
    ReplacePageSize(Decimal(offset), Decimal(size));
  }

  lemma LimitSplit(d: string, e: string)
    ensures var s := " limit " + d + "," + e;
      && s[..7] == " limit " && s[7 + |d|] == ','
      && s[7..7 + |d|] == d && s[8 + |d|..] == e
  {
  }

  /** The limit clause can be read back: the offset and the page size are
      recovered from the digits after `" limit "` and after the comma. */
  lemma LimitClauseRoundTrip(offset: nat, size: nat, s: string, d: nat)
    requires s == LimitClause(offset, size) && d == |Decimal(offset)|
    ensures s[..7] == " limit " && s[7 + d] == ','
    ensures AllDigits(s[7..7 + d]) && ParseDecimal(s[7..7 + d]) == offset
    ensures AllDigits(s[8 + d..]) && ParseDecimal(s[8 + d..]) == size
  {
    LimitSplit(Decimal(offset), Decimal(size));
    DecimalRoundTrip(offset);
    DecimalRoundTrip(size);
  }

  /** The data statement of page 1 reads from row 0. */
  lemma FirstPageLimit(default: Record, tableName: string, size: nat, doCount: bool, w: Out)
    ensures DataQuery(default, tableName, PageRequest(1, size, doCount), w).sql
         == Text("select ") + JoinComma(Lits(Names(default))).sql + Text(" from " + tableName + " ")
            + w.sql + Text(" limit 0," + Decimal(size))
  {
    assert Offset(PageRequest(1, size, doCount)) == 0;
    assert Decimal(0) == "0";
    assert " limit " + Decimal(0) + "," + Decimal(size) == " limit 0," + Decimal(size);
  }

  /** The data statements of consecutive pages carry limit clauses whose
      offsets, read back from the text, are one page size apart: paging
      neither skips nor repeats rows. */
  lemma ConsecutivePageLimits(n: PageNo, size: nat, doCount: bool, s1: string, s2: string, d1: nat, d2: nat)
    requires s1 == LimitClause(Offset(PageRequest(n, size, doCount)), size)
    requires s2 == LimitClause(Offset(PageRequest(n + 1, size, doCount)), size)
    requires d1 == |Decimal(Offset(PageRequest(n, size, doCount)))|
    requires d2 == |Decimal(Offset(PageRequest(n + 1, size, doCount)))|
    ensures AllDigits(s1[7..7 + d1]) && AllDigits(s2[7..7 + d2])
    ensures ParseDecimal(s2[7..7 + d2]) == ParseDecimal(s1[7..7 + d1]) + size
  {
    var o1, o2 := Offset(PageRequest(n, size, doCount)), Offset(PageRequest(n + 1, size, doCount));
    assert o2 == o1 + size by {
      assert n * size == (n - 1) * size + size;
    }
    LimitClauseRoundTrip(o1, size, s1, d1);
    LimitClauseRoundTrip(o2, size, s2, d2);
  }

  // ---------------------------------------------------------------------
  // The `impl_select_page` template and protocol

  /** `select ` [if !do_count: column list] [if do_count: `count(1) as count`]
      ` from ${table_name} ` <where> [if !do_count: `${limit_sql}`] */
  function PageTemplate(doCount: bool, fs: Record, tableName: string, where: Out, limitSql: string): (o: Out)
    ensures o.binds == where.binds
    ensures WellFormed(where) ==> WellFormed(o)
    ensures doCount ==> o.sql == Text("select ") + Text("count(1) as count") + Text(" from " + tableName + " ") + where.sql
    ensures !doCount ==> o.sql == Text("select ") + JoinComma(Lits(Names(fs))).sql
                                  + Text(" from " + tableName + " ") + where.sql + Text(limitSql)
  {
    if doCount then
      Cat(Cat(Cat(Lit("select "), Lit("count(1) as count")), Lit(" from " + tableName + " ")), where)
    else
      var head := Cat(Cat(Lit("select "), ColumnList(fs)), Lit(" from " + tableName + " "));
      Cat(Cat(head, where), Lit(limitSql))
  }

  /** The count statement: flagged, no column list, no limit clause. */
  function CountQuery(default: Record, tableName: string, w: Out): (q: Query)
    ensures q.isCount && q.binds == w.binds
    ensures q.sql == Text("select ") + Text("count(1) as count") + Text(" from " + tableName + " ") + w.sql
  {
    ToQuery(PageTemplate(true, default, tableName, w, ""), true)
  }

  /** The data statement: not flagged, the default record's columns, and the
      limit clause for the requested page. */
  function DataQuery(default: Record, tableName: string, req: PageRequest, w: Out): (q: Query)
    ensures !q.isCount && q.binds == w.binds
    ensures q.sql == Text("select ") + JoinComma(Lits(Names(default))).sql + Text(" from " + tableName + " ")
                     + w.sql + Text(" limit " + Decimal(Offset(req)) + "," + Decimal(req.pageSize))
  {
    ToQuery(PageTemplate(false, default, tableName, w, LimitClause(Offset(req), req.pageSize)), false)
  }

  /** `impl_select_page`: with `do_count` set, first the count statement,
      then the data statement; without it, the data statement alone. `where`
      is the where fragment as the template engine renders it for the given
      `do_count`; its errors are passed on, the count phase's first. */
  function SelectPage(default: Record, tableName: string, req: PageRequest, where: bool -> Result<Out>): (r: Result<seq<Query>>)
    ensures r.Ok? <==> where(false).Ok? && (req.doCount ==> where(true).Ok?)
    ensures req.doCount && where(true).Err? ==> r == Err(where(true).msg)
    ensures (!req.doCount || where(true).Ok?) && where(false).Err? ==> r == Err(where(false).msg)
    ensures r.Ok? ==>
      && |r.value| == (if req.doCount then 2 else 1)
      && (forall i :: 0 <= i < |r.value| ==> (r.value[i].isCount <==> req.doCount && i == 0))
      && r.value[|r.value| - 1] == DataQuery(default, tableName, req, where(false).value)
      && (req.doCount ==> r.value[0] == CountQuery(default, tableName, where(true).value))
  {
    if req.doCount && where(true).Err? then Err(where(true).msg)
    else if where(false).Err? then Err(where(false).msg)
    else
      var data := DataQuery(default, tableName, req, where(false).value);
      if req.doCount then Ok([CountQuery(default, tableName, where(true).value), data])
      else Ok([data])
  }

  /** `htmlsql_select_page` and `pysql_select_page`: the whole statement is
      the caller's template, rendered with `do_count`, `page_no` and
      `page_size`; the value passed as `page_no` is the page's offset. With
      `do_count` set, the count rendering comes first and is flagged; the
      data rendering always comes last and is not. */
  function TemplateSelectPage(req: PageRequest, template: (bool, nat, nat) -> Result<Out>): (r: Result<seq<Query>>)
    ensures r.Ok? <==> template(false, Offset(req), req.pageSize).Ok?
                       && (req.doCount ==> template(true, Offset(req), req.pageSize).Ok?)
    ensures req.doCount && template(true, Offset(req), req.pageSize).Err? ==>
              r == Err(template(true, Offset(req), req.pageSize).msg)
    ensures (!req.doCount || template(true, Offset(req), req.pageSize).Ok?) && template(false, Offset(req), req.pageSize).Err? ==>
              r == Err(template(false, Offset(req), req.pageSize).msg)
    ensures r.Ok? ==>
      && |r.value| == (if req.doCount then 2 else 1)
      && r.value[|r.value| - 1] == ToQuery(template(false, Offset(req), req.pageSize).value, false)
      && (req.doCount ==> r.value[0] == ToQuery(template(true, Offset(req), req.pageSize).value, true))
  {
    var count, data := template(true, Offset(req), req.pageSize), template(false, Offset(req), req.pageSize);
    if req.doCount && count.Err? then Err(count.msg)
    else if data.Err? then Err(data.msg)
    else if req.doCount then Ok([ToQuery(count.value, true), ToQuery(data.value, false)])
    else Ok([ToQuery(data.value, false)])
  }

  /** Page 2 of size 10 with `do_count` set: two statements, the count first,
      and the data statement reads rows from offset 10. */
  lemma SecondPageExample(default: Record, tableName: string, w: Out)
    ensures var r := SelectPage(default, tableName, PageRequest(2, 10, true), _ => Ok(w));
      && r.Ok? && |r.value| == 2
      && r.value[0].isCount && !r.value[1].isCount
      && r.value[1].sql == Text("select ") + JoinComma(Lits(Names(default))).sql + Text(" from " + tableName + " ")
                           + w.sql + Text(" limit 10,10")
  {
    var req := PageRequest(2, 10, true);
    assert Offset(req) == 10;
    TenIsDecimal();
    assert " limit " + Decimal(Offset(req)) + "," + Decimal(req.pageSize) == " limit 10,10";
  }

  lemma TenIsDecimal()
    ensures Decimal(10) == "10"
  {
    assert Decimal(1) == "1" && Decimal(0) == "0";
  }

  /** The template engine's rendering of the `impl_select_page` template for
      a given `do_count`, page offset and page size. */
  function RenderPage(default: Record, tableName: string, where: bool -> Result<Out>,
                      doCount: bool, offset: nat, size: nat): Result<Out> {
    match where(doCount)
    case Err(msg) => Err(msg)
    case Ok(w) => Ok(PageTemplate(doCount, default, tableName, w, if doCount then "" else LimitClause(offset, size)))
  }

  function PageRendering(default: Record, tableName: string, where: bool -> Result<Out>): (bool, nat, nat) -> Result<Out> {
    (doCount: bool, offset: nat, size: nat) => RenderPage(default, tableName, where, doCount, offset, size)
  }

  /** Rendered for a request, the template gives exactly the count and the
      data statement of `impl_select_page`, or the where fragment's error. */
  lemma RenderPageQueries(default: Record, tableName: string, req: PageRequest, where: bool -> Result<Out>)
    ensures var c := PageRendering(default, tableName, where)(true, Offset(req), req.pageSize);
      && (c.Ok? <==> where(true).Ok?)
      && (c.Err? ==> c.msg == where(true).msg)
      && (c.Ok? ==> ToQuery(c.value, true) == CountQuery(default, tableName, where(true).value))
    ensures var d := PageRendering(default, tableName, where)(false, Offset(req), req.pageSize);
      && (d.Ok? <==> where(false).Ok?)
      && (d.Err? ==> d.msg == where(false).msg)
      && (d.Ok? ==> ToQuery(d.value, false) == DataQuery(default, tableName, req, where(false).value))
  {
  }

  /** `impl_select_page` follows the same count-then-data protocol as the
      template-driven page generators: it is that protocol applied to its
      own fixed template. */
  lemma SelectPageIsTemplatePage(default: Record, tableName: string, req: PageRequest, where: bool -> Result<Out>)
    ensures SelectPage(default, tableName, req, where) == TemplateSelectPage(req, PageRendering(default, tableName, where))
  {
    RenderPageQueries(default, tableName, req, where);
  }
}
