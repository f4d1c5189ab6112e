/** The output side of the template language: SQL text with abstract
    placeholders, the bind list that goes with it, and the text primitives the
    templates are built from (literal text, `${}` raw splice, `#{}` bound
    substitution, concatenation and `trim ','`). */
module Sql {
  import opened Values

  /** A token of generated SQL text: a character, or the driver's positional
      placeholder that a `#{}` substitution emits. A bound value is never
      part of the text; it only reaches the bind list. */
  datatype Tok = Chr(c: char) | Hole

  /** What a template emits: SQL text and bind values in placeholder order. */
  datatype Out = Out(sql: seq<Tok>, binds: seq<Value>)

  function Text(s: string): (t: seq<Tok>)
    ensures |t| == |s|
    ensures forall i :: 0 <= i < |s| ==> t[i] == Chr(s[i])
  {
    seq(|s|, i requires 0 <= i < |s| => Chr(s[i]))
  }

  lemma TextAppend(a: string, b: string)
    ensures Text(a + b) == Text(a) + Text(b)
  {
  }

  /** Number of placeholders in a piece of SQL text. */
  function Holes(t: seq<Tok>): nat {
    if t == [] then 0 else (if t[0] == Hole then 1 else 0) + Holes(t[1..])
  }

  lemma {:induction false} HolesAppend(a: seq<Tok>, b: seq<Tok>)
    ensures Holes(a + b) == Holes(a) + Holes(b)
  {
    if a == [] {
      assert a + b == b;
    } else {
      assert (a + b)[1..] == a[1..] + b;
      HolesAppend(a[1..], b);
    }
  }

  lemma {:induction false} TextHasNoHoles(s: string)
    ensures Holes(Text(s)) == 0
  {
    if s != [] {
      assert Text(s)[1..] == Text(s[1..]);
      TextHasNoHoles(s[1..]);
    }
  }

  /** The Nth placeholder of the text goes with the Nth bind: there are as
      many placeholders as binds, and every primitive below appends text and
      binds in lock step. */
  predicate WellFormed(o: Out) {
    Holes(o.sql) == |o.binds|
  }

  const Empty: Out := Out([], [])

  /** Literal template text, or a `${}` raw splice of a name: text only. */
  function Lit(s: string): (o: Out)
    ensures WellFormed(o)
    ensures o.binds == []
  {
    TextHasNoHoles(s);
    Out(Text(s), [])
  }

  /** A `#{}` bound substitution: one placeholder in the text, the value in
      the bind list. */
  function Param(v: Value): (o: Out)
    ensures WellFormed(o)
  {
    Out([Hole], [v])
  }

  function Cat(a: Out, b: Out): (o: Out)
    ensures WellFormed(a) && WellFormed(b) ==> WellFormed(o)
  {
    HolesAppend(a.sql, b.sql);
    Out(a.sql + b.sql, a.binds + b.binds)
  }

  lemma CatAssoc(a: Out, b: Out, c: Out)
    ensures Cat(Cat(a, b), c) == Cat(a, Cat(b, c))
  {
  }

  lemma LitAppend(a: string, b: string)
    ensures Lit(a + b) == Cat(Lit(a), Lit(b))
  {
    TextAppend(a, b);
  }

  const Comma: Out := Lit(",")

  predicate EndsWithComma(t: seq<Tok>) {
    |t| > 0 && t[|t| - 1] == Chr(',')
  }

  /** `trim ','`: removes one trailing comma from the block's text, if there is
      one, and leaves its binds alone. */
  function TrimComma(o: Out): (r: Out)
    ensures r.binds == o.binds
    ensures EndsWithComma(o.sql) ==> r.sql + [Chr(',')] == o.sql
    ensures !EndsWithComma(o.sql) ==> r.sql == o.sql
    ensures WellFormed(o) ==> WellFormed(r)
  {
    if EndsWithComma(o.sql) then
      var t := o.sql[..|o.sql| - 1];
      assert t + [Chr(',')] == o.sql;
      HolesAppend(t, [Chr(',')]);
      Out(t, o.binds)
    else o
  }

  /** Trimming a concatenation whose second part ends in a comma trims that
      part only. */
  lemma TrimCat(a: Out, b: Out)
    requires EndsWithComma(b.sql)
    ensures TrimComma(Cat(a, b)) == Cat(a, TrimComma(b))
  {
    assert (a.sql + b.sql)[..|a.sql + b.sql| - 1] == a.sql + b.sql[..|b.sql| - 1];
  }

  /** What a `for` loop whose body is `<item>,` emits: every item followed by
      a comma. */
  function ConcatComma(os: seq<Out>): Out {
    if os == [] then Empty else Cat(Cat(os[0], Comma), ConcatComma(os[1..]))
  }

  /** The items separated by commas, with no comma after the last one. */
  function JoinComma(os: seq<Out>): (r: Out)
    ensures (forall i :: 0 <= i < |os| ==> WellFormed(os[i])) ==> WellFormed(r)
  {
    if os == [] then Empty
    else if |os| == 1 then os[0]
    else Cat(Cat(os[0], Comma), JoinComma(os[1..]))
  }

  lemma {:induction false} ConcatIsJoinThenComma(os: seq<Out>)
    requires os != []
    ensures ConcatComma(os) == Cat(JoinComma(os), Comma)
  {
    if |os| == 1 {
      assert ConcatComma(os[1..]) == Empty;
    } else {
      ConcatIsJoinThenComma(os[1..]);
      CatAssoc(Cat(os[0], Comma), JoinComma(os[1..]), Comma);
    }
  }

  /** `trim ','` around a loop emitting `<item>,` yields exactly the
      comma-separated items: the trailing comma is gone, and an empty loop
      yields nothing. */
  lemma TrimConcatComma(os: seq<Out>)
    ensures TrimComma(ConcatComma(os)) == JoinComma(os)
  {
    if os != [] {
      ConcatIsJoinThenComma(os);
      var j := JoinComma(os);
      assert ConcatComma(os).sql == j.sql + [Chr(',')];
    }
  }

  /** A comma-joined list ends with the last item's last token. */
  lemma {:induction false} JoinEndsWithLast(os: seq<Out>)
    requires os != []
    requires os[|os| - 1].sql != []
    ensures JoinComma(os).sql != []
    ensures JoinComma(os).sql[|JoinComma(os).sql| - 1] == os[|os| - 1].sql[|os[|os| - 1].sql| - 1]
  {
    if |os| > 1 {
      JoinEndsWithLast(os[1..]);
    }
  }

  /** Items whose texts agree pointwise join to the same text. */
  lemma {:induction false} JoinSameText(a: seq<Out>, b: seq<Out>)
    requires |a| == |b|
    requires forall i :: 0 <= i < |a| ==> a[i].sql == b[i].sql
    ensures JoinComma(a).sql == JoinComma(b).sql
  {
    if |a| > 1 {
      JoinSameText(a[1..], b[1..]);
    }
  }

  /** `${name}` for each name. */
  function Lits(names: seq<string>): (os: seq<Out>)
    ensures |os| == |names|
    ensures forall i :: 0 <= i < |names| ==> os[i] == Lit(names[i])
  {
    seq(|names|, i requires 0 <= i < |names| => Lit(names[i]))
  }

  /** `#{v}` for each value. */
  function Params(vs: seq<Value>): (os: seq<Out>)
    ensures |os| == |vs|
    ensures forall i :: 0 <= i < |vs| ==> os[i] == Param(vs[i])
  {
    seq(|vs|, i requires 0 <= i < |vs| => Param(vs[i]))
  }
}
