/** The dynamically typed value graph the generators read records from, and
    the record shape: an ordered list of field-name/value pairs in declaration
    order. */
module Values {

  /** A value as the serialisation layer produces it. Integer widths are not
      enforced: the generators only ever ask whether a value is null. */
  datatype Value =
    | Null
    | Bool(b: bool)
    | I32(i: int)
    | I64(i: int)
    | U32(u: nat)
    | U64(u: nat)
    | F32(f: real)
    | F64(f: real)
    | Str(s: string)
    | Binary(bytes: seq<bv8>)
    | Array(items: seq<Value>)
    | Map(entries: seq<(Value, Value)>)
    | Ext(tag: string, inner: Value)

  /** One field of a record projected to a map. */
  datatype Field = Field(name: string, value: Value)

  /** A record: its fields in declaration order, which is also the order in
      which the templates' `for k,v in table` visits them. */
  type Record = seq<Field>

  function Names(r: Record): (ns: seq<string>)
    ensures |ns| == |r|
    ensures forall i :: 0 <= i < |r| ==> ns[i] == r[i].name
  {
    if r == [] then [] else [r[0].name] + Names(r[1..])
  }

  function FieldValues(r: Record): (vs: seq<Value>)
    ensures |vs| == |r|
    ensures forall i :: 0 <= i < |r| ==> vs[i] == r[i].value
  {
    if r == [] then [] else [r[0].value] + FieldValues(r[1..])
  }

  /** The projection of a struct has distinct keys. */
  predicate UniqueNames(r: Record) {
    forall i, j :: 0 <= i < j < |r| ==> r[i].name != r[j].name
  }

  /** Indexing a map value by key: the value stored under `name`, or `Null`
      when the record has no such field. */
  function Get(r: Record, name: string): (v: Value)
    ensures (forall i :: 0 <= i < |r| ==> r[i].name != name) ==> v == Null
    ensures UniqueNames(r) ==> forall i :: 0 <= i < |r| && r[i].name == name ==> v == r[i].value
  {
    if r == [] then Null
    else if r[0].name == name then r[0].value
    else Get(r[1..], name)
  }

  /** Two records that the templates cannot tell apart by their text: same
      field names in the same order, and the same fields null. The values of
      the non-null fields may differ arbitrarily. */
  predicate Alike(a: Record, b: Record) {
    && |a| == |b|
    && forall i :: 0 <= i < |a| ==> a[i].name == b[i].name && (a[i].value.Null? <==> b[i].value.Null?)
  }

  /** Pointwise `Alike` over two batches of records. */
  predicate AllAlike(a: seq<Record>, b: seq<Record>) {
    && |a| == |b|
    && forall i :: 0 <= i < |a| ==> Alike(a[i], b[i])
  }
}
