/**
 * Provider payloads as JSON values, and the flattening that
 * `pandas.json_normalize` applies to one record: a nested object
 * becomes columns named by the dotted path to each leaf.
 */
module Payload {
  import opened Wrappers

  /** JSON as the provider sends it; numbers are integers (ids, years, scores). */
  datatype Json =
    | JNull
    | JBool(b: bool)
    | JNum(n: int)
    | JStr(s: string)
    | JArr(items: seq<Json>)
    | JObj(members: seq<Member>)

  datatype Member = Member(key: string, value: Json)

  /** One JSON object: its members in order. */
  type Object = seq<Member>

  /** A flat record: column name to cell value, in column order. */
  type Row = seq<Member>

  /**
   * The flat columns of `ms` below `prefix`: an object value is flattened
   * under `prefix + key + "."` (an empty object gives no column), every
   * other value is a column of its own, lists included.
   */
  function FlattenUnder(prefix: string, ms: seq<Member>): (r: Row)
    ensures forall m :: m in r ==> !m.value.JObj?
    ensures forall m :: m in r ==> |prefix| <= |m.key| && m.key[..|prefix|] == prefix
    decreases ms
  {
    if ms == [] then []
    else
      var m := ms[0];
      (match m.value
       case JObj(inner) => FlattenUnder(prefix + m.key + ".", inner)
       case _ => [Member(prefix + m.key, m.value)])
      + FlattenUnder(prefix, ms[1..])
  }

  /** `json_normalize` of one record. */
  function Flatten(obj: Object): Row {
    FlattenUnder("", obj)
  }

  /** The value of column `name` in `row`: the first member so named. */
  function Get(row: Row, name: string): (r: Option<Json>)
    ensures r.Some? <==> exists m :: m in row && m.key == name
    ensures r.Some? ==> Member(name, r.value) in row
  {
    if row == [] then None
    else if row[0].key == name then Some(row[0].value)
    else Get(row[1..], name)
  }

  /** A cell of a data frame: the value of the column, or NaN (`JNull`) when the record lacks it. */
  function Cell(row: Row, name: string): Json {
    Get(row, name).GetOr(JNull)
  }
}
