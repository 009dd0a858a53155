/**
 * The JavaScript values that flow through the mapper: scalars read from
 * and bound to SQL statements, and the values the relation loader attaches
 * to a row (an array of rows, one row, or `undefined`).
 */
module Values {

  /** A JavaScript value as the mapper sees it. */
  datatype Value =
    | Undefined                          // a missing property, or `db.get` finding nothing
    | Null
    | Num(n: int)
    | Str(s: string)
    | Many(rows: seq<map<string, Value>>) // an array of rows (hasMany / manyToMany)
    | One(row: map<string, Value>)        // a single row (belongsTo)

  /** A row object: an open mapping from property name to value. */
  type Fields = map<string, Value>

  /** A value a database column can hold. */
  predicate Scalar(v: Value)
  {
    v.Null? || v.Num? || v.Str?
  }

  /** A row as a database driver hands it over: scalar columns only. */
  predicate Flat(r: Fields)
  {
    forall k :: k in r ==> Scalar(r[k])
  }

  /** JavaScript property read `r[k]`: `undefined` when the property is missing. */
  function Prop(r: Fields, k: string): (v: Value)
    ensures k !in r ==> v == Undefined
    ensures k in r ==> v == r[k]
  {
    if k in r then r[k] else Undefined
  }

  /** One own property of a plain object, in `Object.keys` order. */
  datatype Entry = Entry(key: string, value: Value)

  /** A plain object passed to `create` or `update`, as its ordered entries. */
  type Record = seq<Entry>

  /** `Object.keys(obj)`. */
  function Keys(rec: Record): (ks: seq<string>)
    ensures |ks| == |rec|
    ensures forall i :: 0 <= i < |rec| ==> ks[i] == rec[i].key
  {
    if rec == [] then [] else [rec[0].key] + Keys(rec[1..])
  }

  /** `Object.values(obj)`. */
  function ValuesOf(rec: Record): (vs: seq<Value>)
    ensures |vs| == |rec|
    ensures forall i :: 0 <= i < |rec| ==> vs[i] == rec[i].value
  {
    if rec == [] then [] else [rec[0].value] + ValuesOf(rec[1..])
  }
}
