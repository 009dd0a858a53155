/**
 * The SQL text and positional parameter lists that the mapper builds
 * (orm.js, class ORM): `migrate`, `create`, `all`, `find`, `update`,
 * `delete`, and the three queries the relation loader issues.
 */
module Statements {
  import opened Values
  import opened SqlText

  /** A statement as handed to the adapter: text with `?` placeholders and its arguments. */
  datatype Statement = Statement(sql: string, params: seq<Value>)

  /** Every placeholder has exactly one argument. */
  predicate WellParameterised(st: Statement)
  {
    CountChar(st.sql, '?') == |st.params|
  }

  /** An identifier interpolated into the text that adds no placeholder of its own. */
  predicate Plain(name: string)
  {
    '?' !in name
  }

  predicate AllPlain(names: seq<string>)
  {
    forall i :: 0 <= i < |names| ==> Plain(names[i])
  }

  // ------------------------------------------------------- text fragments
  // The fixed words of the statements, named so that each is reasoned about once.

  const Hole: string := "?"
  const Comma: string := ","
  const CreateHead: string := "CREATE TABLE IF NOT EXISTS "
  const InsertHead: string := "INSERT INTO "
  const ValuesWord: string := ") VALUES ("
  const UpdateHead: string := "UPDATE "
  const SetWord: string := " SET "
  const AssignHole: string := "=?"
  const DeleteHead: string := "DELETE FROM "
  const SelectStarHead: string := "SELECT * FROM "
  const WhereWord: string := " WHERE "
  const WhereId: string := " WHERE id = "
  const Equals: string := " = "
  const Open: string := " ("
  const Close: string := ")"
  const SelectWord: string := "SELECT "
  const StarFrom: string := ".* \n             FROM "
  const JoinWord: string := "\n             JOIN "
  const OnWord: string := " ON "
  const Dot: string := "."
  const DotId: string := ".id"
  const WhereLine: string := "\n             WHERE "
  const TextType: string := " TEXT"

  // ---------------------------------------------------------------- migrate

  const IdColumn: string := "id INTEGER PRIMARY KEY AUTOINCREMENT"

  /** The column definition for one declared field. */
  function ColumnDef(f: string): (c: string)
    ensures c == IdColumn <==> f == "id"
    ensures f != "id" ==> c == f + TextType
  {
    if f == "id" then IdColumn
    else
      var c := f + TextType;
      assert c[|c| - 2] == 'X' && IdColumn[|IdColumn| - 2] == 'N';
      c
  }

  function ColumnDefs(fields: seq<string>): (cs: seq<string>)
    ensures |cs| == |fields|
    ensures forall i :: 0 <= i < |fields| ==> cs[i] == ColumnDef(fields[i])
  {
    if fields == [] then [] else [ColumnDef(fields[0])] + ColumnDefs(fields[1..])
  }

  /** The column list of the CREATE TABLE statement, one entry per field. */
  function ColumnList(fields: seq<string>): string
  {
    Join(ColumnDefs(fields))
  }

  /** `migrate()`: create the table if it is absent. */
  function Migrate(table: string, fields: seq<string>): (st: Statement)
    ensures st.params == []
    ensures st.sql == CreateHead + table + Open + ColumnList(fields) + Close
  {
    Statement(CreateHead + table + Open + ColumnList(fields) + Close, [])
  }

  // ----------------------------------------------------------------- create

  /** `Object.keys(obj).map(() => "?")`. */
  function Placeholders(n: nat): (qs: seq<string>)
    ensures |qs| == n
    ensures forall i :: 0 <= i < n ==> qs[i] == "?"
  {
    if n == 0 then [] else [Hole] + Placeholders(n - 1)
  }

  /** `create(obj)`: insert exactly the supplied properties. */
  function Insert(table: string, rec: Record): (st: Statement)
    ensures |st.params| == |rec|
    ensures forall i :: 0 <= i < |rec| ==> st.params[i] == rec[i].value
  {
    Statement(InsertHead + table + Open + Join(Keys(rec)) + ValuesWord
              + Join(Placeholders(|rec|)) + Close,
              ValuesOf(rec))
  }

  // ----------------------------------------------------------------- update

  /** `Object.keys(obj).map(k => `${k}=?`)`. */
  function Assignments(keys: seq<string>): (xs: seq<string>)
    ensures |xs| == |keys|
    ensures forall i :: 0 <= i < |keys| ==> xs[i] == keys[i] + AssignHole
  {
    if keys == [] then [] else [keys[0] + AssignHole] + Assignments(keys[1..])
  }

  /** `update(id, obj)`: set exactly the supplied properties on the row with that id. */
  function Update(table: string, id: Value, rec: Record): (st: Statement)
    ensures |st.params| == |rec| + 1
    ensures forall i :: 0 <= i < |rec| ==> st.params[i] == rec[i].value
    ensures st.params[|rec|] == id
  {
    Statement(UpdateHead + table + SetWord + Join(Assignments(Keys(rec))) + WhereId + Hole,
              ValuesOf(rec) + [id])
  }

  // ----------------------------------------------------------------- delete

  /** `delete(id)`. */
  function Delete(table: string, id: Value): (st: Statement)
    ensures st.params == [id]
  {
    Statement(DeleteHead + table + WhereId + Hole, [id])
  }

  // ---------------------------------------------------------------- queries

  /**
   * The reads the mapper issues. `SelectWhere` is `SELECT * FROM t WHERE c = ?`
   * (used by `find`, hasMany and belongsTo); `SelectVia` is the manyToMany join.
   */
  datatype Query =
    | SelectAll(table: string)
    | SelectWhere(table: string, column: string, arg: Value)
    | SelectVia(target: string, pivot: string, foreignKey: string, localKey: string, arg: Value)
  {
    /** The identifiers the query interpolates into its text. */
    function Names(): seq<string>
    {
      match this
      case SelectAll(t) => [t]
      case SelectWhere(t, c, _) => [t, c]
      case SelectVia(t, p, fk, lk, _) => [t, p, fk, lk]
    }

    /** The tables the query reads. */
    function Tables(): seq<string>
    {
      match this
      case SelectVia(t, p, _, _, _) => [t, p]
      case _ => [table]
    }
  }

  /** The text and arguments of a query, exactly as the mapper writes them. */
  function StatementOf(q: Query): (st: Statement)
    ensures q.SelectAll? ==> st.params == []
    ensures !q.SelectAll? ==> st.params == [q.arg]
  {
    match q
    case SelectAll(t) =>
      Statement(SelectStarHead + t, [])
    case SelectWhere(t, c, v) =>
      Statement(SelectStarHead + t + WhereWord + c + Equals + Hole, [v])
    case SelectVia(t, p, fk, lk, v) =>
      Statement(SelectWord + t + StarFrom + t
                + JoinWord + p + OnWord + p + Dot + fk + Equals + t + DotId
                + WhereLine + p + Dot + lk + Equals + Hole, [v])
  }

  /** `all()`: no arguments (the adapter's default `params = []`). */
  function AllRows(table: string): (st: Statement)
    ensures st.params == []
  {
    StatementOf(SelectAll(table))
  }

  /** `find(id)`: the row whose `id` equals the argument. */
  function Find(table: string, id: Value): (st: Statement)
    ensures st.params == [id]
  {
    StatementOf(SelectWhere(table, "id", id))
  }
}
