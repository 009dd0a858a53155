/**
 * The database adapter (orm.js, class DBAdapter) over an abstract store:
 * each table is the sequence of its rows, and a read query is answered by
 * filtering that sequence. What is modelled of the three drivers is the
 * shape of their answers and how the adapter normalises it into one row
 * list, one row or absence, and one mutation result.
 */
module Adapter {
  import opened Wrappers
  import opened Values
  import opened Statements

  /** DBAdapter's `type`: which driver the adapter wraps. */
  datatype Engine = Sqlite | MySql | Postgres

  /** The backend's tables: the rows of each, in the order the backend returns them. */
  type Store = map<string, seq<Fields>>

  /** A statement error raised by the backend. */
  datatype DbError = NoSuchTable(table: string)

  /** Every stored row holds column values only. */
  predicate StoreFlat(store: Store)
  {
    forall t, i :: t in store && 0 <= i < |store[t]| ==> Flat(store[t][i])
  }

  // ------------------------------------------------------------ SQL answers

  /** SQL `a = b`: a NULL (an unbound `undefined` binds as NULL) equals nothing. */
  predicate SqlEq(a: Value, b: Value)
  {
    Scalar(a) && !a.Null? && a == b
  }

  /** Row `r` satisfies `WHERE column = v`. */
  predicate Matches(r: Fields, column: string, v: Value)
  {
    column in r && SqlEq(r[column], v)
  }

  /** `SELECT * FROM t WHERE column = ?` over the rows of `t`, in table order. */
  function Where(rows: seq<Fields>, column: string, v: Value): (out: seq<Fields>)
  {
    if rows == [] then []
    else (if Matches(rows[0], column, v) then [rows[0]] else []) + Where(rows[1..], column, v)
  }

  /** Pivot row `p` links target row `t` to the argument: `p.fk = t.id AND p.lk = v`. */
  predicate Linked(p: Fields, t: Fields, foreignKey: string, localKey: string, v: Value)
  {
    "id" in t && Matches(p, foreignKey, t["id"]) && Matches(p, localKey, v)
  }

  /** One copy of `t` per pivot row linking it (the join yields one row per link). */
  function Links(t: Fields, pivots: seq<Fields>, foreignKey: string, localKey: string, v: Value): seq<Fields>
  {
    if pivots == [] then []
    else (if Linked(pivots[0], t, foreignKey, localKey, v) then [t] else [])
         + Links(t, pivots[1..], foreignKey, localKey, v)
  }

  /** The manyToMany join: the target columns of each (target, pivot) pair that links. */
  function Via(targets: seq<Fields>, pivots: seq<Fields>, foreignKey: string, localKey: string, v: Value): seq<Fields>
  {
    if targets == [] then []
    else Links(targets[0], pivots, foreignKey, localKey, v) + Via(targets[1..], pivots, foreignKey, localKey, v)
  }

  /** The rows the backend returns for a read query; a missing table is a statement error. */
  function Eval(store: Store, q: Query): (r: Result<seq<Fields>, DbError>)
    ensures r.Failure? <==> exists t :: t in q.Tables() && t !in store
    ensures r.Failure? ==> r.error.table in q.Tables() && r.error.table !in store
  {
    match q
    case SelectAll(t) =>
      if t in store then Success(store[t]) else Failure(NoSuchTable(t))
    case SelectWhere(t, c, v) =>
      if t in store then Success(Where(store[t], c, v)) else Failure(NoSuchTable(t))
    case SelectVia(t, p, fk, lk, v) =>
      if t !in store then Failure(NoSuchTable(t))
      else if p !in store then Failure(NoSuchTable(p))
      else Success(Via(store[t], store[p], fk, lk, v))
  }

  // ------------------------------------------------------ driver answers

  /** How a client-server driver hands over the rows of a query. */
  datatype Reply =
    | RowArray(items: seq<Fields>)      // mysql2: the callback gets the array of rows
    | ResultObject(rows: seq<Fields>)   // pg: the callback gets an object with a `rows` array

  /** The answer of the driver `kind` to `query`, for a client-server engine. */
  function ReplyOf(kind: Engine, rows: seq<Fields>): Reply
  {
    if kind == Postgres then ResultObject(rows) else RowArray(rows)
  }

  /** `result.rows || result`: the rows array, whichever shape the driver used. */
  function RowsOf(reply: Reply): seq<Fields>
  {
    match reply
    case ResultObject(rows) => rows
    case RowArray(items) => items
  }

  /** `list[0]`: the first row, or `undefined` for an empty list. */
  function First(rows: seq<Fields>): (r: Option<Fields>)
    ensures r.None? <==> rows == []
    ensures r.Some? ==> r.value == rows[0]
  {
    if rows == [] then None else Some(rows[0])
  }

  /** What `DBAdapter.all` resolves with, given the rows the backend found. */
  function NormalisedRows(kind: Engine, found: seq<Fields>): (r: seq<Fields>)
    ensures r == found
  {
    if kind == Sqlite then found else RowsOf(ReplyOf(kind, found))
  }

  /** What `DBAdapter.get` resolves with, given the rows the backend found. */
  function NormalisedRow(kind: Engine, found: seq<Fields>): (r: Option<Fields>)
    ensures r.None? <==> found == []
    ensures r.Some? ==> r.value == found[0]
  {
    if kind == Sqlite then First(found) else First(RowsOf(ReplyOf(kind, found)))
  }

  /** `db.all(sql, params)` for the statement of `q`, on the store's current contents. */
  function FetchAll(kind: Engine, store: Store, q: Query): (r: Result<seq<Fields>, DbError>)
    ensures r == Eval(store, q)
  {
    match Eval(store, q)
    case Failure(e) => Failure(e)
    case Success(found) => Success(NormalisedRows(kind, found))
  }

  /** `db.get(sql, params)` for the statement of `q`: the first row found, or absent. */
  function FetchOne(kind: Engine, store: Store, q: Query): (r: Result<Option<Fields>, DbError>)
    ensures Eval(store, q).Failure? ==> r == Failure(Eval(store, q).error)
    ensures Eval(store, q).Success? ==> r == Success(First(Eval(store, q).value))
  {
    match Eval(store, q)
    case Failure(e) => Failure(e)
    case Success(found) => Success(NormalisedRow(kind, found))
  }

  // ------------------------------------------------------- mutation results

  /** What the backend did for an INSERT, UPDATE, DELETE or CREATE: the row id it last assigned and the rows it changed. */
  datatype Outcome = Outcome(lastId: int, changes: nat)

  /**
   * The object `DBAdapter.run` resolves with. On sqlite it is the
   * `{ lastID, changes }` the adapter builds from the statement. On mysql2
   * and pg it is the driver's own result: mysql2's result header names its
   * fields `insertId` and `affectedRows`, and pg's result carries only a
   * `rowCount` (with an empty `rows` array) and no inserted id.
   */
  function RunResultOf(kind: Engine, o: Outcome): (r: Fields)
    ensures Prop(r, "lastID") != Undefined <==> kind == Sqlite
  {
    match kind
    case Sqlite => map["lastID" := Num(o.lastId), "changes" := Num(o.changes)]
    case MySql => map["insertId" := Num(o.lastId), "affectedRows" := Num(o.changes)]
    case Postgres => map["rowCount" := Num(o.changes), "rows" := Many([])]
  }

  /**
   * Only sqlite's answer has `lastID` and `changes`; the other engines'
   * answers leave them `undefined`. Every engine reports the change count,
   * each under its own name. The inserted id can be told from the answer
   * on sqlite and mysql2, and not at all on pg.
   */
  lemma RunAnswerFields(kind: Engine, o: Outcome, o': Outcome)
    ensures Prop(RunResultOf(kind, o), "changes") != Undefined <==> kind == Sqlite
    ensures kind == Sqlite ==>
              Prop(RunResultOf(kind, o), "lastID") == Num(o.lastId) && Prop(RunResultOf(kind, o), "changes") == Num(o.changes)
    ensures kind == MySql ==>
              Prop(RunResultOf(kind, o), "insertId") == Num(o.lastId) &&
              Prop(RunResultOf(kind, o), "affectedRows") == Num(o.changes)
    ensures kind == Postgres ==> Prop(RunResultOf(kind, o), "rowCount") == Num(o.changes)
    ensures kind == Postgres && o.changes == o'.changes ==> RunResultOf(kind, o) == RunResultOf(kind, o')
    ensures kind != Postgres && o.lastId != o'.lastId ==> RunResultOf(kind, o) != RunResultOf(kind, o')
  {
    if kind != Postgres && o.lastId != o'.lastId {
      var key := if kind == Sqlite then "lastID" else "insertId";
      assert Prop(RunResultOf(kind, o), key) != Prop(RunResultOf(kind, o'), key);
    }
  }

  // ---------------------------------------------------------------- adapter

  /** One database connection: its engine and the contents of its tables. */
  class DbAdapter {
    const kind: Engine
    var tables: Store

    /** Connecting; the driver handle itself is outside the model. */
    constructor (kind: Engine, tables: Store)
      ensures this.kind == kind && this.tables == tables
    {
      this.kind := kind;
      this.tables := tables;
    }

    /** `all(sql, params)`: every row the statement selects. */
    function All(q: Query): (r: Result<seq<Fields>, DbError>)
      reads this
      ensures r == Eval(tables, q)
    {
      FetchAll(kind, tables, q)
    }

    /** `get(sql, params)`: the first row the statement selects, or absent. */
    function Get(q: Query): (r: Result<Option<Fields>, DbError>)
      reads this
      ensures Eval(tables, q).Failure? ==> r == Failure(Eval(tables, q).error)
      ensures Eval(tables, q).Success? ==> r == Success(First(Eval(tables, q).value))
    {
      FetchOne(kind, tables, q)
    }
  }
}
