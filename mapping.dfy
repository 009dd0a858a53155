/**
 * The entity mapper (orm.js, class ORM): one table, its declared fields,
 * a registry of relations keyed by target table, the reads `all` and
 * `find`, and the relation loader that attaches related rows to each row
 * it is given, one level deep.
 */
module Mapping {
  import opened Wrappers
  import opened Values
  import opened Statements
  import opened Adapter

  /** A relation descriptor: how rows of this table relate to rows of `model`'s. */
  datatype Relation =
    | HasMany(model: Orm, foreignKey: string)
    | BelongsTo(model: Orm, foreignKey: string)
    | ManyToMany(model: Orm, pivotTable: string, localKey: string, foreignKey: string)

  /** The row property the loader reads to build the relation's query. */
  function ReadKey(d: Relation): string
  {
    if d.BelongsTo? then d.foreignKey else "id"
  }

  /** The query the loader issues for relation `d` and the row as it stands. */
  function RelationQuery(d: Relation, row: Fields): (q: Query)
    ensures !q.SelectAll? && q.arg == Prop(row, ReadKey(d))
    ensures q.Tables()[0] == d.model.table
  {
    match d
    case HasMany(m, fk) => SelectWhere(m.table, fk, Prop(row, "id"))
    case BelongsTo(m, fk) => SelectWhere(m.table, "id", Prop(row, fk))
    case ManyToMany(m, pivot, lk, fk) => SelectVia(m.table, pivot, fk, lk, Prop(row, "id"))
  }

  /** The tables relation `d`'s query reads: the target, and for manyToMany the pivot table. */
  function Reads(d: Relation): seq<string>
  {
    if d.ManyToMany? then [d.model.table, d.pivotTable] else [d.model.table]
  }

  /** Every table in `Reads(d)` exists. */
  predicate Present(store: Store, d: Relation)
  {
    d.model.table in store && (d.ManyToMany? ==> d.pivotTable in store)
  }

  /**
   * The value the loader assigns to `row[rel]` for relation `d`: the array
   * `db.all` resolves with, or for belongsTo the row `db.get` resolves with
   * (`undefined` when there is none).
   */
  function Attached(kind: Engine, store: Store, d: Relation, row: Fields): (r: Result<Value, DbError>)
    ensures r.Success? <==> Present(store, d)
    ensures r.Failure? ==> r.error.table !in store && r.error.table in Reads(d)
    ensures r.Success? ==> (r.value.Many? <==> !d.BelongsTo?)
    ensures r.Success? && d.BelongsTo? ==> r.value.One? || r.value.Undefined?
  {
    var q := RelationQuery(d, row);
    if d.BelongsTo? then
      match FetchOne(kind, store, q)
      case Failure(e) => Failure(e)
      case Success(None) => Success(Undefined)
      case Success(Some(t)) => Success(One(t))
    else
      match FetchAll(kind, store, q)
      case Failure(e) => Failure(e)
      case Success(ts) => Success(Many(ts))
  }

  /** A row after the loader has visited it: its properties, and the error that stopped it, if any. */
  datatype Loaded = Loaded(fields: Fields, error: Option<DbError>)

  /** Each descriptor is stored under its target's table name. */
  predicate KeyedByTarget(rels: map<string, Relation>)
  {
    forall t :: t in rels ==> rels[t].model.table == t
  }

  /** Every visited name is registered. */
  predicate Covers(rels: map<string, Relation>, names: seq<string>)
  {
    forall i :: 0 <= i < |names| ==> names[i] in rels
  }

  /**
   * The inner loop of `_loadRelations` on one row: visit the relation names
   * in order, each time assigning the attached value to the row as updated
   * so far; stop at the first query that fails.
   */
  function LoadedRow(kind: Engine, store: Store, rels: map<string, Relation>, names: seq<string>, row: Fields): (r: Loaded)
    requires Covers(rels, names)
    ensures r.error.None? <==> forall i :: 0 <= i < |names| ==> Present(store, rels[names[i]])
    ensures r.error.Some? ==> r.error.value.table !in store
    decreases |names|
  {
    if names == [] then Loaded(row, None)
    else
      match Attached(kind, store, rels[names[0]], row)
      case Failure(e) => Loaded(row, Some(e))
      case Success(v) => LoadedRow(kind, store, rels, names[1..], row[names[0] := v])
  }

  /** `this.relations[key] = d`. */
  function Registered(rels: map<string, Relation>, key: string, d: Relation): (r: map<string, Relation>)
    ensures r.Keys == rels.Keys + {key}
    ensures key in r && r[key] == d
    ensures forall k :: k in rels && k != key ==> r[k] == rels[k]
  {
    rels[key := d]
  }

  /**
   * The order `for (rel in this.relations)` visits keys in after assigning
   * `key`: first assignment first. Every key keeps its place, the new key
   * is visited last, and no key is visited twice.
   */
  function Ordered(order: seq<string>, key: string): (r: seq<string>)
    ensures forall k :: k in r <==> k in order || k == key
    ensures |order| <= |r| <= |order| + 1 && r[..|order|] == order
    ensures |r| == |order| + 1 <==> key !in order
    ensures (forall i, j :: 0 <= i < j < |order| ==> order[i] != order[j]) ==>
              forall i, j :: 0 <= i < j < |r| ==> r[i] != r[j]
  {
    if key in order then order else order + [key]
  }

  /** A row object, mutated in place by the loader. */
  class Row {
    var fields: Fields

    constructor (fields: Fields)
      ensures this.fields == fields
    {
      this.fields := fields;
    }
  }

  /** The driver builds a fresh object for every row it returns. */
  method NewRows(found: seq<Fields>) returns (objs: seq<Row>)
    ensures |objs| == |found|
    ensures forall i :: 0 <= i < |found| ==> fresh(objs[i]) && objs[i].fields == found[i]
    ensures forall i, j :: 0 <= i < j < |objs| ==> objs[i] != objs[j]
  {
    objs := [];
    var i := 0;
    while i < |found|
      invariant 0 <= i <= |found| && |objs| == i
      invariant forall k :: 0 <= k < i ==> fresh(objs[k]) && objs[k].fields == found[k]
      invariant forall k, l :: 0 <= k < l < i ==> objs[k] != objs[l]
    {
      var r := new Row(found[i]);
      objs := objs + [r];
      i := i + 1;
    }
  }

  /** The mapper for one table. */
  class Orm {
    const db: DbAdapter
    const table: string
    const fields: seq<string>
    /** `this.relations`, keyed by target table name. */
    var relations: map<string, Relation>
    /** The keys of `this.relations` in the order `for ... in` visits them. */
    var order: seq<string>

    /** Each descriptor sits under its target's table name, and `order` lists the keys once each. */
    ghost predicate Valid()
      reads this
    {
      && KeyedByTarget(relations)
      && Covers(relations, order)
      && (forall t :: t in relations ==> t in order)
      && (forall i, j :: 0 <= i < j < |order| ==> order[i] != order[j])
    }

    constructor (db: DbAdapter, table: string, fields: seq<string>)
      ensures Valid()
      ensures this.db == db && this.table == table && this.fields == fields
      ensures relations == map[] && order == []
    {
      this.db := db;
      this.table := table;
      this.fields := fields;
      relations := map[];
      order := [];
    }

    /** What the loader makes of one row, with the current registry and store. */
    function Hydrated(row: Fields): Loaded
      reads this, db
      requires Valid()
    {
      LoadedRow(db.kind, db.tables, relations, order, row)
    }

    // ------------------------------------------------------------ registry

    method Register(d: Relation)
      requires Valid()
      modifies this
      ensures Valid()
      ensures relations == Registered(old(relations), d.model.table, d)
      ensures order == Ordered(old(order), d.model.table)
    {
      var key := d.model.table;
      relations := relations[key := d];
      if key !in order {
        order := order + [key];
      }
    }

    /** `hasMany(model, foreignKey)`. */
    method HasMany(model: Orm, foreignKey: string)
      requires Valid()
      modifies this
      ensures Valid()
      ensures relations == Registered(old(relations), model.table, Relation.HasMany(model, foreignKey))
      ensures order == Ordered(old(order), model.table)
    {
      Register(Relation.HasMany(model, foreignKey));
    }

    /** `belongsTo(model, foreignKey)`. */
    method BelongsTo(model: Orm, foreignKey: string)
      requires Valid()
      modifies this
      ensures Valid()
      ensures relations == Registered(old(relations), model.table, Relation.BelongsTo(model, foreignKey))
      ensures order == Ordered(old(order), model.table)
    {
      Register(Relation.BelongsTo(model, foreignKey));
    }

    /** `manyToMany(model, pivotTable, localKey, foreignKey)`. */
    method ManyToMany(model: Orm, pivotTable: string, localKey: string, foreignKey: string)
      requires Valid()
      modifies this
      ensures Valid()
      ensures relations == Registered(old(relations), model.table,
                                      Relation.ManyToMany(model, pivotTable, localKey, foreignKey))
      ensures order == Ordered(old(order), model.table)
    {
      Register(Relation.ManyToMany(model, pivotTable, localKey, foreignKey));
    }

    // -------------------------------------------------------------- loader

    /**
     * The body of the outer loop of `_loadRelations`: for each registered
     * relation, in key order, query the target and assign the answer to
     * `row[rel]`. Returns the error of the first query that fails.
     */
    method LoadRow(row: Row) returns (err: Option<DbError>)
      requires Valid()
      modifies row
      ensures Hydrated(old(row.fields)) == Loaded(row.fields, err)
    {
      var k := 0;
      while k < |order|
        invariant 0 <= k <= |order|
        invariant Hydrated(old(row.fields)) == LoadedRow(db.kind, db.tables, relations, order[k..], row.fields)
      {
        var rel := order[k];
        var d := relations[rel];
        var q := RelationQuery(d, row.fields);
        ghost var before := row.fields;
        assert order[k..][0] == rel && order[k..][1..] == order[k + 1..];
        if d.HasMany? || d.ManyToMany? {
          var got := db.All(q);
          if got.Failure? {
            return Some(got.error);
          }
          row.fields := row.fields[rel := Many(got.value)];
        }
        if d.BelongsTo? {
          var got := db.Get(q);
          if got.Failure? {
            return Some(got.error);
          }
          row.fields := row.fields[rel := if got.value.Some? then One(got.value.value) else Undefined];
        }
        assert Attached(db.kind, db.tables, d, before) == Success(row.fields[rel]);
        k := k + 1;
      }
      assert order[k..] == [];
      err := None;
    }

    /**
     * `_loadRelations(rows)`: load every row in turn and hand back the same
     * array. Row i is loaded when every row before it loaded without error;
     * the rows after a failing row are untouched.
     */
    method LoadRelations(rows: seq<Row>) returns (res: Result<seq<Row>, DbError>)
      requires Valid()
      requires forall i, j :: 0 <= i < j < |rows| ==> rows[i] != rows[j]
      modifies set r | r in rows
      ensures res.Success? <==> forall i :: 0 <= i < |rows| ==> Hydrated(old(rows[i].fields)).error.None?
      ensures res.Success? ==> res.value == rows
      ensures res.Success? ==> forall i :: 0 <= i < |rows| ==> rows[i].fields == Hydrated(old(rows[i].fields)).fields
      ensures res.Failure? ==>
                exists k :: 0 <= k < |rows| && Hydrated(old(rows[k].fields)).error == Some(res.error) &&
                            rows[k].fields == Hydrated(old(rows[k].fields)).fields &&
                            (forall j :: 0 <= j < k ==>
                               Hydrated(old(rows[j].fields)).error.None? &&
                               rows[j].fields == Hydrated(old(rows[j].fields)).fields) &&
                            (forall j :: k < j < |rows| ==> rows[j].fields == old(rows[j].fields))
    {
      var i := 0;
      while i < |rows|
        invariant 0 <= i <= |rows|
        invariant forall j :: 0 <= j < i ==>
                    Hydrated(old(rows[j].fields)).error.None? && rows[j].fields == Hydrated(old(rows[j].fields)).fields
        invariant forall j :: i <= j < |rows| ==> rows[j].fields == old(rows[j].fields)
      {
        var err := LoadRow(rows[i]);
        if err.Some? {
          return Failure(err.value);
        }
        i := i + 1;
      }
      return Success(rows);
    }

    // --------------------------------------------------------------- reads

    /** `all()`: every row of the table, each with its relations loaded. */
    method All() returns (res: Result<seq<Row>, DbError>)
      requires Valid()
      ensures table !in db.tables ==> res == Failure(NoSuchTable(table))
      ensures table in db.tables ==>
                (res.Success? <==> forall i :: 0 <= i < |db.tables[table]| ==> Hydrated(db.tables[table][i]).error.None?)
      ensures table in db.tables && res.Failure? ==>
                exists i :: 0 <= i < |db.tables[table]| && Hydrated(db.tables[table][i]).error == Some(res.error)
      ensures res.Success? ==>
                table in db.tables && |res.value| == |db.tables[table]| &&
                forall i :: 0 <= i < |res.value| ==>
                  fresh(res.value[i]) && res.value[i].fields == Hydrated(db.tables[table][i]).fields
    {
      var got := db.All(SelectAll(table));
      if got.Failure? {
        return Failure(got.error);
      }
      var rows := NewRows(got.value);
      res := LoadRelations(rows);
    }

    /**
     * `find(id)`: the first row whose `id` equals the argument, with its
     * relations loaded; `null` (here `None`) when no row has that id.
     */
    method Find(id: Value) returns (res: Result<Option<Row>, DbError>)
      requires Valid()
      ensures table !in db.tables ==> res == Failure(NoSuchTable(table))
      ensures table in db.tables && Where(db.tables[table], "id", id) == [] ==> res == Success(None)
      ensures table in db.tables && Where(db.tables[table], "id", id) != [] ==>
                var first := Where(db.tables[table], "id", id)[0];
                (res.Success? <==> Hydrated(first).error.None?) &&
                (res.Failure? ==> Hydrated(first).error == Some(res.error)) &&
                (res.Success? ==> res.value.Some? && fresh(res.value.value) &&
                                  res.value.value.fields == Hydrated(first).fields)
    {
      var got := db.Get(SelectWhere(table, "id", id));
      if got.Failure? {
        return Failure(got.error);
      }
      if got.value.None? {
        return Success(None);
      }
      var row := new Row(got.value.value);
      var loaded := LoadRelations([row]);
      if loaded.Failure? {
        return Failure(loaded.error);
      }
      return Success(Some(loaded.value[0]));
    }
  }
}
