/**
 * What the relation registry and the relation loader promise: a
 * registration replaces only its own key; loading gives each row exactly
 * one property per relation name and leaves the others alone; each kind of
 * relation attaches exactly the rows its query selects, straight from the
 * target table; loading twice changes nothing more; and a pivot row makes a
 * many-to-many link visible from both ends.
 */
module LoaderProperties {
  import opened Wrappers
  import opened Values
  import opened Statements
  import opened Adapter
  import opened StoreProperties
  import StatementProperties
  import opened Mapping

  // ------------------------------------------------------------ registry

  /**
   * Registering a relation for a target that already has one replaces it and
   * keeps its place in the visiting order: at most one relation per target.
   */
  lemma ReRegisterReplaces(rels: map<string, Relation>, order: seq<string>, d1: Relation, d2: Relation)
    requires d1.model.table == d2.model.table
    ensures Registered(Registered(rels, d1.model.table, d1), d2.model.table, d2)
            == Registered(rels, d2.model.table, d2)
    ensures Ordered(Ordered(order, d1.model.table), d2.model.table) == Ordered(order, d2.model.table)
  {
  }

  /** Registration keeps every descriptor under its target's name. */
  lemma RegisterKeepsKeying(rels: map<string, Relation>, d: Relation)
    requires KeyedByTarget(rels)
    ensures KeyedByTarget(Registered(rels, d.model.table, d))
  {
  }

  // --------------------------------------------------- loader: properties

  predicate Distinct(names: seq<string>)
  {
    forall i, j :: 0 <= i < j < |names| ==> names[i] != names[j]
  }

  /**
   * No relation name is a property the loader reads (`id`, or a belongsTo
   * foreign key), so assigning one relation never changes another's query.
   */
  predicate NoShadow(rels: map<string, Relation>, names: seq<string>)
    requires Covers(rels, names)
  {
    forall i, j :: 0 <= i < |names| && 0 <= j < |names| ==> names[i] != ReadKey(rels[names[j]])
  }

  /**
   * Loading a row adds or overwrites exactly the relation names (all of them
   * when no query fails) and leaves every other property as it was.
   */
  lemma {:induction false} LoadedKeys(kind: Engine, store: Store, rels: map<string, Relation>, names: seq<string>, row: Fields)
    requires Covers(rels, names)
    ensures var out := LoadedRow(kind, store, rels, names, row).fields;
            && (forall k :: k in out ==> k in row || k in names)
            && (LoadedRow(kind, store, rels, names, row).error.None? ==>
                  forall k :: k in names ==> k in out)
            && (forall k :: k in row && k !in names ==> k in out && out[k] == row[k])
    decreases |names|
  {
    if names != [] {
      var n := names[0];
      assert forall k :: k in names[1..] ==> k in names;
      assert forall k :: k in names ==> k == n || k in names[1..];
      match Attached(kind, store, rels[n], row)
      case Failure(e) =>
      case Success(v) =>
        LoadedKeys(kind, store, rels, names[1..], row[n := v]);
    }
  }

  /**
   * A failed load stops at the first relation, in visiting order, whose
   * query reads a missing table, and its error names a table that relation
   * reads.
   */
  lemma {:induction false} LoadFailsAtFirstMissing(kind: Engine, store: Store, rels: map<string, Relation>,
                                                   names: seq<string>, row: Fields)
    requires Covers(rels, names)
    ensures var r := LoadedRow(kind, store, rels, names, row);
            r.error.Some? ==>
              exists i :: 0 <= i < |names| && !Present(store, rels[names[i]]) &&
                          (forall j :: 0 <= j < i ==> Present(store, rels[names[j]])) &&
                          r.error.value.table in Reads(rels[names[i]])
    decreases |names|
  {
    var r := LoadedRow(kind, store, rels, names, row);
    if names != [] && r.error.Some? {
      var a := Attached(kind, store, rels[names[0]], row);
      if a.Failure? {
        assert !Present(store, rels[names[0]]);
      } else {
        var tail := names[1..];
        assert Covers(rels, tail) by {
          forall i | 0 <= i < |tail| ensures tail[i] in rels { assert tail[i] == names[i + 1]; }
        }
        var row' := row[names[0] := a.value];
        LoadFailsAtFirstMissing(kind, store, rels, tail, row');
        var i :| 0 <= i < |tail| && !Present(store, rels[tail[i]]) &&
                 (forall j :: 0 <= j < i ==> Present(store, rels[tail[j]])) &&
                 r.error.value.table in Reads(rels[tail[i]]);
        assert names[i + 1] == tail[i];
        assert forall j :: 0 <= j < i + 1 ==> Present(store, rels[names[j]]) by {
          forall j | 0 <= j < i + 1 ensures Present(store, rels[names[j]]) {
            if j > 0 { assert names[j] == tail[j - 1]; }
          }
        }
      }
    }
  }

  /** A relation's query reads only its `ReadKey`. */
  lemma AttachedReadsOnlyKey(kind: Engine, store: Store, d: Relation, row: Fields, row': Fields)
    requires Prop(row, ReadKey(d)) == Prop(row', ReadKey(d))
    ensures Attached(kind, store, d, row) == Attached(kind, store, d, row')
  {
    assert RelationQuery(d, row) == RelationQuery(d, row');
  }

  /** Assigning the first relation changes no later relation's query. */
  lemma TailSeesNoChange(kind: Engine, store: Store, rels: map<string, Relation>, names: seq<string>, row: Fields, v: Value)
    requires |names| > 0 && Covers(rels, names) && NoShadow(rels, names)
    ensures forall i :: 1 <= i < |names| ==>
              Attached(kind, store, rels[names[i]], row[names[0] := v]) == Attached(kind, store, rels[names[i]], row)
  {
    forall i | 1 <= i < |names|
      ensures Attached(kind, store, rels[names[i]], row[names[0] := v]) == Attached(kind, store, rels[names[i]], row)
    {
      assert names[0] != ReadKey(rels[names[i]]);
      AttachedReadsOnlyKey(kind, store, rels[names[i]], row, row[names[0] := v]);
    }
  }

  /** Each relation name holds its query's answer on the row as given (see `LoadedValues`). */
  lemma {:induction false} LoadedAssigns(kind: Engine, store: Store, rels: map<string, Relation>, names: seq<string>, row: Fields)
    requires Covers(rels, names) && Distinct(names) && NoShadow(rels, names)
    ensures LoadedRow(kind, store, rels, names, row).error.None? ==>
              forall i :: 0 <= i < |names| ==>
                names[i] in LoadedRow(kind, store, rels, names, row).fields &&
                LoadedRow(kind, store, rels, names, row).fields[names[i]]
                  == Attached(kind, store, rels[names[i]], row).value
    decreases |names|
  {
    if names != [] {
      var n := names[0];
      var tail := names[1..];
      assert Covers(rels, tail) && Distinct(tail);
      assert NoShadow(rels, tail) by {
        forall i, j | 0 <= i < |tail| && 0 <= j < |tail| ensures tail[i] != ReadKey(rels[tail[j]]) {
          assert tail[i] == names[i + 1] && tail[j] == names[j + 1];
        }
      }
      match Attached(kind, store, rels[n], row)
      case Failure(e) =>
      case Success(v) =>
        var row' := row[n := v];
        assert LoadedRow(kind, store, rels, names, row) == LoadedRow(kind, store, rels, tail, row');
        TailSeesNoChange(kind, store, rels, names, row, v);
        LoadedAssigns(kind, store, rels, tail, row');
        LoadedKeys(kind, store, rels, tail, row');
        assert n !in tail by {
          forall i | 0 <= i < |tail| ensures tail[i] != n { assert tail[i] == names[i + 1]; }
        }
        forall i | 1 <= i < |names| ensures names[i] == tail[i - 1] { }
    }
  }

  /**
   * Without shadowing, loading succeeds exactly when every relation's query
   * succeeds on the row as given, and then `row[rel]` is that query's answer.
   */
  lemma LoadedValues(kind: Engine, store: Store, rels: map<string, Relation>, names: seq<string>, row: Fields)
    requires Covers(rels, names) && Distinct(names) && NoShadow(rels, names)
    ensures LoadedRow(kind, store, rels, names, row).error.None? <==>
              forall i :: 0 <= i < |names| ==> Attached(kind, store, rels[names[i]], row).Success?
    ensures LoadedRow(kind, store, rels, names, row).error.None? ==>
              forall i :: 0 <= i < |names| ==>
                names[i] in LoadedRow(kind, store, rels, names, row).fields &&
                LoadedRow(kind, store, rels, names, row).fields[names[i]]
                  == Attached(kind, store, rels[names[i]], row).value
  {
    LoadedAssigns(kind, store, rels, names, row);
  }


  /** Loading leaves every property a query reads as it was. */
  lemma LoadedKeepsReads(kind: Engine, store: Store, rels: map<string, Relation>, names: seq<string>, row: Fields)
    requires Covers(rels, names) && NoShadow(rels, names)
    ensures forall i :: 0 <= i < |names| ==>
              Attached(kind, store, rels[names[i]], LoadedRow(kind, store, rels, names, row).fields)
              == Attached(kind, store, rels[names[i]], row)
  {
    var once := LoadedRow(kind, store, rels, names, row).fields;
    LoadedKeys(kind, store, rels, names, row);
    forall i | 0 <= i < |names|
      ensures Attached(kind, store, rels[names[i]], once) == Attached(kind, store, rels[names[i]], row)
    {
      var key := ReadKey(rels[names[i]]);
      assert key !in names by {
        forall j | 0 <= j < |names| ensures names[j] != key { }
      }
      AttachedReadsOnlyKey(kind, store, rels[names[i]], row, once);
    }
  }

  /**
   * Loading a loaded row again gives the same row: no duplication of
   * attached arrays, as long as the store has not changed in between.
   */
  lemma LoadIdempotent(kind: Engine, store: Store, rels: map<string, Relation>, names: seq<string>, row: Fields)
    requires Covers(rels, names) && Distinct(names) && NoShadow(rels, names)
    requires LoadedRow(kind, store, rels, names, row).error.None?
    ensures LoadedRow(kind, store, rels, names, LoadedRow(kind, store, rels, names, row).fields)
            == LoadedRow(kind, store, rels, names, row)
  {
    var once := LoadedRow(kind, store, rels, names, row).fields;
    LoadedValues(kind, store, rels, names, row);
    LoadedKeepsReads(kind, store, rels, names, row);
    LoadedValues(kind, store, rels, names, once);
    LoadedKeys(kind, store, rels, names, once);
    var again := LoadedRow(kind, store, rels, names, once);
    assert again.error.None?;
    var twice := again.fields;
    assert forall k :: k in twice ==> k in once;
    forall k | k in once ensures k in twice && twice[k] == once[k] {
      if i :| 0 <= i < |names| && names[i] == k {
        assert twice[k] == Attached(kind, store, rels[names[i]], once).value;
      }
    }
    assert twice == once;
  }

  // ------------------------------------------------ what each kind attaches

  /** hasMany: exactly the target rows whose foreign key equals the row's `id`. */
  lemma HasManyAttaches(kind: Engine, store: Store, model: Orm, foreignKey: string, row: Fields)
    ensures model.table !in store ==>
              Attached(kind, store, HasMany(model, foreignKey), row) == Failure(NoSuchTable(model.table))
    ensures model.table in store ==>
              var v := Attached(kind, store, HasMany(model, foreignKey), row);
              v.Success? && v.value.Many? &&
              forall t :: t in v.value.rows <==>
                t in store[model.table] && Matches(t, foreignKey, Prop(row, "id"))
  {
    if model.table in store {
      WhereMembers(store[model.table], foreignKey, Prop(row, "id"));
    }
  }

  /**
   * belongsTo: the first target row whose `id` equals the row's foreign key,
   * or `undefined` when there is none.
   */
  lemma BelongsToAttaches(kind: Engine, store: Store, model: Orm, foreignKey: string, row: Fields)
    ensures model.table !in store ==>
              Attached(kind, store, BelongsTo(model, foreignKey), row) == Failure(NoSuchTable(model.table))
    ensures model.table in store ==>
              var v := Attached(kind, store, BelongsTo(model, foreignKey), row);
              var rows := store[model.table];
              var key := Prop(row, foreignKey);
              && v.Success? && (v.value.Undefined? || v.value.One?)
              && (v.value.Undefined? <==> forall i :: 0 <= i < |rows| ==> !Matches(rows[i], "id", key))
              && (v.value.One? ==>
                    exists j :: 0 <= j < |rows| && rows[j] == v.value.row && Matches(rows[j], "id", key)
                                && forall i :: 0 <= i < j ==> !Matches(rows[i], "id", key))
  {
    if model.table in store {
      var rows := store[model.table];
      var key := Prop(row, foreignKey);
      WhereEmpty(rows, "id", key);
      if Where(rows, "id", key) != [] {
        var j := FirstMatch(rows, "id", key);
        WhereFirst(rows, "id", key, j);
      }
    }
  }

  /**
   * manyToMany: exactly the target rows `t` for which some pivot row `p` has
   * `p[foreignKey] = t.id` and `p[localKey] = row.id`.
   */
  lemma ManyToManyAttaches(kind: Engine, store: Store, model: Orm, pivot: string, localKey: string,
                           foreignKey: string, row: Fields)
    ensures model.table !in store || pivot !in store ==>
              Attached(kind, store, ManyToMany(model, pivot, localKey, foreignKey), row).Failure?
    ensures model.table in store && pivot in store ==>
              var v := Attached(kind, store, ManyToMany(model, pivot, localKey, foreignKey), row);
              v.Success? && v.value.Many? &&
              forall t :: t in v.value.rows <==>
                t in store[model.table] &&
                exists p :: p in store[pivot] && Linked(p, t, foreignKey, localKey, Prop(row, "id"))
  {
    if model.table in store && pivot in store {
      ViaMembers(store[model.table], store[pivot], foreignKey, localKey, Prop(row, "id"));
    }
  }

  lemma StoredIsFlat(store: Store, table: string, t: Fields)
    requires StoreFlat(store) && table in store && t in store[table]
    ensures Flat(t)
  {
    var i :| 0 <= i < |store[table]| && store[table][i] == t;
  }

  /**
   * Whatever kind, the attached rows are target rows as stored: one level
   * deep, carrying no relations of their own.
   */
  lemma AttachedRowsAreRaw(kind: Engine, store: Store, d: Relation, row: Fields)
    requires StoreFlat(store)
    requires Attached(kind, store, d, row).Success?
    ensures var v := Attached(kind, store, d, row).value;
            && (v.Many? ==> forall t :: t in v.rows ==> t in store[d.model.table] && Flat(t))
            && (v.One? ==> v.row in store[d.model.table] && Flat(v.row))
  {
    var v := Attached(kind, store, d, row).value;
    match d
    case HasMany(m, fk) =>
      HasManyAttaches(kind, store, m, fk, row);
      forall t | t in v.rows ensures Flat(t) { StoredIsFlat(store, m.table, t); }
    case ManyToMany(m, p, lk, fk) =>
      ManyToManyAttaches(kind, store, m, p, lk, fk, row);
      forall t | t in v.rows ensures Flat(t) { StoredIsFlat(store, m.table, t); }
    case BelongsTo(m, fk) =>
      BelongsToAttaches(kind, store, m, fk, row);
      if v.One? {
        StoredIsFlat(store, m.table, v.row);
      }
  }

  /**
   * A pivot row linking `a` and `b` makes each visible from the other through
   * the pair of manyToMany registrations that mirror each other.
   */
  lemma ManyToManySymmetric(kind: Engine, store: Store, modelA: Orm, modelB: Orm, pivot: string,
                            keyA: string, keyB: string, a: Fields, b: Fields, p: Fields)
    requires modelA.table in store && modelB.table in store && pivot in store
    requires a in store[modelA.table] && b in store[modelB.table] && p in store[pivot]
    requires "id" in a && "id" in b && Matches(p, keyA, a["id"]) && Matches(p, keyB, b["id"])
    ensures var fromA := Attached(kind, store, ManyToMany(modelB, pivot, keyA, keyB), a);
            fromA.Success? && fromA.value.Many? && b in fromA.value.rows
    ensures var fromB := Attached(kind, store, ManyToMany(modelA, pivot, keyB, keyA), b);
            fromB.Success? && fromB.value.Many? && a in fromB.value.rows
  {
    ManyToManyAttaches(kind, store, modelB, pivot, keyA, keyB, a);
    ManyToManyAttaches(kind, store, modelA, pivot, keyB, keyA, b);
    assert Linked(p, b, keyB, keyA, Prop(a, "id"));
    assert Linked(p, a, keyA, keyB, Prop(b, "id"));
  }

  /** The loader's queries carry one placeholder and one argument, the row's `ReadKey`. */
  lemma RelationQueryWellParameterised(d: Relation, row: Fields)
    requires AllPlain(RelationQuery(d, row).Names())
    ensures WellParameterised(StatementOf(RelationQuery(d, row)))
    ensures StatementOf(RelationQuery(d, row)).params == [Prop(row, ReadKey(d))]
  {
    StatementProperties.QueryWellParameterised(RelationQuery(d, row));
  }
}
