# archiorm core in Dafny

This project models the core of a small JavaScript object-relational mapper, `orm.js`. It has two classes:

- `DBAdapter` wraps one of three drivers (embedded sqlite, mysql2, pg). It gives them one interface: `run`, `all` and `get`.
- `ORM` is the entity mapper for one table.

Per table, the mapper builds the SQL text and positional parameter lists for `migrate`, `create`, `all`, `find`, `update` and `delete`. It keeps a registry of relations (`hasMany`, `belongsTo`, `manyToMany`) keyed by the target's table name. On every read, `_loadRelations` attaches related rows to each row in place, exactly one level deep.

Modules, one per file:

- `Wrappers` (`wrappers.dfy`): `Option` and `Result`.
- `Values` (`values.dfy`): JavaScript values, row objects as property maps, and plain records as their ordered entries (`Object.keys` / `Object.values`).
- `SqlText` (`sqltext.dfy`): the comma join. A comma split and a character count serve as an independent reference for reading joined text back.
- `Statements` (`statements.dfy`): the statement builders, plus the read queries as a `Query` datatype with their exact text.
- `StatementProperties` (`statement_properties.dfy`): placeholders match arguments one to one, and every comma list reads back entry by entry.
- `Adapter` (`adapter.dfy`): the abstract store (table name to rows, in backend order) and SQL evaluation of the read queries as filters over it. It also holds the drivers' answer shapes and the adapter's normalisation of them, and the `DbAdapter` class.
- `StoreProperties` (`store_properties.dfy`): what a WHERE and the pivot join select.
- `Mapping` (`mapping.dfy`): the `Relation` descriptor and the `Orm` class. The class keeps the `relations` map plus the order in which `for ... in` visits its keys. It also holds the loader's specification `LoadedRow` and the methods `LoadRow`, `LoadRelations`, `All` and `Find`.
- `LoaderProperties` (`loader_properties.dfy`): the registry and loader properties.
- `Example` (`example.dfy`): the application's own wiring (users, posts, tags, post_tags) and a concrete scenario.

Modelling choices:

- The database is a value `Store` held by the `DbAdapter` object. `db.all` and `db.get` are functions of it.
- A missing table is the one backend statement error modelled. It propagates out of `all`, `find` and the loader, and it aborts a batch load.
- SQL `=` never matches NULL or an unbound `undefined`.
- `ORM.migrate`, `create`, `update` and `delete` do two things: build a statement and pass it to `db.run`. The model gives the statement (`Statements.Migrate`, `Insert`, `Update`, `Delete`) and the shape of what `run` resolves with (`Adapter.RunResultOf`). It does not give what the backend does with the statement.
- The loader visits relation names in the order `for ... in` uses, which is first assignment first: re-registering a target keeps its place. It reads each row as updated so far, like the source does.

Three behaviours of the code that are easy to miss:

- On mysql2 and pg, `run` resolves with the raw driver result. Only sqlite's answer is reshaped into `{ lastID, changes }` (orm.js:29-31).
- Relations sit in a map keyed by target table, not a list, so a later registration for the same target replaces the earlier one.
- `all` on an empty table still runs the loader, on an empty batch, and yields `[]`.

## Model

| member | source | states |
|---|---|---|
| Values.Keys | orm.js:104 | `Object.keys(obj)`: one key per entry, in entry order |
| Values.ValuesOf | orm.js:107 | `Object.values(obj)`: one value per entry, in entry order |
| SqlText.JoinSeparators | orm.js:99 | a join of n comma-free parts holds exactly n - 1 commas, one between each pair of parts |
| SqlText.SplitJoin | orm.js:97-99 | splitting a comma join at its commas gives back exactly the joined parts, in order, when no part holds a comma |
| SqlText.CountJoin | orm.js:105 | joining with commas adds no occurrence of any other character, so the join's `?` count is the sum over its parts |
| Statements.ColumnDef | orm.js:98 | a field's column definition is the identity column exactly when the field is `id`; any other field `f` becomes `f TEXT` |
| Statements.ColumnDefs | orm.js:97-98 | one column definition per field, in field order |
| Statements.Migrate | orm.js:96-101 | `CREATE TABLE IF NOT EXISTS <table> (<column list>)` with no arguments |
| Statements.Placeholders | orm.js:105 | one `?` per key |
| Statements.Insert | orm.js:103-108 | the `create` arguments are the record's values, one per key, in key order |
| Statements.Assignments | orm.js:124 | one `k=?` entry per key, in key order |
| Statements.Update | orm.js:123-127 | the `update` arguments are the record's values in key order followed by `id`: keys+1 of them, the last being `id` |
| Statements.Delete | orm.js:129-132 | `delete` passes exactly `[id]` |
| Statements.StatementOf | orm.js:155-160 | a read query takes no argument for a whole-table select and exactly its one argument otherwise |
| Statements.AllRows | orm.js:110-112 | `all` passes no arguments (the adapter's default empty list) |
| Statements.Find | orm.js:116-118 | `find` passes exactly `[id]` |
| StatementProperties.MigrateWellParameterised | orm.js:96-100 | the CREATE TABLE text holds no placeholder, matching its empty argument list |
| StatementProperties.MigrateColumns | orm.js:97-99 | the column list reads back as one definition per field, in field order: `id` as the identity column, and any other field as a TEXT column |
| StatementProperties.MigrateIdColumn | orm.js:98 | the identity column is present exactly when `id` is a field, so a field list without `id` (post_tags) gets none |
| StatementProperties.InsertWellParameterised | orm.js:103-107 | the INSERT text holds exactly one `?` per key, as many as its arguments |
| StatementProperties.InsertLists | orm.js:104-106 | the INSERT text is `INSERT INTO <table> (<keys>) VALUES (<placeholders>)`. Its column list reads back as the record's keys in order, and its VALUES list as one `?` per key |
| StatementProperties.UpdateWellParameterised | orm.js:123-126 | the UPDATE text holds keys+1 placeholders, as many as its arguments |
| StatementProperties.UpdateSetClause | orm.js:124 | the SET clause reads back as `k=?` for each key, in key order |
| StatementProperties.DeleteWellParameterised | orm.js:129-131 | the DELETE text holds one placeholder for its one argument |
| StatementProperties.QueryWellParameterised | orm.js:110-121 | every read the mapper issues (`all`, `find`, and the loader's three queries) has as many placeholders as arguments |
| Adapter.Eval | orm.js:38-50 | a read fails exactly when a table it reads is missing, and the error names that table |
| Adapter.NormalisedRows | orm.js:37-51 | on every engine, the normalised answer of `all` (`result.rows \|\| result` on the client-server drivers) is the row list the backend found, unchanged |
| Adapter.NormalisedRow | orm.js:53-67 | on every engine, `get` yields the first row found, or absent exactly when none was found |
| Adapter.FetchAll | orm.js:40-47 | `db.all` answers with exactly the rows the query selects, or with the backend's error |
| Adapter.FetchOne | orm.js:56-63 | `db.get` answers with the first selected row or absence, or with the backend's error |
| Adapter.RunResultOf | orm.js:21-35 | `run`'s answer has a `lastID` exactly on sqlite; on mysql2 and pg, `result.lastID` is `undefined` |
| Adapter.RunAnswerFields | orm.js:21-35 | `changes` is defined exactly on sqlite. sqlite answers `{ lastID, changes }`, mysql2 its own `insertId` and `affectedRows`, and pg only a `rowCount`. The answer determines the inserted id on sqlite and mysql2; on pg, outcomes that differ only in the id give the same answer |
| Adapter.DbAdapter.constructor | orm.js:10-19 | the adapter keeps its engine kind and connects to the store |
| Adapter.DbAdapter.All | orm.js:37-51 | `all(sql, params)` resolves with exactly the rows the backend selects |
| Adapter.DbAdapter.Get | orm.js:53-67 | `get(sql, params)` resolves with the first selected row, or absence when none |
| StoreProperties.WhereMembers | orm.js:141-144 | `WHERE c = ?` keeps exactly the rows whose column equals the argument |
| StoreProperties.WhereEmpty | orm.js:117-119 | the answer is empty exactly when no row matches |
| StoreProperties.WhereFirst | orm.js:148-151 | the answer starts with the first matching row in table order |
| StoreProperties.ViaMembers | orm.js:155-160 | the join yields exactly the target rows that some pivot row links to the argument |
| Mapping.Attached | orm.js:140-161 | the value `row[rel]` receives: `db.all`'s array for hasMany and manyToMany, and `db.get`'s row or `undefined` for belongsTo. The query succeeds exactly when every table it reads (the target, and for manyToMany the pivot) exists, and otherwise fails with a missing table it reads |
| Mapping.LoadedRow | orm.js:136-163 | the loader on one row: relations visited in `order`, each query reading the row as updated so far, stopping at the first failed query. It fails exactly when some visited relation reads a missing table, and the error names a table missing from the store |
| Mapping.RelationQuery | orm.js:137-161 | each relation's query reads one target table and binds the row's `id` (hasMany, manyToMany) or its foreign key (belongsTo) |
| Mapping.Registered | orm.js:79 | after registration, the target's key holds the new descriptor, the key set gains only that key, and every other entry is unchanged |
| Mapping.Ordered | orm.js:136 | after an assignment, the visited keys are the earlier ones plus the assigned key. Every earlier key keeps its position, and the order grows exactly when the key is new. A duplicate-free order stays duplicate-free |
| Mapping.NewRows | orm.js:40-42 | the driver hands back one fresh, distinct row object per row found, holding that row |
| Mapping.Orm.constructor | orm.js:71-76 | a mapper starts with its database, table and fields and an empty registry |
| Mapping.Orm.HasMany | orm.js:78-80 | `relations[model.table]` becomes the hasMany descriptor with the given foreign key; nothing else changes |
| Mapping.Orm.BelongsTo | orm.js:82-84 | `relations[model.table]` becomes the belongsTo descriptor with the given foreign key; nothing else changes |
| Mapping.Orm.ManyToMany | orm.js:86-94 | `relations[model.table]` becomes the manyToMany descriptor with the given pivot and keys; nothing else changes |
| Mapping.Orm.LoadRow | orm.js:136-163 | the inner loop leaves the row exactly as the loader specification says: every relation visited in order, stopping at the first failed query, with that query's error |
| Mapping.Orm.LoadRelations | orm.js:134-166 | `_loadRelations` returns the same array, and succeeds exactly when every row loads; on success every row is loaded. On failure some row k stopped with the returned error and carries its partial load, every row before k is loaded, and every row after k is untouched |
| Mapping.Orm.All | orm.js:110-114 | `all()` gives one fresh row per stored row, in order, each with its relations loaded. It fails with the missing table's error, or with the load error of some stored row |
| Mapping.Orm.Find | orm.js:116-121 | `find(id)` gives `null` when no row's `id` matches. Otherwise it gives the first matching row with its relations loaded, or the error of its load |
| LoaderProperties.ReRegisterReplaces | orm.js:78-94 | registering again for the same target replaces the earlier descriptor and keeps its place, so each target has at most one relation |
| LoaderProperties.RegisterKeepsKeying | orm.js:79 | every descriptor stays stored under its own target's table name |
| LoaderProperties.LoadFailsAtFirstMissing | orm.js:136-163 | a failed load stopped at the first relation, in `order`, whose query reads a missing table. Every earlier relation's tables exist, and the error names a table that first failing relation reads |
| LoaderProperties.LoadedKeys | orm.js:135-165 | loading adds or overwrites exactly the relation names (all of them when no query fails); every other property is unchanged |
| LoaderProperties.AttachedReadsOnlyKey | orm.js:141-151 | what a relation attaches depends only on the row's `id` (hasMany, manyToMany) or its foreign key (belongsTo) |
| LoaderProperties.LoadedValues | orm.js:136-163 | loading succeeds exactly when every relation's query succeeds, and then each `row[rel]` is that query's answer |
| LoaderProperties.LoadIdempotent | orm.js:134-166 | loading an already loaded row again gives the same row: no duplicated attached arrays |
| LoaderProperties.HasManyAttaches | orm.js:140-145 | hasMany attaches exactly the target rows whose foreign key equals `row.id`; a missing target table is an error |
| LoaderProperties.BelongsToAttaches | orm.js:147-152 | belongsTo attaches the first target row whose `id` equals `row[foreignKey]`, or `undefined` exactly when there is none |
| LoaderProperties.ManyToManyAttaches | orm.js:154-161 | manyToMany attaches exactly the target rows `t` for which a pivot row `p` has `p[foreignKey] = t.id` and `p[localKey] = row.id` |
| LoaderProperties.AttachedRowsAreRaw | orm.js:140-161 | every attached row is a target row exactly as stored, carrying no relations of its own (loading is one level deep) |
| LoaderProperties.ManyToManySymmetric | orm.js:154-161 | with mirrored manyToMany registrations, a pivot row linking `a` and `b` puts `b` in `a`'s array and `a` in `b`'s |
| LoaderProperties.RelationQueryWellParameterised | orm.js:141-160 | each loader query has one placeholder and passes exactly `[row.id]` or `[row[foreignKey]]` |
| Example.DefineModels | models.js:4-18 | the application's four mappers are valid, with the tables, fields and registries its wiring declares |
| Example.Wire | models.js:11-15 | the wiring gives users a hasMany to posts, posts a belongsTo to users and a manyToMany to tags, and tags the mirror manyToMany |
| Example.UserScenario | orm.js:140-145 | for Ann, with post Hi, the loaded user row carries `posts: [Hi]` |
| Example.TextKeyAttachesNothing | orm.js:98 | with `userId` held as the text its TEXT column stores, the model's exact `=` attaches no posts to Ann |
| Example.PostScenario | orm.js:147-161 | for post Hi, the loaded row carries `users: Ann` and `tags: [go]` |
| Example.TagSeesPost | models.js:14-15 | through the mirror registration, the tag go lists the post Hi |

## Left out

- Driver connections, callbacks and the Promise plumbing (orm.js:10-67): each adapter call is a function of the store, and a rejection is a `Failure` value.
- Executing INSERT, UPDATE, DELETE and CREATE TABLE: the backend's effect on the store (assigning ids, changing rows, creating tables) is not modelled. So the round trip from `create` to `find` is not stated.
- Adapter.RunResultOf: what the backend did is a parameter (`Outcome`). Of the mysql2 result header only `insertId` and `affectedRows` are modelled, and of pg's result only `rowCount` and the empty `rows`. Their other fields (`changedRows`, `command`, `fields`, ...) are left out.
- Backend statement errors other than a missing table, such as an unknown column or a malformed record: a WHERE on a column a row lacks selects nothing instead of failing.
- SQL type affinity: the model compares the text `"1"` and the integer `1` as different. `migrate` declares every non-`id` column TEXT, including `userId`, `postId` and `tagId` in models.js. So the backend stores those keys as text, and the model then attaches nothing for the relations models.js declares (`Example.TextKeyAttachesNothing`). The `Example` scenarios hold their keys as numbers.
- Dialect differences and injection through interpolated identifiers. For example, `AUTOINCREMENT` is sqlite syntax, and pg expects `$1` placeholders rather than `?`.
- Backend row order: a table's rows are in the store's order, and the join yields targets in table order, one copy per linking pivot row.
- Objects returned by a driver in a shape other than the two modelled (a mysql2 row array, or a pg object with `rows`).
- `Object.keys` ordering rules: a record is the ordered entry list the keys and values come from. `for ... in` order follows first assignment, so the JavaScript rule that puts integer-like keys first is not modelled.
- Mapping.Orm.LoadRelations: requires distinct row objects in the batch. The driver always builds fresh ones, and `find` passes a singleton, so a batch holding one object twice is not modelled.
- LoaderProperties.LoadedValues: stated only when no relation name is a property the loader reads (`id` or a belongsTo foreign key). Otherwise `Mapping.LoadedRow` itself gives the result, which reads the row as updated so far.
- LoaderProperties.LoadIdempotent: stated under the same no-shadowing hypothesis.
- JavaScript numbers are doubles, but the model's `Num` holds unbounded integers, and booleans and other value kinds are not modelled. The mapper only passes values through to the driver and back, so no mapper behaviour depends on this.
- Concurrency between requests and the un-isolated queries of a load.
- app.js (HTTP routing and responses) and the sequential `migrate` loop of models.js, which is startup glue.
