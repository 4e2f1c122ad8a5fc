# A verified model of Kurisu's BaseDatabaseManager

`k2modules/util/database/common.py` is a thin data-access layer over sqlite3.
A manager type declares a schema: an ordered mapping from table name to an
ordered mapping from column name to a raw type declaration. At construction the
manager opens one connection and issues `CREATE TABLE` for every declared
table, skipping tables that already exist. It then offers four primitives
(`_select`, `_row_count`, `_insert`, `_delete`) plus `close()`. The primitives
build their SQL from the column names of the keyword arguments and pass the
values as bound parameters.

The model has five modules:

- `SqlText` (`sql_text.dfy`) holds the fragment builders: the backtick-quoted
  column list (`_format_cols`), the `:name` placeholder list
  (`_format_insert_vars`), the `WHERE` clause of `` `c` = :c `` conjuncts
  (`_format_select_vars`) and the column text of `CREATE TABLE`. Each builder
  has a reader beside it, and each has a round-trip lemma: reading the built
  text gives back exactly the keys, in their order.
- `Statements` (`statements.dfy`) defines an abstract statement (`Query`), the
  SQL text the source builds for it (`Text`) and a reader (`Parse`). It proves
  that every statement whose names are identifiers is read back unchanged.
  This is how the model states that the i-th `INSERT` column and the i-th
  placeholder name the same key. It is also how it states that a filtered
  `SELECT`/`DELETE` is never unconditional.
- `Schema` (`schema.dfy`) models the schema as an association list, because
  the code relies on dict insertion order. It also holds the two validation
  guards the source asserts: the primitives check every key against the
  queried table; the formatters check it against the union of all tables. It
  proves that the first implies the second, and that the converse fails.
- `Database` (`database.dfy`) holds the class `BaseDatabaseManager`, the
  `close()` state machine on `_db_closed`, and `ColumnValueFormatter`.

The source's `assert` statements are programmer errors, not recoverable
errors, so they become `requires` clauses. Keyword arguments are an ordered
sequence of (column, value) pairs. Their keys are distinct, because Python
guarantees that for keyword arguments.

The sqlite3 engine is opaque. The class records, in its `calls` field, every
request it makes of the connection: an `Execute` with the statement text and
its bound parameters, a `Commit`, or a `CloseConnection`. Whatever the engine
answers comes in as a parameter: the rows, the count, the rowcount, and whether
`commit()` or `close()` raised. For table creation, a ghost set `existing`
stands for the tables already in the database file. A `CREATE TABLE` fails
(with the `OperationalError` that `__init__` swallows) exactly when its table
is in that set.

The reading lemmas assume "plain" names: table and column names that hold no
backtick, space, comma, colon or parenthesis. They also assume column
declarations that hold no comma. The builders themselves accept any name, as
the source does.

Two error paths of the source are worth stating outright:

- `__init__` swallows every `OperationalError` from `CREATE TABLE`, not only
  "table already exists".
- `close()` swallows only `ProgrammingError`. Any other error from `commit()`
  or `close()` escapes to the caller, and `_db_closed` stays false.

## Model

| member | source | states |
|---|---|---|
| `SqlText.Join` | k2modules/util/database/common.py:31 | Python's `str.join`: no parts give the empty string, otherwise the text starts with the first part (its reading back is `SqlText.ColumnListRoundTrip` and its siblings) |
| `SqlText.ColumnList` | k2modules/util/database/common.py:87 | the backtick-quoted column list is empty exactly when there are no keys, and otherwise opens with a backtick |
| `SqlText.PlaceholderList` | k2modules/util/database/common.py:80 | the `:c` placeholder list is empty exactly when there are no keys, and otherwise opens with a colon |
| `SqlText.ColumnDefs` | k2modules/util/database/common.py:53 | the `CREATE TABLE` column text is empty exactly when the table declares no columns, and otherwise opens with a backtick |
| `SqlText.WhereClause` | k2modules/util/database/common.py:71-73 | the clause is the empty string exactly when the key set is empty |
| `SqlText.WhereRoundTrip` | k2modules/util/database/common.py:71-73 | the clause reads back as exactly the keys, in order: `WHERE ` then one `` `c` = :c `` conjunct per key (each binding the column to the placeholder of the same name), joined by ` AND `; the empty clause reads back as no keys |
| `SqlText.ColumnListRoundTrip` | k2modules/util/database/common.py:87 | the column list reads back as one backtick-quoted name per key, in key order, and stops where the list ends |
| `SqlText.PlaceholderListRoundTrip` | k2modules/util/database/common.py:80 | the placeholder list reads back as one `:c` per key, in key order, and stops where the list ends |
| `SqlText.ColumnDefsRoundTrip` | k2modules/util/database/common.py:53 | the `CREATE TABLE` column text reads back as one `` `name` declaration `` entry per declared column, in schema order, joined by `, ` |
| `Statements.TextOpensWithTable` | k2modules/util/database/common.py:55 | the text of every statement (`Statements.Text`, the f-strings at lines 55, 98, 113, 128-129 and 144) opens with its fixed keywords followed by the table name |
| `Statements.ParseSelectText` | k2modules/util/database/common.py:98 | `SELECT * FROM t <where>` reads back as a select of table t with exactly its filter keys, in order |
| `Statements.ParseCountText` | k2modules/util/database/common.py:113 | `SELECT COUNT(*) FROM t <where>` reads back as a count of table t with exactly its filter keys, in order |
| `Statements.ParseInsertText` | k2modules/util/database/common.py:128-129 | `INSERT INTO t (<cols>) VALUES (<placeholders>)` reads back as an insert into t with exactly those columns and placeholders |
| `Statements.ParseDeleteText` | k2modules/util/database/common.py:144 | `DELETE FROM t <where>` reads back as a delete from table t with exactly its filter keys, in order |
| `Statements.ParseCreateText` | k2modules/util/database/common.py:55 | `CREATE TABLE t (<defs>)` reads back as table t with exactly its declared (name, declaration) pairs |
| `Statements.InsertColumnsMatchPlaceholders` | k2modules/util/database/common.py:128-129 | the `INSERT` built from one key sequence has the shape `INSERT INTO t (..) VALUES (..)`, and its i-th column and i-th placeholder are both the i-th key |
| `Statements.FilteredIsConditional` | k2modules/util/database/common.py:139-144 | a `SELECT`, `COUNT` or `DELETE` built from a non-empty key set has `WHERE ` right after the table name and never reads back as an unconditional statement |
| `Statements.WherePrefix` | k2modules/util/database/common.py:98 | for a non-empty key set, the statement text begins with its fixed prefix, the table name and ` WHERE ` |
| `Schema.Lookup` | k2modules/util/database/common.py:92-94 | the table is found exactly when it is declared, and what is found is that table's own column list |
| `Schema.TableCheckImpliesUnionCheck` | k2modules/util/database/common.py:90-94 | the primitives' guard (open, schema present, table declared, values non-empty, every key a column of that table) implies the formatters' guard (open, every key a column of some table) |
| `Schema.UnionCheckIsWeaker` | k2modules/util/database/common.py:69 | the converse fails: some schema, table and key set pass the union check but not the table check |
| `Database.BaseDatabaseManager.FormatSelectVars` | k2modules/util/database/common.py:67-73 | requires the manager open and every key declared by some table; the result is empty exactly when there are no keys, and it reads back as the keys |
| `Database.BaseDatabaseManager.FormatInsertVars` | k2modules/util/database/common.py:75-80 | requires the manager open, the key set non-empty and every key declared by some table; the placeholders read back as the keys, in order |
| `Database.BaseDatabaseManager.FormatCols` | k2modules/util/database/common.py:82-87 | requires the manager open, the key set non-empty and every key declared by some table; the quoted columns read back as the keys, in order |
| `Database.BaseDatabaseManager.Select` | k2modules/util/database/common.py:89-102 | requires the table-level guard; the engine receives exactly the `SELECT *` statement of the table and keys, with the values bound; one debug line is added; the rows are the engine's |
| `Database.BaseDatabaseManager.RowCount` | k2modules/util/database/common.py:104-117 | requires the table-level guard; the engine receives exactly the `SELECT COUNT(*)` statement, with the values bound; the count is the engine's |
| `Database.BaseDatabaseManager.Insert` | k2modules/util/database/common.py:119-133 | requires the table-level guard; the engine receives exactly the `INSERT` statement whose columns and placeholders are both the keys, with the values bound |
| `Database.BaseDatabaseManager.Delete` | k2modules/util/database/common.py:135-150 | requires the table-level guard; the engine receives exactly the `DELETE` statement of the table and keys, with the values bound; the rowcount is the engine's |
| `Database.BaseDatabaseManager.Close` | k2modules/util/database/common.py:152-162 | the new flag, the requests made and whether an exception escapes are exactly those of `CloseStepOf` |
| `Database.BaseDatabaseManager.constructor` | k2modules/util/database/common.py:40-60 | requires distinct table names (the schema is a dict); the manager starts open with no debug lines; the requests are exactly `CreateCalls` of the schema; afterwards every declared table exists; the tables created are exactly the declared ones that were missing, in schema order |
| `Database.CreateCalls` | k2modules/util/database/common.py:52-55 | one request per declared table, the i-th being the `CREATE TABLE` of the i-th table |
| `Database.CreateRequest` | k2modules/util/database/common.py:53-55 | the statement assembled from the table name and its `` `c` v `` parts is the `CREATE TABLE` text of that table, executed without parameters |
| `Database.CreateStep` | k2modules/util/database/common.py:52-60 | one turn of the create-or-skip loop: with distinct table names, a table is already present exactly when it was present before construction, and the created list grows by it exactly when it was missing |
| `Database.Missing` | k2modules/util/database/common.py:56-60 | the tables the create-or-skip loop creates: no more than are declared, each one declared and not already present |
| `Database.MissingIsFilter` | k2modules/util/database/common.py:52-60 | a table is created exactly when it is declared and was not already in the database file |
| `Database.CreateStatementReadsBack` | k2modules/util/database/common.py:52-55 | each `CREATE TABLE` request reads back as its table and its declared columns, in schema order |
| `Database.CloseStepOf` | k2modules/util/database/common.py:154-162 | on a closed manager, `close()` returns at once and asks nothing; otherwise it commits first; the flag becomes true only when both commit and close succeed; a `ProgrammingError` is swallowed and leaves the flag false; any other error escapes |
| `Database.CloseRun` | k2modules/util/database/common.py:164-170 | successive `close()` calls (an explicit one, then `__del__`'s): a closed manager stays closed, and each call makes at most two requests |
| `Database.ClosedRunIsNoOp` | k2modules/util/database/common.py:154-155 | any number of further `close()` calls on a closed manager change nothing and raise nothing |
| `Database.RunClosesIffOneAttemptSucceeds` | k2modules/util/database/common.py:156-159 | after a series of `close()` calls the manager is closed exactly when one of them had both commit and close succeed |
| `Database.PairTexts` | k2modules/util/database/common.py:31 | `zip` pairing: exactly min(\|columns\|, \|values\|) pairs, the i-th rendering `columns[i]` with `values[i]` |
| `Database.ColumnValueFormatter.ToString` | k2modules/util/database/common.py:30-31 | `__str__` is empty exactly when either side is empty |
| `Database.ParametersTextAsWritten` | k2modules/util/database/common.py:100-101 | as written: the logged text pairs the i-th declared column of the table with the i-th filter KEY, for min(\|declared\|, \|filter\|) pairs, and never shows a value |
| `Database.ParametersText` | k2modules/util/database/common.py:100-101 | corrected: one pair per filter entry, in filter order, each pairing the column with its own bound value |
| `Database.AsWrittenMislabelsParameters` | k2modules/util/database/common.py:100-101 | for `users(id, name)` filtered by `name='alice'`, the as-written text is `('id', 'name')`; the corrected text is `('name', 'alice')` |

## Left out

- The sqlite3 engine: `sqlite3.connect`, what `execute` does, which rows match, `fetchone`, `rowcount`. The engine is opaque; its answers are parameters of the primitives.
- `connwrap` is not part of this model. It is a cursor and transaction wrapper around the foreign connection.
- Logging: the initialisation, table-created and unload lines are not modelled. The "table created" line is reflected by the ghost `created` list. The primitives' debug lines are kept in `trace`, with the parameter text of the corrected formatter call (see Findings); the four lines below say what that changes.
- `Database.BaseDatabaseManager.Select`: its debug line carries `ParametersText(values)`, the evidently intended text, not what lines 100-101 log, `ParametersTextAsWritten(Lookup(tables, table).value, values)`.
- `Database.BaseDatabaseManager.RowCount`: its debug line carries `ParametersText(values)`, not what lines 115-116 log, `ParametersTextAsWritten(Lookup(tables, table).value, values)`.
- `Database.BaseDatabaseManager.Insert`: its debug line carries `ParametersText(values)`, not what lines 132-133 log, `ParametersTextAsWritten(Lookup(tables, table).value, values)`.
- `Database.BaseDatabaseManager.Delete`: its debug line carries `ParametersText(values)`, not what lines 148-149 log, `ParametersTextAsWritten(Lookup(tables, table).value, values)`.
- `os.path.join` for the database path: the path is an opaque string given to the constructor.
- `__del__`: it only calls `close()` and swallows everything. What repeated calls of `close()` do is stated by `ClosedRunIsNoOp` and `RunClosesIffOneAttemptSucceeds`.
- `__init_subclass__`: the schema is a constructor parameter instead of class-level configuration.
- The generator laziness of `_select`: in Python even its assertions run only when the first row is requested. The model runs the whole body at the call, and its result is the full row sequence.
- Interleaving of cursors on the shared connection, and concurrency: both are outside the model.
- `DatabaseManagerError`: it is declared but never raised.
- Why a `CREATE TABLE` fails: every `OperationalError` is swallowed, and the model abstracts the failure as "the table is in the ghost set `existing`".
- Errors raised by `execute` inside the primitives propagate uncaught in the source. The model has no error path for them.
- `Database.ParametersText`: Python's `repr` of a string is modelled as the string in single quotes (`StrRepr`), without Python's escaping or choice of quote character. The repr of a bound value is taken as given (`Value.repr`).
- `Database.ParametersTextAsWritten`: the same simplification of `repr`.
- `Statements.ParseSelectText`, `Statements.ParseCountText`, `Statements.ParseInsertText`, `Statements.ParseDeleteText`, `Statements.ParseCreateText`, `SqlText.WhereRoundTrip`, `SqlText.ColumnListRoundTrip`, `SqlText.PlaceholderListRoundTrip`, `SqlText.ColumnDefsRoundTrip`: these hold for names without backtick, space, comma, colon or parenthesis, and for declarations without a comma. The source does not check names, and other names do not read back.

## Findings

| source | as written | input that shows it | evidently intended | confidence | as-written member | corrected member |
|---|---|---|---|---|---|---|
| k2modules/util/database/common.py:100-101 | `ColumnValueFormatter(self.tables[table], values)` zips the table's declared column names with `tuple(values)`, i.e. with the keyword KEYS. The debug line mislabels columns and never shows a value (the same call is repeated at lines 115-116, 132-133 and 148-149) | schema `users(id, name)`, `_select('users', name='alice')` logs `('id', 'name')` | one pair per keyword argument: `('name', 'alice')` | high, not executed | `Database.ParametersTextAsWritten` (shown by `Database.AsWrittenMislabelsParameters`) | `Database.ParametersText`, used by every primitive of `Database.BaseDatabaseManager` |
