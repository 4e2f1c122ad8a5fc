/**
 * BaseDatabaseManager and ColumnValueFormatter
 * (k2modules/util/database/common.py).
 *
 * The sqlite3 engine is opaque: the manager records, in `calls`, every
 * request it makes of the connection (a statement with its bound parameters,
 * a commit, a close), and whatever the engine answers (rows, counts, whether
 * commit or close raised) comes in as a parameter.
 */
module Database {
  import opened Wrappers
  import opened SqlText
  import opened Statements
  import opened Schema

  /** A bound parameter value; the model knows it only by the text `repr` gives for it. */
  datatype Value = Value(repr: string)

  /** Keyword arguments of a primitive: (column, value) pairs in call order. */
  type Filters = seq<(string, Value)>

  type Row = seq<Value>

  /** A request made of the sqlite3 connection. */
  datatype EngineCall = Execute(sql: string, params: Filters) | Commit | CloseConnection

  /** How the engine answered a commit or a close. */
  datatype Outcome = Succeeds | RaisesProgrammingError | RaisesOther

  // ---------------------------------------------------------------------------
  // ColumnValueFormatter

  /** Python's `repr` of a string without quotes, backslashes or unprintable characters. */
  function StrRepr(s: string): string { "'" + s + "'" }

  function ValueRepr(v: Value): string { v.repr }

  function PairText(x: string, y: string): string { "(" + x + ", " + y + ")" }

  /** The text of each pair that `zip(columns, values)` yields, in order. */
  function PairTexts<X, Y>(xs: seq<X>, ys: seq<Y>, showX: X -> string, showY: Y -> string): (r: seq<string>)
    ensures |r| == if |xs| < |ys| then |xs| else |ys|
    ensures forall i :: 0 <= i < |r| ==> r[i] == PairText(showX(xs[i]), showY(ys[i]))
  {
    if |xs| == 0 || |ys| == 0 then []
    else [PairText(showX(xs[0]), showY(ys[0]))] + PairTexts(xs[1..], ys[1..], showX, showY)
  }

  datatype ColumnValueFormatter<X, Y> = ColumnValueFormatter(columns: seq<X>, values: seq<Y>) {
    /** `__str__`: the positional pairs joined by ", "; empty exactly when one side is. */
    function ToString(showX: X -> string, showY: Y -> string): (r: string)
      ensures r == "" <==> |columns| == 0 || |values| == 0
    {
      var parts := PairTexts(columns, values, showX, showY);
      if |parts| > 1 then JoinCons(", ", parts); Join(", ", parts) else Join(", ", parts)
    }
  }

  /**
   * The parameter text the primitives log, as written: the formatter is given
   * `self.tables[table]` and the keyword dict, so it zips the table's declared
   * column names with the filter's KEYS, never with its values.
   */
  function ParametersTextAsWritten(declared: Columns, values: Filters): (r: string)
    ensures r == Join(", ", seq(if |declared| < |values| then |declared| else |values|,
                                i requires 0 <= i < |declared| && i < |values| =>
                                  PairText(StrRepr(declared[i].0), StrRepr(values[i].0))))
  {
    var parts := PairTexts(Keys(declared), Keys(values), StrRepr, StrRepr);
    assert parts == seq(if |declared| < |values| then |declared| else |values|,
                        i requires 0 <= i < |declared| && i < |values| =>
                          PairText(StrRepr(declared[i].0), StrRepr(values[i].0)));
    ColumnValueFormatter(Keys(declared), Keys(values)).ToString(StrRepr, StrRepr)
  }

  /** The parameter text as evidently intended: each filter column with its own value. */
  function ParametersText(values: Filters): (r: string)
    ensures r == Join(", ", seq(|values|, i requires 0 <= i < |values| =>
                                 PairText(StrRepr(values[i].0), values[i].1.repr)))
  {
    var parts := PairTexts(Keys(values), Values(values), StrRepr, ValueRepr);
    assert parts == seq(|values|, i requires 0 <= i < |values| =>
                          PairText(StrRepr(values[i].0), values[i].1.repr));
    ColumnValueFormatter(Keys(values), Values(values)).ToString(StrRepr, ValueRepr)
  }

  /**
   * For a table `users(id, name)` queried by name, the logged text pairs the
   * declared column `id` with the key `name` and shows no value at all.
   */
  lemma AsWrittenMislabelsParameters()
    ensures ParametersTextAsWritten([("id", "INTEGER PRIMARY KEY"), ("name", "TEXT")],
                                    [("name", Value("'alice'"))])
         == "('id', 'name')"
    ensures ParametersText([("name", Value("'alice'"))]) == "('name', 'alice')"
  {
    var declared: Columns := [("id", "INTEGER PRIMARY KEY"), ("name", "TEXT")];
    var values: Filters := [("name", Value("'alice'"))];
    var written := seq(1, i requires 0 <= i < |declared| && i < |values| =>
                         PairText(StrRepr(declared[i].0), StrRepr(values[i].0)));
    assert written[0] == "('id', 'name')";
    assert written == ["('id', 'name')"];
    var fixed := seq(1, i requires 0 <= i < |values| =>
                       PairText(StrRepr(values[i].0), values[i].1.repr));
    assert fixed[0] == "('name', 'alice')";
    assert fixed == ["('name', 'alice')"];
  }

  // ---------------------------------------------------------------------------
  // The close() state machine

  /** What one call of `close()` does: the new flag, the requests made, whether an exception escapes. */
  datatype CloseStep = CloseStep(closed: bool, calls: seq<EngineCall>, escapes: bool)

  function CloseStepOf(closed: bool, commit: Outcome, release: Outcome): (r: CloseStep)
    // once closed, close() returns at once and asks nothing of the engine
    ensures closed ==> r == CloseStep(true, [], false)
    // the flag is set only after both commit and close succeeded, in that order
    ensures !closed && r.closed ==> commit == Succeeds && release == Succeeds && r.calls == [Commit, CloseConnection]
    ensures !closed ==> |r.calls| > 0 && r.calls[0] == Commit && (|r.calls| == 2 <==> commit == Succeeds)
    // a ProgrammingError is swallowed and leaves the flag clear
    ensures !closed && (commit == RaisesProgrammingError || (commit == Succeeds && release == RaisesProgrammingError))
            ==> !r.closed && !r.escapes
    // any other error escapes
    ensures r.escapes <==> !closed && (commit == RaisesOther || (commit == Succeeds && release == RaisesOther))
  {
    if closed then CloseStep(true, [], false)
    else
      match commit
      case Succeeds => CloseStep(release == Succeeds, [Commit, CloseConnection], release == RaisesOther)
      case RaisesProgrammingError => CloseStep(false, [Commit], false)
      case RaisesOther => CloseStep(false, [Commit], true)
  }

  /**
   * Successive calls of `close()` (an explicit one, then `__del__`'s, ...):
   * a closed manager stays closed, and each call makes at most two requests.
   */
  function CloseRun(closed: bool, attempts: seq<(Outcome, Outcome)>): (r: CloseStep)
    ensures closed ==> r.closed
    ensures |r.calls| <= 2 * |attempts|
    decreases |attempts|
  {
    if |attempts| == 0 then CloseStep(closed, [], false)
    else
      var first := CloseStepOf(closed, attempts[0].0, attempts[0].1);
      var rest := CloseRun(first.closed, attempts[1..]);
      CloseStep(rest.closed, first.calls + rest.calls, first.escapes || rest.escapes)
  }

  /** close() is idempotent: any number of calls on a closed manager does nothing. */
  lemma {:induction false} ClosedRunIsNoOp(attempts: seq<(Outcome, Outcome)>)
    ensures CloseRun(true, attempts) == CloseStep(true, [], false)
  {
    if |attempts| > 0 {
      ClosedRunIsNoOp(attempts[1..]);
    }
  }

  /** Repeated close() calls end closed exactly when one of them committed and closed. */
  lemma {:induction false} RunClosesIffOneAttemptSucceeds(attempts: seq<(Outcome, Outcome)>)
    ensures CloseRun(false, attempts).closed <==>
            exists i :: 0 <= i < |attempts| && attempts[i] == (Succeeds, Succeeds)
  {
    if |attempts| > 0 {
      if attempts[0] == (Succeeds, Succeeds) {
        ClosedRunIsNoOp(attempts[1..]);
      } else {
        RunClosesIffOneAttemptSucceeds(attempts[1..]);
        if exists i :: 0 <= i < |attempts[1..]| && attempts[1..][i] == (Succeeds, Succeeds) {
          var i :| 0 <= i < |attempts[1..]| && attempts[1..][i] == (Succeeds, Succeeds);
          assert attempts[i + 1] == (Succeeds, Succeeds);
        }
        if exists i :: 0 <= i < |attempts| && attempts[i] == (Succeeds, Succeeds) {
          var i :| 0 <= i < |attempts| && attempts[i] == (Succeeds, Succeeds);
          assert i > 0 && attempts[1..][i - 1] == (Succeeds, Succeeds);
        }
      }
    }
  }

  // ---------------------------------------------------------------------------
  // Table creation in __init__

  /** The request `__init__` makes for one declared table. */
  function CreateCall(entry: (string, Columns)): EngineCall {
    Execute(Text(CreateTable(entry.0, entry.1)), [])
  }

  /**
   * Each `CREATE TABLE` of `__init__` reads back as its table with one
   * `name` declaration entry per declared column, in schema order.
   */
  lemma CreateStatementReadsBack(entry: (string, Columns))
    requires PlainName(entry.0)
    requires forall i :: 0 <= i < |entry.1| ==> PlainName(entry.1[i].0) && PlainDecl(entry.1[i].1)
    ensures Parse(CreateCall(entry).sql) == Some(CreateTable(entry.0, entry.1))
  {
    ParseText(CreateTable(entry.0, entry.1));
  }

  /** The requests of `__init__`: one `CREATE TABLE` per declared table, in schema order. */
  function CreateCalls(tables: Tables): (r: seq<EngineCall>)
    ensures |r| == |tables|
    ensures forall i :: 0 <= i < |tables| ==> r[i] == CreateCall(tables[i])
  {
    if |tables| == 0 then [] else CreateCalls(tables[..|tables| - 1]) + [CreateCall(tables[|tables| - 1])]
  }

  lemma CreateCallsStep(tables: Tables, i: nat)
    requires i < |tables|
    ensures CreateCalls(tables[..i + 1]) == CreateCalls(tables[..i]) + [CreateCall(tables[i])]
  {
    assert tables[..i + 1][..i] == tables[..i];
  }

  /** The statement text `__init__` builds for one table. */
  method CreateRequest(entry: (string, Columns)) returns (call: EngineCall)
    ensures call == CreateCall(entry)
  {
    var cols := ColumnDefs(entry.1);
    var statement := "CREATE TABLE " + entry.0 + " (" + cols + ")";
    call := Execute(statement, []);
  }

  /** The names of `names` not in `present`, in order: the tables `__init__` creates. */
  function Missing(names: seq<string>, present: set<string>): (r: seq<string>)
    ensures |r| <= |names|
    ensures forall i :: 0 <= i < |r| ==> r[i] in names && r[i] !in present
  {
    if |names| == 0 then []
    else
      Missing(names[..|names| - 1], present)
      + (if names[|names| - 1] in present then [] else [names[|names| - 1]])
  }

  /** A table is created exactly when it is declared and was not already present. */
  lemma {:induction false} MissingIsFilter(names: seq<string>, present: set<string>, t: string)
    ensures t in Missing(names, present) <==> t in names && t !in present
  {
    if |names| > 0 {
      var init := names[..|names| - 1];
      var last := names[|names| - 1];
      MissingIsFilter(init, present, t);
      assert names == init + [last];
      assert t in names <==> t in init || t == last;
    }
  }

  function Elements(names: seq<string>): set<string> {
    set t | t in names
  }

  /**
   * One turn of the create-or-skip loop: with distinct table names, the i-th
   * table is already present exactly when it was present before construction.
   */
  lemma CreateStep(names: seq<string>, i: nat, present: set<string>)
    requires Distinct(names) && i < |names|
    ensures names[i] in present + Elements(names[..i]) <==> names[i] in present
    ensures present + Elements(names[..i + 1]) == present + Elements(names[..i]) + {names[i]}
    ensures Missing(names[..i + 1], present)
         == Missing(names[..i], present) + (if names[i] in present then [] else [names[i]])
  {
    assert names[..i + 1] == names[..i] + [names[i]];
    assert names[..i + 1][..i] == names[..i];
    assert Elements(names[..i + 1]) == Elements(names[..i]) + {names[i]};
    forall j | 0 <= j < i
      ensures names[..i][j] != names[i]
    {
    }
  }

  // ---------------------------------------------------------------------------
  // The manager

  class BaseDatabaseManager {
    /** The class-level schema, given at construction in this model. */
    const tables: Tables
    const dbPath: string
    /** `_db_closed` */
    var dbClosed: bool
    /** Every request made of the connection, oldest first. */
    var calls: seq<EngineCall>
    /** The debug lines of the primitives, oldest first. */
    var trace: seq<string>
    /** The tables present in the database file. */
    ghost var existing: set<string>
    /** The tables `__init__` found missing and created, in schema order. */
    ghost var created: seq<string>

    /**
     * `__init__`: one `CREATE TABLE` per declared table, in schema order; a
     * table already in the file makes its statement fail with
     * OperationalError, which is swallowed.
     */
    constructor (tables: Tables, dbPath: string, ghost preexisting: set<string>)
      requires Distinct(Keys(tables))
      ensures this.tables == tables && this.dbPath == dbPath
      ensures !dbClosed && trace == []
      ensures calls == CreateCalls(tables)
      ensures existing == preexisting + Elements(Keys(tables))
      ensures created == Missing(Keys(tables), preexisting)
    {
      ghost var names := Keys(tables);
      assert Distinct(names);
      var issued: seq<EngineCall> := [];
      ghost var present := preexisting;
      ghost var made: seq<string> := [];
      var i := 0;
      while i < |tables|
        invariant 0 <= i <= |tables|
        invariant issued == CreateCalls(tables[..i])
        invariant present == preexisting + Elements(names[..i])
        invariant made == Missing(names[..i], preexisting)
      {
        var call := CreateRequest(tables[i]);
        ghost var tn := names[i];
        issued := issued + [call];
        CreateStep(names, i, preexisting);
        CreateCallsStep(tables, i);
        if tn !in present {
          present := present + {tn};
          made := made + [tn];
        } else {
          assert present + {tn} == present;
        }
        i := i + 1;
      }
      assert names[..|tables|] == names;
      assert tables[..|tables|] == tables;
      this.tables := tables;
      this.dbPath := dbPath;
      dbClosed := false;
      calls := issued;
      trace := [];
      existing := present;
      created := made;
    }

    /** `_format_select_vars` */
    function FormatSelectVars(keys: seq<string>): (r: string)
      reads this
      requires UnionCheck(dbClosed, tables, keys)
      ensures r == "" <==> |keys| == 0
      ensures AllPlain(keys) ==> ParseWhere(r) == Some(keys)
    {
      var r := WhereClause(keys);
      if AllPlain(keys) then WhereRoundTrip(keys); r else r
    }

    /** `_format_insert_vars` */
    function FormatInsertVars(keys: seq<string>): (r: string)
      reads this
      requires |keys| > 0
      requires UnionCheck(dbClosed, tables, keys)
      ensures AllPlain(keys) ==> ParseList(Param, ", ", r) == Some((keys, ""))
    {
      var r := PlaceholderList(keys);
      if AllPlain(keys) then
        assert r + "" == r;
        PlaceholderListRoundTrip(keys, "");
        r
      else r
    }

    /** `_format_cols` */
    function FormatCols(keys: seq<string>): (r: string)
      reads this
      requires |keys| > 0
      requires UnionCheck(dbClosed, tables, keys)
      ensures AllPlain(keys) ==> ParseList(Quoted, ", ", r) == Some((keys, ""))
    {
      var r := ColumnList(keys);
      if AllPlain(keys) then
        assert r + "" == r;
        ColumnListRoundTrip(keys, "");
        r
      else r
    }

    /** `_select`: the rows are whatever the engine yields for the statement. */
    method Select(table: string, values: Filters, reply: seq<Row>) returns (rows: seq<Row>)
      requires TableCheck(dbClosed, tables, table, Keys(values))
      requires Distinct(Keys(values))
      modifies this`calls, this`trace
      ensures calls == old(calls) + [Execute(Text(SelectAll(table, Keys(values))), values)]
      ensures trace == old(trace) + ["Executed SELECT query with parameters " + ParametersText(values)]
      ensures rows == reply
    {
      TableCheckImpliesUnionCheck(dbClosed, tables, table, Keys(values));
      var query := "SELECT * FROM " + table + " " + FormatSelectVars(Keys(values));
      calls := calls + [Execute(query, values)];
      trace := trace + ["Executed SELECT query with parameters " + ParametersText(values)];
      rows := reply;
    }

    /** `_row_count`: the count is the first column of the engine's one row. */
    method RowCount(table: string, values: Filters, reply: int) returns (count: int)
      requires TableCheck(dbClosed, tables, table, Keys(values))
      requires Distinct(Keys(values))
      modifies this`calls, this`trace
      ensures calls == old(calls) + [Execute(Text(CountRows(table, Keys(values))), values)]
      ensures trace == old(trace) + ["Executed SELECT COUNT() query with parameters " + ParametersText(values)]
      ensures count == reply
    {
      TableCheckImpliesUnionCheck(dbClosed, tables, table, Keys(values));
      var query := "SELECT COUNT(*) FROM " + table + " " + FormatSelectVars(Keys(values));
      calls := calls + [Execute(query, values)];
      trace := trace + ["Executed SELECT COUNT() query with parameters " + ParametersText(values)];
      count := reply;
    }

    /** `_insert` (its debug line reads "SELECT", as in the source). */
    method Insert(table: string, values: Filters)
      requires TableCheck(dbClosed, tables, table, Keys(values))
      requires Distinct(Keys(values))
      modifies this`calls, this`trace
      ensures calls == old(calls) + [Execute(Text(InsertRow(table, Keys(values), Keys(values))), values)]
      ensures trace == old(trace) + ["Executed SELECT query with parameters " + ParametersText(values)]
    {
      var keys := Keys(values);
      TableCheckImpliesUnionCheck(dbClosed, tables, table, keys);
      var cols := FormatCols(keys);
      var vars := FormatInsertVars(keys);
      var query := "INSERT INTO " + table + " (" + cols + ") " + "VALUES (" + vars + ")";
      InsertStatementText(table, keys, keys);
      calls := calls + [Execute(query, values)];
      trace := trace + ["Executed SELECT query with parameters " + ParametersText(values)];
    }

    /** `_delete`: the result is the engine's rowcount. */
    method Delete(table: string, values: Filters, reply: int) returns (rowcount: int)
      requires TableCheck(dbClosed, tables, table, Keys(values))
      requires Distinct(Keys(values))
      modifies this`calls, this`trace
      ensures calls == old(calls) + [Execute(Text(DeleteRows(table, Keys(values))), values)]
      ensures trace == old(trace) + ["Executed DELETE query with parameters " + ParametersText(values)]
      ensures rowcount == reply
    {
      TableCheckImpliesUnionCheck(dbClosed, tables, table, Keys(values));
      var query := "DELETE FROM " + table + " " + FormatSelectVars(Keys(values));
      calls := calls + [Execute(query, values)];
      trace := trace + ["Executed DELETE query with parameters " + ParametersText(values)];
      rowcount := reply;
    }

    /** `close()`: `commit` and `release` are how the engine answers commit() and close(). */
    method Close(commit: Outcome, release: Outcome) returns (escapes: bool)
      modifies this`dbClosed, this`calls
      ensures var step := CloseStepOf(old(dbClosed), commit, release);
        dbClosed == step.closed && calls == old(calls) + step.calls && escapes == step.escapes
    {
      if dbClosed {
        return false;
      }
      calls := calls + [Commit];
      if commit != Succeeds {
        return commit == RaisesOther;
      }
      calls := calls + [CloseConnection];
      if release != Succeeds {
        return release == RaisesOther;
      }
      dbClosed := true;
      escapes := false;
    }
  }
}
