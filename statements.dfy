/**
 * The complete statements BaseDatabaseManager hands to the engine
 * (k2modules/util/database/common.py): `CREATE TABLE` in the constructor and
 * the statements of `_select`, `_row_count`, `_insert` and `_delete`.
 *
 * A Query is the abstract statement; Text is the SQL the source builds for it
 * and Parse reads such text back. ParseText shows that the text determines the
 * statement: table, keys and their order.
 */
module Statements {
  import opened Wrappers
  import opened SqlText

  datatype Query =
    | SelectAll(table: string, filter: seq<string>)
    | CountRows(table: string, filter: seq<string>)
    | InsertRow(table: string, columns: seq<string>, params: seq<string>)
    | DeleteRows(table: string, filter: seq<string>)
    | CreateTable(table: string, defs: seq<(string, string)>)

  const SelectPrefix: string := "SELECT * FROM "
  const CountPrefix: string := "SELECT COUNT(*) FROM "
  const InsertPrefix: string := "INSERT INTO "
  const DeletePrefix: string := "DELETE FROM "
  const CreatePrefix: string := "CREATE TABLE "

  /** The SQL text of a statement, spliced as the source's f-strings do. */
  function Text(q: Query): string {
    match q
    case SelectAll(t, f) => SelectPrefix + t + " " + WhereClause(f)
    case CountRows(t, f) => CountPrefix + t + " " + WhereClause(f)
    case InsertRow(t, cs, ps) => InsertPrefix + t + " (" + ColumnList(cs) + ") VALUES (" + PlaceholderList(ps) + ")"
    case DeleteRows(t, f) => DeletePrefix + t + " " + WhereClause(f)
    case CreateTable(t, defs) => CreatePrefix + t + " (" + ColumnDefs(defs) + ")"
  }

  /** A statement whose names can be read back from its text. */
  predicate Readable(q: Query) {
    PlainName(q.table) &&
    match q
    case InsertRow(_, cs, ps) => |cs| > 0 && |ps| > 0 && AllPlain(cs) && AllPlain(ps)
    case CreateTable(_, defs) => forall i :: 0 <= i < |defs| ==> PlainName(defs[i].0) && PlainDecl(defs[i].1)
    case _ => AllPlain(q.filter)
  }

  /** A statement that touches every row of its table. */
  predicate Unconditional(q: Query) {
    (q.SelectAll? || q.CountRows? || q.DeleteRows?) && q.filter == []
  }

  // ---------------------------------------------------------------------------
  // Reading statements back

  /** Reads `t <where>`. */
  function ParseFiltered(s: string): Option<(string, seq<string>)> {
    var (table, rest) := ReadName(s);
    match Expect(" ", rest)
    case None => None
    case Some(w) =>
      match ParseWhere(w)
      case None => None
      case Some(f) => Some((table, f))
  }

  /** Reads `t (<cols>) VALUES (<placeholders>)`. */
  function ParseInsert(s: string): Option<Query> {
    var (table, s1) := ReadName(s);
    match Expect(" (", s1)
    case None => None
    case Some(s2) =>
      match ParseList(Quoted, ", ", s2)
      case None => None
      case Some((cols, s3)) =>
        match Expect(") VALUES (", s3)
        case None => None
        case Some(s4) =>
          match ParseList(Param, ", ", s4)
          case None => None
          case Some((ps, s5)) => if s5 == ")" then Some(InsertRow(table, cols, ps)) else None
  }

  /** Reads `t (<column definitions>)`. */
  function ParseCreate(s: string): Option<Query> {
    var (table, s1) := ReadName(s);
    match Expect(" (", s1)
    case None => None
    case Some(s2) =>
      if |s2| > 0 && s2[|s2| - 1] == ')' then
        match ParseColumnDefs(s2[..|s2| - 1])
        case None => None
        case Some(defs) => Some(CreateTable(table, defs))
      else None
  }

  function Parse(s: string): Option<Query> {
    if Expect(SelectPrefix, s).Some? then
      match ParseFiltered(Expect(SelectPrefix, s).value)
      case None => None
      case Some((t, f)) => Some(SelectAll(t, f))
    else if Expect(CountPrefix, s).Some? then
      match ParseFiltered(Expect(CountPrefix, s).value)
      case None => None
      case Some((t, f)) => Some(CountRows(t, f))
    else if Expect(InsertPrefix, s).Some? then
      ParseInsert(Expect(InsertPrefix, s).value)
    else if Expect(DeletePrefix, s).Some? then
      match ParseFiltered(Expect(DeletePrefix, s).value)
      case None => None
      case Some((t, f)) => Some(DeleteRows(t, f))
    else if Expect(CreatePrefix, s).Some? then
      ParseCreate(Expect(CreatePrefix, s).value)
    else None
  }

  // ---------------------------------------------------------------------------
  // Round trips

  lemma ParseFilteredOf(table: string, keys: seq<string>)
    requires PlainName(table) && AllPlain(keys)
    ensures ParseFiltered(table + " " + WhereClause(keys)) == Some((table, keys))
  {
    var w := WhereClause(keys);
    assert table + " " + w == table + (" " + w);
    ReadNameOf(table, " " + w);
    ExpectOf(" ", w);
    WhereRoundTrip(keys);
  }

  lemma ParseInsertOf(table: string, cols: seq<string>, ps: seq<string>)
    requires PlainName(table) && |cols| > 0 && |ps| > 0 && AllPlain(cols) && AllPlain(ps)
    ensures ParseInsert(table + " (" + ColumnList(cols) + ") VALUES (" + PlaceholderList(ps) + ")")
         == Some(InsertRow(table, cols, ps))
  {
    var cl, pl := ColumnList(cols), PlaceholderList(ps);
    var s4 := pl + ")";
    var s3 := ") VALUES (" + s4;
    var s2 := cl + s3;
    assert table + " (" + cl + ") VALUES (" + pl + ")" == table + (" (" + s2);
    ReadNameOf(table, " (" + s2);
    ExpectOf(" (", s2);
    assert s3[0] == ')';
    Mismatch(", ", ") VALUES (", s4, 0);
    ColumnListRoundTrip(cols, s3);
    ExpectOf(") VALUES (", s4);
    PlaceholderListRoundTrip(ps, ")");
    InsertSteps(table + (" (" + s2), table, s2, cols, s3, s4, ps);
  }

  lemma InsertSteps(s: string, table: string, s2: string, cols: seq<string>, s3: string, s4: string, ps: seq<string>)
    requires ReadName(s) == (table, " (" + s2)
    requires Expect(" (", " (" + s2) == Some(s2)
    requires ParseList(Quoted, ", ", s2) == Some((cols, s3))
    requires Expect(") VALUES (", s3) == Some(s4)
    requires ParseList(Param, ", ", s4) == Some((ps, ")"))
    ensures ParseInsert(s) == Some(InsertRow(table, cols, ps))
  {
  }

  lemma ParseCreateOf(table: string, defs: seq<(string, string)>)
    requires PlainName(table)
    requires forall i :: 0 <= i < |defs| ==> PlainName(defs[i].0) && PlainDecl(defs[i].1)
    ensures ParseCreate(table + " (" + ColumnDefs(defs) + ")") == Some(CreateTable(table, defs))
  {
    var d := ColumnDefs(defs);
    var s2 := d + ")";
    assert table + " (" + d + ")" == table + (" (" + s2);
    ReadNameOf(table, " (" + s2);
    ExpectOf(" (", s2);
    assert s2[..|s2| - 1] == d;
    ColumnDefsRoundTrip(defs);
  }

  /** Text that starts with `prefix` is not taken for a statement of another kind. */
  lemma Mismatch(prefix: string, other: string, rest: string, k: nat)
    requires k < |prefix| && k < |other| && prefix[k] != other[k]
    ensures Expect(prefix, other + rest).None?
  {
    assert (other + rest)[k] == other[k];
  }

  lemma ParseSelectText(t: string, f: seq<string>)
    requires PlainName(t) && AllPlain(f)
    ensures Parse(Text(SelectAll(t, f))) == Some(SelectAll(t, f))
  {
    var r := t + " " + WhereClause(f);
    assert Text(SelectAll(t, f)) == SelectPrefix + r;
    ExpectOf(SelectPrefix, r);
    ParseFilteredOf(t, f);
    assert Expect(SelectPrefix, SelectPrefix + r).value == r;
  }

  lemma ParseCountText(t: string, f: seq<string>)
    requires PlainName(t) && AllPlain(f)
    ensures Parse(Text(CountRows(t, f))) == Some(CountRows(t, f))
  {
    var r := t + " " + WhereClause(f);
    assert Text(CountRows(t, f)) == CountPrefix + r;
    Mismatch(SelectPrefix, CountPrefix, r, 7);
    ExpectOf(CountPrefix, r);
    ParseFilteredOf(t, f);
  }

  lemma ParseInsertText(t: string, cs: seq<string>, ps: seq<string>)
    requires PlainName(t) && |cs| > 0 && |ps| > 0 && AllPlain(cs) && AllPlain(ps)
    ensures Parse(Text(InsertRow(t, cs, ps))) == Some(InsertRow(t, cs, ps))
  {
    var r := t + " (" + ColumnList(cs) + ") VALUES (" + PlaceholderList(ps) + ")";
    assert Text(InsertRow(t, cs, ps)) == InsertPrefix + r;
    Mismatch(SelectPrefix, InsertPrefix, r, 0);
    Mismatch(CountPrefix, InsertPrefix, r, 0);
    ExpectOf(InsertPrefix, r);
    ParseInsertOf(t, cs, ps);
  }

  lemma ParseDeleteText(t: string, f: seq<string>)
    requires PlainName(t) && AllPlain(f)
    ensures Parse(Text(DeleteRows(t, f))) == Some(DeleteRows(t, f))
  {
    var r := t + " " + WhereClause(f);
    assert Text(DeleteRows(t, f)) == DeletePrefix + r;
    Mismatch(SelectPrefix, DeletePrefix, r, 0);
    Mismatch(CountPrefix, DeletePrefix, r, 0);
    Mismatch(InsertPrefix, DeletePrefix, r, 0);
    ExpectOf(DeletePrefix, r);
    ParseFilteredOf(t, f);
  }

  lemma ParseCreateText(t: string, defs: seq<(string, string)>)
    requires PlainName(t)
    requires forall i :: 0 <= i < |defs| ==> PlainName(defs[i].0) && PlainDecl(defs[i].1)
    ensures Parse(Text(CreateTable(t, defs))) == Some(CreateTable(t, defs))
  {
    var r := t + " (" + ColumnDefs(defs) + ")";
    assert Text(CreateTable(t, defs)) == CreatePrefix + r;
    Mismatch(SelectPrefix, CreatePrefix, r, 0);
    Mismatch(CountPrefix, CreatePrefix, r, 0);
    Mismatch(InsertPrefix, CreatePrefix, r, 0);
    Mismatch(DeletePrefix, CreatePrefix, r, 0);
    ExpectOf(CreatePrefix, r);
    ParseCreateOf(t, defs);
  }

  /**
   * Every readable statement is read back from its text unchanged: the text
   * names its table and its column keys, in order, and nothing else.
   */
  lemma ParseText(q: Query)
    requires Readable(q)
    ensures Parse(Text(q)) == Some(q)
  {
    match q
    case SelectAll(t, f) => ParseSelectText(t, f);
    case CountRows(t, f) => ParseCountText(t, f);
    case InsertRow(t, cs, ps) => ParseInsertText(t, cs, ps);
    case DeleteRows(t, f) => ParseDeleteText(t, f);
    case CreateTable(t, defs) => ParseCreateText(t, defs);
  }

  /** The `INSERT` text as `_insert` assembles it, from two adjacent literals. */
  lemma InsertStatementText(table: string, columns: seq<string>, params: seq<string>)
    ensures Text(InsertRow(table, columns, params))
         == "INSERT INTO " + table + " (" + ColumnList(columns) + ") " + "VALUES (" + PlaceholderList(params) + ")"
  {
    assert ") VALUES (" == ") " + "VALUES (";
  }

  /**
   * In the `INSERT` statement of `_insert` the i-th quoted column and the i-th
   * placeholder name the same key.
   */
  lemma InsertColumnsMatchPlaceholders(table: string, keys: seq<string>)
    requires PlainName(table) && |keys| > 0 && AllPlain(keys)
    ensures Parse(Text(InsertRow(table, keys, keys))).Some?
    ensures var q := Parse(Text(InsertRow(table, keys, keys))).value;
      q.InsertRow? && q.table == table && q.columns == keys && q.params == keys
    ensures Text(InsertRow(table, keys, keys))
         == "INSERT INTO " + table + " (" + ColumnList(keys) + ") VALUES (" + PlaceholderList(keys) + ")"
  {
    ParseText(InsertRow(table, keys, keys));
  }

  /**
   * A `SELECT`, `SELECT COUNT(*)` or `DELETE` built from a non-empty key set
   * carries a `WHERE` clause right after the table name and is never read as
   * an unconditional statement.
   */
  lemma FilteredIsConditional(q: Query)
    requires Readable(q) && (q.SelectAll? || q.CountRows? || q.DeleteRows?) && |q.filter| > 0
    ensures Parse(Text(q)).Some? && !Unconditional(Parse(Text(q)).value)
    ensures KindPrefix(q) + q.table + " WHERE " <= Text(q)
  {
    ParseText(q);
    WherePrefix(q);
  }

  lemma WherePrefix(q: Query)
    requires (q.SelectAll? || q.CountRows? || q.DeleteRows?) && |q.filter| > 0
    ensures KindPrefix(q) + q.table + " WHERE " <= Text(q)
  {
    var head := KindPrefix(q) + q.table + " WHERE ";
    var cond := Join(" AND ", RenderAll(Equality, q.filter));
    assert WhereClause(q.filter) == "WHERE " + cond;
    assert Text(q) == KindPrefix(q) + q.table + " " + WhereClause(q.filter);
    assert Text(q) == head + cond;
    PrefixOfConcat(head, cond);
  }

  lemma PrefixOfConcat(a: string, b: string)
    ensures a <= a + b
  {
    assert (a + b)[..|a|] == a;
  }

  /** Every statement opens with its fixed keywords and then the table name. */
  lemma TextOpensWithTable(q: Query)
    ensures KindPrefix(q) + q.table <= Text(q)
  {
    var lead := KindPrefix(q) + q.table;
    match q
    case SelectAll(t, f) => PrefixOfConcat(lead, " " + WhereClause(f));
    case CountRows(t, f) => PrefixOfConcat(lead, " " + WhereClause(f));
    case InsertRow(t, cs, ps) =>
      PrefixOfConcat(lead, " (" + ColumnList(cs) + ") VALUES (" + PlaceholderList(ps) + ")");
    case DeleteRows(t, f) => PrefixOfConcat(lead, " " + WhereClause(f));
    case CreateTable(t, defs) => PrefixOfConcat(lead, " (" + ColumnDefs(defs) + ")");
  }

  /** The fixed text in front of the table name. */
  function KindPrefix(q: Query): string {
    match q
    case SelectAll(_, _) => SelectPrefix
    case CountRows(_, _) => CountPrefix
    case InsertRow(_, _, _) => InsertPrefix
    case DeleteRows(_, _) => DeletePrefix
    case CreateTable(_, _) => CreatePrefix
  }
}
