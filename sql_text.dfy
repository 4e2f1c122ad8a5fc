/**
 * The SQL text fragments that BaseDatabaseManager splices into its statements
 * (k2modules/util/database/common.py): the backtick-quoted column list, the
 * `:name` placeholder list, the `WHERE` clause of equality conjuncts and the
 * column definitions of `CREATE TABLE`.
 *
 * Beside each builder is a reader for the text it produces. The round-trip
 * lemmas (reading the built text gives back exactly the keys, in order) are
 * what "one entry per key, key order kept" means here.
 */
module SqlText {
  import opened Wrappers

  /** Characters that end a name when generated SQL text is read back. */
  const Delims: set<char> := {'`', ' ', ',', ':', '(', ')'}

  /** A name as it occurs in the schema: an identifier with none of Delims. */
  predicate PlainName(name: string) {
    forall i :: 0 <= i < |name| ==> name[i] !in Delims
  }

  predicate AllPlain(names: seq<string>) {
    forall i :: 0 <= i < |names| ==> PlainName(names[i])
  }

  /** A column type/constraint declaration that holds no comma. */
  predicate PlainDecl(decl: string) {
    forall i :: 0 <= i < |decl| ==> decl[i] != ','
  }

  /** Python's `sep.join(parts)`: empty for no parts, otherwise it starts with the first part. */
  function Join(sep: string, parts: seq<string>): (r: string)
    ensures |parts| == 0 ==> r == ""
    ensures |parts| > 0 ==> parts[0] <= r
  {
    if |parts| == 0 then ""
    else if |parts| == 1 then parts[0]
    else parts[0] + sep + Join(sep, parts[1..])
  }

  // ---------------------------------------------------------------------------
  // Builders

  /** The three per-key fragments: `c`, :c and `c` = :c. */
  datatype Form = Quoted | Param | Equality

  function Quote(name: string): string { "`" + name + "`" }

  function Placeholder(name: string): string { ":" + name }

  function Conjunct(name: string): string { Quote(name) + " = " + Placeholder(name) }

  function Render(form: Form, name: string): string {
    match form
    case Quoted => Quote(name)
    case Param => Placeholder(name)
    case Equality => Conjunct(name)
  }

  /** The fragment of every key, in key order. */
  function RenderAll(form: Form, names: seq<string>): (r: seq<string>)
    ensures |r| == |names|
    ensures forall i :: 0 <= i < |r| ==> r[i] == Render(form, names[i])
  {
    if |names| == 0 then [] else [Render(form, names[0])] + RenderAll(form, names[1..])
  }

  /** The column list of `_format_cols`: empty exactly for no keys, and opening with a backtick. */
  function ColumnList(keys: seq<string>): (r: string)
    ensures r == "" <==> |keys| == 0
    ensures |keys| > 0 ==> r[0] == '`'
  {
    Join(", ", RenderAll(Quoted, keys))
  }

  /** The placeholder list of `_format_insert_vars`: empty exactly for no keys, and opening with a colon. */
  function PlaceholderList(keys: seq<string>): (r: string)
    ensures r == "" <==> |keys| == 0
    ensures |keys| > 0 ==> r[0] == ':'
  {
    Join(", ", RenderAll(Param, keys))
  }

  /** The clause of `_format_select_vars`: empty exactly when there are no keys. */
  function WhereClause(keys: seq<string>): (r: string)
    ensures r == "" <==> |keys| == 0
  {
    if |keys| == 0 then "" else "WHERE " + Join(" AND ", RenderAll(Equality, keys))
  }

  /** One column definition of `CREATE TABLE`: the quoted name, a space, the declaration. */
  function ColumnDef(col: (string, string)): string { Quote(col.0) + " " + col.1 }

  function RenderDefs(cols: seq<(string, string)>): (r: seq<string>)
    ensures |r| == |cols|
    ensures forall i :: 0 <= i < |r| ==> r[i] == ColumnDef(cols[i])
  {
    if |cols| == 0 then [] else [ColumnDef(cols[0])] + RenderDefs(cols[1..])
  }

  /** The column text of a `CREATE TABLE` statement, in schema order; empty exactly for no columns. */
  function ColumnDefs(cols: seq<(string, string)>): (r: string)
    ensures r == "" <==> |cols| == 0
    ensures |cols| > 0 ==> r[0] == '`'
  {
    Join(", ", RenderDefs(cols))
  }

  // ---------------------------------------------------------------------------
  // Readers

  /** The length of the longest prefix of `s` that holds no character of `stops`. */
  function Span(s: string, stops: set<char>): (n: nat)
    ensures n <= |s|
  {
    if |s| == 0 || s[0] in stops then 0 else 1 + Span(s[1..], stops)
  }

  /** Strips the literal `lit` from the front of `s`. */
  function Expect(lit: string, s: string): (r: Option<string>)
    ensures r.Some? ==> |r.value| == |s| - |lit|
  {
    if |lit| <= |s| && s[..|lit|] == lit then Some(s[|lit|..]) else None
  }

  /** Splits off the name at the front of `s`. */
  function ReadName(s: string): (r: (string, string))
    ensures |r.1| <= |s|
  {
    var n := Span(s, Delims);
    (s[..n], s[n..])
  }

  function ParseQuoted(s: string): (r: Option<(string, string)>)
    ensures r.Some? ==> |r.value.1| < |s|
  {
    match Expect("`", s)
    case None => None
    case Some(s1) =>
      var (name, s2) := ReadName(s1);
      match Expect("`", s2)
      case None => None
      case Some(s3) => Some((name, s3))
  }

  function ParseParam(s: string): (r: Option<(string, string)>)
    ensures r.Some? ==> |r.value.1| < |s|
  {
    match Expect(":", s)
    case None => None
    case Some(s1) => Some(ReadName(s1))
  }

  /** Reads `c` = :c; the conjunct must bind the column to the placeholder of the same name. */
  function ParseConjunct(s: string): (r: Option<(string, string)>)
    ensures r.Some? ==> |r.value.1| < |s|
  {
    match ParseQuoted(s)
    case None => None
    case Some((column, s1)) =>
      match Expect(" = ", s1)
      case None => None
      case Some(s2) =>
        match ParseParam(s2)
        case None => None
        case Some((param, s3)) => if column == param then Some((column, s3)) else None
  }

  function ParseItem(form: Form, s: string): (r: Option<(string, string)>)
    ensures r.Some? ==> |r.value.1| < |s|
  {
    match form
    case Quoted => ParseQuoted(s)
    case Param => ParseParam(s)
    case Equality => ParseConjunct(s)
  }

  /** Reads one or more items separated by `sep`; returns them and the text after the last. */
  function ParseList(form: Form, sep: string, s: string): Option<(seq<string>, string)>
    decreases |s|
  {
    match ParseItem(form, s)
    case None => None
    case Some((name, rest)) =>
      match Expect(sep, rest)
      case None => Some(([name], rest))
      case Some(more) =>
        match ParseList(form, sep, more)
        case None => None
        case Some((names, tail)) => Some(([name] + names, tail))
  }

  /** Reads a whole `WHERE` clause, or the empty text, back into its keys. */
  function ParseWhere(s: string): Option<seq<string>> {
    if s == "" then Some([])
    else
      match Expect("WHERE ", s)
      case None => None
      case Some(body) =>
        match ParseList(Equality, " AND ", body)
        case None => None
        case Some((names, tail)) => if tail == "" then Some(names) else None
  }

  function ParseDef(s: string): (r: Option<((string, string), string)>)
    ensures r.Some? ==> |r.value.1| < |s|
  {
    match ParseQuoted(s)
    case None => None
    case Some((name, s1)) =>
      match Expect(" ", s1)
      case None => None
      case Some(s2) =>
        var n := Span(s2, {','});
        Some(((name, s2[..n]), s2[n..]))
  }

  function ParseDefList(s: string): Option<seq<(string, string)>>
    decreases |s|
  {
    match ParseDef(s)
    case None => None
    case Some((col, rest)) =>
      if rest == "" then Some([col])
      else
        match Expect(", ", rest)
        case None => None
        case Some(more) =>
          match ParseDefList(more)
          case None => None
          case Some(cols) => Some([col] + cols)
  }

  /** Reads the column text of `CREATE TABLE` back into (name, declaration) pairs. */
  function ParseColumnDefs(s: string): Option<seq<(string, string)>> {
    if s == "" then Some([]) else ParseDefList(s)
  }

  // ---------------------------------------------------------------------------
  // Round trips

  lemma {:induction false} SpanOf(c: string, t: string, stops: set<char>)
    requires forall i :: 0 <= i < |c| ==> c[i] !in stops
    requires t == [] || t[0] in stops
    ensures Span(c + t, stops) == |c|
  {
    if c == [] {
      assert c + t == t;
    } else {
      assert (c + t)[1..] == c[1..] + t;
      SpanOf(c[1..], t, stops);
    }
  }

  lemma ExpectOf(lit: string, t: string)
    ensures Expect(lit, lit + t) == Some(t)
  {
    assert (lit + t)[..|lit|] == lit;
    assert (lit + t)[|lit|..] == t;
  }

  lemma ReadNameOf(name: string, t: string)
    requires PlainName(name)
    requires t == [] || t[0] in Delims
    ensures ReadName(name + t) == (name, t)
  {
    SpanOf(name, t, Delims);
    assert (name + t)[..|name|] == name;
    assert (name + t)[|name|..] == t;
  }

  lemma ParseQuotedOf(name: string, t: string)
    requires PlainName(name)
    ensures ParseQuoted(Quote(name) + t) == Some((name, t))
  {
    assert Quote(name) + t == "`" + (name + ("`" + t));
    ExpectOf("`", name + ("`" + t));
    ReadNameOf(name, "`" + t);
    ExpectOf("`", t);
  }

  lemma ParseParamOf(name: string, t: string)
    requires PlainName(name)
    requires t == [] || t[0] in Delims
    ensures ParseParam(Placeholder(name) + t) == Some((name, t))
  {
    assert Placeholder(name) + t == ":" + (name + t);
    ExpectOf(":", name + t);
    ReadNameOf(name, t);
  }

  lemma ParseItemOf(form: Form, name: string, t: string)
    requires PlainName(name)
    requires t == [] || t[0] in Delims
    ensures ParseItem(form, Render(form, name) + t) == Some((name, t))
  {
    match form
    case Quoted => ParseQuotedOf(name, t);
    case Param => ParseParamOf(name, t);
    case Equality =>
      var after := " = " + (Placeholder(name) + t);
      assert Conjunct(name) + t == Quote(name) + after;
      ParseQuotedOf(name, after);
      ExpectOf(" = ", Placeholder(name) + t);
      ParseParamOf(name, t);
  }

  /** Join of two or more parts: the first, the separator, then the join of the rest. */
  lemma JoinCons(sep: string, parts: seq<string>)
    requires |parts| > 1
    ensures Join(sep, parts) == parts[0] + (sep + Join(sep, parts[1..]))
  {
  }

  /**
   * Reading a joined list of fragments gives back every key, in order, and
   * stops exactly where the list ends.
   */
  lemma {:induction false} ParseJoined(form: Form, sep: string, names: seq<string>, t: string)
    requires |names| > 0 && AllPlain(names)
    requires |sep| > 0 && sep[0] in Delims
    requires t == [] || t[0] in Delims
    requires Expect(sep, t).None?
    ensures ParseList(form, sep, Join(sep, RenderAll(form, names)) + t) == Some((names, t))
    decreases |names|
  {
    if |names| == 1 {
      ParseJoinedOne(form, sep, names, t);
    } else {
      ParseJoined(form, sep, names[1..], t);
      ParseJoinedStep(form, sep, names, t);
    }
  }

  /** The base case of ParseJoined: a single fragment. */
  lemma ParseJoinedOne(form: Form, sep: string, names: seq<string>, t: string)
    requires |names| == 1 && AllPlain(names)
    requires t == [] || t[0] in Delims
    requires Expect(sep, t).None?
    ensures ParseList(form, sep, Join(sep, RenderAll(form, names)) + t) == Some((names, t))
  {
    var head := Render(form, names[0]);
    assert Join(sep, RenderAll(form, names)) == head;
    ParseItemOf(form, names[0], t);
    assert ParseItem(form, head + t) == Some((names[0], t));
    assert names == [names[0]];
  }

  /** The inductive step of ParseJoined: one more fragment in front of a list that reads back. */
  lemma ParseJoinedStep(form: Form, sep: string, names: seq<string>, t: string)
    requires |names| > 1 && PlainName(names[0])
    requires |sep| > 0 && sep[0] in Delims
    requires ParseList(form, sep, Join(sep, RenderAll(form, names[1..])) + t) == Some((names[1..], t))
    ensures ParseList(form, sep, Join(sep, RenderAll(form, names)) + t) == Some((names, t))
  {
    JoinedText(form, sep, names, t);
    ParseCons(form, sep, names[0], Join(sep, RenderAll(form, names[1..])), t, names[1..]);
    assert [names[0]] + names[1..] == names;
  }

  /** A fragment and a separator in front of a list that reads back. */
  lemma ParseCons(form: Form, sep: string, name: string, rest: string, t: string, names: seq<string>)
    requires PlainName(name)
    requires |sep| > 0 && sep[0] in Delims
    requires ParseList(form, sep, rest + t) == Some((names, t))
    ensures ParseList(form, sep, Render(form, name) + (sep + (rest + t))) == Some(([name] + names, t))
  {
    assert (sep + (rest + t))[0] == sep[0];
    ParseItemOf(form, name, sep + (rest + t));
    ParseListCons1(form, sep, name, Render(form, name), rest + t, t, names);
  }

  /** A joined list of two or more fragments: the first, the separator, the join of the rest. */
  lemma JoinedText(form: Form, sep: string, names: seq<string>, t: string)
    requires |names| > 1
    ensures Join(sep, RenderAll(form, names)) + t
         == Render(form, names[0]) + (sep + (Join(sep, RenderAll(form, names[1..])) + t))
  {
    var items := RenderAll(form, names);
    var head := Render(form, names[0]);
    var rest := Join(sep, RenderAll(form, names[1..]));
    assert items == [head] + RenderAll(form, names[1..]);
    assert items[1..] == RenderAll(form, names[1..]);
    JoinCons(sep, items);
    assert Join(sep, items) == head + (sep + rest);
    AppendAssoc(head, sep + rest, t);
    AppendAssoc(sep, rest, t);
  }

  lemma AppendAssoc(a: string, b: string, c: string)
    ensures (a + b) + c == a + (b + c)
  {
  }

  lemma ParseListCons1(form: Form, sep: string, name: string, head: string, rest: string, t: string, names: seq<string>)
    requires ParseItem(form, head + (sep + rest)) == Some((name, sep + rest))
    requires ParseList(form, sep, rest) == Some((names, t))
    ensures ParseList(form, sep, head + (sep + rest)) == Some(([name] + names, t))
  {
    ExpectOf(sep, rest);
  }

  /** `_format_cols` read back: the quoted names are exactly the keys, in order. */
  lemma ColumnListRoundTrip(keys: seq<string>, t: string)
    requires |keys| > 0 && AllPlain(keys)
    requires t == [] || t[0] in Delims
    requires Expect(", ", t).None?
    ensures ParseList(Quoted, ", ", ColumnList(keys) + t) == Some((keys, t))
  {
    ParseJoined(Quoted, ", ", keys, t);
  }

  /** `_format_insert_vars` read back: the placeholders are exactly the keys, in order. */
  lemma PlaceholderListRoundTrip(keys: seq<string>, t: string)
    requires |keys| > 0 && AllPlain(keys)
    requires t == [] || t[0] in Delims
    requires Expect(", ", t).None?
    ensures ParseList(Param, ", ", PlaceholderList(keys) + t) == Some((keys, t))
  {
    ParseJoined(Param, ", ", keys, t);
  }

  /**
   * `_format_select_vars` read back: the clause holds one `c` = :c conjunct for
   * every key, in key order, and the empty clause stands for no keys.
   */
  lemma WhereRoundTrip(keys: seq<string>)
    requires AllPlain(keys)
    ensures ParseWhere(WhereClause(keys)) == Some(keys)
  {
    if |keys| > 0 {
      var body := Join(" AND ", RenderAll(Equality, keys));
      ExpectOf("WHERE ", body);
      assert body + "" == body;
      ParseJoined(Equality, " AND ", keys, "");
    }
  }

  lemma ParseDefOf(col: (string, string), t: string)
    requires PlainName(col.0) && PlainDecl(col.1)
    requires t == [] || t[0] == ','
    ensures ParseDef(ColumnDef(col) + t) == Some((col, t))
  {
    var after := " " + (col.1 + t);
    assert ColumnDef(col) + t == Quote(col.0) + after;
    ParseQuotedOf(col.0, after);
    ExpectOf(" ", col.1 + t);
    SpanOf(col.1, t, {','});
    assert (col.1 + t)[..|col.1|] == col.1;
    assert (col.1 + t)[|col.1|..] == t;
  }

  lemma ParseDefListCons(head: string, col: (string, string), rest: string, cols: seq<(string, string)>)
    requires ParseDef(head + (", " + rest)) == Some((col, ", " + rest))
    requires ParseDefList(rest) == Some(cols)
    ensures ParseDefList(head + (", " + rest)) == Some([col] + cols)
  {
    ExpectOf(", ", rest);
  }

  lemma {:induction false} ParseDefListOf(cols: seq<(string, string)>)
    requires |cols| > 0
    requires forall i :: 0 <= i < |cols| ==> PlainName(cols[i].0) && PlainDecl(cols[i].1)
    ensures ParseDefList(ColumnDefs(cols)) == Some(cols)
    decreases |cols|
  {
    if |cols| == 1 {
      ParseDefListOne(cols);
    } else {
      ParseDefListOf(cols[1..]);
      ParseDefListStep(cols);
    }
  }

  /** The base case of ParseDefListOf: a single declaration. */
  lemma ParseDefListOne(cols: seq<(string, string)>)
    requires |cols| == 1 && PlainName(cols[0].0) && PlainDecl(cols[0].1)
    ensures ParseDefList(ColumnDefs(cols)) == Some(cols)
  {
    var head := ColumnDef(cols[0]);
    assert ColumnDefs(cols) == head;
    assert head + "" == head;
    ParseDefOf(cols[0], "");
    assert ParseDef(head) == Some((cols[0], ""));
    assert cols == [cols[0]];
  }

  /** The inductive step of ParseDefListOf: one more declaration in front. */
  lemma ParseDefListStep(cols: seq<(string, string)>)
    requires |cols| > 1 && PlainName(cols[0].0) && PlainDecl(cols[0].1)
    requires ParseDefList(ColumnDefs(cols[1..])) == Some(cols[1..])
    ensures ParseDefList(ColumnDefs(cols)) == Some(cols)
  {
    var head := ColumnDef(cols[0]);
    var rest := ColumnDefs(cols[1..]);
    ColumnDefsText(cols);
    ParseDefOf(cols[0], ", " + rest);
    ParseDefListCons(head, cols[0], rest, cols[1..]);
    assert [cols[0]] + cols[1..] == cols;
  }

  /** Two or more declarations: the first, a comma, then the rest. */
  lemma ColumnDefsText(cols: seq<(string, string)>)
    requires |cols| > 1
    ensures ColumnDefs(cols) == ColumnDef(cols[0]) + (", " + ColumnDefs(cols[1..]))
  {
    var defs := RenderDefs(cols);
    assert defs == [ColumnDef(cols[0])] + RenderDefs(cols[1..]);
    JoinCons(", ", defs);
    assert defs[1..] == RenderDefs(cols[1..]);
  }

  /**
   * The column text of `CREATE TABLE` read back: one `name` declaration entry
   * per declared column, in schema order.
   */
  lemma ColumnDefsRoundTrip(cols: seq<(string, string)>)
    requires forall i :: 0 <= i < |cols| ==> PlainName(cols[i].0) && PlainDecl(cols[i].1)
    ensures ParseColumnDefs(ColumnDefs(cols)) == Some(cols)
  {
    if |cols| > 0 {
      ParseDefListOf(cols);
    }
  }
}
