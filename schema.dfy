/** The two table schemas, the two insert templates, and the mutable
    configuration object that selects one pair of them
    (invdash/invdash.py:51-80). */
module Schema {
  import opened Seqs

  /** `standard_schema`: the columns of `searchIndex`. */
  const StandardSchema: string := "\nid INTEGER PRIMARY KEY,\nname TEXT,\ntype TEXT,\npath TEXT\n"

  /** `schema_extensions`: the extra column of the extended schema. */
  const SchemaExtensions: string := "\nraw_type TEXT\n"

  /** What `main` stores for `-e`: `'{},\n{}'.format(standard_schema, schema_extensions)`. */
  const ExtendedSchema: string := StandardSchema + ",\n" + SchemaExtensions

  /** `std_qry_tmpl`: three bound values. */
  const StdQryTmpl: string := "insert into searchIndex (name, type, path) " + "values (?, ?, ?)"

  /** `ext_qry_tmpl`: four bound values. */
  const ExtQryTmpl: string := "insert into searchIndex (name, type, path, raw_type) " + "values (?, ?, ?, ?)"

  /** `'docSet.dsidx'`, the default output path. */
  const DefaultDbPath: string := "docSet.dsidx"

  /** The `is_extended_schema` test, on the schema text. */
  predicate IsExtended(schema: string)
  {
    schema != StandardSchema
  }

  /** Number of values a row carries in standard or extended mode. */
  function RowArity(extended: bool): nat
  {
    if extended then 4 else 3
  }

  /** The columns each template names, in binding order. */
  const StdColumns: seq<string> := ["name", "type", "path"]
  const ExtColumns: seq<string> := ["name", "type", "path", "raw_type"]

  /** The number of `?` parameter markers in an SQL statement, which is the
      number of values SQLite expects to bind per row. */
  function Placeholders(sql: string): nat
  {
    if sql == [] then 0 else (if sql[0] == '?' then 1 else 0) + Placeholders(sql[1..])
  }

  lemma {:induction false} PlaceholdersAppend(a: string, b: string)
    ensures Placeholders(a + b) == Placeholders(a) + Placeholders(b)
  {
    if a == [] {
      assert a + b == b;
    } else {
      assert (a + b)[1..] == a[1..] + b;
      PlaceholdersAppend(a[1..], b);
    }
  }

  // The literal templates are checked against a rendering from their column
  // lists; the rendering is what makes their marker counts provable.

  /** A column list joined with ", ". */
  function JoinColumns(columns: seq<string>): string
  {
    if columns == [] then ""
    else if |columns| == 1 then columns[0]
    else columns[0] + ", " + JoinColumns(columns[1..])
  }

  /** `n` parameter markers joined with ", ". */
  function Markers(n: nat): string
  {
    if n == 0 then "" else if n == 1 then "?" else "?, " + Markers(n - 1)
  }

  /** The first half of an insert statement: table and column list. */
  function IntoClause(table: string, columns: seq<string>): string
  {
    "insert into " + table + " (" + JoinColumns(columns) + ") "
  }

  /** The second half of an insert statement: one marker per value. */
  function ValuesClause(n: nat): string
  {
    "values (" + Markers(n) + ")"
  }

  lemma {:induction false} JoinColumnsPlaceholders(columns: seq<string>)
    requires forall i :: 0 <= i < |columns| ==> Placeholders(columns[i]) == 0
    ensures Placeholders(JoinColumns(columns)) == 0
  {
    if |columns| > 1 {
      JoinColumnsPlaceholders(columns[1..]);
      PlaceholdersAppend(columns[0], ", ");
      PlaceholdersAppend(columns[0] + ", ", JoinColumns(columns[1..]));
    }
  }

  lemma {:induction false} MarkersPlaceholders(n: nat)
    ensures Placeholders(Markers(n)) == n
  {
    if n > 1 {
      MarkersPlaceholders(n - 1);
      PlaceholdersAppend("?, ", Markers(n - 1));
    }
  }

  lemma InsertKeywordUnmarked()
    ensures Placeholders("insert into ") == 0
  {
  }

  /** The table and column part binds nothing when no name in it holds a
      marker. */
  lemma IntoClausePlaceholders(table: string, columns: seq<string>)
    requires Placeholders(table) == 0
    requires forall i :: 0 <= i < |columns| ==> Placeholders(columns[i]) == 0
    ensures Placeholders(IntoClause(table, columns)) == 0
  {
    var head := "insert into " + table;
    var cols := JoinColumns(columns);
    InsertKeywordUnmarked();
    JoinColumnsPlaceholders(columns);
    assert Placeholders(" (") == 0 && Placeholders(") ") == 0;
    PlaceholdersAppend("insert into ", table);
    PlaceholdersAppend(head, " (");
    PlaceholdersAppend(head + " (", cols);
    PlaceholdersAppend(head + " (" + cols, ") ");
  }

  /** The values part binds exactly `n` values. */
  lemma ValuesClausePlaceholders(n: nat)
    ensures Placeholders(ValuesClause(n)) == n
  {
    MarkersPlaceholders(n);
    PlaceholdersAppend("values (", Markers(n));
    PlaceholdersAppend("values (" + Markers(n), ")");
  }

  lemma StdColumnsJoined()
    ensures JoinColumns(StdColumns) == "name, type, path"
  {
  }

  lemma ExtColumnsJoined()
    ensures JoinColumns(ExtColumns) == "name, type, path, raw_type"
  {
  }

  lemma StdIntoTextJoined(head: string, tail: string)
    requires head == "insert into searchIndex (" && tail == "name, type, path) "
    ensures head + tail == "insert into searchIndex (name, type, path) "
  {
  }

  lemma StdIntoText(cols: string)
    requires cols == "name, type, path"
    ensures "insert into " + "searchIndex" + " (" + cols + ") " == "insert into searchIndex (name, type, path) "
  {
    var head := "insert into " + "searchIndex" + " (";
    assert head == "insert into searchIndex (";
    assert cols + ") " == "name, type, path) ";
    AppendAssoc(head, cols, ") ");
    StdIntoTextJoined(head, cols + ") ");
  }

  lemma ExtIntoTextJoined(head: string, tail: string)
    requires head == "insert into searchIndex (" && tail == "name, type, path, raw_type) "
    ensures head + tail == "insert into searchIndex (name, type, path, raw_type) "
  {
  }

  lemma ExtIntoText(cols: string)
    requires cols == "name, type, path, raw_type"
    ensures "insert into " + "searchIndex" + " (" + cols + ") " == "insert into searchIndex (name, type, path, raw_type) "
  {
    var head := "insert into " + "searchIndex" + " (";
    assert head == "insert into searchIndex (";
    assert cols + ") " == "name, type, path, raw_type) ";
    AppendAssoc(head, cols, ") ");
    ExtIntoTextJoined(head, cols + ") ");
  }

  lemma StdColumnsRendered()
    ensures IntoClause("searchIndex", StdColumns) == "insert into searchIndex (name, type, path) "
  {
    StdColumnsJoined();
    StdIntoText(JoinColumns(StdColumns));
  }

  lemma ExtColumnsRendered()
    ensures IntoClause("searchIndex", ExtColumns) == "insert into searchIndex (name, type, path, raw_type) "
  {
    ExtColumnsJoined();
    ExtIntoText(JoinColumns(ExtColumns));
  }

  lemma TableNameUnmarked()
    ensures Placeholders("searchIndex") == 0
  {
  }

  lemma ColumnNamesUnmarked()
    ensures forall i :: 0 <= i < |StdColumns| ==> Placeholders(StdColumns[i]) == 0
    ensures forall i :: 0 <= i < |ExtColumns| ==> Placeholders(ExtColumns[i]) == 0
  {
    assert Placeholders("name") == 0 && Placeholders("type") == 0;
    assert Placeholders("path") == 0 && Placeholders("raw_type") == 0;
  }

  lemma StdValuesRendered()
    ensures ValuesClause(3) == "values (?, ?, ?)"
  {
  }

  lemma ExtValuesRendered()
    ensures ValuesClause(4) == "values (?, ?, ?, ?)"
  {
  }

  /** An insert statement binds one value per column, provided no name in
      it holds a marker. */
  lemma InsertStatementArity(table: string, columns: seq<string>)
    requires Placeholders(table) == 0
    requires forall i :: 0 <= i < |columns| ==> Placeholders(columns[i]) == 0
    ensures Placeholders(IntoClause(table, columns) + ValuesClause(|columns|)) == |columns|
  {
    IntoClausePlaceholders(table, columns);
    ValuesClausePlaceholders(|columns|);
    PlaceholdersAppend(IntoClause(table, columns), ValuesClause(|columns|));
  }

  /** The standard template binds 3 values. */
  lemma StdTemplateArity()
    ensures Placeholders(StdQryTmpl) == RowArity(false)
  {
    TableNameUnmarked();
    ColumnNamesUnmarked();
    StdColumnsRendered();
    StdValuesRendered();
    InsertStatementArity("searchIndex", StdColumns);
  }

  /** The extended template binds 4 values. */
  lemma ExtTemplateArity()
    ensures Placeholders(ExtQryTmpl) == RowArity(true)
  {
    TableNameUnmarked();
    ColumnNamesUnmarked();
    ExtColumnsRendered();
    ExtValuesRendered();
    InsertStatementArity("searchIndex", ExtColumns);
  }

  /** The extended schema is the standard one with a column added: it starts
      with the standard text and differs from it, so `is_extended_schema`
      tells the two apart. */
  lemma ExtendedSchemaExtends()
    ensures StandardSchema < ExtendedSchema
    ensures IsExtended(ExtendedSchema) && !IsExtended(StandardSchema)
  {
  }

  /** The two pairs `main` can leave behind: schema and template chosen
      together. */
  predicate InStep(schema: string, queryTmpl: string)
  {
    || (schema == StandardSchema && queryTmpl == StdQryTmpl)
    || (schema == ExtendedSchema && queryTmpl == ExtQryTmpl)
  }

  /** When schema and template are in step, the template binds exactly as
      many values as a row built for that schema holds. */
  lemma InStepArity(schema: string, queryTmpl: string)
    requires InStep(schema, queryTmpl)
    ensures Placeholders(queryTmpl) == RowArity(IsExtended(schema))
  {
    StdTemplateArity();
    ExtTemplateArity();
    ExtendedSchemaExtends();
  }

  /** `Config`: the module-level object that `main` updates in place. */
  class Config {
    var dbPath: string
    var schema: string
    var queryTmpl: string

    /** Schema and template are one of the two matching pairs. */
    predicate Valid()
      reads this
    {
      InStep(schema, queryTmpl)
    }

    /** The `is_extended_schema` property. */
    predicate IsExtendedSchema()
      reads this
    {
      IsExtended(schema)
    }

    /** `Config()`: the defaults. */
    constructor ()
      ensures dbPath == DefaultDbPath
      ensures schema == StandardSchema && queryTmpl == StdQryTmpl
      ensures Valid() && !IsExtendedSchema()
    {
      dbPath := DefaultDbPath;
      schema := StandardSchema;
      queryTmpl := StdQryTmpl;
    }
  }
}
