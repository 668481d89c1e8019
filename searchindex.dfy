/** The writing half of the conversion: the `searchIndex` table and the
    functions that fill it (invdash/invdash.py:89-112). The SQLite
    connection is abstracted to the schema it was created with and the
    sequence of rows inserted so far. */
module SearchIndex {
  import opened TypeMap
  import opened Inventory
  import opened Schema
  import opened Rows
  import opened Seqs

  /** How a conversion ends: every group inserted, or KeyError on a tag
      that has no category. */
  datatype Status = Done | KeyError(tag: string)

  /** An open connection holding a freshly created `searchIndex` table. */
  class Database {
    const path: string
    const schema: string
    var rows: seq<Row>

    /** `sqlite3.connect(path)` followed by `CREATE TABLE searchIndex (schema)`:
        an empty table. */
    constructor (path: string, schema: string)
      ensures this.path == path && this.schema == schema
      ensures rows == []
    {
      this.path := path;
      this.schema := schema;
      rows := [];
    }

    /** `executemany(sql, batch)`: every row must bind exactly as many
        values as `sql` has markers; if one does not, SQLite refuses and
        nothing is inserted, otherwise the batch is appended in order. */
    method ExecuteMany(sql: string, batch: seq<Row>) returns (ok: bool)
      modifies this
      ensures ok <==> forall i :: 0 <= i < |batch| ==> |batch[i]| == Placeholders(sql)
      ensures rows == if ok then old(rows) + batch else old(rows)
    {
      ok := forall i :: 0 <= i < |batch| ==> |batch[i]| == Placeholders(sql);
      if ok {
        rows := rows + batch;
      }
    }
  }

  /** `insert_type_recs`: look the tag up, build one row per entry in the
      configured mode and insert them with the configured template. The
      template always accepts the rows; an unmapped tag inserts nothing. */
  method InsertTypeRecs(db: Database, config: Config, tag: string, entries: seq<Entry>)
    returns (status: Status)
    requires config.Valid()
    modifies db
    ensures status == if tag in TypesMapping then Done else KeyError(tag)
    ensures db.rows == old(db.rows) + if tag in TypesMapping
      then TypeRows(tag, TypesMapping[tag], entries, config.IsExtendedSchema())
      else []
  {
    var category := MapType(tag);
    if category.None? {
      return KeyError(tag);
    }
    var rows := TypeRows(tag, category.value, entries, config.IsExtendedSchema());
    InStepArity(config.schema, config.queryTmpl);
    var ok := db.ExecuteMany(config.queryTmpl, rows);
    assert ok;
    status := Done;
  }

  /** `insert_inv_records`: the groups in iteration order, each appended
      after the previous one, stopping at the first KeyError. */
  method InsertInvRecords(db: Database, config: Config, inv: Inventory) returns (status: Status)
    requires config.Valid()
    modifies db
    ensures status == if FirstUnmapped(inv).None? then Done else KeyError(FirstUnmapped(inv).value)
    ensures db.rows == old(db.rows) + Emitted(inv, config.IsExtendedSchema())
  {
    ghost var extended := config.IsExtendedSchema();
    var i := 0;
    while i < |inv|
      invariant i <= |inv|
      invariant FirstUnmapped(inv[..i]).None?
      invariant db.rows == old(db.rows) + Emitted(inv[..i], extended)
    {
      ghost var before := db.rows;
      status := InsertTypeRecs(db, config, inv[i].tag, inv[i].entries);
      if status.KeyError? {
        EmittedStopsAt(inv, i, extended);
        return;
      }
      ghost var added := TypeRows(inv[i].tag, TypesMapping[inv[i].tag], inv[i].entries, extended);
      assert db.rows == before + added;
      EmittedExtend(inv, i, extended);
      AppendAssoc(old(db.rows), Emitted(inv[..i], extended), added);
      i := i + 1;
    }
    assert inv[..i] == inv;
    status := Done;
  }

  /** `mktab`: a new table at the configured path with the configured schema,
      filled from the inventory. */
  method MkTab(config: Config, inv: Inventory) returns (db: Database, status: Status)
    requires config.Valid()
    ensures fresh(db)
    ensures db.path == config.dbPath && db.schema == config.schema
    ensures status == if FirstUnmapped(inv).None? then Done else KeyError(FirstUnmapped(inv).value)
    ensures db.rows == Emitted(inv, config.IsExtendedSchema())
  {
    db := new Database(config.dbPath, config.schema);
    status := InsertInvRecords(db, config, inv);
  }
}
