# invdash in Dafny

A model of `invdash`, the converter that turns a Sphinx `objects.inv`
inventory into the `searchIndex` table of a Dash docset, with proofs about
what the conversion writes.

The inventory comes from Sphinx as a mapping from a `domain:role` tag (such
as `py:function`) to a mapping from symbol name to record. The converter
looks up each tag's Dash category in a fixed table (`types_mapping`). It then
inserts one row per symbol: `(name, category, location)`, or in the extended
schema `(name, category, location, tag)`. A module-level configuration object
holds the output path, the schema text and the insert template. `main` updates
that object from the command-line options. It then prints information (`-q`),
builds the table (when the inventory is non-empty), or does nothing.

The modules follow the components of `invdash/invdash.py`:

- `TypeMap` (`typemap.dfy`): `types_mapping` as a literal map. `MapType` is
  the lookup, and it returns `None` where Python raises KeyError.
- `Inventory` (`inventory.dfy`): the shape of the parsed inventory. Groups are
  a sequence of `(tag, entries)` in iteration order, and each entry is a name
  with its record `(project, version, location, display name)`.
- `Schema` (`schema.dfy`): the schema texts, the two insert templates, the
  default path, and the `Config` class with the `is_extended_schema`
  property. It also counts the `?` markers of a template. Each literal
  template is proved equal to a rendering from its column list, and that
  rendering fixes its marker count.
- `Rows` (`rows.dfy`): the pure part of the conversion. `TypeRows` is the list
  comprehension of `insert_type_recs`. `Emitted` gives the rows appended over
  a whole inventory, up to the first unmapped tag, and `FirstUnmapped` gives
  that tag.
- `SearchIndex` (`searchindex.dfy`): the table is a `Database` object with the
  path and schema it was created with and a `rows` sequence. `executemany`
  only ever appends to `rows`. `InsertTypeRecs`, `InsertInvRecords` (a loop
  over the groups) and `MkTab` are proved against `Rows`.
- `Driver` (`driver.dfy`): `print_info` as a function and `main` as `Run`,
  which updates the `Config` object in place.

Python truthiness is modelled explicitly. An option given as the empty string
counts as absent. An inventory counts as present only when it has at least
one tag, even if that tag has no entries.

## Model

| member | source | states |
|---|---|---|
| TypeMap.MapType | invdash/invdash.py:20-49 | a lookup fails exactly when the tag is not a key of `types_mapping`; when it succeeds, the category is one of the table's fixed category names |
| TypeMap.KnownLookups | invdash/invdash.py:20-49 | `py:function`→`Function`, `py:class`→`Class`, `py:staticmethod`→`Method`, `std:2to3fixer`→`XXX`, `std:label`→`Section`; `js:function` is not a key |
| Inventory.Tags | invdash/invdash.py:119 | `list(inv.keys())` has one element per group: that group's tag, in iteration order |
| Rows.TypeRows | invdash/invdash.py:105-110 | one row per entry, in order: name = the entry's key, type = the category, path = `rec[2]` unchanged; arity 4 with the raw tag last in extended mode, arity 3 otherwise |
| Rows.FirstUnmappedIsFirst | invdash/invdash.py:98-103 | the conversion fails iff some group's tag is unmapped; the failing tag is unmapped, and every group before it is mapped |
| Rows.EmittedAppend | invdash/invdash.py:97-99 | rows are appended group after group: after a fully mapped prefix, the rows of the rest follow those of the prefix, and so does the failure |
| Rows.EmittedExtend | invdash/invdash.py:98-99 | one more mapped group appends exactly its own `TypeRows` after the rows already emitted |
| Rows.EmittedStopsAt | invdash/invdash.py:98-103 | at the first unmapped tag the conversion fails with that tag, and no rows follow those of the earlier groups |
| Rows.EmittedCount | invdash/invdash.py:97-112 | when every tag is mapped, the number of rows equals the total number of entries over all groups |
| Rows.EmittedRowsWellFormed | invdash/invdash.py:103-110 | every row has the arity of the mode and a category from the table's values; in extended mode its 4th field is a key that maps to its category |
| Rows.EmittedRowsFromEntries | invdash/invdash.py:97-110 | every emitted row is the row built for some entry of some mapped group |
| Rows.EveryEntryEmitted | invdash/invdash.py:97-110 | when every tag is mapped, the row of every entry of every group is emitted |
| Rows.SampleConversion | invdash/invdash.py:102-110 | `foo` (`py:function`, at `foo.html#foo`) yields `(foo, Function, foo.html#foo)`, with `py:function` appended in extended mode |
| Schema.InsertStatementArity | invdash/invdash.py:62-66 | an insert statement rendered from a column list has one `?` per column |
| Schema.StdTemplateArity | invdash/invdash.py:62-63 | `std_qry_tmpl` has exactly 3 `?` markers, the standard row arity |
| Schema.ExtTemplateArity | invdash/invdash.py:65-66 | `ext_qry_tmpl` has exactly 4 `?` markers, the extended row arity |
| Schema.ExtendedSchemaExtends | invdash/invdash.py:75-77 | the `-e` schema has the standard schema as a proper prefix, so `is_extended_schema` is true for it and false for the standard one |
| Schema.InStepArity | invdash/invdash.py:62-73 | when schema and template are one of the two matching pairs, the template's marker count equals the row arity that the schema selects |
| Schema.Config.constructor | invdash/invdash.py:69-73 | the defaults are `docSet.dsidx`, the standard schema and the standard template; the schema and template match, and the schema is not extended |
| SearchIndex.Database.constructor | invdash/invdash.py:90-91 | connecting and creating the table gives an empty table with the configured path and schema |
| SearchIndex.Database.ExecuteMany | invdash/invdash.py:112 | the batch is accepted iff every row binds as many values as the statement has markers; an accepted batch is appended in order, and existing rows never change |
| SearchIndex.InsertTypeRecs | invdash/invdash.py:102-112 | an unmapped tag gives KeyError and inserts nothing; otherwise exactly `TypeRows` of the group are appended, and the template always accepts them |
| SearchIndex.InsertInvRecords | invdash/invdash.py:97-99 | the table grows by exactly `Emitted(inv)`; the result is KeyError of the first unmapped tag, or success |
| SearchIndex.MkTab | invdash/invdash.py:89-94 | a fresh table at the configured path with the configured schema holds exactly `Emitted(inv)` |
| Driver.PrintInfo | invdash/invdash.py:115-119 | the report holds the schema text; it lists the tags, in order, iff the inventory is present and non-empty |
| Driver.Run | invdash/invdash.py:122-141 | `-o PATH` sets the path to exactly PATH; `-e` sets the extended schema and template together; nothing else in the config changes. With `-q`, it reports and writes nothing, whether or not an inventory was read. Otherwise a non-empty inventory gives a fresh table holding `Emitted(inv)`, and an absent or empty one gives no action |

## Left out

- `read_objs` and the `objects.inv` format (invdash/invdash.py:83-86). Parsing, decompression and location resolution belong to Sphinx's `InventoryFile.load`, which is not part of this model. `Run` takes the reader as a function parameter and models only the shape of what it returns. A parse error is not modelled.
- SQLite itself (invdash/invdash.py:90-94). The model does not cover the file on disk, `commit` and `close`, the error when a `searchIndex` table already exists, or what a rolled-back transaction leaves behind. After a KeyError, `Database.rows` holds the rows of the earlier groups, as the open connection does. Whether they reach the file is not modelled.
- SearchIndex.Database.ExecuteMany: when a row binds the wrong number of values, SQLite raises an error partway through the batch. The model instead inserts nothing and reports failure. This case never arises, because `InsertTypeRecs` proves that every batch is accepted.
- All-or-nothing writing: the code has no transaction logic of its own, so the model makes no atomicity claim.
- An immutable configuration value: the code instead updates one module-level `Config` object, and the model follows the code.
- docopt option parsing and the `__main__` block (invdash/invdash.py:144-146). `Args` is the parsed result.
- What `print_info` writes to standard output. `PrintInfo` returns the schema text and the tag list instead of printing them.
- Uniqueness of dictionary keys: names within a group and tags across groups are unique in Python dictionaries. The model does not require this, because no operation depends on it.
