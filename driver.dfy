/** `main` and `print_info`: the options update the configuration, then one
    of three things happens: report, build the table, or nothing
    (invdash/invdash.py:115-141). */
module Driver {
  import opened Wrappers
  import opened Inventory
  import opened Schema
  import opened Rows
  import opened SearchIndex

  /** The options docopt hands to `main`: `-o PATH`, `-e`, `-q` and the
      positional `OBJECTS` path. */
  datatype Args = Args(output: Option<string>, extended: bool, quiet: bool, objects: Option<string>)

  /** Python truthiness of an optional string option: present and not empty. */
  predicate Given(arg: Option<string>)
  {
    arg.Some? && arg.value != ""
  }

  /** Python truthiness of an optional inventory: present and holding at
      least one tag. */
  predicate NonEmpty(inv: Option<Inventory>)
  {
    inv.Some? && inv.value != []
  }

  /** The inventory `main` works with: read from `OBJECTS` when that is
      given, otherwise none. `read` stands for `read_objs`. */
  function Loaded(args: Args, read: string -> Inventory): Option<Inventory>
  {
    if Given(args.objects) then Some(read(args.objects.value)) else None
  }

  /** What `print_info` writes: the schema text, then the list of tags when
      there is a non-empty inventory. */
  datatype Report = Report(schema: string, tags: Option<seq<string>>)

  function PrintInfo(schema: string, inv: Option<Inventory>): (r: Report)
    ensures r.schema == schema
    ensures r.tags.Some? <==> NonEmpty(inv)
    ensures r.tags.Some? ==> |r.tags.value| == |inv.value|
    ensures r.tags.Some? ==> forall i :: 0 <= i < |inv.value| ==> r.tags.value[i] == inv.value[i].tag
  {
    if NonEmpty(inv) then Report(schema, Some(Tags(inv.value))) else Report(schema, None)
  }

  /** How a run of `main` ends. */
  datatype Outcome =
    | Reported(report: Report)
    | Indexed(db: Database, status: Status)
    | Idle

  /** `main`: `-o` replaces the output path, `-e` switches schema and
      template together; then `-q` reports and stops, a non-empty inventory
      is written to a new table, and anything else does nothing. */
  method Run(config: Config, args: Args, read: string -> Inventory) returns (outcome: Outcome)
    requires config.Valid()
    modifies config
    ensures config.Valid()
    ensures config.dbPath == if Given(args.output) then args.output.value else old(config.dbPath)
    ensures args.extended ==> config.schema == ExtendedSchema && config.queryTmpl == ExtQryTmpl
    ensures args.extended ==> config.IsExtendedSchema()
    ensures !args.extended ==> config.schema == old(config.schema) && config.queryTmpl == old(config.queryTmpl)
    ensures args.quiet ==> outcome == Reported(PrintInfo(config.schema, Loaded(args, read)))
    ensures !args.quiet && NonEmpty(Loaded(args, read)) ==>
      && outcome.Indexed?
      && fresh(outcome.db)
      && outcome.db.path == config.dbPath
      && outcome.db.schema == config.schema
      && outcome.db.rows == Emitted(Loaded(args, read).value, config.IsExtendedSchema())
      && outcome.status == if FirstUnmapped(Loaded(args, read).value).None? then Done
                           else KeyError(FirstUnmapped(Loaded(args, read).value).value)
    ensures !args.quiet && !NonEmpty(Loaded(args, read)) ==> outcome == Idle
  {
    if Given(args.output) {
      config.dbPath := args.output.value;
    }
    if args.extended {
      config.schema := StandardSchema + ",\n" + SchemaExtensions;
      config.queryTmpl := ExtQryTmpl;
      ExtendedSchemaExtends();
    }
    var inv: Option<Inventory>;
    if Given(args.objects) {
      inv := Some(read(args.objects.value));
    } else {
      inv := None;
    }
    if args.quiet {
      return Reported(PrintInfo(config.schema, inv));
    }
    if NonEmpty(inv) {
      var db, status := MkTab(config, inv.value);
      return Indexed(db, status);
    }
    return Idle;
  }
}
