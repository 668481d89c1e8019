/** The pure half of the conversion: the rows that `insert_type_recs` builds
    with its list comprehensions, and what `insert_inv_records` emits over a
    whole inventory (invdash/invdash.py:97-112). */
module Rows {
  import opened Wrappers
  import opened TypeMap
  import opened Inventory
  import opened Schema

  /** One tuple handed to `executemany`: (name, type, path) or
      (name, type, path, raw_type). */
  type Row = seq<string>

  /** The tuple built for one entry. */
  function MakeRow(tag: string, category: string, e: Entry, extended: bool): Row
  {
    if extended then [e.name, category, e.rec.location, tag]
    else [e.name, category, e.rec.location]
  }

  /** The list comprehension of `insert_type_recs`: one row per entry of a
      group, in the group's order, naming the entry, its category and its
      location unchanged, plus the raw tag in extended mode. */
  function TypeRows(tag: string, category: string, entries: seq<Entry>, extended: bool): (rows: seq<Row>)
    ensures |rows| == |entries|
    ensures forall i :: 0 <= i < |rows| ==> rows[i] == MakeRow(tag, category, entries[i], extended)
    ensures forall i :: 0 <= i < |rows| ==>
      && |rows[i]| == RowArity(extended)
      && rows[i][0] == entries[i].name
      && rows[i][1] == category
      && rows[i][2] == entries[i].rec.location
      && (extended ==> rows[i][3] == tag)
  {
    if entries == [] then []
    else [MakeRow(tag, category, entries[0], extended)] + TypeRows(tag, category, entries[1..], extended)
  }

  /** Every group before position `k` has a mapped tag. */
  predicate MappedBefore(inv: Inventory, k: nat)
  {
    forall j :: 0 <= j < k && j < |inv| ==> inv[j].tag in TypesMapping
  }

  /** The first tag, in iteration order, that has no category: the key on
      which `types_mapping[inv_type]` raises KeyError. */
  function FirstUnmapped(inv: Inventory): Option<string>
  {
    if inv == [] then None
    else if inv[0].tag !in TypesMapping then Some(inv[0].tag)
    else FirstUnmapped(inv[1..])
  }

  /** The conversion fails exactly when some tag is unmapped, and then on
      the earliest such group. */
  lemma {:induction false} FirstUnmappedIsFirst(inv: Inventory)
    ensures FirstUnmapped(inv).None? <==> forall i :: 0 <= i < |inv| ==> inv[i].tag in TypesMapping
    ensures FirstUnmapped(inv).Some? ==> FirstUnmapped(inv).value !in TypesMapping
    ensures FirstUnmapped(inv).Some? ==>
      exists k :: 0 <= k < |inv| && MappedBefore(inv, k) && inv[k].tag == FirstUnmapped(inv).value
  {
    if inv != [] && inv[0].tag in TypesMapping {
      var rest := inv[1..];
      FirstUnmappedIsFirst(rest);
      assert forall i :: 0 < i < |inv| ==> inv[i] == rest[i - 1];
      if FirstUnmapped(rest).Some? {
        var k :| 0 <= k < |rest| && MappedBefore(rest, k) && rest[k].tag == FirstUnmapped(rest).value;
        assert MappedBefore(inv, k + 1);
      }
    } else if inv != [] {
      assert MappedBefore(inv, 0);
    }
  }

  /** The rows appended to the table, group after group, up to the first
      unmapped tag (all rows when there is none). */
  function Emitted(inv: Inventory, extended: bool): seq<Row>
  {
    if inv == [] then []
    else match MapType(inv[0].tag)
      case None => []
      case Some(category) =>
        TypeRows(inv[0].tag, category, inv[0].entries, extended) + Emitted(inv[1..], extended)
  }

  /** Emission is group by group: running over two inventories one after the
      other appends the rows of the second after those of the first. */
  lemma {:induction false} EmittedAppend(a: Inventory, b: Inventory, extended: bool)
    requires FirstUnmapped(a).None?
    ensures Emitted(a + b, extended) == Emitted(a, extended) + Emitted(b, extended)
    ensures FirstUnmapped(a + b) == FirstUnmapped(b)
  {
    if a == [] {
      assert a + b == b;
    } else {
      assert (a + b)[0] == a[0];
      assert (a + b)[1..] == a[1..] + b;
      EmittedAppend(a[1..], b, extended);
    }
  }

  /** When every tag is mapped, one row is emitted per entry of the
      inventory. */
  lemma {:induction false} EmittedCount(inv: Inventory, extended: bool)
    requires FirstUnmapped(inv).None?
    ensures |Emitted(inv, extended)| == TotalEntries(inv)
  {
    if inv != [] {
      assert inv[0].tag in TypesMapping;
      EmittedCount(inv[1..], extended);
    }
  }

  /** Every emitted row has the arity of the mode, a category from the
      table's value set, and in extended mode a raw tag that maps to that
      category. */
  lemma {:induction false} EmittedRowsWellFormed(inv: Inventory, extended: bool)
    ensures forall r :: r in Emitted(inv, extended) ==>
      && |r| == RowArity(extended)
      && r[1] in Categories
      && (extended ==> r[3] in TypesMapping && TypesMapping[r[3]] == r[1])
  {
    if inv != [] && inv[0].tag in TypesMapping {
      var tag := inv[0].tag;
      var head := TypeRows(tag, TypesMapping[tag], inv[0].entries, extended);
      EmittedRowsWellFormed(inv[1..], extended);
      forall r | r in head
        ensures |r| == RowArity(extended) && r[1] == TypesMapping[tag] && (extended ==> r[3] == tag)
      {
        var i :| 0 <= i < |head| && head[i] == r;
      }
      assert MapType(tag).Some?;
    }
  }

  /** A mapped group after a fully mapped prefix adds its own rows after
      those of the prefix. */
  lemma EmittedExtend(inv: Inventory, k: nat, extended: bool)
    requires k < |inv| && inv[k].tag in TypesMapping
    requires FirstUnmapped(inv[..k]).None?
    ensures FirstUnmapped(inv[..k + 1]).None?
    ensures Emitted(inv[..k + 1], extended)
         == Emitted(inv[..k], extended) + TypeRows(inv[k].tag, TypesMapping[inv[k].tag], inv[k].entries, extended)
  {
    var g := inv[k];
    assert inv[..k + 1] == inv[..k] + [g];
    EmittedAppend(inv[..k], [g], extended);
    assert [g][1..] == [];
    assert MapType(g.tag) == Some(TypesMapping[g.tag]);
  }

  /** An unmapped tag after a fully mapped prefix stops emission: its tag is
      the first unmapped one and no rows come after the prefix's. */
  lemma EmittedStopsAt(inv: Inventory, k: nat, extended: bool)
    requires k < |inv| && inv[k].tag !in TypesMapping
    requires FirstUnmapped(inv[..k]).None?
    ensures FirstUnmapped(inv) == Some(inv[k].tag)
    ensures Emitted(inv, extended) == Emitted(inv[..k], extended)
  {
    assert inv == inv[..k] + inv[k..];
    EmittedAppend(inv[..k], inv[k..], extended);
    assert inv[k..][0] == inv[k];
    assert Emitted(inv[k..], extended) == [];
  }

  /** Row `r` is the one built for entry `j` of group `k`. */
  predicate RowOf(inv: Inventory, k: nat, j: nat, r: Row, extended: bool)
  {
    && k < |inv| && j < |inv[k].entries|
    && inv[k].tag in TypesMapping
    && r == MakeRow(inv[k].tag, TypesMapping[inv[k].tag], inv[k].entries[j], extended)
  }

  /** Nothing is emitted that was not built from an entry of the inventory. */
  lemma {:induction false} EmittedRowsFromEntries(inv: Inventory, extended: bool)
    ensures forall r :: r in Emitted(inv, extended) ==>
      exists k: nat, j: nat :: RowOf(inv, k, j, r, extended)
  {
    if inv != [] && inv[0].tag in TypesMapping {
      var g := inv[0];
      var head := TypeRows(g.tag, TypesMapping[g.tag], g.entries, extended);
      EmittedRowsFromEntries(inv[1..], extended);
      assert MapType(g.tag).Some?;
      assert Emitted(inv, extended) == head + Emitted(inv[1..], extended);
      forall r | r in Emitted(inv, extended)
        ensures exists k: nat, j: nat :: RowOf(inv, k, j, r, extended)
      {
        if r in head {
          var j :| 0 <= j < |head| && head[j] == r;
          assert RowOf(inv, 0, j, r, extended);
        } else {
          var k: nat, j: nat :| RowOf(inv[1..], k, j, r, extended);
          assert RowOf(inv, k + 1, j, r, extended);
        }
      }
    }
  }

  /** When every tag is mapped, every entry of the inventory has its row
      among those emitted. */
  lemma {:induction false} EveryEntryEmitted(inv: Inventory, extended: bool)
    requires FirstUnmapped(inv).None?
    ensures forall k: nat, j: nat, r :: RowOf(inv, k, j, r, extended) ==> r in Emitted(inv, extended)
  {
    if inv != [] {
      var g := inv[0];
      var head := TypeRows(g.tag, TypesMapping[g.tag], g.entries, extended);
      EveryEntryEmitted(inv[1..], extended);
      assert MapType(g.tag).Some?;
      forall k: nat, j: nat, r | RowOf(inv, k, j, r, extended)
        ensures r in Emitted(inv, extended)
      {
        if k == 0 {
          assert head[j] == r;
        } else {
          assert RowOf(inv[1..], k - 1, j, r, extended);
        }
      }
    }
  }

  /** A one-entry inventory: `foo`, a `py:function` documented at
      `foo.html#foo`, becomes the single row (foo, Function, foo.html#foo),
      with `py:function` appended in extended mode. */
  lemma SampleConversion()
    ensures var e := Entry("foo", ObjRecord("proj", "1.0", "foo.html#foo", "-"));
      && Emitted([Group("py:function", [e])], false) == [["foo", "Function", "foo.html#foo"]]
      && Emitted([Group("py:function", [e])], true) == [["foo", "Function", "foo.html#foo", "py:function"]]
  {
  }
}
