/** The shape of what Sphinx's `InventoryFile.load` hands to the converter:
    tag -> (name -> record), kept as ordered sequences so that the order in
    which rows are emitted is fixed. */
module Inventory {

  /** One inventory record, the tuple (project name, project version,
      location, display name); the converter reads only `rec[2]`, the
      location. */
  datatype ObjRecord = ObjRecord(
    projectName: string,
    projectVersion: string,
    location: string,
    displayName: string)

  /** One item of the inner dictionary: the symbol name and its record. */
  datatype Entry = Entry(name: string, rec: ObjRecord)

  /** All entries that share one `domain:role` tag. */
  datatype Group = Group(tag: string, entries: seq<Entry>)

  /** The outer dictionary, in its iteration order. */
  type Inventory = seq<Group>

  /** Number of entries over all groups. */
  function TotalEntries(inv: Inventory): nat
  {
    if inv == [] then 0 else |inv[0].entries| + TotalEntries(inv[1..])
  }

  /** `list(inv.keys())`: the tags, in order. */
  function Tags(inv: Inventory): (tags: seq<string>)
    ensures |tags| == |inv|
    ensures forall i :: 0 <= i < |inv| ==> tags[i] == inv[i].tag
  {
    if inv == [] then [] else [inv[0].tag] + Tags(inv[1..])
  }
}
