/** The closed table that turns a Sphinx `domain:role` tag into the
    category name a Dash docset shows for it (invdash/invdash.py:20-49). */
module TypeMap {
  import opened Wrappers

  /** `types_mapping`, entry for entry. */
  const TypesMapping: map<string, string> := map[
    "c:function"      := "Function",
    "c:macro"         := "Macro",
    "c:member"        := "Member",
    "c:type"          := "Type",
    "c:var"           := "Variable",
    "py:attribute"    := "Attribute",
    "py:class"        := "Class",
    "py:classmethod"  := "Method",
    "py:data"         := "Constant",
    "py:exception"    := "Exception",
    "py:function"     := "Function",
    "py:method"       := "Method",
    "py:module"       := "Module",
    "py:parameter"    := "Parameter",
    "py:staticmethod" := "Method",
    "std:2to3fixer"   := "XXX",
    "std:cmdoption"   := "Option",
    "std:doc"         := "Guide",
    "std:envvar"      := "Variable",
    "std:label"       := "Section",
    "std:opcode"      := "Instruction",
    "std:option"      := "Option",
    "std:pdbcommand"  := "Command",
    "std:term"        := "Word",
    "std:token"       := "Syntax"
  ]

  /** The Dash categories the table can produce, written out independently
      of the table itself. */
  const Categories: set<string> := {
    "Function", "Macro", "Member", "Type", "Variable", "Attribute", "Class",
    "Method", "Constant", "Exception", "Module", "Parameter", "XXX", "Option",
    "Guide", "Section", "Instruction", "Command", "Word", "Syntax"
  }

  /** `types_mapping[tag]`: the category of a tag, or None where Python
      raises KeyError. */
  function MapType(tag: string): (r: Option<string>)
    ensures r.None? <==> tag !in TypesMapping
    ensures r.Some? ==> r.value in Categories
  {
    if tag in TypesMapping then Some(TypesMapping[tag]) else None
  }

  /** A few lookups, each returning exactly the literal in the table, and a
      tag that is not a key and so fails. */
  lemma KnownLookups()
    ensures MapType("py:function") == Some("Function")
    ensures MapType("py:class") == Some("Class")
    ensures MapType("py:staticmethod") == Some("Method")
    ensures MapType("std:2to3fixer") == Some("XXX")
    ensures MapType("std:label") == Some("Section")
    ensures MapType("js:function") == None
  {
  }
}
