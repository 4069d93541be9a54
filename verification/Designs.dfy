// The structs of a design. A reference is an object, because validation writes what it refers to.
module Designs {
  import opened Common

  // The tags of a field or a struct. An empty alias is none.
  datatype Tags = Tags(alias: string, direction: Direction)

  class RefType {
    const ref: string
    var refStruct: Option<Struct>

    constructor (ref: string)
      ensures this.ref == ref && refStruct == None
    {
      this.ref := ref;
      refStruct := None;
    }
  }

  datatype Kind =
    | Primitive(name: string)
    | Reference(node: RefType)
    | Nested(fields: seq<Field>)
    | Mapping(key: string, value: Typed)
  datatype Typed = Typed(depth: nat, kind: Kind)
  datatype Field = Field(name: string, tags: Tags, typed: Typed)
  datatype Struct = Struct(name: string, tags: Tags, fields: seq<Field>)

  // The structs that a type names itself.
  ghost function Refs(t: Kind): set<string>
    decreases t
  {
    match t
    case Primitive(_) => {}
    case Reference(node) => {node.ref}
    case Nested(fs) => RefsOf(fs)
    case Mapping(_, v) => Refs(v.kind)
  }

  ghost function RefsOf(fs: seq<Field>): set<string>
    decreases fs
  {
    if fs == [] then {} else Refs(fs[0].typed.kind) + RefsOf(fs[1..])
  }

  // The references in a type.
  ghost function Nodes(t: Kind): set<RefType>
    decreases t
  {
    match t
    case Primitive(_) => {}
    case Reference(node) => {node}
    case Nested(fs) => NodesOf(fs)
    case Mapping(_, v) => Nodes(v.kind)
  }

  ghost function NodesOf(fs: seq<Field>): set<RefType>
    decreases fs
  {
    if fs == [] then {} else Nodes(fs[0].typed.kind) + NodesOf(fs[1..])
  }

  // StructsMap: the structs under their names, the last one of a name.
  function ByName(structs: seq<Struct>): map<string, Struct> {
    if structs == [] then map[] else
    var s := structs[|structs| - 1];
    ByName(structs[..|structs| - 1])[s.name := s]
  }

  predicate NamesDiffer(structs: seq<Struct>) {
    forall i, j :: 0 <= i < j < |structs| ==> structs[i].name != structs[j].name
  }

  lemma {:induction false} NamedStruct(structs: seq<Struct>, i: nat)
    requires i < |structs| && NamesDiffer(structs)
    ensures structs[i].name in ByName(structs) && ByName(structs)[structs[i].name] == structs[i]
  {
    if i < |structs| - 1 {
      NamedStruct(structs[..|structs| - 1], i);
    }
  }

  lemma {:induction false} StructNamed(structs: seq<Struct>, s: string) returns (i: nat)
    requires s in ByName(structs)
    ensures i < |structs| && structs[i].name == s && ByName(structs)[s] == structs[i]
  {
    i := |structs| - 1;
    if structs[i].name != s {
      i := StructNamed(structs[..i], s);
    }
  }
}
