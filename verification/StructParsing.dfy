// From the tree of a design file to structs: scalars are types in the notation, mappings are nested structs. References
// become objects of their own.
module StructParsing {
  import opened Common
  import opened Designs
  import opened TypeNotation
  import opened TypePrinters
  import opened Validation

  // A node of a design file with its tags. Comments are not part of it.
  datatype Yaml =
    | Scalar(value: string, tags: Tags)
    | Tree(items: seq<Item>, tags: Tags)
    | Other(tags: Tags)
  datatype Item = Item(key: string, node: Yaml)

  // A field's type as it was written.
  ghost predicate Built(t: Type, typed: Typed)
    decreases t
  {
    && typed.depth == t.depth
    && match t.core
       case Prim(name) => typed.kind == Primitive(name)
       case Ref(name) => typed.kind.Reference? && typed.kind.node.ref == name
       case Map(key, value) => typed.kind.Mapping? && typed.kind.key == key && Built(value, typed.kind.value)
  }

  // A mapping without repeated keys whose fields can be read, or a type in the notation.
  ghost predicate Readable(node: Yaml)
    decreases node
  {
    match node
    case Scalar(v, _) => Parse(v).Some?
    case Tree(items, _) => DistinctKeys(items) && forall i :: 0 <= i < |items| ==> Readable(items[i].node)
    case Other(_) => false
  }

  ghost predicate DistinctKeys(items: seq<Item>) {
    forall i, j :: 0 <= i < j < |items| ==> items[i].key != items[j].key
  }

  ghost predicate Matches(node: Yaml, t: Typed)
    decreases node
  {
    match node
    case Scalar(v, _) => Parse(v).Some? && Built(Parse(v).value, t)
    case Tree(items, _) =>
      && t.depth == 0 && t.kind.Nested? && |items| == |t.kind.fields|
      && forall i :: 0 <= i < |items| ==>
           var f := t.kind.fields[i];
           f.name == items[i].key && f.tags == items[i].node.tags && Matches(items[i].node, f.typed)
    case Other(_) => false
  }

  method Build(t: Type) returns (typed: Typed)
    ensures Built(t, typed) && fresh(Nodes(typed.kind))
    decreases t
  {
    match t.core
    case Prim(name) =>
      typed := Typed(t.depth, Primitive(name));
    case Ref(name) =>
      var node := new RefType(name);
      typed := Typed(t.depth, Reference(node));
    case Map(key, value) =>
      var v := Build(value);
      typed := Typed(t.depth, Mapping(key, v));
  }

  // ParseField, for a field of the given name.
  method ParseField(name: string, node: Yaml) returns (f: Option<Field>)
    ensures f.Some? <==> Readable(node)
    ensures f.Some? ==> f.value.name == name && f.value.tags == node.tags && Matches(node, f.value.typed)
    ensures f.Some? ==> fresh(Nodes(f.value.typed.kind))
    decreases node, 1
  {
    match node
    case Scalar(v, tags) =>
      var t := ParseFieldStringType(v);
      if t.None? {
        return None;
      }
      var typed := Build(t.value);
      f := Some(Field(name, tags, typed));
    case Tree(items, tags) =>
      var fs := ParseStruct(node);
      if fs.None? {
        return None;
      }
      f := Some(Field(name, tags, Typed(0, Nested(fs.value))));
    case Other(_) =>
      f := None;
  }

  // ParseStruct: the fields of a mapping, in its order.
  method ParseStruct(node: Yaml) returns (fs: Option<seq<Field>>)
    ensures fs.Some? <==> node.Tree? && Readable(node)
    ensures fs.Some? ==> Matches(node, Typed(0, Nested(fs.value))) && fresh(NodesOf(fs.value))
    decreases node, 0
  {
    if !node.Tree? {
      return None;
    }
    var items, fields: seq<Field> := node.items, [];
    var unique := UniqueKeys(items);
    if !unique {
      return None;
    }
    for i := 0 to |items|
      invariant |fields| == i && forall j :: 0 <= j < i ==> Readable(items[j].node)
      invariant forall j :: 0 <= j < i ==>
                  && fields[j].name == items[j].key && fields[j].tags == items[j].node.tags
                  && Matches(items[j].node, fields[j].typed)
      invariant fresh(NodesOf(fields))
    {
      var f := ParseField(items[i].key, items[i].node);
      if f.None? {
        return None;
      }
      NodesOfAppend(fields, f.value);
      fields := fields + [f.value];
    }
    fs := Some(fields);
  }

  // A struct of the design, as ParseYaml files it under its key.
  method ParseNamedStruct(name: string, node: Yaml) returns (st: Option<Struct>)
    ensures st.Some? <==> node.Tree? && Readable(node)
    ensures st.Some? ==> st.value.name == name && st.value.tags == node.tags
    ensures st.Some? ==> Matches(node, Typed(0, Nested(st.value.fields))) && fresh(NodesOf(st.value.fields))
  {
    var fs := ParseStruct(node);
    st := if fs.None? then None else Some(Struct(name, node.tags, fs.value));
  }

  // The loop of MapSlice that looks for repeated keys.
  method UniqueKeys(items: seq<Item>) returns (ok: bool)
    ensures ok <==> DistinctKeys(items)
  {
    var seen: set<string> := {};
    for i := 0 to |items|
      invariant forall k :: k in seen <==> exists j :: 0 <= j < i && items[j].key == k
      invariant forall j, k :: 0 <= j < k < i ==> items[j].key != items[k].key
    {
      if items[i].key in seen {
        return false;
      }
      seen := seen + {items[i].key};
    }
    ok := true;
  }

  lemma {:induction false} NodesOfAppend(fs: seq<Field>, f: Field)
    ensures NodesOf(fs + [f]) == NodesOf(fs) + Nodes(f.typed.kind)
    decreases fs
  {
    if fs == [] {
      assert fs + [f] == [f];
    } else {
      NodesOfAppend(fs[1..], f);
      assert (fs + [f])[1..] == fs[1..] + [f];
    }
  }

  // What is written in a type is what validation looks at.
  lemma {:induction false} KnownIsSound(m: map<string, Struct>, t: Type, typed: Typed)
    requires Built(t, typed)
    ensures Known(t, m.Keys) <==> Sound(m, typed.kind)
    decreases t
  {
    if t.core.Map? {
      KnownIsSound(m, t.core.value, typed.kind.value);
    }
  }

  lemma {:induction false} BuiltOnce(t: Type, u: Type, typed: Typed)
    requires Built(t, typed) && Built(u, typed)
    ensures t == u
    decreases t
  {
    if t.core.Map? {
      BuiltOnce(t.core.value, u.core.value, typed.kind.value);
    }
  }

  // The same file up to the tags of the whole.
  ghost predicate Same(node: Yaml, node': Yaml)
    decreases node
  {
    match node
    case Scalar(v, _) => node'.Scalar? && node'.value == v
    case Tree(items, _) =>
      && node'.Tree? && |node'.items| == |items|
      && forall i :: 0 <= i < |items| ==>
           var a, b := items[i], node'.items[i];
           a.key == b.key && a.node.tags == b.node.tags && Same(a.node, b.node)
    case Other(_) => false
  }

  // Nothing is lost: two files that read as the same struct are the same file.
  lemma {:induction false} MatchesOnce(node: Yaml, node': Yaml, t: Typed)
    requires Matches(node, t) && Matches(node', t)
    ensures Same(node, node')
    decreases node
  {
    match node {
      case Scalar(v, _) =>
        if node'.Scalar? {
          BuiltOnce(Parse(v).value, Parse(node'.value).value, t);
          ParseInjective(v, node'.value);
        }
      case Tree(items, _) =>
        if node'.Tree? {
          forall i | 0 <= i < |items|
            ensures Same(items[i].node, node'.items[i].node)
          {
            MatchesOnce(items[i].node, node'.items[i].node, t.kind.fields[i].typed);
          }
        }
      case Other(_) =>
    }
  }
}
