// The generated checks of one direction: the walk along resolved references that finds the fields to check, and what it
// does and does not cover.
module DirectedFields {
  import opened Common
  import opened Designs
  import opened TypePrinters
  import opened Validation

  // ---- Fields of one direction ------------------------------------------------------------------------------------

  // The fields that p goes through: untagged ones that are structs or references, down to one with the asked direction.
  // Array depths are not looked at, and maps are not entered.
  ghost predicate StrictPath(m: map<string, Struct>, fs: seq<Field>, d: Direction, p: seq<nat>)
    decreases |p|
  {
    && |p| > 0 && p[0] < |fs|
    && if |p| == 1 then fs[p[0]].tags.direction == d
       else fs[p[0]].tags.direction == Any && Inside(m, fs[p[0]].typed.kind).Some?
            && StrictPath(m, Inside(m, fs[p[0]].typed.kind).value, d, p[1..])
  }

  // The fields inside a field.
  ghost function Inside(m: map<string, Struct>, t: Kind): Option<seq<Field>> {
    match t
    case Reference(node) => if node.ref in m then Some(m[node.ref].fields) else None
    case Nested(fs) => Some(fs)
    case _ => None
  }

  // A path as the generated check spells it.
  ghost function Render(m: map<string, Struct>, fs: seq<Field>, d: Direction, p: seq<nat>): string
    requires StrictPath(m, fs, d, p)
    decreases |p|
  {
    if |p| == 1 then GoName(fs[p[0]].name)
    else GoName(fs[p[0]].name) + "." + Render(m, Inside(m, fs[p[0]].typed.kind).value, d, p[1..])
  }

  predicate NoneTwice<T(==)>(s: seq<T>) {
    forall j, k :: 0 <= j < k < |s| ==> s[j] != s[k]
  }

  ghost predicate Spells(m: map<string, Struct>, fs: seq<Field>, d: Direction, names: seq<string>,
                         paths: seq<seq<nat>>) {
    && |names| == |paths|
    && forall k :: 0 <= k < |paths| ==> StrictPath(m, fs, d, paths[k]) && names[k] == Render(m, fs, d, paths[k])
  }

  ghost predicate AllBelow(m: map<string, Struct>, fs: seq<Field>, d: Direction, i: nat, paths: seq<seq<nat>>) {
    forall p :: p in paths <==> StrictPath(m, fs, d, p) && p[0] < i
  }

  // names are the spellings of paths, which are the strict paths of the first i fields, each once.
  ghost predicate Lists(m: map<string, Struct>, fs: seq<Field>, d: Direction, i: nat, names: seq<string>,
                      paths: seq<seq<nat>>) {
    Spells(m, fs, d, names, paths) && AllBelow(m, fs, d, i, paths) && NoneTwice(paths)
  }

  // v is the spelling of a strict path.
  ghost predicate Spelled(m: map<string, Struct>, fs: seq<Field>, d: Direction, v: string) {
    exists p :: StrictPath(m, fs, d, p) && Render(m, fs, d, p) == v
  }

  lemma ListsSpelled(m: map<string, Struct>, fs: seq<Field>, d: Direction, names: seq<string>, paths: seq<seq<nat>>)
    requires Lists(m, fs, d, |fs|, names, paths)
    ensures forall v :: v in names <==> Spelled(m, fs, d, v)
  {
    forall v
      ensures v in names <==> Spelled(m, fs, d, v)
    {
      if Spelled(m, fs, d, v) {
        var p :| StrictPath(m, fs, d, p) && Render(m, fs, d, p) == v;
        assert p in paths;
        var k :| 0 <= k < |paths| && paths[k] == p;
        assert names[k] == v;
      }
    }
  }

  lemma FieldIsDeep(m: map<string, Struct>, depth: nat, fs: seq<Field>, i: nat)
    requires AttemptFields(m, depth, fs) == Some(true) && i < |fs|
    ensures Attempt(m, depth, fs[i].typed.kind) == Some(true)
    ensures Deep(m, depth, fs[i].typed.kind) <= DeepFields(m, depth, fs)
    decreases i
  {
    if i > 0 {
      FieldIsDeep(m, depth, fs[1..], i - 1);
    }
  }

  lemma ListsOne(m: map<string, Struct>, fs: seq<Field>, d: Direction, i: nat, names: seq<string>, paths: seq<seq<nat>>)
    requires d != Any && i < |fs| && Lists(m, fs, d, i, names, paths) && fs[i].tags.direction == d
    ensures Lists(m, fs, d, i + 1, names + [GoName(fs[i].name)], paths + [[i]])
  {
    assert [i] !in paths;
    forall p
      ensures p in paths + [[i]] <==> StrictPath(m, fs, d, p) && p[0] < i + 1
    {
      if StrictPath(m, fs, d, p) && p[0] == i {
        assert p == [i];
      }
    }
  }

  lemma ListsNone(m: map<string, Struct>, fs: seq<Field>, d: Direction, i: nat, names: seq<string>,
                  paths: seq<seq<nat>>)
    requires d != Any && i < |fs| && Lists(m, fs, d, i, names, paths) && fs[i].tags.direction != d
    requires fs[i].tags.direction != Any || Inside(m, fs[i].typed.kind).None?
    ensures Lists(m, fs, d, i + 1, names, paths)
  {
    assert forall p :: StrictPath(m, fs, d, p) ==> p[0] != i;
  }

  function Dotted(name: string, subs: seq<string>): (names: seq<string>)
    ensures |names| == |subs| && forall k :: 0 <= k < |subs| ==> names[k] == name + "." + subs[k]
  {
    seq(|subs|, k requires 0 <= k < |subs| => name + "." + subs[k])
  }

  ghost function Under(i: nat, paths: seq<seq<nat>>): (under: seq<seq<nat>>)
    ensures |under| == |paths| && forall k :: 0 <= k < |paths| ==> under[k] == [i] + paths[k]
  {
    seq(|paths|, k requires 0 <= k < |paths| => [i] + paths[k])
  }

  lemma UnderPath(m: map<string, Struct>, fs: seq<Field>, d: Direction, i: nat, p: seq<nat>)
    requires d != Any && i < |fs| && fs[i].tags.direction == Any && Inside(m, fs[i].typed.kind).Some?
    requires |p| > 0 && p[0] == i
    ensures var sub := Inside(m, fs[i].typed.kind).value;
            && (StrictPath(m, fs, d, p) <==> StrictPath(m, sub, d, p[1..]))
            && (StrictPath(m, fs, d, p) ==> Render(m, fs, d, p) == GoName(fs[i].name) + "." + Render(m, sub, d, p[1..]))
  {
  }

  lemma ListsSub(m: map<string, Struct>, fs: seq<Field>, d: Direction, i: nat, names: seq<string>, paths: seq<seq<nat>>,
                 subNames: seq<string>, subPaths: seq<seq<nat>>)
    requires d != Any && i < |fs| && Lists(m, fs, d, i, names, paths) && fs[i].tags.direction == Any
    requires Inside(m, fs[i].typed.kind).Some?
    requires var sub := Inside(m, fs[i].typed.kind).value; Lists(m, sub, d, |sub|, subNames, subPaths)
    ensures Lists(m, fs, d, i + 1, names + Dotted(GoName(fs[i].name), subNames), paths + Under(i, subPaths))
  {
    hide StrictPath, Render, Dotted, Under, Lists, NoneTwice;
    var under := Under(i, subPaths);
    UnderDiffer(m, fs, d, i, subNames, subPaths);
    SpellsUnder(m, fs, d, i, subNames, subPaths);
    forall p
      ensures p in under <==> |p| > 0 && StrictPath(m, fs, d, p) && p[0] == i
    {
      InUnder(m, fs, d, i, subNames, subPaths, p);
    }
    ListsJoin(m, fs, d, i, names, paths, Dotted(GoName(fs[i].name), subNames), under);
  }

  lemma ListsJoin(m: map<string, Struct>, fs: seq<Field>, d: Direction, i: nat, names: seq<string>,
                  paths: seq<seq<nat>>, names': seq<string>, paths': seq<seq<nat>>)
    requires Lists(m, fs, d, i, names, paths) && Spells(m, fs, d, names', paths') && NoneTwice(paths')
    requires forall p :: p in paths' <==> |p| > 0 && StrictPath(m, fs, d, p) && p[0] == i
    ensures Lists(m, fs, d, i + 1, names + names', paths + paths')
  {
    MembersJoin(m, fs, d, i, paths, paths');
    SpellsJoin(m, fs, d, names, paths, names', paths');
    hide Spells, AllBelow, NoneTwice, StrictPath;
    StillDistinct(paths, paths');
  }

  lemma SpellsJoin(m: map<string, Struct>, fs: seq<Field>, d: Direction, names: seq<string>, paths: seq<seq<nat>>,
                   names': seq<string>, paths': seq<seq<nat>>)
    requires Spells(m, fs, d, names, paths) && Spells(m, fs, d, names', paths')
    ensures Spells(m, fs, d, names + names', paths + paths')
  {
    hide StrictPath, Render;
  }

  lemma MembersJoin(m: map<string, Struct>, fs: seq<Field>, d: Direction, i: nat, paths: seq<seq<nat>>,
                    paths': seq<seq<nat>>)
    requires AllBelow(m, fs, d, i, paths)
    requires forall p :: p in paths' <==> |p| > 0 && StrictPath(m, fs, d, p) && p[0] == i
    ensures AllBelow(m, fs, d, i + 1, paths + paths')
    ensures forall p :: p in paths ==> p !in paths'
  {
    forall p
      ensures StrictPath(m, fs, d, p) ==> |p| > 0
    {
      NotEmpty(m, fs, d, p);
    }
    hide StrictPath;
  }

  lemma StillDistinct<T>(s: seq<T>, t: seq<T>)
    requires NoneTwice(s) && NoneTwice(t) && forall x :: x in s ==> x !in t
    ensures NoneTwice(s + t)
  {
    forall j, k | 0 <= j < k < |s + t|
      ensures (s + t)[j] != (s + t)[k]
    {
      if j < |s| <= k {
        assert s[j] in s && t[k - |s|] in t;
      }
    }
  }

  lemma NotEmpty(m: map<string, Struct>, fs: seq<Field>, d: Direction, p: seq<nat>)
    ensures StrictPath(m, fs, d, p) ==> |p| > 0
  {
  }

  lemma ListsUnder(m: map<string, Struct>, fs: seq<Field>, d: Direction, i: nat, subNames: seq<string>,
                   subPaths: seq<seq<nat>>, k: nat)
    requires d != Any && i < |fs| && fs[i].tags.direction == Any && Inside(m, fs[i].typed.kind).Some?
    requires var sub := Inside(m, fs[i].typed.kind).value; Lists(m, sub, d, |sub|, subNames, subPaths)
    requires k < |subPaths|
    ensures var p := Under(i, subPaths)[k];
            StrictPath(m, fs, d, p) && p[0] == i && Dotted(GoName(fs[i].name), subNames)[k] == Render(m, fs, d, p)
  {
    var p := Under(i, subPaths)[k];
    assert p[1..] == subPaths[k];
    UnderPath(m, fs, d, i, p);
    hide StrictPath, Render;
  }

  lemma SpellsUnder(m: map<string, Struct>, fs: seq<Field>, d: Direction, i: nat, subNames: seq<string>,
                    subPaths: seq<seq<nat>>)
    requires d != Any && i < |fs| && fs[i].tags.direction == Any && Inside(m, fs[i].typed.kind).Some?
    requires var sub := Inside(m, fs[i].typed.kind).value; Lists(m, sub, d, |sub|, subNames, subPaths)
    ensures Spells(m, fs, d, Dotted(GoName(fs[i].name), subNames), Under(i, subPaths))
  {
    forall k | 0 <= k < |subPaths|
      ensures var p := Under(i, subPaths)[k];
              StrictPath(m, fs, d, p) && Dotted(GoName(fs[i].name), subNames)[k] == Render(m, fs, d, p)
    {
      ListsUnder(m, fs, d, i, subNames, subPaths, k);
    }
  }

  lemma InUnder(m: map<string, Struct>, fs: seq<Field>, d: Direction, i: nat, subNames: seq<string>,
                subPaths: seq<seq<nat>>, p: seq<nat>)
    requires d != Any && i < |fs| && fs[i].tags.direction == Any && Inside(m, fs[i].typed.kind).Some?
    requires var sub := Inside(m, fs[i].typed.kind).value; Lists(m, sub, d, |sub|, subNames, subPaths)
    ensures p in Under(i, subPaths) <==> StrictPath(m, fs, d, p) && p[0] == i
  {
    var under := Under(i, subPaths);
    if p in under {
      var k :| 0 <= k < |under| && under[k] == p;
      ListsUnder(m, fs, d, i, subNames, subPaths, k);
    }
    if StrictPath(m, fs, d, p) && p[0] == i {
      UnderPath(m, fs, d, i, p);
      hide StrictPath, Render;
      var k :| 0 <= k < |subPaths| && subPaths[k] == p[1..];
      assert under[k] == p;
    }
  }

  lemma UnderDiffer(m: map<string, Struct>, fs: seq<Field>, d: Direction, i: nat, subNames: seq<string>,
                    subPaths: seq<seq<nat>>)
    requires i < |fs| && Inside(m, fs[i].typed.kind).Some?
    requires var sub := Inside(m, fs[i].typed.kind).value; Lists(m, sub, d, |sub|, subNames, subPaths)
    ensures |Under(i, subPaths)| == |Dotted(GoName(fs[i].name), subNames)|
    ensures NoneTwice(Under(i, subPaths))
  {
    var under := Under(i, subPaths);
    forall j, k | 0 <= j < k < |subPaths|
      ensures under[j] != under[k]
    {
      assert under[j][1..] == subPaths[j] && under[k][1..] == subPaths[k];
    }
  }

  // What is inside a field of an accepted type is accepted, and refers to nothing more than the field.
  lemma InsideIsDeep(m: map<string, Struct>, depth: nat, t: Kind)
    requires Attempt(m, depth, t) == Some(true)
    ensures t.Reference? ==>
              && t.node in Deep(m, depth, t) && t.node.ref in m && depth > 0
              && AttemptFields(m, depth - 1, m[t.node.ref].fields) == Some(true)
              && DeepFields(m, depth - 1, m[t.node.ref].fields) <= Deep(m, depth, t)
    ensures t.Nested? ==>
              AttemptFields(m, depth, t.fields) == Some(true) && DeepFields(m, depth, t.fields) == Deep(m, depth, t)
  {
  }

  // The inner loop of FieldsWithStrictDirection.
  method AppendDotted(ret: seq<string>, name: string, sub: seq<string>) returns (all: seq<string>)
    ensures all == ret + Dotted(name, sub)
  {
    all := ret;
    for k := 0 to |sub|
      invariant all == ret + Dotted(name, sub)[..k]
    {
      all := all + [name + "." + sub[k]];
    }
  }

  // FieldsWithStrictDirection, after validation. It follows the resolved references, meets none that is not resolved,
  // and its result spells exactly the strict paths, each once.
  method FieldsWithStrictDirection(fs: seq<Field>, d: Direction, ghost m: map<string, Struct>, ghost depth: nat,
                                   ghost nodes: set<RefType>)
    returns (ret: seq<string>, ghost paths: seq<seq<nat>>)
    requires d != Any && AttemptFields(m, depth, fs) == Some(true)
    requires DeepFields(m, depth, fs) <= nodes && forall n :: n in nodes ==> Resolved(m, n)
    ensures Lists(m, fs, d, |fs|, ret, paths)
    ensures forall v :: v in ret <==> Spelled(m, fs, d, v)
    decreases depth, fs
  {
    ret, paths := [], [];
    assert Lists(m, fs, d, 0, ret, paths);
    for i := 0 to |fs|
      invariant Lists(m, fs, d, i, ret, paths)
    {
      hide Lists, Attempt, AttemptFields, Deep, DeepFields;
      if fs[i].tags.direction == d {
        ListsOne(m, fs, d, i, ret, paths);
        ret, paths := ret + [GoName(fs[i].name)], paths + [[i]];
      } else if fs[i].tags.direction == Any && (fs[i].typed.kind.Reference? || fs[i].typed.kind.Nested?) {
        FieldIsDeep(m, depth, fs, i);
        InsideIsDeep(m, depth, fs[i].typed.kind);
        var sub, subRet;
        ghost var subPaths;
        if fs[i].typed.kind.Reference? {
          var node := fs[i].typed.kind.node;
          assert Resolved(m, node);
          sub := node.refStruct.value.fields;
          assert sub == m[node.ref].fields;
          subRet, subPaths := FieldsWithStrictDirection(sub, d, m, depth - 1, nodes);
        } else {
          sub := fs[i].typed.kind.fields;
          subRet, subPaths := FieldsWithStrictDirection(sub, d, m, depth, nodes);
        }
        ListsSub(m, fs, d, i, ret, paths, subRet, subPaths);
        paths := paths + Under(i, subPaths);
        ret := AppendDotted(ret, GoName(fs[i].name), subRet);
      } else {
        ListsNone(m, fs, d, i, ret, paths);
      }
    }
    hide Lists, Spelled;
    ListsSpelled(m, fs, d, ret, paths);
  }

  // The fields of one direction of a struct of a design on which validation ends and that it accepts: the walk meets no
  // unresolved reference.
  method DirectedFields(design: Design, s: string, d: Direction, ghost depth: nat, ghost nodes: set<RefType>)
    returns (ok: bool, ret: seq<string>, ghost paths: seq<seq<nat>>)
    requires d != Any && design.Cached() && NamesDiffer(design.structs)
    requires AttemptStructs(ByName(design.structs), depth, design.structs).Some?
    requires Covers(ByName(design.structs), nodes)
    requires forall n :: n in nodes ==>
               exists x :: x in ByName(design.structs) && n in NodesOf(ByName(design.structs)[x].fields)
    modifies design, nodes`refStruct
    ensures ok <==> s in ByName(design.structs) && SoundDesign(ByName(design.structs))
    ensures ok ==> var fs := ByName(design.structs)[s].fields; Lists(ByName(design.structs), fs, d, |fs|, ret, paths)
    ensures ok ==> forall v :: v in ret <==> Spelled(ByName(design.structs), ByName(design.structs)[s].fields, d, v)
  {
    ret, paths := [], [];
    var err := design.ValidateStructs(depth, nodes);
    var m := design.StructsMap();
    ok := !err && s in m;
    if ok {
      StructsAccepted(m, depth, design.structs);
      ghost var i := StructNamed(design.structs, s);
      DeepFieldsCovered(m, depth, m[s].fields, nodes);
      hide SoundDesign, AttemptStructs, AttemptFields;
      ret, paths := FieldsWithStrictDirection(m[s].fields, d, m, depth, nodes);
    }
  }

  // ---- What the checks cover --------------------------------------------------------------------------------------

  // What a field holds, through arrays and maps.
  ghost function Content(m: map<string, Struct>, t: Kind): Option<seq<Field>>
    decreases t
  {
    match t
    case Primitive(_) => None
    case Reference(node) => if node.ref in m then Some(m[node.ref].fields) else None
    case Nested(fs) => Some(fs)
    case Mapping(_, v) => Content(m, v.kind)
  }

  // The fields that p goes through, by any tags, references, nested structs, arrays and maps.
  ghost predicate FieldPath(m: map<string, Struct>, fs: seq<Field>, p: seq<nat>)
    decreases |p|
  {
    && |p| > 0 && p[0] < |fs|
    && (|p| > 1 ==>
          Content(m, fs[p[0]].typed.kind).Some? && FieldPath(m, Content(m, fs[p[0]].typed.kind).value, p[1..]))
  }

  // The k-th field of a path.
  ghost function FieldAt(m: map<string, Struct>, fs: seq<Field>, p: seq<nat>, k: nat): Field
    requires FieldPath(m, fs, p) && k < |p|
    decreases |p|
  {
    if k == 0 then fs[p[0]] else FieldAt(m, Content(m, fs[p[0]].typed.kind).value, p[1..], k - 1)
  }

  // A check can go through the field.
  predicate Clear(f: Field) {
    f.tags.direction == Any && !f.typed.kind.Mapping?
  }

  // Nothing on the way to the last field keeps the check from it.
  ghost predicate Open(m: map<string, Struct>, fs: seq<Field>, p: seq<nat>)
    requires FieldPath(m, fs, p)
  {
    forall k :: 0 <= k < |p| - 1 ==> Clear(FieldAt(m, fs, p, k))
  }

  lemma OpenStep(m: map<string, Struct>, fs: seq<Field>, p: seq<nat>)
    requires FieldPath(m, fs, p) && |p| > 1
    ensures var sub := Content(m, fs[p[0]].typed.kind).value;
            Open(m, fs, p) <==> Clear(fs[p[0]]) && Open(m, sub, p[1..])
  {
    var sub := Content(m, fs[p[0]].typed.kind).value;
    assert FieldAt(m, fs, p, 0) == fs[p[0]];
    if Open(m, fs, p) {
      forall k | 0 <= k < |p| - 2
        ensures Clear(FieldAt(m, sub, p[1..], k))
      {
        assert FieldAt(m, fs, p, k + 1) == FieldAt(m, sub, p[1..], k);
      }
    }
    if Clear(fs[p[0]]) && Open(m, sub, p[1..]) {
      forall k | 0 <= k < |p| - 1
        ensures Clear(FieldAt(m, fs, p, k))
      {
        assert k > 0 ==> FieldAt(m, fs, p, k) == FieldAt(m, sub, p[1..], k - 1);
      }
    }
  }

  // A path is checked exactly when it ends in a field of the direction and every field before is untagged and no map.
  lemma {:induction false} StrictIff(m: map<string, Struct>, fs: seq<Field>, d: Direction, p: seq<nat>)
    requires FieldPath(m, fs, p)
    ensures StrictPath(m, fs, d, p) <==> FieldAt(m, fs, p, |p| - 1).tags.direction == d && Open(m, fs, p)
    decreases |p|
  {
    if |p| > 1 {
      var sub := Content(m, fs[p[0]].typed.kind).value;
      OpenStep(m, fs, p);
      StrictIff(m, sub, d, p[1..]);
      assert FieldAt(m, fs, p, |p| - 1) == FieldAt(m, sub, p[1..], |p| - 2);
      hide Open, FieldAt;
    }
  }

  lemma {:induction false} StrictIsPath(m: map<string, Struct>, fs: seq<Field>, d: Direction, p: seq<nat>)
    requires StrictPath(m, fs, d, p)
    ensures FieldPath(m, fs, p)
    decreases |p|
  {
    if |p| > 1 {
      StrictIsPath(m, Inside(m, fs[p[0]].typed.kind).value, d, p[1..]);
    }
  }

  // A field of the direction, wherever it is.
  ghost predicate Directed(m: map<string, Struct>, fs: seq<Field>, d: Direction, p: seq<nat>) {
    FieldPath(m, fs, p) && FieldAt(m, fs, p, |p| - 1).tags.direction == d
  }

  // The checks cover every directed field of a struct exactly when no directed field is behind a map or a tagged field.
  lemma AllCheckedIff(m: map<string, Struct>, fs: seq<Field>, d: Direction)
    ensures (forall p :: Directed(m, fs, d, p) ==> StrictPath(m, fs, d, p)) <==>
            (forall p :: Directed(m, fs, d, p) ==> Open(m, fs, p))
  {
    forall p | Directed(m, fs, d, p)
      ensures StrictPath(m, fs, d, p) <==> Open(m, fs, p)
    {
      StrictIff(m, fs, d, p);
    }
  }

  // A struct with a map of nested structs that have a directed field is accepted, and nothing of it is checked.
  lemma BehindAMap(d: Direction)
    requires d != Any
    ensures var none := Tags("", Any);
            var inner := [Field("secret", Tags("", d), Typed(0, Primitive("string")))];
            var fs := [Field("by_id", none, Typed(0, Mapping("string", Typed(0, Nested(inner)))))];
            var m := map["box" := Struct("box", none, fs)];
            && AttemptStructs(m, 0, [Struct("box", none, fs)]) == Some(true)
            && Directed(m, fs, d, [0, 0])
            && forall v :: !Spelled(m, fs, d, v)
  {
    var none := Tags("", Any);
    var inner := [Field("secret", Tags("", d), Typed(0, Primitive("string")))];
    var fs := [Field("by_id", none, Typed(0, Mapping("string", Typed(0, Nested(inner)))))];
    var m := map["box" := Struct("box", none, fs)];
    assert inner[1..] == [] && fs[1..] == [] && [Struct("box", none, fs)][1..] == [];
    assert AttemptFields(m, 0, inner) == Some(true);
    assert Attempt(m, 0, fs[0].typed.kind) == Some(true);
    var p: seq<nat> := [0, 0];
    assert p[1..] == [0];
    assert FieldPath(m, inner, [0]) && FieldAt(m, inner, [0], 0) == inner[0];
    assert Content(m, fs[0].typed.kind) == Some(inner);
    assert FieldPath(m, fs, p) && FieldAt(m, fs, p, 1) == FieldAt(m, inner, [0], 0);
  }

  // ---- Selectors in Go --------------------------------------------------------------------------------------------

  // The generated Go struct is one: its field names are identifiers and differ.
  ghost predicate GoStruct(fs: seq<Field>) {
    && (forall i :: 0 <= i < |fs| ==> GoIdent(GoName(fs[i].name)))
    && forall i, j :: 0 <= i < j < |fs| ==> GoName(fs[i].name) != GoName(fs[j].name)
  }

  // Go accepts the text s as a selection from a value of the struct: up to the first dot it is a field, and if there is
  // more, the field is no slice and no map but a struct (the pointer to a tagged field is followed), from which the
  // rest can be selected.
  ghost predicate Selects(m: map<string, Struct>, fs: seq<Field>, s: string)
    decreases |s|
  {
    var n := Place(s, '.');
    && GoStruct(fs)
    && exists i :: 0 <= i < |fs| && GoName(fs[i].name) == s[..n]
                   && (n < |s| ==>
                         && fs[i].typed.depth == 0 && Inside(m, fs[i].typed.kind).Some?
                         && Selects(m, Inside(m, fs[i].typed.kind).value, s[n + 1..]))
  }

  // The struct that the k-th field of a path is a field of.
  ghost function StructAt(m: map<string, Struct>, fs: seq<Field>, p: seq<nat>, k: nat): (at: seq<Field>)
    requires FieldPath(m, fs, p) && k < |p|
    ensures p[k] < |at| && at[p[k]] == FieldAt(m, fs, p, k)
    decreases |p|
  {
    if k == 0 then fs else StructAt(m, Content(m, fs[p[0]].typed.kind).value, p[1..], k - 1)
  }

  // The k-th step of a path can be taken in Go.
  ghost predicate GoStep(m: map<string, Struct>, fs: seq<Field>, p: seq<nat>, k: nat)
    requires FieldPath(m, fs, p) && k < |p|
  {
    GoStruct(StructAt(m, fs, p, k)) && (k < |p| - 1 ==> FieldAt(m, fs, p, k).typed.depth == 0)
  }

  lemma IdentNoDot(g: string, rest: string)
    requires GoIdent(g)
    ensures Place(g, '.') == |g|
    ensures Place(g + "." + rest, '.') == |g| && (g + "." + rest)[..|g|] == g && (g + "." + rest)[|g| + 1..] == rest
  {
    var s := g + "." + rest;
    assert s[|g|] == '.';
    assert forall i :: 0 <= i < |g| ==> s[i] == g[i] && GoChar(g[i]);
  }

  ghost predicate GoPath(m: map<string, Struct>, fs: seq<Field>, p: seq<nat>)
    requires FieldPath(m, fs, p)
  {
    forall k :: 0 <= k < |p| ==> GoStep(m, fs, p, k)
  }

  lemma LaterStep(m: map<string, Struct>, fs: seq<Field>, p: seq<nat>, k: nat)
    requires FieldPath(m, fs, p) && k + 1 < |p|
    ensures GoStep(m, fs, p, k + 1) <==> GoStep(m, Content(m, fs[p[0]].typed.kind).value, p[1..], k)
  {
  }

  lemma StepsLater(m: map<string, Struct>, fs: seq<Field>, p: seq<nat>)
    requires FieldPath(m, fs, p) && |p| > 1
    ensures var sub := Content(m, fs[p[0]].typed.kind).value;
            GoPath(m, fs, p) <==> GoStruct(fs) && fs[p[0]].typed.depth == 0 && GoPath(m, sub, p[1..])
  {
    var sub := Content(m, fs[p[0]].typed.kind).value;
    assert StructAt(m, fs, p, 0) == fs && FieldAt(m, fs, p, 0) == fs[p[0]];
    assert GoStep(m, fs, p, 0) <==> GoStruct(fs) && fs[p[0]].typed.depth == 0;
    hide GoStep;
    if GoPath(m, fs, p) {
      forall k | 0 <= k < |p| - 1
        ensures GoStep(m, sub, p[1..], k)
      {
        LaterStep(m, fs, p, k);
      }
    }
    if GoStep(m, fs, p, 0) && GoPath(m, sub, p[1..]) {
      forall k | 0 <= k < |p|
        ensures GoStep(m, fs, p, k)
      {
        if k > 0 {
          LaterStep(m, fs, p, k - 1);
        }
      }
    }
  }

  // The one field that a text that starts with its name selects.
  lemma SelectsField(m: map<string, Struct>, fs: seq<Field>, i: nat, rest: string)
    requires i < |fs| && GoStruct(fs)
    ensures Selects(m, fs, GoName(fs[i].name))
    ensures Selects(m, fs, GoName(fs[i].name) + "." + rest) <==>
            && fs[i].typed.depth == 0 && Inside(m, fs[i].typed.kind).Some?
            && Selects(m, Inside(m, fs[i].typed.kind).value, rest)
  {
    var g := GoName(fs[i].name);
    IdentNoDot(g, rest);
    assert g[..|g|] == g;
    hide GoName, GoIdent, Place;
  }

  // Go accepts the check of a listed path exactly when all structs it goes through have identifiers that differ for
  // field names, and no field before its last is an array.
  lemma {:induction false} SelectableIff(m: map<string, Struct>, fs: seq<Field>, d: Direction, p: seq<nat>)
    requires StrictPath(m, fs, d, p)
    ensures FieldPath(m, fs, p)
    ensures Selects(m, fs, Render(m, fs, d, p)) <==> GoPath(m, fs, p)
    decreases |p|
  {
    StrictIsPath(m, fs, d, p);
    if |p| == 1 {
      OneStep(m, fs, p);
    } else {
      var sub := Inside(m, fs[p[0]].typed.kind).value;
      assert Content(m, fs[p[0]].typed.kind) == Some(sub);
      SelectableIff(m, sub, d, p[1..]);
      StepsLater(m, fs, p);
      hide GoPath;
      assert !GoStruct(fs) ==> !Selects(m, fs, Render(m, fs, d, p));
      if GoStruct(fs) {
        hide Selects, GoStruct;
        SelectsField(m, fs, p[0], Render(m, sub, d, p[1..]));
      }
    }
  }

  lemma OneStep(m: map<string, Struct>, fs: seq<Field>, p: seq<nat>)
    requires FieldPath(m, fs, p) && |p| == 1
    ensures GoPath(m, fs, p) <==> GoStruct(fs)
    ensures Selects(m, fs, GoName(fs[p[0]].name)) <==> GoStruct(fs)
  {
    assert StructAt(m, fs, p, 0) == fs;
    assert GoStep(m, fs, p, 0) <==> GoStruct(fs);
    if GoStruct(fs) {
      SelectsField(m, fs, p[0], "");
    }
  }

  // An accepted design with an array of nested structs that have a directed field: the check is generated, and Go does
  // not accept it.
  lemma BehindAnArray(d: Direction)
    requires d != Any
    ensures var none := Tags("", Any);
            var inner := [Field("secret", Tags("", d), Typed(0, Primitive("string")))];
            var fs := [Field("items", none, Typed(1, Nested(inner)))];
            var m := map["box" := Struct("box", none, fs)];
            && AttemptStructs(m, 0, [Struct("box", none, fs)]) == Some(true)
            && StrictPath(m, fs, d, [0, 0]) && !Selects(m, fs, Render(m, fs, d, [0, 0]))
  {
    var none := Tags("", Any);
    var inner := [Field("secret", Tags("", d), Typed(0, Primitive("string")))];
    var fs := [Field("items", none, Typed(1, Nested(inner)))];
    var m := map["box" := Struct("box", none, fs)];
    assert inner[1..] == [] && fs[1..] == [] && [Struct("box", none, fs)][1..] == [];
    assert AttemptFields(m, 0, inner) == Some(true);
    assert Attempt(m, 0, fs[0].typed.kind) == Some(true);
    var p: seq<nat> := [0, 0];
    assert p[1..] == [0];
    assert StrictPath(m, inner, d, [0]) && StrictPath(m, fs, d, p);
    SelectableIff(m, fs, d, p);
    assert FieldAt(m, fs, p, 0) == fs[0];
    assert !GoStep(m, fs, p, 0);
  }
}
