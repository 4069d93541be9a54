// The validation of a design's structs, which resolves references as it goes. It has no memory of where it has been, so
// whether it ends is a property of the design, and an exact one is proved here.
module Validation {
  import opened Common
  import opened Designs
  import opened TypePrinters
  import opened Walks

  // ---- What validation does ---------------------------------------------------------------------------------------

  // The recursion of validation, cut off after a number of references in a row: Some when that was enough, with whether
  // the type is accepted.
  ghost function Attempt(m: map<string, Struct>, depth: nat, t: Kind): Option<bool>
    decreases depth, t
  {
    match t
    case Primitive(name) => Some(IsPrimitive(name))
    case Reference(node) =>
      if node.ref !in m then Some(false)
      else if depth == 0 then None
      else AttemptFields(m, depth - 1, m[node.ref].fields)
    case Nested(fs) => AttemptFields(m, depth, fs)
    case Mapping(key, v) => if IsPrimitive(key) then Attempt(m, depth, v.kind) else Some(false)
  }

  ghost function AttemptFields(m: map<string, Struct>, depth: nat, fs: seq<Field>): Option<bool>
    decreases depth, fs
  {
    if fs == [] then Some(true)
    else
      var first := Attempt(m, depth, fs[0].typed.kind);
      if first == Some(true) then AttemptFields(m, depth, fs[1..]) else first
  }

  ghost function AttemptStructs(m: map<string, Struct>, depth: nat, structs: seq<Struct>): Option<bool> {
    if structs == [] then Some(true)
    else
      var first := AttemptFields(m, depth, structs[0].fields);
      if first == Some(true) then AttemptStructs(m, depth, structs[1..]) else first
  }

  // More depth does not change an answer.
  lemma {:induction false} AttemptMore(m: map<string, Struct>, depth: nat, more: nat, t: Kind)
    requires depth <= more && Attempt(m, depth, t).Some?
    ensures Attempt(m, more, t) == Attempt(m, depth, t)
    decreases depth, t
  {
    match t
    case Primitive(_) =>
    case Reference(node) =>
      if node.ref in m {
        AttemptFieldsMore(m, depth - 1, more - 1, m[node.ref].fields);
      }
    case Nested(fs) => AttemptFieldsMore(m, depth, more, fs);
    case Mapping(key, v) =>
      if IsPrimitive(key) {
        AttemptMore(m, depth, more, v.kind);
      }
  }

  lemma {:induction false} AttemptFieldsMore(m: map<string, Struct>, depth: nat, more: nat, fs: seq<Field>)
    requires depth <= more && AttemptFields(m, depth, fs).Some?
    ensures AttemptFields(m, more, fs) == AttemptFields(m, depth, fs)
    decreases depth, fs
  {
    if fs != [] {
      AttemptMore(m, depth, more, fs[0].typed.kind);
      if Attempt(m, depth, fs[0].typed.kind) == Some(true) {
        AttemptFieldsMore(m, depth, more, fs[1..]);
      }
    }
  }

  // The references that validation resolves on the way to accepting a type.
  ghost function Deep(m: map<string, Struct>, depth: nat, t: Kind): set<RefType>
    decreases depth, t
  {
    match t
    case Primitive(_) => {}
    case Reference(node) =>
      {node} + if node.ref in m && depth > 0 then DeepFields(m, depth - 1, m[node.ref].fields) else {}
    case Nested(fs) => DeepFields(m, depth, fs)
    case Mapping(_, v) => Deep(m, depth, v.kind)
  }

  ghost function DeepFields(m: map<string, Struct>, depth: nat, fs: seq<Field>): set<RefType>
    decreases depth, fs
  {
    if fs == [] then {} else Deep(m, depth, fs[0].typed.kind) + DeepFields(m, depth, fs[1..])
  }

  // All references of the structs of m are among nodes.
  ghost predicate Covers(m: map<string, Struct>, nodes: set<RefType>) {
    forall s :: s in m ==> NodesOf(m[s].fields) <= nodes
  }

  lemma {:induction false} DeepCovered(m: map<string, Struct>, depth: nat, t: Kind, nodes: set<RefType>)
    requires Covers(m, nodes) && Nodes(t) <= nodes
    ensures Nodes(t) <= Deep(m, depth, t) <= nodes
    decreases depth, t
  {
    match t
    case Primitive(_) =>
    case Reference(node) =>
      if node.ref in m && depth > 0 {
        DeepFieldsCovered(m, depth - 1, m[node.ref].fields, nodes);
      }
    case Nested(fs) => DeepFieldsCovered(m, depth, fs, nodes);
    case Mapping(_, v) => DeepCovered(m, depth, v.kind, nodes);
  }

  lemma {:induction false} DeepFieldsCovered(m: map<string, Struct>, depth: nat, fs: seq<Field>, nodes: set<RefType>)
    requires Covers(m, nodes) && NodesOf(fs) <= nodes
    ensures NodesOf(fs) <= DeepFields(m, depth, fs) <= nodes
    decreases depth, fs
  {
    if fs != [] {
      DeepCovered(m, depth, fs[0].typed.kind, nodes);
      DeepFieldsCovered(m, depth, fs[1..], nodes);
    }
  }

  ghost predicate Resolved(m: map<string, Struct>, n: RefType)
    reads n
  {
    n.ref in m && n.refStruct == Some(m[n.ref])
  }

  class Design {
    const structs: seq<Struct>
    var structMap: Option<map<string, Struct>>

    constructor (structs: seq<Struct>)
      ensures this.structs == structs && Cached()
    {
      this.structs := structs;
      structMap := None;
    }

    // The cache is right when it is there.
    ghost predicate Cached()
      reads this
    {
      structMap.Some? ==> structMap.value == ByName(structs)
    }

    method StructsMap() returns (m: map<string, Struct>)
      requires Cached()
      modifies this
      ensures Cached() && m == ByName(structs)
    {
      if structMap.None? {
        m := map[];
        for i := 0 to |structs|
          invariant m == ByName(structs[..i])
        {
          assert structs[..i + 1][..i] == structs[..i];
          m := m[structs[i].name := structs[i]];
        }
        assert structs[..|structs|] == structs;
        structMap := Some(m);
      }
      m := structMap.value;
    }

    // On every type on which it ends: an error, or everything the type refers to is resolved.
    method ValidateType(t: Kind, ghost depth: nat, ghost nodes: set<RefType>) returns (err: bool)
      requires Cached() && Attempt(ByName(structs), depth, t).Some?
      requires Covers(ByName(structs), nodes) && Nodes(t) <= nodes
      modifies this, nodes`refStruct
      ensures Cached()
      ensures Attempt(ByName(structs), depth, t) == Some(!err)
      ensures forall n :: n in nodes ==> n.refStruct == old(n.refStruct) || Resolved(ByName(structs), n)
      ensures !err ==> forall n :: n in Deep(ByName(structs), depth, t) ==> Resolved(ByName(structs), n)
      decreases depth, t
    {
      var m := StructsMap();
      match t
      case Primitive(name) =>
        err := !IsPrimitive(name);
      case Reference(node) =>
        if node.ref !in m {
          return true;
        }
        node.refStruct := Some(m[node.ref]);
        err := ValidateStruct(m[node.ref].fields, depth - 1, nodes);
      case Nested(fs) =>
        err := ValidateStruct(fs, depth, nodes);
      case Mapping(key, v) =>
        if !IsPrimitive(key) {
          return true;
        }
        err := ValidateType(v.kind, depth, nodes);
    }

    method ValidateStruct(fs: seq<Field>, ghost depth: nat, ghost nodes: set<RefType>) returns (err: bool)
      requires Cached() && AttemptFields(ByName(structs), depth, fs).Some?
      requires Covers(ByName(structs), nodes) && NodesOf(fs) <= nodes
      modifies this, nodes`refStruct
      ensures Cached()
      ensures AttemptFields(ByName(structs), depth, fs) == Some(!err)
      ensures forall n :: n in nodes ==> n.refStruct == old(n.refStruct) || Resolved(ByName(structs), n)
      ensures !err ==> forall n :: n in DeepFields(ByName(structs), depth, fs) ==> Resolved(ByName(structs), n)
      decreases depth, fs
    {
      ghost var m := ByName(structs);
      DeepFieldsCovered(m, depth, fs, nodes);
      hide Resolved;
      var i := 0;
      assert fs[0..] == fs;
      while i < |fs|
        invariant i <= |fs| && Cached() && NodesOf(fs[i..]) <= nodes
        invariant AttemptFields(m, depth, fs) == AttemptFields(m, depth, fs[i..])
        invariant forall n :: n in nodes ==> n.refStruct == old(n.refStruct) || Resolved(m, n)
        invariant forall n :: n in DeepFields(m, depth, fs) ==> Resolved(m, n) || n in DeepFields(m, depth, fs[i..])
      {
        assert fs[i..][1..] == fs[i + 1..] && fs[i..][0] == fs[i];
        err := ValidateType(fs[i].typed.kind, depth, nodes);
        if err {
          return;
        }
        i := i + 1;
      }
      err := false;
    }

    // The loop of Validate over the structs of the design, on every design on which it ends.
    method ValidateStructs(ghost depth: nat, ghost nodes: set<RefType>) returns (err: bool)
      requires Cached() && NamesDiffer(structs) && AttemptStructs(ByName(structs), depth, structs).Some?
      requires Covers(ByName(structs), nodes)
      modifies this, nodes`refStruct
      ensures Cached()
      ensures AttemptStructs(ByName(structs), depth, structs) == Some(!err)
      ensures err <==> !SoundDesign(ByName(structs))
      ensures var m := ByName(structs); !err ==> forall s, n :: s in m && n in NodesOf(m[s].fields) ==> Resolved(m, n)
    {
      ghost var m := ByName(structs);
      ghost var done: set<RefType> := {};
      RefusedIff(structs, depth);
      hide Resolved, SoundDesign;
      var i := 0;
      assert structs[0..] == structs;
      while i < |structs|
        invariant i <= |structs| && Cached()
        invariant AttemptStructs(m, depth, structs) == AttemptStructs(m, depth, structs[i..])
        invariant done <= nodes && forall n :: n in done ==> Resolved(m, n)
        invariant forall j :: 0 <= j < i ==> NodesOf(structs[j].fields) <= done
      {
        assert structs[i..][1..] == structs[i + 1..] && structs[i..][0] == structs[i];
        NamedStruct(structs, i);
        err := ValidateStruct(structs[i].fields, depth, nodes);
        if err {
          return;
        }
        DeepFieldsCovered(m, depth, structs[i].fields, nodes);
        done := done + NodesOf(structs[i].fields);
        i := i + 1;
      }
      err := false;
      forall s | s in m
        ensures NodesOf(m[s].fields) <= done
      {
        var j := StructNamed(structs, s);
      }
    }
  }

  // ---- What is accepted -------------------------------------------------------------------------------------------

  // The primitives of a type are listed and the structs it names exist.
  ghost predicate Sound(m: map<string, Struct>, t: Kind)
    decreases t
  {
    match t
    case Primitive(name) => IsPrimitive(name)
    case Reference(node) => node.ref in m
    case Nested(fs) => SoundFields(m, fs)
    case Mapping(key, v) => IsPrimitive(key) && Sound(m, v.kind)
  }

  ghost predicate SoundFields(m: map<string, Struct>, fs: seq<Field>)
    decreases fs
  {
    fs == [] || (Sound(m, fs[0].typed.kind) && SoundFields(m, fs[1..]))
  }

  // Which structs every struct names.
  ghost function Graph(m: map<string, Struct>): (g: map<string, set<string>>)
    ensures g.Keys == m.Keys && forall s :: s in m ==> g[s] == RefsOf(m[s].fields)
  {
    map s | s in m :: RefsOf(m[s].fields)
  }

  // Every struct that can be reached from refs is sound.
  ghost predicate AllSound(m: map<string, Struct>, refs: set<string>) {
    forall p :: IsWalk(Graph(m), refs, p) && p[|p| - 1] in m ==> SoundFields(m, m[p[|p| - 1]].fields)
  }

  lemma AllSoundFrom(m: map<string, Struct>, r: string)
    requires r in m
    ensures AllSound(m, {r}) <==> SoundFields(m, m[r].fields) && AllSound(m, RefsOf(m[r].fields))
  {
    hide Graph, SoundFields, RefsOf;
    var g, refs := Graph(m), RefsOf(m[r].fields);
    if AllSound(m, {r}) {
      assert IsWalk(g, {r}, [r]);
      forall p | IsWalk(g, refs, p) && p[|p| - 1] in m
        ensures SoundFields(m, m[p[|p| - 1]].fields)
      {
        var q := [r] + p;
        assert q[1..] == p && q[|q| - 1] == p[|p| - 1];
        assert IsWalk(g, {r}, q);
      }
    }
    if SoundFields(m, m[r].fields) && AllSound(m, refs) {
      forall p | IsWalk(g, {r}, p) && p[|p| - 1] in m
        ensures SoundFields(m, m[p[|p| - 1]].fields)
      {
        if |p| > 1 {
          assert IsWalk(g, refs, p[1..]) && p[1..][|p| - 2] == p[|p| - 1];
        }
      }
    }
  }

  lemma AllSoundBoth(m: map<string, Struct>, a: set<string>, b: set<string>)
    ensures AllSound(m, a + b) <==> AllSound(m, a) && AllSound(m, b)
  {
    assert forall p :: IsWalk(Graph(m), a + b, p) <==> IsWalk(Graph(m), a, p) || IsWalk(Graph(m), b, p);
    hide IsWalk;
  }

  // Accepted within a depth: sound, as is everything that can be reached, and no walk is longer than the depth.
  lemma {:induction false} AcceptedIff(m: map<string, Struct>, depth: nat, t: Kind)
    ensures Attempt(m, depth, t) == Some(true) <==>
            Sound(m, t) && AllSound(m, Refs(t)) && Bounded(Graph(m), Refs(t), depth)
    decreases depth, t
  {
    hide AllSound, Bounded;
    match t
    case Primitive(_) => NoRefs(m, depth);
    case Reference(node) =>
      if node.ref in m {
        AllSoundFrom(m, node.ref);
        BoundedStep(Graph(m), node.ref, depth);
        if depth > 0 {
          AcceptedFieldsIff(m, depth - 1, m[node.ref].fields);
        }
      }
    case Nested(fs) => AcceptedFieldsIff(m, depth, fs);
    case Mapping(_, v) => AcceptedIff(m, depth, v.kind);
  }

  lemma NoRefs(m: map<string, Struct>, depth: nat)
    ensures AllSound(m, {}) && Bounded(Graph(m), {}, depth)
  {
  }

  lemma {:induction false} AcceptedFieldsIff(m: map<string, Struct>, depth: nat, fs: seq<Field>)
    ensures AttemptFields(m, depth, fs) == Some(true) <==>
            SoundFields(m, fs) && AllSound(m, RefsOf(fs)) && Bounded(Graph(m), RefsOf(fs), depth)
    decreases depth, fs
  {
    hide AllSound, Bounded;
    if fs == [] {
      NoRefs(m, depth);
    } else {
      AcceptedIff(m, depth, fs[0].typed.kind);
      AcceptedFieldsIff(m, depth, fs[1..]);
      AllSoundBoth(m, Refs(fs[0].typed.kind), RefsOf(fs[1..]));
      BoundedBoth(Graph(m), Refs(fs[0].typed.kind), RefsOf(fs[1..]), depth);
    }
  }

  // The type is accepted at some depth.
  ghost predicate Accepted(m: map<string, Struct>, t: Kind) {
    exists depth: nat :: Attempt(m, depth, t) == Some(true)
  }

  ghost predicate Ends(m: map<string, Struct>, t: Kind) {
    exists depth: nat :: Attempt(m, depth, t).Some?
  }

  // Validation ends and accepts exactly when the type and everything that can be reached from it is sound and no walk
  // along references comes back to a struct.
  lemma AcceptsIff(m: map<string, Struct>, t: Kind)
    ensures Accepted(m, t) <==> Sound(m, t) && AllSound(m, Refs(t)) && !Cyclic(Graph(m), Refs(t))
  {
    BoundedIff(Graph(m), Refs(t));
    hide AllSound, Bounded, Cyclic, Attempt;
    if depth: nat :| Attempt(m, depth, t) == Some(true) {
      AcceptedIff(m, depth, t);
    }
    if Sound(m, t) && AllSound(m, Refs(t)) && !Cyclic(Graph(m), Refs(t)) {
      var depth: nat :| Bounded(Graph(m), Refs(t), depth);
      AcceptedIff(m, depth, t);
    }
  }

  // ---- When validation ends ---------------------------------------------------------------------------------------

  // The structs that validation enters from a type: those named in a field all of whose predecessors are accepted.
  ghost function Entered(m: map<string, Struct>, t: Kind): set<string>
    decreases t
  {
    match t
    case Primitive(_) => {}
    case Reference(node) => if node.ref in m then {node.ref} else {}
    case Nested(fs) => EnteredOf(m, fs)
    case Mapping(key, v) => if IsPrimitive(key) then Entered(m, v.kind) else {}
  }

  ghost function EnteredOf(m: map<string, Struct>, fs: seq<Field>): set<string>
    decreases fs
  {
    if fs == [] then {}
    else Entered(m, fs[0].typed.kind) + if Accepted(m, fs[0].typed.kind) then EnteredOf(m, fs[1..]) else {}
  }

  ghost function EnterGraph(m: map<string, Struct>): (g: map<string, set<string>>)
    ensures g.Keys == m.Keys && forall s :: s in m ==> g[s] == EnteredOf(m, m[s].fields)
  {
    map s | s in m :: EnteredOf(m, m[s].fields)
  }

  // Validation ends within a depth exactly when no walk along entered structs is longer.
  lemma {:induction false} EndedIff(m: map<string, Struct>, depth: nat, t: Kind)
    ensures Attempt(m, depth, t).Some? <==> Bounded(EnterGraph(m), Entered(m, t), depth)
    decreases depth, t
  {
    hide Bounded, Accepted;
    match t
    case Primitive(_) => NothingEntered(m, depth);
    case Reference(node) =>
      if node.ref in m {
        BoundedStep(EnterGraph(m), node.ref, depth);
        if depth > 0 {
          EndedFieldsIff(m, depth - 1, m[node.ref].fields);
        }
      } else {
        NothingEntered(m, depth);
      }
    case Nested(fs) => EndedFieldsIff(m, depth, fs);
    case Mapping(key, v) =>
      if IsPrimitive(key) {
        EndedIff(m, depth, v.kind);
      } else {
        NothingEntered(m, depth);
      }
  }

  lemma NothingEntered(m: map<string, Struct>, depth: nat)
    ensures Bounded(EnterGraph(m), {}, depth)
  {
  }

  lemma {:induction false} EndedFieldsIff(m: map<string, Struct>, depth: nat, fs: seq<Field>)
    ensures AttemptFields(m, depth, fs).Some? <==> Bounded(EnterGraph(m), EnteredOf(m, fs), depth)
    decreases depth, fs
  {
    hide Bounded, Accepted;
    if fs == [] {
      NothingEntered(m, depth);
    } else {
      var t := fs[0].typed.kind;
      EndedIff(m, depth, t);
      EndedFieldsIff(m, depth, fs[1..]);
      BoundedBoth(EnterGraph(m), Entered(m, t), EnteredOf(m, fs[1..]), depth);
      assert Entered(m, t) + {} == Entered(m, t);
      if Attempt(m, depth, t).Some? {
        AcceptedHere(m, depth, t);
      }
    }
  }

  lemma AcceptedHere(m: map<string, Struct>, depth: nat, t: Kind)
    requires Attempt(m, depth, t).Some?
    ensures Accepted(m, t) <==> Attempt(m, depth, t) == Some(true)
  {
    hide Attempt;
    if other: nat :| Attempt(m, other, t) == Some(true) {
      var more := if depth < other then other else depth;
      AttemptMore(m, depth, more, t);
      AttemptMore(m, other, more, t);
    }
  }

  // Validation of a type ends exactly when no walk along the structs it enters comes back to one of them.
  lemma EndsIff(m: map<string, Struct>, t: Kind)
    ensures Ends(m, t) <==> !Cyclic(EnterGraph(m), Entered(m, t))
  {
    BoundedIff(EnterGraph(m), Entered(m, t));
    hide Bounded, Cyclic, Attempt;
    if depth: nat :| Attempt(m, depth, t).Some? {
      EndedIff(m, depth, t);
    }
    if depth: nat :| Bounded(EnterGraph(m), Entered(m, t), depth) {
      EndedIff(m, depth, t);
    }
  }

  // A type is refused only for itself or for something that can be reached from it.
  lemma {:induction false} RefusedUnsound(m: map<string, Struct>, depth: nat, t: Kind)
    requires Sound(m, t) && AllSound(m, Refs(t))
    ensures Attempt(m, depth, t) != Some(false)
    decreases depth, t
  {
    hide AllSound;
    match t
    case Primitive(_) =>
    case Reference(node) =>
      AllSoundFrom(m, node.ref);
      if depth > 0 {
        RefusedFieldsUnsound(m, depth - 1, m[node.ref].fields);
      }
    case Nested(fs) => RefusedFieldsUnsound(m, depth, fs);
    case Mapping(_, v) => RefusedUnsound(m, depth, v.kind);
  }

  lemma {:induction false} RefusedFieldsUnsound(m: map<string, Struct>, depth: nat, fs: seq<Field>)
    requires SoundFields(m, fs) && AllSound(m, RefsOf(fs))
    ensures AttemptFields(m, depth, fs) != Some(false)
    decreases depth, fs
  {
    hide AllSound;
    if fs != [] {
      AllSoundBoth(m, Refs(fs[0].typed.kind), RefsOf(fs[1..]));
      RefusedUnsound(m, depth, fs[0].typed.kind);
      RefusedFieldsUnsound(m, depth, fs[1..]);
    }
  }

  // For a type without errors, here or in what can be reached, validation ends exactly when the references have no
  // cycle.
  lemma SoundEndsIff(m: map<string, Struct>, t: Kind)
    requires Sound(m, t) && AllSound(m, Refs(t))
    ensures Ends(m, t) <==> !Cyclic(Graph(m), Refs(t))
  {
    AcceptsIff(m, t);
    hide AllSound, Sound, Cyclic, Attempt;
    if depth: nat :| Attempt(m, depth, t).Some? {
      RefusedUnsound(m, depth, t);
      assert Attempt(m, depth, t).value;
    }
    if depth: nat :| Attempt(m, depth, t) == Some(true) {
      assert Attempt(m, depth, t).Some?;
    }
  }

  // ---- The whole design -------------------------------------------------------------------------------------------

  lemma {:induction false} StructsAccepted(m: map<string, Struct>, depth: nat, structs: seq<Struct>)
    ensures AttemptStructs(m, depth, structs) == Some(true) <==>
            forall i :: 0 <= i < |structs| ==> AttemptFields(m, depth, structs[i].fields) == Some(true)
  {
    hide AttemptFields;
    if structs != [] {
      StructsAccepted(m, depth, structs[1..]);
      assert forall i :: 0 < i < |structs| ==> structs[i] == structs[1..][i - 1];
    }
  }

  lemma {:induction false} StructsRefused(m: map<string, Struct>, depth: nat, structs: seq<Struct>) returns (i: nat)
    requires AttemptStructs(m, depth, structs) == Some(false)
    ensures i < |structs| && AttemptFields(m, depth, structs[i].fields) == Some(false)
  {
    if AttemptFields(m, depth, structs[0].fields) == Some(false) {
      i := 0;
    } else {
      i := StructsRefused(m, depth, structs[1..]);
      i := i + 1;
    }
  }

  ghost predicate SoundDesign(m: map<string, Struct>) {
    forall s :: s in m ==> SoundFields(m, m[s].fields)
  }

  // The design is accepted, at some depth, exactly when every struct by itself is sound and no walk along references,
  // from any struct, comes back to a struct.
  lemma DesignAcceptedIff(structs: seq<Struct>)
    requires NamesDiffer(structs)
    ensures var m := ByName(structs);
            (exists depth: nat :: AttemptStructs(m, depth, structs) == Some(true)) <==>
            SoundDesign(m) && !Cyclic(Graph(m), m.Keys)
  {
    var m := ByName(structs);
    BoundedIff(Graph(m), m.Keys);
    if depth: nat :| AttemptStructs(m, depth, structs) == Some(true) {
      DesignBounded(structs, depth);
    }
    hide Cyclic;
    if SoundDesign(m) && !Cyclic(Graph(m), m.Keys) {
      var depth: nat :| Bounded(Graph(m), m.Keys, depth);
      BoundedDesign(structs, depth);
    }
  }

  lemma DesignBounded(structs: seq<Struct>, depth: nat)
    requires NamesDiffer(structs) && AttemptStructs(ByName(structs), depth, structs) == Some(true)
    ensures SoundDesign(ByName(structs)) && Bounded(Graph(ByName(structs)), ByName(structs).Keys, depth + 1)
  {
    var m := ByName(structs);
    var g := Graph(m);
    StructsAccepted(m, depth, structs);
    forall s | s in m
      ensures SoundFields(m, m[s].fields) && Bounded(g, g[s], depth)
    {
      var i := StructNamed(structs, s);
      AcceptedFieldsIff(m, depth, m[s].fields);
    }
    hide Graph, AttemptFields;
    forall p | IsWalk(g, m.Keys, p)
      ensures |p| <= depth + 1
    {
      assert |p| > 1 ==> IsWalk(g, g[p[0]], p[1..]);
    }
  }

  lemma BoundedDesign(structs: seq<Struct>, depth: nat)
    requires NamesDiffer(structs) && SoundDesign(ByName(structs))
    requires Bounded(Graph(ByName(structs)), ByName(structs).Keys, depth)
    ensures AttemptStructs(ByName(structs), depth, structs) == Some(true)
  {
    var m := ByName(structs);
    var g := Graph(m);
    forall i | 0 <= i < |structs|
      ensures AttemptFields(m, depth, structs[i].fields) == Some(true)
    {
      NamedStruct(structs, i);
      var s := structs[i].name;
      forall p | IsWalk(g, g[s], p)
        ensures |p| <= depth
      {
        assert ([s] + p)[1..] == p;
        assert IsWalk(g, m.Keys, [s] + p);
      }
      AcceptedFieldsIff(m, depth, structs[i].fields);
    }
    StructsAccepted(m, depth, structs);
  }

  // The structs of a design as the fields of one struct.
  function AsFields(structs: seq<Struct>): (fs: seq<Field>)
    ensures |fs| == |structs|
  {
    seq(|structs|, i requires 0 <= i < |structs| =>
      Field(structs[i].name, structs[i].tags, Typed(0, Nested(structs[i].fields))))
  }

  lemma {:induction false} AttemptAsFields(m: map<string, Struct>, depth: nat, structs: seq<Struct>)
    ensures AttemptStructs(m, depth, structs) == AttemptFields(m, depth, AsFields(structs))
  {
    if structs != [] {
      assert AsFields(structs)[1..] == AsFields(structs[1..]);
      AttemptAsFields(m, depth, structs[1..]);
    }
  }

  // The loop of Validate ends, on any design and with either answer, exactly when no walk along the structs it enters,
  // those named before the first error of a struct in structs before the first bad one, comes back to one of them.
  lemma DesignEndsIff(structs: seq<Struct>)
    ensures var m := ByName(structs);
            (exists depth: nat :: AttemptStructs(m, depth, structs).Some?) <==>
            !Cyclic(EnterGraph(m), EnteredOf(m, AsFields(structs)))
  {
    var m, t := ByName(structs), Nested(AsFields(structs));
    EndsIff(m, t);
    assert Entered(m, t) == EnteredOf(m, AsFields(structs));
    hide Cyclic, AttemptStructs, AttemptFields, EnteredOf;
    if depth: nat :| AttemptStructs(m, depth, structs).Some? {
      AttemptAsFields(m, depth, structs);
      assert Attempt(m, depth, t).Some?;
    }
    if depth: nat :| Attempt(m, depth, t).Some? {
      AttemptAsFields(m, depth, structs);
      assert AttemptStructs(m, depth, structs).Some?;
    }
  }

  // Validate ends, on a design whose structs are sound, exactly when the references have no cycle.
  lemma SoundDesignEndsIff(structs: seq<Struct>)
    requires NamesDiffer(structs) && SoundDesign(ByName(structs))
    ensures var m := ByName(structs);
            (exists depth: nat :: AttemptStructs(m, depth, structs).Some?) <==> !Cyclic(Graph(m), m.Keys)
  {
    var m := ByName(structs);
    DesignAcceptedIff(structs);
    hide Cyclic, AttemptStructs, SoundDesign;
    if depth: nat :| AttemptStructs(m, depth, structs).Some? {
      SoundNotRefused(structs, depth);
      assert AttemptStructs(m, depth, structs).value;
    }
    if depth: nat :| AttemptStructs(m, depth, structs) == Some(true) {
      assert AttemptStructs(m, depth, structs).Some?;
    }
  }

  lemma SoundNotRefused(structs: seq<Struct>, depth: nat)
    requires NamesDiffer(structs) && SoundDesign(ByName(structs))
    ensures AttemptStructs(ByName(structs), depth, structs) != Some(false)
  {
    var m := ByName(structs);
    if AttemptStructs(m, depth, structs) == Some(false) {
      var i := StructsRefused(m, depth, structs);
      NamedStruct(structs, i);
      RefusedFieldsUnsound(m, depth, structs[i].fields);
    }
  }

  lemma OneField(m: map<string, Struct>, f: Field)
    ensures RefsOf([f]) == Refs(f.typed.kind)
    ensures SoundFields(m, [f]) <==> Sound(m, f.typed.kind)
  {
    assert [f][1..] == [];
  }

  // When it ends, it refuses a design exactly for a struct that is not sound.
  lemma RefusedIff(structs: seq<Struct>, depth: nat)
    requires NamesDiffer(structs) && AttemptStructs(ByName(structs), depth, structs).Some?
    ensures AttemptStructs(ByName(structs), depth, structs) == Some(SoundDesign(ByName(structs)))
  {
    var m := ByName(structs);
    if AttemptStructs(m, depth, structs).value {
      DesignBounded(structs, depth);
    } else if SoundDesign(m) {
      SoundNotRefused(structs, depth);
    }
  }

  // Two structs that refer to each other are never done with.
  lemma MutualReferenceNeverEnds(toA: RefType, toB: RefType, depth: nat)
    requires toA.ref == "a" && toB.ref == "b"
    ensures var none := Tags("", Any);
            var m := map["a" := Struct("a", none, [Field("x", none, Typed(0, Reference(toB)))]),
                         "b" := Struct("b", none, [Field("y", none, Typed(0, Reference(toA)))])];
            Attempt(m, depth, Reference(toA)) == None
  {
    var none := Tags("", Any);
    var fa, fb := Field("x", none, Typed(0, Reference(toB))), Field("y", none, Typed(0, Reference(toA)));
    var m := map["a" := Struct("a", none, [fa]), "b" := Struct("b", none, [fb])];
    var g, t := Graph(m), Reference(toA);
    OneField(m, fa);
    OneField(m, fb);
    assert g["a"] == {"b"} && g["b"] == {"a"} && Sound(m, t) && AllSound(m, Refs(t));
    var p := ["a", "b", "a"];
    assert p[1..] == ["b", "a"] && p[1..][1..] == ["a"];
    assert IsWalk(g, {"a"}, p) && p[0] == p[2];
    assert Cyclic(g, {"a"});
    SoundEndsIff(m, t);
  }
}
