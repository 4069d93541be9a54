// Messages with objects inside objects: the generated loop renames the fields of the message itself, while the Go
// struct that decodes it has tags with wire names at every level.
module NestedRenaming {
  import opened Common
  import opened Designs
  import opened DirectedFields
  import R = Renaming

  datatype Json = Null | Leaf(text: string) | List(items: seq<Json>) | Object(props: map<string, Json>)

  function Wire(f: Field): string {
    WireName(f.name, f.tags.alias)
  }

  // The fields as the loop sees them.
  function Plain(fs: seq<Field>): (rs: seq<R.Field>)
    ensures |rs| == |fs|
    ensures forall i :: 0 <= i < |fs| ==> rs[i].name == fs[i].name && R.Wire(rs[i]) == Wire(fs[i])
  {
    seq(|fs|, i requires 0 <= i < |fs| => R.Field(fs[i].name, fs[i].tags.alias))
  }

  // v is a value of the type, as the design names the fields; null is one of any type, and fields may be absent.
  ghost predicate Fits(m: map<string, Struct>, depth: nat, t: Kind, v: Json)
    decreases v, depth + 1
  {
    if v.Null? then true
    else if depth > 0 then v.List? && forall i :: 0 <= i < |v.items| ==> Fits(m, depth - 1, t, v.items[i])
    else
      match t
      case Primitive(_) => v.Leaf?
      case Reference(node) => v.Object? && node.ref in m && FitsFields(m, m[node.ref].fields, v)
      case Nested(fs) => v.Object? && FitsFields(m, fs, v)
      case Mapping(_, u) => v.Object? && forall k :: k in v.props ==> Fits(m, u.depth, u.kind, v.props[k])
  }

  ghost predicate FitsFields(m: map<string, Struct>, fs: seq<Field>, v: Json)
    requires v.Object?
    decreases v, 0
  {
    forall k :: k in v.props ==>
      exists i :: 0 <= i < |fs| && fs[i].name == k && Fits(m, fs[i].typed.depth, fs[i].typed.kind, v.props[k])
  }

  // w is v with every field, at every level, under its wire name, which is what the Go struct decodes to the fields.
  ghost predicate Agrees(m: map<string, Struct>, depth: nat, t: Kind, v: Json, w: Json)
    decreases v, depth + 1
  {
    if v.Null? || w.Null? then v == w
    else if depth > 0 then
      && v.List? && w.List? && |v.items| == |w.items|
      && forall i :: 0 <= i < |v.items| ==> Agrees(m, depth - 1, t, v.items[i], w.items[i])
    else
      match t
      case Primitive(_) => v == w
      case Reference(node) => v.Object? && w.Object? && node.ref in m && AgreesFields(m, m[node.ref].fields, v, w)
      case Nested(fs) => v.Object? && w.Object? && AgreesFields(m, fs, v, w)
      case Mapping(_, u) =>
        && v.Object? && w.Object? && v.props.Keys == w.props.Keys
        && forall k :: k in v.props ==> Agrees(m, u.depth, u.kind, v.props[k], w.props[k])
  }

  ghost predicate AgreesFields(m: map<string, Struct>, fs: seq<Field>, v: Json, w: Json)
    requires v.Object? && w.Object?
    decreases v, 0
  {
    && (forall k :: k in w.props ==> IsWire(fs, v.props, k))
    && forall i :: 0 <= i < |fs| && fs[i].name in v.props ==>
         && Wire(fs[i]) in w.props
         && Agrees(m, fs[i].typed.depth, fs[i].typed.kind, v.props[fs[i].name], w.props[Wire(fs[i])])
  }

  // Field names differ, in every struct and nested struct.
  ghost predicate Distinct(fs: seq<Field>)
    decreases fs
  {
    && (forall i, j :: 0 <= i < j < |fs| ==> fs[i].name != fs[j].name)
    && forall i :: 0 <= i < |fs| ==> DistinctIn(fs[i].typed.kind)
  }

  ghost predicate DistinctIn(t: Kind)
    decreases t
  {
    match t
    case Nested(fs) => Distinct(fs)
    case Mapping(_, u) => DistinctIn(u.kind)
    case _ => true
  }

  ghost predicate AllDistinct(m: map<string, Struct>) {
    forall s :: s in m ==> Distinct(m[s].fields)
  }

  // No field that the fields reach has an alias, themselves included.
  ghost predicate BareFields(m: map<string, Struct>, fs: seq<Field>) {
    forall p :: FieldPath(m, fs, p) ==> Wire(FieldAt(m, fs, p, |p| - 1)) == FieldAt(m, fs, p, |p| - 1).name
  }

  // No field inside a type has.
  ghost predicate Bare(m: map<string, Struct>, t: Kind) {
    Content(m, t).Some? ==> BareFields(m, Content(m, t).value)
  }

  // ---- Without aliases inside ---------------------------------------------------------------------------------------

  lemma {:induction false} BareStep(m: map<string, Struct>, fs: seq<Field>, i: nat)
    requires BareFields(m, fs) && i < |fs|
    ensures Wire(fs[i]) == fs[i].name && Bare(m, fs[i].typed.kind)
  {
    var one: seq<nat> := [i];
    assert FieldPath(m, fs, one) && FieldAt(m, fs, one, 0) == fs[i];
    if Content(m, fs[i].typed.kind).Some? {
      var sub := Content(m, fs[i].typed.kind).value;
      forall p | FieldPath(m, sub, p)
        ensures Wire(FieldAt(m, sub, p, |p| - 1)) == FieldAt(m, sub, p, |p| - 1).name
      {
        var q := [i] + p;
        assert q[1..] == p;
        assert FieldPath(m, fs, q) && FieldAt(m, fs, q, |p|) == FieldAt(m, sub, p, |p| - 1);
      }
    }
  }

  lemma {:induction false} SameInside(m: map<string, Struct>, depth: nat, t: Kind, v: Json)
    requires Fits(m, depth, t, v) && Bare(m, t) && DistinctIn(t) && AllDistinct(m)
    ensures Agrees(m, depth, t, v, v)
    decreases v, depth + 1
  {
    hide BareFields, Distinct;
    if v.Null? {
    } else if depth > 0 {
      forall i | 0 <= i < |v.items|
        ensures Agrees(m, depth - 1, t, v.items[i], v.items[i])
      {
        SameInside(m, depth - 1, t, v.items[i]);
      }
    } else {
      match t {
        case Primitive(_) =>
        case Reference(node) => SameFields(m, m[node.ref].fields, v);
        case Nested(fs) => SameFields(m, fs, v);
        case Mapping(_, u) =>
          forall k | k in v.props
            ensures Agrees(m, u.depth, u.kind, v.props[k], v.props[k])
          {
            SameInside(m, u.depth, u.kind, v.props[k]);
          }
      }
    }
  }

  lemma {:induction false} SameFields(m: map<string, Struct>, fs: seq<Field>, v: Json)
    requires v.Object? && FitsFields(m, fs, v) && BareFields(m, fs) && Distinct(fs) && AllDistinct(m)
    ensures AgreesFields(m, fs, v, v)
    decreases v, 0
  {
    forall i | 0 <= i < |fs|
      ensures Wire(fs[i]) == fs[i].name
      ensures fs[i].name in v.props ==>
                Agrees(m, fs[i].typed.depth, fs[i].typed.kind, v.props[fs[i].name], v.props[fs[i].name])
    {
      BareStep(m, fs, i);
      if fs[i].name in v.props {
        SameInside(m, fs[i].typed.depth, fs[i].typed.kind, v.props[fs[i].name]);
      }
    }
  }

  // ---- What is sent -------------------------------------------------------------------------------------------------

  ghost function Sent(fs: seq<Field>, o: map<string, Json>): R.Outcome<Json> {
    R.After(Plain(fs), true, o, |fs|)
  }

  // A message of the design that does not make the loop throw.
  ghost predicate Sendable(m: map<string, Struct>, fs: seq<Field>, o: map<string, Json>) {
    FitsFields(m, fs, Object(o)) && Sent(fs, o).ok
  }

  // Every top-level field that is there is under its wire name with the value it had, and nothing else is there.
  ghost predicate Renamed(fs: seq<Field>, o: map<string, Json>, w: map<string, Json>) {
    && (forall k :: k in w ==> IsWire(fs, o, k))
    && forall i :: 0 <= i < |fs| && fs[i].name in o ==>
         Wire(fs[i]) in w && w[Wire(fs[i])] == o[fs[i].name]
  }

  // The wire name of a field that is there.
  ghost predicate IsWire(fs: seq<Field>, o: map<string, Json>, k: string) {
    exists i :: 0 <= i < |fs| && Wire(fs[i]) == k && fs[i].name in o
  }

  lemma {:induction false} SentMoved(m: map<string, Struct>, fs: seq<Field>, o: map<string, Json>)
    requires R.Separate(Plain(fs)) && Sendable(m, fs, o)
    ensures R.Moved(Plain(fs), true, o, |fs|, Sent(fs, o).props)
    ensures forall k :: k in o ==> exists i :: 0 <= i < |fs| && fs[i].name == k
  {
    var rs := Plain(fs);
    R.SendsIff(rs, o);
    hide R.After, R.Moved, Fits;
    assert R.Clean(rs, true, o);
    R.CleanMoves(rs, true, o, |rs|);
  }

  lemma {:induction false} SentFields(m: map<string, Struct>, fs: seq<Field>, o: map<string, Json>)
    requires R.Separate(Plain(fs)) && Sendable(m, fs, o)
    ensures Renamed(fs, o, Sent(fs, o).props)
  {
    SentMoved(m, fs, o);
    hide R.Separate, R.Moved, Sendable, Sent;
    MovedRenames(fs, o, Sent(fs, o).props);
  }

  lemma {:induction false} MovedRenames(fs: seq<Field>, o: map<string, Json>, w: map<string, Json>)
    requires R.Separate(Plain(fs)) && R.Moved(Plain(fs), true, o, |fs|, w)
    requires forall x :: x in o ==> exists i :: 0 <= i < |fs| && fs[i].name == x
    ensures Renamed(fs, o, w)
  {
    hide R.Separate, R.Moved, R.IsFrom, R.IsTo, R.Aliased, R.From, R.To, R.Wire, IsWire, Wire, WireName, Plain;
    forall k | k in w
      ensures IsWire(fs, o, k)
    {
      OneKey(fs, o, w, k);
    }
    forall i | 0 <= i < |fs| && fs[i].name in o
      ensures Wire(fs[i]) in w && w[Wire(fs[i])] == o[fs[i].name]
    {
      OneSent(fs, o, w, i);
    }
  }

  lemma {:induction false} OneKey(fs: seq<Field>, o: map<string, Json>, w: map<string, Json>, k: string)
    requires R.Moved(Plain(fs), true, o, |fs|, w) && k in w
    requires forall x :: x in o ==> exists i :: 0 <= i < |fs| && fs[i].name == x
    ensures IsWire(fs, o, k)
  {
    var rs := Plain(fs);
    if R.IsTo(rs, true, |rs|, k) {
      var i :| 0 <= i < |rs| && R.Aliased(rs[i]) && R.To(rs[i], true) == k;
      assert R.From(rs[i], true) == fs[i].name && Wire(fs[i]) == k;
    } else {
      var i :| 0 <= i < |fs| && fs[i].name == k;
      assert R.From(rs[i], true) == k;
      assert Wire(fs[i]) == k;
    }
  }

  lemma {:induction false} OneSent(fs: seq<Field>, o: map<string, Json>, w: map<string, Json>, i: nat)
    requires R.Separate(Plain(fs)) && R.Moved(Plain(fs), true, o, |fs|, w) && i < |fs| && fs[i].name in o
    ensures Wire(fs[i]) in w && w[Wire(fs[i])] == o[fs[i].name]
  {
    var rs := Plain(fs);
    if R.Aliased(rs[i]) {
      assert R.To(rs[i], true) == Wire(fs[i]) && R.From(rs[i], true) == fs[i].name;
    } else {
      assert !R.IsFrom(rs, true, |rs|, fs[i].name);
    }
  }

  // The message arrives as the Go struct decodes it.
  ghost predicate Conforms(m: map<string, Struct>, fs: seq<Field>, o: map<string, Json>) {
    AgreesFields(m, fs, Object(o), Object(Sent(fs, o).props))
  }

  lemma {:induction false} RenamedAgrees(m: map<string, Struct>, fs: seq<Field>, o: map<string, Json>,
                                         w: map<string, Json>)
    requires Renamed(fs, o, w)
    ensures AgreesFields(m, fs, Object(o), Object(w)) <==>
            forall i :: 0 <= i < |fs| && fs[i].name in o ==>
              Agrees(m, fs[i].typed.depth, fs[i].typed.kind, o[fs[i].name], o[fs[i].name])
  {
    hide Agrees;
    if forall i :: 0 <= i < |fs| && fs[i].name in o ==>
                     Agrees(m, fs[i].typed.depth, fs[i].typed.kind, o[fs[i].name], o[fs[i].name]) {
      assert AgreesFields(m, fs, Object(o), Object(w));
    }
  }

  lemma {:induction false} SentAgrees(m: map<string, Struct>, fs: seq<Field>, o: map<string, Json>)
    requires R.Separate(Plain(fs)) && Distinct(fs) && AllDistinct(m) && Sendable(m, fs, o)
    requires forall i :: 0 <= i < |fs| ==> Bare(m, fs[i].typed.kind)
    ensures Conforms(m, fs, o)
  {
    SentFields(m, fs, o);
    RenamedAgrees(m, fs, o, Sent(fs, o).props);
    forall i | 0 <= i < |fs| && fs[i].name in o
      ensures Fits(m, fs[i].typed.depth, fs[i].typed.kind, o[fs[i].name]) && DistinctIn(fs[i].typed.kind)
    {
      FitsAt(m, fs, o, i);
    }
    hide Sent, Bare, R.Separate, Agrees, Sendable, Fits, Distinct, AllDistinct, DistinctIn, Renamed;
    forall i | 0 <= i < |fs| && fs[i].name in o
      ensures Agrees(m, fs[i].typed.depth, fs[i].typed.kind, o[fs[i].name], o[fs[i].name])
    {
      SameInside(m, fs[i].typed.depth, fs[i].typed.kind, o[fs[i].name]);
    }
  }

  lemma {:induction false} FitsAt(m: map<string, Struct>, fs: seq<Field>, o: map<string, Json>, i: nat)
    requires Distinct(fs) && FitsFields(m, fs, Object(o)) && i < |fs| && fs[i].name in o
    ensures Fits(m, fs[i].typed.depth, fs[i].typed.kind, o[fs[i].name]) && DistinctIn(fs[i].typed.kind)
  {
    hide Fits;
    var v := Object(o);
    assert fs[i].name in v.props;
  }

  // ---- With an alias inside -----------------------------------------------------------------------------------------

  // A value of the type with inner, an object, inside its arrays and maps.
  ghost function Wrap(depth: nat, t: Kind, inner: Json): Json
    decreases t, depth
  {
    if depth > 0 then List([Wrap(depth - 1, t, inner)])
    else if t.Mapping? then Object(map["" := Wrap(t.value.depth, t.value.kind, inner)])
    else inner
  }

  // An object that has the fields of a path and no others.
  ghost function Along(m: map<string, Struct>, fs: seq<Field>, p: seq<nat>): (v: Json)
    requires FieldPath(m, fs, p)
    ensures v.Object?
    decreases |p|
  {
    var f := fs[p[0]];
    Object(map[f.name := if |p| == 1 then Null
                         else Wrap(f.typed.depth, f.typed.kind, Along(m, Content(m, f.typed.kind).value, p[1..]))])
  }

  lemma {:induction false} WrapFits(m: map<string, Struct>, depth: nat, t: Kind, inner: Json)
    requires Content(m, t).Some? && inner.Object? && FitsFields(m, Content(m, t).value, inner)
    ensures Fits(m, depth, t, Wrap(depth, t, inner))
    decreases t, depth
  {
    if depth > 0 {
      WrapFits(m, depth - 1, t, inner);
    } else if t.Mapping? {
      WrapFits(m, t.value.depth, t.value.kind, inner);
    }
  }

  lemma {:induction false} WrapAgrees(m: map<string, Struct>, depth: nat, t: Kind, inner: Json)
    requires Content(m, t).Some? && inner.Object?
    requires Agrees(m, depth, t, Wrap(depth, t, inner), Wrap(depth, t, inner))
    ensures AgreesFields(m, Content(m, t).value, inner, inner)
    decreases t, depth
  {
    var v := Wrap(depth, t, inner);
    if depth > 0 {
      assert v.items[0] == Wrap(depth - 1, t, inner);
      WrapAgrees(m, depth - 1, t, inner);
    } else if t.Mapping? {
      assert "" in v.props;
      WrapAgrees(m, t.value.depth, t.value.kind, inner);
    }
  }

  lemma {:induction false} AlongFits(m: map<string, Struct>, fs: seq<Field>, p: seq<nat>)
    requires FieldPath(m, fs, p)
    ensures FitsFields(m, fs, Along(m, fs, p))
    decreases |p|
  {
    var f := fs[p[0]];
    if |p| > 1 {
      var sub := Content(m, f.typed.kind).value;
      AlongFits(m, sub, p[1..]);
      WrapFits(m, f.typed.depth, f.typed.kind, Along(m, sub, p[1..]));
    }
  }

  lemma {:induction false} FieldAgrees(m: map<string, Struct>, fs: seq<Field>, v: Json, i: nat)
    requires v.Object? && AgreesFields(m, fs, v, v) && i < |fs| && v.props.Keys == {fs[i].name}
    ensures Wire(fs[i]) == fs[i].name
    ensures Agrees(m, fs[i].typed.depth, fs[i].typed.kind, v.props[fs[i].name], v.props[fs[i].name])
  {
    hide Agrees;
    assert fs[i].name in v.props.Keys;
    assert Wire(fs[i]) in v.props.Keys;
  }

  lemma {:induction false} AlongStep(m: map<string, Struct>, fs: seq<Field>, p: seq<nat>)
    requires FieldPath(m, fs, p) && AgreesFields(m, fs, Along(m, fs, p), Along(m, fs, p))
    ensures Wire(fs[p[0]]) == fs[p[0]].name
    ensures |p| > 1 ==>
              var sub := Content(m, fs[p[0]].typed.kind).value;
              AgreesFields(m, sub, Along(m, sub, p[1..]), Along(m, sub, p[1..]))
  {
    var f, v := fs[p[0]], Along(m, fs, p);
    assert v.props.Keys == {f.name};
    hide AgreesFields, Agrees, WireName, Wrap, FieldPath;
    FieldAgrees(m, fs, v, p[0]);
    if |p| > 1 {
      var sub := Content(m, f.typed.kind).value;
      WrapAgrees(m, f.typed.depth, f.typed.kind, Along(m, sub, p[1..]));
    }
  }

  lemma {:induction false} AlongAgrees(m: map<string, Struct>, fs: seq<Field>, p: seq<nat>)
    requires FieldPath(m, fs, p) && AgreesFields(m, fs, Along(m, fs, p), Along(m, fs, p))
    ensures Wire(FieldAt(m, fs, p, |p| - 1)) == FieldAt(m, fs, p, |p| - 1).name
    decreases |p|
  {
    hide AgreesFields, Along, WireName;
    AlongStep(m, fs, p);
    if |p| > 1 {
      AlongAgrees(m, Content(m, fs[p[0]].typed.kind).value, p[1..]);
    }
  }

  // A message whose i-th field holds v, with null for every other renamed field.
  ghost function Message(fs: seq<Field>, i: nat, v: Json): map<string, Json>
    requires i < |fs|
  {
    (map j | 0 <= j < |fs| && Wire(fs[j]) != fs[j].name :: fs[j].name := Null)[fs[i].name := v]
  }

  lemma {:induction false} MessageSendable(m: map<string, Struct>, fs: seq<Field>, i: nat, v: Json)
    requires R.Separate(Plain(fs)) && i < |fs| && Fits(m, fs[i].typed.depth, fs[i].typed.kind, v)
    ensures Sendable(m, fs, Message(fs, i, v))
  {
    var o := Message(fs, i, v);
    R.SendsIff(Plain(fs), o);
    forall k | k in o
      ensures exists j :: 0 <= j < |fs| && fs[j].name == k && Fits(m, fs[j].typed.depth, fs[j].typed.kind, o[k])
    {
      if k == fs[i].name {
        assert o[k] == v;
      } else {
        var j :| 0 <= j < |fs| && fs[j].name == k;
        assert o[k] == Null;
      }
    }
  }

  // An alias on a path inside a field: a message along that path does not agree.
  lemma {:induction false} AliasInside(m: map<string, Struct>, fs: seq<Field>, i: nat, p: seq<nat>)
    requires R.Separate(Plain(fs)) && i < |fs| && Content(m, fs[i].typed.kind).Some?
    requires var sub := Content(m, fs[i].typed.kind).value;
             FieldPath(m, sub, p) && Wire(FieldAt(m, sub, p, |p| - 1)) != FieldAt(m, sub, p, |p| - 1).name
    ensures exists o :: Sendable(m, fs, o) && !Conforms(m, fs, o)
  {
    var f := fs[i];
    var sub := Content(m, f.typed.kind).value;
    var inner := Along(m, sub, p);
    var v := Wrap(f.typed.depth, f.typed.kind, inner);
    AlongFits(m, sub, p);
    WrapFits(m, f.typed.depth, f.typed.kind, inner);
    var o := Message(fs, i, v);
    assert f.name in o && o[f.name] == v;
    MessageSendable(m, fs, i, v);
    hide *;
    if Conforms(m, fs, o) {
      ConformsAt(m, fs, o, i);
      WrapAgrees(m, f.typed.depth, f.typed.kind, inner);
      AlongAgrees(m, sub, p);
    }
  }

  lemma {:induction false} ConformsAt(m: map<string, Struct>, fs: seq<Field>, o: map<string, Json>, i: nat)
    requires R.Separate(Plain(fs)) && Sendable(m, fs, o) && Conforms(m, fs, o) && i < |fs| && fs[i].name in o
    ensures Agrees(m, fs[i].typed.depth, fs[i].typed.kind, o[fs[i].name], o[fs[i].name])
  {
    SentFields(m, fs, o);
    hide R.Separate, Sendable;
    RenamedAgrees(m, fs, o, Sent(fs, o).props);
    hide Agrees, AgreesFields;
  }

  // Whatever message is sent without a throw, at every level its keys are those that the Go struct decodes to the same
  // fields, exactly when no field inside a field has an alias.
  lemma {:induction false} SentAgreesIff(m: map<string, Struct>, fs: seq<Field>)
    requires R.Separate(Plain(fs)) && Distinct(fs) && AllDistinct(m)
    ensures (forall o :: Sendable(m, fs, o) ==> Conforms(m, fs, o)) <==>
            (forall i :: 0 <= i < |fs| ==> Bare(m, fs[i].typed.kind))
  {
    hide R.Separate, Distinct, AllDistinct, Sendable, Conforms;
    if forall i :: 0 <= i < |fs| ==> Bare(m, fs[i].typed.kind) {
      forall o | Sendable(m, fs, o)
        ensures Conforms(m, fs, o)
      {
        SentAgrees(m, fs, o);
      }
    } else {
      var i :| 0 <= i < |fs| && !Bare(m, fs[i].typed.kind);
      var sub := Content(m, fs[i].typed.kind).value;
      var p :| FieldPath(m, sub, p) && Wire(FieldAt(m, sub, p, |p| - 1)) != FieldAt(m, sub, p, |p| - 1).name;
      AliasInside(m, fs, i, p);
    }
  }
}
