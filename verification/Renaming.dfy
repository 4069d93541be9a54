// The renaming of fields in the generated JavaScript client: a message is renamed in place before it is sent, and an
// event is renamed in place when it is received. An object is its own enumerable properties.
module Renaming {
  import opened Common

  // A field of an event.
  datatype Field = Field(name: string, alias: string)

  function Wire(f: Field): string {
    WireName(f.name, f.alias)
  }

  predicate Aliased(f: Field) {
    f.name != Wire(f)
  }

  function From(f: Field, sending: bool): string {
    if sending then f.name else Wire(f)
  }

  function To(f: Field, sending: bool): string {
    if sending then Wire(f) else f.name
  }

  // An object after some of the fields; not ok when defineProperty threw because there was nothing to move.
  datatype Outcome<V> = Outcome(props: map<string, V>, ok: bool)

  // One defineProperty followed by one delete.
  function Move<V>(o: Outcome<V>, from: string, to: string): (r: Outcome<V>)
    ensures r.ok <==> o.ok && from in o.props
    ensures r.ok && from != to ==> forall x :: x in r.props <==> (x in o.props && x != from) || x == to
    ensures r.ok && from != to ==>
              forall x :: x in r.props ==> r.props[x] == if x == to then o.props[from] else o.props[x]
  {
    if !o.ok then o
    else if from !in o.props then Outcome(o.props, false)
    else Outcome(o.props[to := o.props[from]] - {from}, true)
  }

  // The object after the first k fields.
  function After<V>(fs: seq<Field>, sending: bool, m: map<string, V>, k: nat): Outcome<V>
    requires k <= |fs|
  {
    if k == 0 then Outcome(m, true) else
    var o, f := After(fs, sending, m, k - 1), fs[k - 1];
    if Aliased(f) then Move(o, From(f, sending), To(f, sending)) else o
  }

  class JsObject<V> {
    var props: map<string, V>

    constructor (props: map<string, V>)
      ensures this.props == props
    {
      this.props := props;
    }

    // The property is defined again under the other key, then deleted under its own. Throws when it is missing.
    method Rename(from: string, to: string) returns (ok: bool)
      modifies this
      ensures Outcome(props, ok) == Move(Outcome(old(props), true), from, to)
    {
      if from !in props {
        return false;
      }
      props := props[to := props[from]];
      props := props - {from};
      ok := true;
    }
  }

  // The loop at the head of send<Event>.
  method RenameToSend<V>(fields: seq<Field>, message: JsObject<V>) returns (ok: bool)
    modifies message
    ensures Outcome(message.props, ok) == After(fields, true, old(message.props), |fields|)
  {
    ok := true;
    var i := 0;
    while i < |fields| && ok
      invariant i <= |fields| && Outcome(message.props, ok) == After(fields, true, old(message.props), i)
    {
      if fields[i].name != Wire(fields[i]) {
        ok := message.Rename(fields[i].name, Wire(fields[i]));
      }
      i := i + 1;
    }
    Thrown(fields, true, old(message.props), i);
  }

  // The loop at the head of on<Event>Fn.
  method RenameReceived<V>(fields: seq<Field>, event: JsObject<V>) returns (ok: bool)
    modifies event
    ensures Outcome(event.props, ok) == After(fields, false, old(event.props), |fields|)
  {
    ok := true;
    var i := 0;
    while i < |fields| && ok
      invariant i <= |fields| && Outcome(event.props, ok) == After(fields, false, old(event.props), i)
    {
      if fields[i].name != Wire(fields[i]) {
        ok := event.Rename(Wire(fields[i]), fields[i].name);
      }
      i := i + 1;
    }
    Thrown(fields, false, old(event.props), i);
  }

  // After a throw nothing moves any more.
  lemma {:induction false} Thrown<V>(fs: seq<Field>, sending: bool, m: map<string, V>, i: nat)
    requires i <= |fs| && (i < |fs| ==> !After(fs, sending, m, i).ok)
    ensures After(fs, sending, m, |fs|) == After(fs, sending, m, i)
    decreases |fs| - i
  {
    if i < |fs| {
      Thrown(fs, sending, m, i + 1);
    }
  }

  lemma {:induction false} OkBefore<V>(fs: seq<Field>, sending: bool, m: map<string, V>, k: nat)
    requires k <= |fs| && After(fs, sending, m, |fs|).ok
    ensures After(fs, sending, m, k).ok
  {
    if !After(fs, sending, m, k).ok {
      Thrown(fs, sending, m, k);
    }
  }

  // The object that comes out of both loops.
  function RoundTrip<V>(fs: seq<Field>, m: map<string, V>): Outcome<V> {
    var o := After(fs, true, m, |fs|);
    if o.ok then After(fs, false, o.props, |fs|) else o
  }

  // ---- When nothing clashes ---------------------------------------------------------------------------------------

  ghost predicate IsFrom(fs: seq<Field>, sending: bool, k: nat, x: string)
    requires k <= |fs|
  {
    exists i :: 0 <= i < k && Aliased(fs[i]) && From(fs[i], sending) == x
  }

  ghost predicate IsTo(fs: seq<Field>, sending: bool, k: nat, x: string)
    requires k <= |fs|
  {
    exists i :: 0 <= i < k && Aliased(fs[i]) && To(fs[i], sending) == x
  }

  // Different keys of m are moved to different places, none of which is a key of m.
  ghost predicate Clean<V>(fs: seq<Field>, sending: bool, m: map<string, V>) {
    && (forall i :: 0 <= i < |fs| && Aliased(fs[i]) ==> From(fs[i], sending) in m && To(fs[i], sending) !in m)
    && (forall i, j :: 0 <= i < j < |fs| && Aliased(fs[i]) && Aliased(fs[j]) ==>
          From(fs[i], sending) != From(fs[j], sending) && To(fs[i], sending) != To(fs[j], sending))
  }

  // The first k fields are where they go, and everything else is where it was.
  ghost predicate Moved<V>(fs: seq<Field>, sending: bool, m: map<string, V>, k: nat, o: map<string, V>)
    requires k <= |fs|
  {
    && (forall x :: x in o <==> (x in m && !IsFrom(fs, sending, k, x)) || IsTo(fs, sending, k, x))
    && (forall x :: x in m && x in o ==> o[x] == m[x])
    && (forall i :: 0 <= i < k && Aliased(fs[i]) ==>
          From(fs[i], sending) in m && To(fs[i], sending) in o && o[To(fs[i], sending)] == m[From(fs[i], sending)])
  }

  lemma {:induction false} CleanMoves<V>(fs: seq<Field>, sending: bool, m: map<string, V>, k: nat)
    requires k <= |fs| && Clean(fs, sending, m)
    ensures After(fs, sending, m, k).ok && Moved(fs, sending, m, k, After(fs, sending, m, k).props)
  {
    hide Move, Moved, Clean;
    if k == 0 {
      NoneMoved(fs, sending, m);
    } else {
      CleanMoves(fs, sending, m, k - 1);
      var o := After(fs, sending, m, k - 1).props;
      if Aliased(fs[k - 1]) {
        OneMore(fs, sending, m, k - 1, o);
      } else {
        OneSkipped(fs, sending, m, k - 1, o);
      }
    }
  }

  lemma NoneMoved<V>(fs: seq<Field>, sending: bool, m: map<string, V>)
    ensures Moved(fs, sending, m, 0, m)
  {
  }

  lemma OneSkipped<V>(fs: seq<Field>, sending: bool, m: map<string, V>, k: nat, o: map<string, V>)
    requires k < |fs| && !Aliased(fs[k]) && Moved(fs, sending, m, k, o)
    ensures Moved(fs, sending, m, k + 1, o)
  {
    hide IsFrom, IsTo;
    forall x
      ensures IsFrom(fs, sending, k + 1, x) <==> IsFrom(fs, sending, k, x)
      ensures IsTo(fs, sending, k + 1, x) <==> IsTo(fs, sending, k, x)
    {
      SamePlaces(fs, sending, k, x);
    }
  }

  lemma SamePlaces(fs: seq<Field>, sending: bool, k: nat, x: string)
    requires k < |fs| && !Aliased(fs[k])
    ensures IsFrom(fs, sending, k + 1, x) <==> IsFrom(fs, sending, k, x)
    ensures IsTo(fs, sending, k + 1, x) <==> IsTo(fs, sending, k, x)
  {
  }

  lemma OneMore<V>(fs: seq<Field>, sending: bool, m: map<string, V>, k: nat, o: map<string, V>)
    requires k < |fs| && Aliased(fs[k]) && Clean(fs, sending, m) && Moved(fs, sending, m, k, o)
    ensures From(fs[k], sending) in o
    ensures Moved(fs, sending, m, k + 1, Move(Outcome(o, true), From(fs[k], sending), To(fs[k], sending)).props)
  {
    hide IsFrom, IsTo, Clean;
    NotMovedYet(fs, sending, m, k, o);
    var from, to := From(fs[k], sending), To(fs[k], sending);
    var o' := Move(Outcome(o, true), from, to).props;
    hide Move;
    forall x
      ensures x in o' <==> (x in m && !IsFrom(fs, sending, k + 1, x)) || IsTo(fs, sending, k + 1, x)
      ensures x in m && x in o' ==> o'[x] == m[x]
    {
      OneMoreKey(fs, sending, m, k, o, x);
    }
    forall i | 0 <= i <= k && Aliased(fs[i])
      ensures From(fs[i], sending) in m && To(fs[i], sending) in o' && o'[To(fs[i], sending)] == m[From(fs[i], sending)]
    {
      OneMoreField(fs, sending, m, k, o, i);
    }
  }

  lemma NotMovedYet<V>(fs: seq<Field>, sending: bool, m: map<string, V>, k: nat, o: map<string, V>)
    requires k < |fs| && Aliased(fs[k]) && Clean(fs, sending, m) && Moved(fs, sending, m, k, o)
    ensures var from, to := From(fs[k], sending), To(fs[k], sending);
            from in m && from in o && o[from] == m[from] && to !in o && to !in m
  {
    assert !IsFrom(fs, sending, k, From(fs[k], sending)) && !IsTo(fs, sending, k, To(fs[k], sending));
  }

  lemma OneMoreField<V>(fs: seq<Field>, sending: bool, m: map<string, V>, k: nat, o: map<string, V>, i: nat)
    requires k < |fs| && Aliased(fs[k]) && Clean(fs, sending, m) && Moved(fs, sending, m, k, o)
    requires i <= k && Aliased(fs[i])
    ensures var from, to := From(fs[k], sending), To(fs[k], sending);
            from in o &&
            var o' := Move(Outcome(o, true), from, to).props;
            From(fs[i], sending) in m && To(fs[i], sending) in o' && o'[To(fs[i], sending)] == m[From(fs[i], sending)]
  {
    hide Move, IsFrom, IsTo;
    NotMovedYet(fs, sending, m, k, o);
    var from, to, x := From(fs[k], sending), To(fs[k], sending), To(fs[i], sending);
    assert i < k ==> x != to && x != from;
    var o' := Move(Outcome(o, true), from, to);
    assert o'.ok && from != to;
    assert x in o'.props;
    hide Clean;
    assert o'.props[x] == if x == to then o[from] else o[x];
  }

  lemma OneMoreKey<V>(fs: seq<Field>, sending: bool, m: map<string, V>, k: nat, o: map<string, V>, x: string)
    requires k < |fs| && Aliased(fs[k]) && Clean(fs, sending, m) && Moved(fs, sending, m, k, o)
    requires From(fs[k], sending) in o
    ensures var from, to := From(fs[k], sending), To(fs[k], sending);
            var o' := Move(Outcome(o, true), from, to).props;
            && (x in o' <==> (x in m && !IsFrom(fs, sending, k + 1, x)) || IsTo(fs, sending, k + 1, x))
            && (x in m && x in o' ==> o'[x] == m[x])
  {
    hide Move;
    NextPlaces(fs, sending, k, x);
    assert IsTo(fs, sending, k, x) ==> x !in m;
    assert To(fs[k], sending) !in m && From(fs[k], sending) in m;
    hide IsFrom, IsTo, Clean;
  }

  lemma NextPlaces(fs: seq<Field>, sending: bool, k: nat, x: string)
    requires k < |fs| && Aliased(fs[k])
    ensures IsFrom(fs, sending, k + 1, x) <==> IsFrom(fs, sending, k, x) || From(fs[k], sending) == x
    ensures IsTo(fs, sending, k + 1, x) <==> IsTo(fs, sending, k, x) || To(fs[k], sending) == x
  {
  }

  lemma BackAgain<V>(fs: seq<Field>, m: map<string, V>)
    requires Clean(fs, true, m)
    ensures RoundTrip(fs, m) == Outcome(m, true)
  {
    CleanMoves(fs, true, m, |fs|);
    var o := After(fs, true, m, |fs|).props;
    CleanBack(fs, m, o);
    CleanMoves(fs, false, o, |fs|);
    Restored(fs, m, o, After(fs, false, o, |fs|).props);
  }

  lemma CleanBack<V>(fs: seq<Field>, m: map<string, V>, o: map<string, V>)
    requires Clean(fs, true, m) && Moved(fs, true, m, |fs|, o)
    ensures Clean(fs, false, o)
  {
    forall i | 0 <= i < |fs| && Aliased(fs[i])
      ensures fs[i].name !in o
    {
      assert IsFrom(fs, true, |fs|, fs[i].name) && !IsTo(fs, true, |fs|, fs[i].name);
    }
  }

  lemma Restored<V>(fs: seq<Field>, m: map<string, V>, o: map<string, V>, r: map<string, V>)
    requires Clean(fs, true, m) && Moved(fs, true, m, |fs|, o) && Moved(fs, false, o, |fs|, r)
    ensures r == m
  {
    forall x
      ensures x in r <==> x in m
      ensures x in r && x in m ==> r[x] == m[x]
    {
      assert IsFrom(fs, false, |fs|, x) <==> IsTo(fs, true, |fs|, x);
      assert IsTo(fs, false, |fs|, x) <==> IsFrom(fs, true, |fs|, x);
      assert IsTo(fs, true, |fs|, x) ==> x !in m;
      if IsFrom(fs, true, |fs|, x) {
        var i :| 0 <= i < |fs| && Aliased(fs[i]) && fs[i].name == x;
        assert To(fs[i], false) == x;
      }
    }
    assert r == m;
  }

  // ---- When something does ----------------------------------------------------------------------------------------

  // None of the first k fields found its target taken.
  ghost predicate Fresh<V>(fs: seq<Field>, sending: bool, m: map<string, V>, k: nat)
    requires k <= |fs|
  {
    forall i :: 0 <= i < k && Aliased(fs[i]) ==> To(fs[i], sending) !in After(fs, sending, m, i).props
  }

  lemma KeyLost<V>(o: map<string, V>, from: string, to: string)
    requires from in o && from != to
    ensures |Move(Outcome(o, true), from, to).props| == if to in o then |o| - 1 else |o|
  {
    var o' := Move(Outcome(o, true), from, to).props;
    if to in o {
      assert o'.Keys == o.Keys - {from};
    } else {
      assert o'.Keys == o.Keys - {from} + {to};
    }
    assert |o'| == |o'.Keys| && |o| == |o.Keys|;
  }

  // A move never adds a key, and one that finds its target taken loses one.
  lemma {:induction false} KeysAreLost<V>(fs: seq<Field>, sending: bool, m: map<string, V>, k: nat)
    requires k <= |fs| && After(fs, sending, m, k).ok
    ensures |After(fs, sending, m, k).props| <= |m|
    ensures |After(fs, sending, m, k).props| == |m| ==> Fresh(fs, sending, m, k)
  {
    if k > 0 {
      KeysAreLost(fs, sending, m, k - 1);
      if Aliased(fs[k - 1]) {
        KeyLost(After(fs, sending, m, k - 1).props, From(fs[k - 1], sending), To(fs[k - 1], sending));
      }
    }
  }

  // A key stays until it is moved.
  lemma {:induction false} Stays<V>(fs: seq<Field>, sending: bool, m: map<string, V>, j: nat, k: nat, x: string)
    requires j <= k <= |fs| && After(fs, sending, m, |fs|).ok && x in After(fs, sending, m, j).props
    requires forall i :: j <= i < k && Aliased(fs[i]) ==> From(fs[i], sending) != x
    ensures x in After(fs, sending, m, k).props
    decreases k - j
  {
    if j < k {
      OkBefore(fs, sending, m, j + 1);
      Stays(fs, sending, m, j + 1, k, x);
    }
  }

  // A key that was moved to is there right after.
  lemma Arrives<V>(fs: seq<Field>, sending: bool, m: map<string, V>, i: nat)
    requires i < |fs| && Aliased(fs[i]) && After(fs, sending, m, |fs|).ok
    ensures To(fs[i], sending) in After(fs, sending, m, i + 1).props
  {
    OkBefore(fs, sending, m, i + 1);
  }

  // Fields have names of their own, and the renamed ones are present.
  ghost predicate Ready<V>(fs: seq<Field>, m: map<string, V>) {
    && (forall i :: 0 <= i < |fs| && Aliased(fs[i]) ==> fs[i].name in m)
    && (forall i, j :: 0 <= i < j < |fs| ==> fs[i].name != fs[j].name)
  }

  // Both loops ran through without finding a target taken.
  ghost predicate Smooth<V>(fs: seq<Field>, m: map<string, V>) {
    var o := After(fs, true, m, |fs|);
    && o.ok && Fresh(fs, true, m, |fs|)
    && After(fs, false, o.props, |fs|).ok && Fresh(fs, false, o.props, |fs|)
  }

  // Nothing was sent to the place of a field that is yet to be renamed.
  lemma NoEarlierTarget<V>(fs: seq<Field>, m: map<string, V>, j: nat, l: nat)
    requires Ready(fs, m) && Smooth(fs, m) && l < j < |fs| && Aliased(fs[j]) && Aliased(fs[l])
    ensures Wire(fs[l]) != fs[j].name
  {
    assert fs[j].name in After(fs, true, m, 0).props;
    Stays(fs, true, m, 0, l, fs[j].name);
  }

  // A wire name that was the name of an earlier field is still there when that field is renamed back.
  lemma MovedBackOnto<V>(fs: seq<Field>, m: map<string, V>, i: nat, j: nat)
    requires Ready(fs, m) && Smooth(fs, m) && j < i < |fs| && Aliased(fs[i]) && Aliased(fs[j])
    ensures Wire(fs[i]) != fs[j].name
  {
    if Wire(fs[i]) == fs[j].name {
      var x, o := fs[j].name, After(fs, true, m, |fs|).props;
      Arrives(fs, true, m, i);
      Stays(fs, true, m, i + 1, |fs|, x);
      assert x in After(fs, false, o, 0).props;
      forall l | 0 <= l < j && Aliased(fs[l])
        ensures From(fs[l], false) != x
      {
        NoEarlierTarget(fs, m, j, l);
      }
      Stays(fs, false, o, 0, j, x);
    }
  }

  lemma TargetsAreNoKeys<V>(fs: seq<Field>, m: map<string, V>, i: nat)
    requires Ready(fs, m) && Smooth(fs, m) && i < |fs| && Aliased(fs[i])
    ensures Wire(fs[i]) !in m
  {
    if Wire(fs[i]) in m {
      assert Wire(fs[i]) in After(fs, true, m, 0).props;
      forall j | 0 <= j < i && Aliased(fs[j])
        ensures From(fs[j], true) != Wire(fs[i])
      {
        MovedBackOnto(fs, m, i, j);
      }
      Stays(fs, true, m, 0, i, Wire(fs[i]));
    }
  }

  lemma TargetsDiffer<V>(fs: seq<Field>, m: map<string, V>, i: nat, k: nat)
    requires Ready(fs, m) && Smooth(fs, m) && i < k < |fs| && Aliased(fs[i]) && Aliased(fs[k])
    requires Wire(fs[i]) !in m
    ensures Wire(fs[i]) != Wire(fs[k])
  {
    if Wire(fs[i]) == Wire(fs[k]) {
      Arrives(fs, true, m, i);
      Stays(fs, true, m, i + 1, k, Wire(fs[i]));
    }
  }

  lemma RoundTripIsSmooth<V>(fs: seq<Field>, m: map<string, V>)
    requires RoundTrip(fs, m) == Outcome(m, true)
    ensures Smooth(fs, m)
  {
    KeysAreLost(fs, true, m, |fs|);
    KeysAreLost(fs, false, After(fs, true, m, |fs|).props, |fs|);
  }

  // No two renamed fields share a wire name, and no wire name is a key of the message.
  ghost predicate NoClash<V>(fs: seq<Field>, m: map<string, V>) {
    && (forall i, j :: 0 <= i < j < |fs| && Aliased(fs[i]) && Aliased(fs[j]) ==> Wire(fs[i]) != Wire(fs[j]))
    && (forall i :: 0 <= i < |fs| && Aliased(fs[i]) ==> Wire(fs[i]) !in m)
  }

  // For fields with distinct names whose renamed ones are all present, sending and receiving gives the message back
  // exactly when nothing clashes.
  lemma RoundTripIff<V>(fs: seq<Field>, m: map<string, V>)
    requires forall i, j :: 0 <= i < j < |fs| ==> fs[i].name != fs[j].name
    requires forall i :: 0 <= i < |fs| && Aliased(fs[i]) ==> fs[i].name in m
    ensures RoundTrip(fs, m) == Outcome(m, true) <==> NoClash(fs, m)
  {
    if RoundTrip(fs, m) == Outcome(m, true) {
      RoundTripIsSmooth(fs, m);
      hide RoundTrip, Smooth;
      forall i | 0 <= i < |fs| && Aliased(fs[i])
        ensures Wire(fs[i]) !in m
      {
        TargetsAreNoKeys(fs, m, i);
      }
      forall i, k | 0 <= i < k < |fs| && Aliased(fs[i]) && Aliased(fs[k])
        ensures Wire(fs[i]) != Wire(fs[k])
      {
        TargetsDiffer(fs, m, i, k);
      }
    }
    if NoClash(fs, m) {
      BackAgain(fs, m);
    }
  }

  // On a message that has every field and nothing else, that is a condition on the design alone.
  lemma FullMessage<V>(fs: seq<Field>, m: map<string, V>)
    requires forall i, j :: 0 <= i < j < |fs| ==> fs[i].name != fs[j].name
    requires forall x :: x in m <==> exists i :: 0 <= i < |fs| && fs[i].name == x
    ensures RoundTrip(fs, m) == Outcome(m, true) <==>
            && (forall i, j :: 0 <= i < j < |fs| && Aliased(fs[i]) && Aliased(fs[j]) ==> Wire(fs[i]) != Wire(fs[j]))
            && (forall i, j :: 0 <= i < |fs| && 0 <= j < |fs| && Aliased(fs[i]) ==> Wire(fs[i]) != fs[j].name)
  {
    RoundTripIff(fs, m);
  }

  // ---- When a loop throws -----------------------------------------------------------------------------------------

  // x is a key after the first k fields: the last of them that moves something to or from x moves it there, or none
  // does and it was a key before.
  ghost predicate Live<V>(fs: seq<Field>, sending: bool, m: map<string, V>, k: nat, x: string)
    requires k <= |fs|
  {
    if k == 0 then x in m
    else if Aliased(fs[k - 1]) && To(fs[k - 1], sending) == x then true
    else if Aliased(fs[k - 1]) && From(fs[k - 1], sending) == x then false
    else Live(fs, sending, m, k - 1, x)
  }

  lemma {:induction false} LiveIff<V>(fs: seq<Field>, sending: bool, m: map<string, V>, k: nat, x: string)
    requires k <= |fs| && After(fs, sending, m, k).ok
    ensures x in After(fs, sending, m, k).props <==> Live(fs, sending, m, k, x)
  {
    if k > 0 {
      hide Move;
      LiveIff(fs, sending, m, k - 1, x);
    }
  }

  // Either loop, on any object and for any fields, runs through exactly when every renamed field finds its key.
  lemma {:induction false} RunsThroughIff<V>(fs: seq<Field>, sending: bool, m: map<string, V>, k: nat)
    requires k <= |fs|
    ensures After(fs, sending, m, k).ok <==>
            forall i :: 0 <= i < k && Aliased(fs[i]) ==> Live(fs, sending, m, i, From(fs[i], sending))
  {
    if k > 0 {
      var f := fs[k - 1];
      assert After(fs, sending, m, k).ok <==>
             After(fs, sending, m, k - 1).ok && (Aliased(f) ==> From(f, sending) in After(fs, sending, m, k - 1).props);
      hide Live, Move, After, Aliased, From;
      RunsThroughIff(fs, sending, m, k - 1);
      if After(fs, sending, m, k - 1).ok {
        LiveIff(fs, sending, m, k - 1, From(fs[k - 1], sending));
      }
    }
  }

  // Nothing moves to or from x, except from it at the place i.
  lemma {:induction false} LiveBefore<V>(fs: seq<Field>, sending: bool, m: map<string, V>, k: nat, x: string)
    requires k <= |fs|
    requires forall i :: 0 <= i < k && Aliased(fs[i]) ==> To(fs[i], sending) != x && From(fs[i], sending) != x
    ensures Live(fs, sending, m, k, x) <==> x in m
  {
    if k > 0 {
      LiveBefore(fs, sending, m, k - 1, x);
    }
  }

  // What a design has to say about its fields: their names differ, as do the wire names of the renamed ones, and no
  // such wire name is a field name.
  ghost predicate Separate(fs: seq<Field>) {
    && (forall i, j :: 0 <= i < j < |fs| ==> fs[i].name != fs[j].name)
    && (forall i, j :: 0 <= i < j < |fs| && Aliased(fs[i]) && Aliased(fs[j]) ==> Wire(fs[i]) != Wire(fs[j]))
    && (forall i, j :: 0 <= i < |fs| && 0 <= j < |fs| && Aliased(fs[i]) ==> Wire(fs[i]) != fs[j].name)
  }

  lemma SeparateLoop<V>(fs: seq<Field>, sending: bool, m: map<string, V>)
    requires Separate(fs)
    ensures After(fs, sending, m, |fs|).ok <==>
            forall i :: 0 <= i < |fs| && Aliased(fs[i]) ==> From(fs[i], sending) in m
  {
    RunsThroughIff(fs, sending, m, |fs|);
    forall i | 0 <= i < |fs| && Aliased(fs[i])
      ensures Live(fs, sending, m, i, From(fs[i], sending)) <==> From(fs[i], sending) in m
    {
      LiveBefore(fs, sending, m, i, From(fs[i], sending));
    }
  }

  // For such a design sending throws exactly for a message that lacks a renamed field.
  lemma SendsIff<V>(fs: seq<Field>, m: map<string, V>)
    requires Separate(fs)
    ensures After(fs, true, m, |fs|).ok <==> forall i :: 0 <= i < |fs| && Aliased(fs[i]) ==> fs[i].name in m
  {
    SeparateLoop(fs, true, m);
    forall i | 0 <= i < |fs| && Aliased(fs[i])
      ensures From(fs[i], true) == fs[i].name
    {
    }
  }

  // And receiving throws exactly for an event that lacks the wire name of a renamed field, as the server sends it when
  // a field of one direction is not set.
  lemma ReceivesIff<V>(fs: seq<Field>, m: map<string, V>)
    requires Separate(fs)
    ensures After(fs, false, m, |fs|).ok <==> forall i :: 0 <= i < |fs| && Aliased(fs[i]) ==> Wire(fs[i]) in m
  {
    SeparateLoop(fs, false, m);
    forall i | 0 <= i < |fs| && Aliased(fs[i])
      ensures From(fs[i], false) == Wire(fs[i])
    {
    }
  }

  // Two fields with each other's names for aliases do not survive.
  lemma SwappedNames()
    ensures var fs, m := [Field("a", "b"), Field("b", "a")], map["a" := 1, "b" := 2];
            RoundTrip(fs, m) != Outcome(m, true)
  {
    var fs, m := [Field("a", "b"), Field("b", "a")], map["a" := 1, "b" := 2];
    assert Aliased(fs[0]) && Wire(fs[0]) in m;
    assert fs[1].name != fs[0].name;
    RoundTripIff(fs, m);
  }
}
