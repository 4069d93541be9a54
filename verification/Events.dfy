// The events of a channel: which ones a design file accepts, which end may send which, and where a wire name leads at
// the other end.
module Events {
  import opened Common

  // A struct that can be an event.
  datatype Struct = Struct(name: string, alias: string)

  function Wire(s: Struct): string {
    WireName(s.name, s.alias)
  }

  // An event as a channel lists it, with its direction tag.
  datatype Listed = Listed(event: string, tag: Direction)

  datatype YamlChannel =
    YamlChannel(name: string, alias: string, dual: seq<Listed>, server: seq<Listed>, client: seq<Listed>)

  // `toClient` and `toServer` are the two sets of the directions table.
  datatype Channel =
    Channel(name: string, alias: string, enabled: seq<Struct>, toClient: set<string>, toServer: set<string>)

  // ---- Structs -----------------------------------------------------------------------------------------------------

  ghost predicate Filed(structs: map<string, Struct>, items: seq<Struct>) {
    && (forall k :: k in structs ==> structs[k] in items && structs[k].name == k)
    && (forall i :: 0 <= i < |items| ==> items[i].name in structs && structs[items[i].name] == items[i])
  }

  ghost predicate WiresDiffer(structs: map<string, Struct>) {
    forall a, b :: a in structs && b in structs && a != b ==> Wire(structs[a]) != Wire(structs[b])
  }

  // The structs of a file, under their names, unless a wire name is taken twice. Names are distinct in a file.
  method ParseStructs(items: seq<Struct>) returns (structs: Option<map<string, Struct>>)
    requires forall i, j :: 0 <= i < j < |items| ==> items[i].name != items[j].name
    ensures structs.Some? <==> forall i, j :: 0 <= i < j < |items| ==> Wire(items[i]) != Wire(items[j])
    ensures structs.Some? ==> Filed(structs.value, items) && WiresDiffer(structs.value)
  {
    hide Wire, Filed, WiresDiffer;
    var aliases: set<string>, byName: map<string, Struct> := {}, map[];
    assert Filed(byName, items[..0]) by { NoneFiled(); }
    for i := 0 to |items|
      invariant forall w :: w in aliases <==> exists j :: 0 <= j < i && Wire(items[j]) == w
      invariant forall j, k :: 0 <= j < k < i ==> Wire(items[j]) != Wire(items[k])
      invariant Filed(byName, items[..i])
    {
      if Wire(items[i]) in aliases {
        return None;
      }
      aliases := aliases + {Wire(items[i])};
      FileOne(byName, items, i);
      byName := byName[items[i].name := items[i]];
    }
    assert items[..|items|] == items;
    structs := Some(byName);
    FiledWires(byName, items);
  }

  lemma FiledWires(structs: map<string, Struct>, items: seq<Struct>)
    requires Filed(structs, items) && forall i, j :: 0 <= i < j < |items| ==> Wire(items[i]) != Wire(items[j])
    ensures WiresDiffer(structs)
  {
    forall a, b | a in structs && b in structs && a != b
      ensures Wire(structs[a]) != Wire(structs[b])
    {
      var i :| 0 <= i < |items| && items[i] == structs[a];
      var j :| 0 <= j < |items| && items[j] == structs[b];
    }
  }

  lemma NoneFiled()
    ensures Filed(map[], [])
  {
  }

  lemma FileOne(byName: map<string, Struct>, items: seq<Struct>, i: nat)
    requires forall i, j :: 0 <= i < j < |items| ==> items[i].name != items[j].name
    requires i < |items| && Filed(byName, items[..i])
    ensures Filed(byName[items[i].name := items[i]], items[..i + 1])
  {
    var next := byName[items[i].name := items[i]];
    assert items[..i + 1] == items[..i] + [items[i]];
    var all := items[..i + 1];
    forall k | 0 <= k < |all|
      ensures all[k].name in next && next[all[k].name] == all[k]
    {
      assert k < i ==> items[..i][k] == items[k];
    }
  }

  // ---- Channels ----------------------------------------------------------------------------------------------------

  function Names(list: seq<Listed>): (names: seq<string>)
    ensures |names| == |list| && forall i :: 0 <= i < |list| ==> names[i] == list[i].event
  {
    seq(|list|, i requires 0 <= i < |list| => list[i].event)
  }

  // Every event of a channel, in the order in which it is enabled.
  function All(y: YamlChannel): seq<string> {
    Names(y.dual) + Names(y.server) + Names(y.client)
  }

  predicate Distinct(names: seq<string>) {
    forall i, j :: 0 <= i < j < |names| ==> names[i] != names[j]
  }

  // Every event is a struct of the file and is listed once.
  predicate Acceptable(structs: map<string, Struct>, y: YamlChannel) {
    (forall e :: e in All(y) ==> e in structs) && Distinct(All(y))
  }

  predicate Tagged(list: seq<Listed>, e: string, tag: Direction) {
    exists i :: 0 <= i < |list| && list[i] == Listed(e, tag)
  }

  // The channel that a file describes.
  ghost predicate Describes(structs: map<string, Struct>, y: YamlChannel, c: Channel) {
    && c.name == y.name && c.alias == y.alias && Enables(structs, All(y), c.enabled)
    && (forall e :: e in c.toClient <==> Tagged(y.dual, e, ServerToClient) || e in Names(y.server))
    && (forall e :: e in c.toServer <==> Tagged(y.dual, e, ClientToServer) || e in Names(y.client))
  }

  ghost predicate Enables(structs: map<string, Struct>, names: seq<string>, enabled: seq<Struct>) {
    |enabled| == |names| && forall i :: 0 <= i < |names| ==> names[i] in structs && enabled[i] == structs[names[i]]
  }

  // The events of the lists that were read so far: their structs, and their names as a set.
  datatype Read = Read(enabled: seq<Struct>, unique: set<string>)

  ghost predicate HasRead(structs: map<string, Struct>, names: seq<string>, r: Read) {
    Enables(structs, names, r.enabled) && Distinct(names) && forall e :: e in r.unique <==> e in names
  }

  // One of the three lists of a channel: its events are checked against the structs and against the events so far.
  method ParseList(structs: map<string, Struct>, list: seq<Listed>, r: Read, ghost before: seq<string>)
    returns (more: Option<Read>)
    requires HasRead(structs, before, r)
    ensures more.Some? <==> (forall e :: e in Names(list) ==> e in structs) && Distinct(before + Names(list))
    ensures more.Some? ==> HasRead(structs, before + Names(list), more.value)
  {
    var now := r;
    ghost var names := Names(list);
    assert before + names[..0] == before;
    for i := 0 to |list|
      invariant HasRead(structs, before + names[..i], now)
      invariant forall j :: 0 <= j < i ==> names[j] in structs
    {
      var e := list[i].event;
      assert names[i] == e;
      if e !in structs {
        return None;
      }
      if e in now.unique {
        ghost var k :| 0 <= k < |before + names[..i]| && (before + names[..i])[k] == e;
        assert (before + names)[k] == e && (before + names)[|before| + i] == e;
        return None;
      }
      assert before + names[..i + 1] == before + names[..i] + [e];
      now := Read(now.enabled + [structs[e]], now.unique + {e});
    }
    assert names[..|list|] == names;
    more := Some(now);
  }

  // The events of a list that carry a tag.
  method TaggedEvents(list: seq<Listed>, tag: Direction) returns (events: set<string>)
    ensures forall e :: e in events <==> Tagged(list, e, tag)
  {
    events := {};
    for i := 0 to |list|
      invariant forall e :: e in events <==> Tagged(list[..i], e, tag)
    {
      assert list[..i + 1] == list[..i] + [list[i]];
      forall e
        ensures Tagged(list[..i + 1], e, tag) <==> Tagged(list[..i], e, tag) || list[i] == Listed(e, tag)
      {
        if Tagged(list[..i], e, tag) {
          var j :| 0 <= j < i && list[..i][j] == Listed(e, tag);
          assert list[..i + 1][j] == Listed(e, tag);
        }
        assert list[..i + 1][i] == list[i];
      }
      if list[i].tag == tag {
        events := events + {list[i].event};
      }
    }
    assert list[..|list|] == list;
  }

  // The channel of a file, unless an event is unknown or listed twice.
  method ParseChannel(structs: map<string, Struct>, y: YamlChannel) returns (c: Option<Channel>)
    ensures c.Some? <==> Acceptable(structs, y)
    ensures c.Some? ==> Describes(structs, y, c.value)
  {
    hide HasRead, Distinct, Tagged, Names;
    assert HasRead(structs, [], Read([], {})) by { NothingRead(structs); }
    var read := ParseList(structs, y.dual, Read([], {}), []);
    assert [] + Names(y.dual) == Names(y.dual);
    Prefixed(Names(y.dual), Names(y.server) + Names(y.client));
    assert All(y) == Names(y.dual) + (Names(y.server) + Names(y.client));
    if read.None? {
      return None;
    }
    read := ParseList(structs, y.server, read.value, Names(y.dual));
    Prefixed(Names(y.dual) + Names(y.server), Names(y.client));
    if read.None? {
      return None;
    }
    read := ParseList(structs, y.client, read.value, Names(y.dual) + Names(y.server));
    if read.None? {
      return None;
    }
    ReadAll(structs, All(y), read.value);
    var toClient := TaggedEvents(y.dual, ServerToClient);
    var toServer := TaggedEvents(y.dual, ClientToServer);
    c := Some(Channel(y.name, y.alias, read.value.enabled,
                      toClient + (set e | e in Names(y.server)), toServer + (set e | e in Names(y.client))));
  }

  lemma NothingRead(structs: map<string, Struct>)
    ensures HasRead(structs, [], Read([], {}))
  {
  }

  lemma ReadAll(structs: map<string, Struct>, names: seq<string>, r: Read)
    requires HasRead(structs, names, r)
    ensures Enables(structs, names, r.enabled) && Distinct(names)
    ensures forall e :: e in names ==> e in structs
  {
  }

  lemma Prefixed(a: seq<string>, b: seq<string>)
    ensures Distinct(a + b) ==> Distinct(a)
    ensures forall e :: e in a ==> e in a + b
  {
    if Distinct(a + b) {
      assert forall i :: 0 <= i < |a| ==> (a + b)[i] == a[i];
    }
  }

  // ---- Directions -------------------------------------------------------------------------------------------------

  // EnabledMap: the enabled structs under their names.
  method EnabledMap(c: Channel) returns (m: map<string, Struct>)
    ensures forall k :: k in m <==> exists s :: s in c.enabled && s.name == k
    ensures forall k :: k in m ==> m[k] in c.enabled && m[k].name == k
  {
    m := map[];
    for i := 0 to |c.enabled|
      invariant forall k :: k in m <==> exists s :: s in c.enabled[..i] && s.name == k
      invariant forall k :: k in m ==> m[k] in c.enabled && m[k].name == k
    {
      assert c.enabled[..i + 1] == c.enabled[..i] + [c.enabled[i]];
      m := m[c.enabled[i].name := c.enabled[i]];
    }
    assert c.enabled[..|c.enabled|] == c.enabled;
  }

  function Reverse(c: Channel, d: Direction): set<string> {
    if d == ClientToServer then c.toClient else c.toServer
  }

  // GetDirectionEvents: the enabled events without those of the reverse direction.
  method GetDirectionEvents(c: Channel, d: Direction) returns (m: map<string, Struct>)
    ensures forall k :: k in m <==> (exists s :: s in c.enabled && s.name == k) && k !in Reverse(c, d)
    ensures forall k :: k in m ==> m[k] in c.enabled && m[k].name == k
  {
    m := EnabledMap(c);
    ghost var all := m;
    var events := Reverse(c, d);
    while events != {}
      invariant events <= Reverse(c, d)
      invariant forall k :: k in m <==> k in all && (k !in Reverse(c, d) || k in events)
      invariant forall k :: k in m ==> m[k] == all[k]
      decreases |events|
    {
      var k :| k in events;
      events := events - {k};
      m := m - {k};
    }
  }

  // The events of a channel that may travel in a direction.
  ghost predicate Travels(y: YamlChannel, c: Channel, d: Direction, e: string) {
    e in All(y) && e !in Reverse(c, d)
  }

  lemma OneList(y: YamlChannel, e: string)
    requires Distinct(All(y))
    ensures e in Names(y.dual) ==> e !in Names(y.server) && e !in Names(y.client)
    ensures e in Names(y.server) ==> e !in Names(y.client)
    ensures forall t, u :: Tagged(y.dual, e, t) && Tagged(y.dual, e, u) ==> t == u
    ensures e in Names(y.dual) <==> exists t :: Tagged(y.dual, e, t)
  {
    var a, b, c := Names(y.dual), Names(y.server), Names(y.client);
    var all := All(y);
    assert forall i :: 0 <= i < |a| ==> all[i] == a[i];
    assert forall i :: 0 <= i < |b| ==> all[|a| + i] == b[i];
    assert forall i :: 0 <= i < |c| ==> all[|a| + |b| + i] == c[i];
    if i :| 0 <= i < |a| && a[i] == e {
      assert Tagged(y.dual, e, y.dual[i].tag);
    }
    if t :| Tagged(y.dual, e, t) {
      var i :| 0 <= i < |y.dual| && y.dual[i] == Listed(e, t);
      assert a[i] == e;
    }
  }

  // What the client may send and what the server may send is together everything; an untagged dual event is in both,
  // and nothing else is.
  lemma BothDirections(structs: map<string, Struct>, y: YamlChannel, c: Channel, e: string)
    requires Acceptable(structs, y) && Describes(structs, y, c)
    ensures e in All(y) <==> Travels(y, c, ClientToServer, e) || Travels(y, c, ServerToClient, e)
    ensures Travels(y, c, ClientToServer, e) && Travels(y, c, ServerToClient, e) <==> Tagged(y.dual, e, Any)
    ensures Travels(y, c, ClientToServer, e) <==>
            Tagged(y.dual, e, Any) || Tagged(y.dual, e, ClientToServer) || e in Names(y.client)
    ensures Travels(y, c, ServerToClient, e) <==>
            Tagged(y.dual, e, Any) || Tagged(y.dual, e, ServerToClient) || e in Names(y.server)
  {
    OneList(y, e);
    assert e in All(y) <==> e in Names(y.dual) || e in Names(y.server) || e in Names(y.client);
  }

  // Validate's check that a direction is given to enabled events only cannot fail on a parsed channel.
  lemma DirectionsEnabled(structs: map<string, Struct>, y: YamlChannel, c: Channel)
    requires Acceptable(structs, y) && Describes(structs, y, c)
    ensures forall e :: e in c.toClient + c.toServer ==> e in All(y) && structs[e] in c.enabled
  {
    forall e | e in c.toClient + c.toServer
      ensures e in All(y) && structs[e] in c.enabled
    {
      OneList(y, e);
      assert e in Names(y.dual) || e in Names(y.server) || e in Names(y.client);
      assert e in All(y);
      var i :| 0 <= i < |All(y)| && All(y)[i] == e;
      assert c.enabled[i] == structs[e];
    }
  }

  // ---- Routing ----------------------------------------------------------------------------------------------------

  // The names that never reach the events of a channel: three requests at the server, seven events at the client.
  const SERVER_RESERVED := {"edd:room:join_request", "edd:room:left_request", "edd:room:create_request"}
  const CLIENT_RESERVED :=
    {"edd:auth:challenge", "edd:auth:pass", "edd:user:join", "edd:user:left", "edd:room:join", "edd:room:left",
      "edd:room:create"}

  function Reserved(d: Direction): set<string> {
    if d == ClientToServer then SERVER_RESERVED else CLIENT_RESERVED
  }

  datatype Route = Intercepted | Handled(event: string) | Unexpected

  ghost predicate NamesDiffer(c: Channel) {
    forall s, t :: s in c.enabled && t in c.enabled && s.name == t.name ==> s == t
  }

  // An enabled event that may travel in direction d under the given wire name.
  ghost predicate Carries(c: Channel, d: Direction, name: string, s: Struct) {
    s in c.enabled && s.name !in Reverse(c, d) && Wire(s) == name
  }

  // What the end that direction d leads to may do with a wire name.
  ghost predicate Answers(c: Channel, d: Direction, name: string, r: Route) {
    match r
    case Intercepted => name in Reserved(d)
    case Handled(e) => name !in Reserved(d) && exists s :: Carries(c, d, name, s) && s.name == e
    case Unexpected => name !in Reserved(d) && forall s :: !Carries(c, d, name, s)
  }

  // The generated switch, behind the names that are taken out before it.
  method RouteName(c: Channel, d: Direction, name: string) returns (r: Route)
    requires NamesDiffer(c)
    ensures Answers(c, d, name, r)
  {
    if name in Reserved(d) {
      return Intercepted;
    }
    var events := GetDirectionEvents(c, d);
    var todo := events.Keys;
    while todo != {}
      invariant todo <= events.Keys && forall k :: k in events.Keys - todo ==> Wire(events[k]) != name
      decreases |todo|
    {
      var k :| k in todo;
      if Wire(events[k]) == name {
        assert Carries(c, d, name, events[k]);
        return Handled(k);
      }
      todo := todo - {k};
    }
    r := Unexpected;
    assert forall s :: s in c.enabled && s.name !in Reverse(c, d) ==> s.name in events && events[s.name] == s;
  }

  lemma EnabledStructs(structs: map<string, Struct>, y: YamlChannel, c: Channel)
    requires Describes(structs, y, c) && forall k :: k in structs ==> structs[k].name == k
    ensures NamesDiffer(c)
    ensures forall s :: s in c.enabled <==> s.name in All(y) && s.name in structs && structs[s.name] == s
  {
    forall s
      ensures s in c.enabled <==> s.name in All(y) && s.name in structs && structs[s.name] == s
    {
      if s in c.enabled {
        var i :| 0 <= i < |c.enabled| && c.enabled[i] == s;
        assert All(y)[i] == s.name;
      }
      if s.name in All(y) && s.name in structs && structs[s.name] == s {
        var i :| 0 <= i < |All(y)| && All(y)[i] == s.name;
        assert c.enabled[i] == s;
      }
    }
  }

  // An event that may travel leads back to itself at the other end exactly when its wire name is not reserved there,
  // and an event that may not travel never leads to an event.
  lemma RoutesBack(structs: map<string, Struct>, y: YamlChannel, c: Channel, d: Direction, e: string, r: Route)
    requires Acceptable(structs, y) && Describes(structs, y, c) && e in All(y)
    requires WiresDiffer(structs) && forall k :: k in structs ==> structs[k].name == k
    requires Answers(c, d, Wire(structs[e]), r)
    ensures Travels(y, c, d, e) ==> (r == Handled(e) <==> Wire(structs[e]) !in Reserved(d))
    ensures !Travels(y, c, d, e) ==> !r.Handled?
    ensures r.Handled? ==> r == Handled(e)
  {
    EnabledStructs(structs, y, c);
    var name, s := Wire(structs[e]), structs[e];
    assert forall t :: Carries(c, d, name, t) ==> t == s;
    assert Carries(c, d, name, s) <==> Travels(y, c, d, e);
  }
}
