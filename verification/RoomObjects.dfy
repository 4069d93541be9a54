// The objects of room.go, with the handlers run to completion one after the other: rooms, and what they use of clients
// and of the network. Their methods refine the atomic handlers of RoomViews.
module RoomObjects {
  import opened Common
  import opened RoomViews

  // fmt.Sprint of a client number.
  function Sprint(n: nat): string {
    (if n < 10 then "" else Sprint(n / 10)) + [(n % 10) as char + '0']
  }

  predicate IsDigit(c: char) {
    '0' <= c <= '9'
  }

  function Digit(c: char): (d: nat)
    requires IsDigit(c)
    ensures d < 10 && c == d as char + '0'
  {
    (c - '0') as nat
  }

  // The number that decimal digits spell.
  function ReadNumber(s: string): nat
    requires forall i :: 0 <= i < |s| ==> IsDigit(s[i])
  {
    if |s| == 0 then 0 else 10 * ReadNumber(s[..|s| - 1]) + Digit(s[|s| - 1])
  }

  // s is n in decimal digits, without leading zeros.
  predicate Spells(s: string, n: nat) {
    && |s| > 0 && (forall i :: 0 <= i < |s| ==> IsDigit(s[i])) && ReadNumber(s) == n
    && (s[0] == '0' ==> |s| == 1)
  }

  lemma {:induction false} SprintSpells(n: nat)
    ensures Spells(Sprint(n), n) && (n > 0 ==> Sprint(n)[0] != '0')
  {
    var s, last := Sprint(n), (n % 10) as char + '0';
    if n < 10 {
      assert s == [last];
      assert s[..0] == "";
    } else {
      SprintSpells(n / 10);
      assert s == Sprint(n / 10) + [last] && s[..|s| - 1] == Sprint(n / 10);
    }
  }

  lemma {:induction false} ReadPositive(s: string)
    requires |s| > 0 && (forall i :: 0 <= i < |s| ==> IsDigit(s[i])) && s[0] != '0'
    ensures ReadNumber(s) > 0
  {
    if |s| > 1 {
      ReadPositive(s[..|s| - 1]);
    } else {
      assert s[..0] == "";
    }
  }

  lemma SprintStep(q: nat, d: nat)
    requires q > 0 && d < 10
    ensures Sprint(10 * q + d) == Sprint(q) + [d as char + '0']
  {
    assert (10 * q + d) / 10 == q && (10 * q + d) % 10 == d;
  }

  lemma SprintDigit(d: nat)
    requires d < 10
    ensures Sprint(d) == [d as char + '0']
  {
    assert d % 10 == d;
  }

  lemma OneDigit(s: string, n: nat)
    requires Spells(s, n) && |s| == 1
    ensures n < 10 && s == [n as char + '0']
  {
    var head := s[..|s| - 1];
    assert |head| == 0 && ReadNumber(head) == 0;
    assert ReadNumber(s) == 10 * ReadNumber(head) + Digit(s[0]);
  }

  lemma ManyDigits(s: string, n: nat) returns (q: nat, d: nat)
    requires Spells(s, n) && |s| > 1
    ensures d < 10 && q > 0 && n == 10 * q + d
    ensures Spells(s[..|s| - 1], q) && s == s[..|s| - 1] + [d as char + '0']
  {
    ReadPositive(s[..|s| - 1]);
    q, d := ReadNumber(s[..|s| - 1]), Digit(s[|s| - 1]);
  }

  lemma {:induction false} SpellsOnce(s: string, n: nat)
    requires Spells(s, n)
    ensures s == Sprint(n)
    decreases |s|
  {
    hide Sprint, Spells, ReadNumber;
    SpellsSomething(s, n);
    if |s| == 1 {
      OneDigit(s, n);
      SprintDigit(n);
    } else {
      var q, d := ManyDigits(s, n);
      SpellsOnce(s[..|s| - 1], q);
      SprintStep(q, d);
    }
  }

  lemma SpellsSomething(s: string, n: nat)
    requires Spells(s, n)
    ensures |s| > 0
  {
  }

  // A number is printed as the one text that spells it, so no two connections without auth are announced alike.
  lemma SprintIff(s: string, n: nat)
    ensures s == Sprint(n) <==> Spells(s, n)
  {
    hide Sprint, Spells;
    SprintSpells(n);
    if Spells(s, n) {
      SpellsOnce(s, n);
    }
  }

  // The id a connection is announced with.
  function ShownAs(id: nat, auth: Option<string>): string {
    if auth.Some? then auth.value else Sprint(id)
  }

  // A connection as the rooms see it. Its auth is fixed before it can send a room request.
  class Client {
    const id: nat
    const auth: Option<string>
    var rooms: map<string, Room>

    constructor (id: nat, auth: Option<string>)
      ensures this.id == id && this.auth == auth && rooms == map[]
    {
      this.id := id;
      this.auth := auth;
      rooms := map[];
    }

    function Shown(): string {
      ShownAs(id, auth)
    }
  }

  // Where sends go. The ghost fields are the world of RoomViews: what every connection was sent and how much of it
  // before its latest join of a room, how it is shown, and who is in which room. `lost` counts the sends that failed.
  class Network {
    ghost var members: map<string, set<Cid>>
    ghost var shown: map<Cid, string>
    ghost var inbox: map<Cid, seq<Event>>
    ghost var since: map<Cid, map<string, int>>
    ghost var lost: nat

    constructor ()
      ensures Now() == NOBODY
    {
      members, shown, inbox, since, lost := map[], map[], map[], map[], 0;
    }

    ghost function Now(): World
      reads this
    {
      World(members, shown, inbox, since)
    }

    // A connection is accepted: from here on it can be sent to.
    method Connect(c: Client)
      requires c.id !in inbox
      modifies this
      ensures Accepted(old(Now()), Now(), c.id, c.Shown())
    {
      shown := shown[c.id := c.Shown()];
      inbox := inbox[c.id := []];
      since := since[c.id := map[]];
    }

    // A send is attempted, and can fail.
    method Send(c: Client, ev: Event) returns (err: bool)
      requires c.id in inbox
      modifies `inbox, `lost
      ensures inbox == old(inbox)[c.id := old(inbox)[c.id] + [ev]]
      ensures lost == old(lost) + if err then 1 else 0
    {
      inbox := inbox[c.id := inbox[c.id] + [ev]];
      err := *;
      if err {
        lost := lost + 1;
      }
    }

    // Broadcast, seen from outside: every client of the list is sent to once.
    method Broadcast(cs: seq<Client>, ev: Event)
      requires Distinct(cs) && forall c :: c in cs ==> c.id in inbox
      modifies `inbox, `lost
      ensures inbox == Delivered(old(inbox), Ids(cs), ev)
    {
      hide Ids;
      assert Ids(cs[..0]) == {} by { IdsNone(cs[..0]); }
      for i := 0 to |cs|
        invariant inbox.Keys == old(inbox).Keys
        invariant forall k :: k in inbox ==>
                    inbox[k] == if k in Ids(cs[..i]) then old(inbox)[k] + [ev] else old(inbox)[k]
      {
        IdsGrow(cs, i);
        var _ := Send(cs[i], ev);
      }
      assert cs[..|cs|] == cs;
    }
  }

  ghost function Delivered(inbox: map<Cid, seq<Event>>, to: set<Cid>, ev: Event): (now: map<Cid, seq<Event>>)
    ensures now.Keys == inbox.Keys
    ensures forall k :: k in inbox ==> now[k] == if k in to then inbox[k] + [ev] else inbox[k]
  {
    map k | k in inbox :: if k in to then inbox[k] + [ev] else inbox[k]
  }

  predicate Distinct(cs: seq<Client>) {
    forall i, j :: 0 <= i < j < |cs| ==> cs[i].id != cs[j].id
  }

  ghost function Ids(cs: seq<Client>): set<Cid> {
    set c | c in cs :: c.id
  }

  // A map keyed by client id.
  ghost predicate ById(m: map<nat, Client>) {
    forall k :: k in m ==> m[k].id == k
  }

  ghost function ShownIn(m: map<nat, Client>): (shown: map<Cid, string>)
    ensures shown.Keys == m.Keys && forall k :: k in m ==> shown[k] == m[k].Shown()
  {
    map k | k in m :: m[k].Shown()
  }

  // A room's clientsMap holds the clients the world says are in the room, under their ids, and everybody in the
  // world has an inbox, a displayed id and a record of joins.
  ghost predicate Filled(w: World, id: string, m: map<nat, Client>) {
    && Tidy(w) && id in w.members && m.Keys == w.members[id] && ById(m)
    && forall k :: k in m ==> w.shown[k] == m[k].Shown()
  }

  ghost predicate Tidy(w: World) {
    && w.shown.Keys == w.inbox.Keys == w.since.Keys
    && forall id :: id in w.members ==> w.members[id] <= w.inbox.Keys
  }

  lemma FilledMeans(w: World, id: string, m: map<nat, Client>)
    requires Filled(w, id, m)
    ensures Tidy(w) && id in w.members && m.Keys == w.members[id] <= w.inbox.Keys && ById(m)
    ensures forall k :: k in m ==> w.shown[k] == m[k].Shown()
  {
  }

  lemma JoinedFilled(w: World, w': World, client: Client, id: string, m: map<nat, Client>)
    requires Filled(w, id, m) && Joined(w, w', client.id, id) && w.shown[client.id] == client.Shown()
    ensures Filled(w', id, m[client.id := client])
  {
    hide Joined;
    JoinedFrame(w, w', client.id, id);
  }

  lemma JoinedFrame(w: World, w': World, c: Cid, room: string)
    requires Joined(w, w', c, room)
    ensures room in w.members && c in w.inbox && w'.members == w.members[room := w.members[room] + {c}]
    ensures w'.shown == w.shown && w'.inbox.Keys == w.inbox.Keys && w'.since.Keys == w.since.Keys + {c}
  {
    hide IsMemberList;
  }

  lemma LeftFilled(w: World, w': World, client: Client, id: string, m: map<nat, Client>)
    requires Filled(w, id, m) && Left(w, w', client.id, id)
    ensures Filled(w', id, m - {client.id})
  {
  }

  // Other rooms are as filled as before.
  lemma OtherFilled(w: World, w': World, c: Cid, room: string, id: string, m: map<nat, Client>)
    requires Filled(w, id, m) && id != room && (Joined(w, w', c, room) || Left(w, w', c, room))
    ensures Filled(w', id, m)
  {
    hide IsMemberList;
  }

  // The values of a Go map, in any order.
  method Values(m: map<nat, Client>) returns (cs: seq<Client>)
    requires ById(m)
    ensures Distinct(cs) && Ids(cs) == m.Keys && forall c :: c in cs <==> c.id in m && m[c.id] == c
  {
    cs := [];
    var todo := m.Keys;
    while todo != {}
      invariant todo <= m.Keys && Distinct(cs)
      invariant forall c :: c in cs <==> c.id in m && m[c.id] == c && c.id !in todo
    {
      var k :| k in todo;
      cs := cs + [m[k]];
      todo := todo - {k};
    }
    assert forall k :: k in m ==> m[k] in cs;
  }

  class Room {
    const id: string
    const public: bool
    const ch: Network
    var clientsMap: map<nat, Client>

    constructor (id: string, public: bool, ch: Network)
      ensures this.id == id && this.public == public && this.ch == ch && clientsMap == map[]
    {
      this.id := id;
      this.public := public;
      this.ch := ch;
      clientsMap := map[];
    }

    ghost predicate Valid()
      reads this, ch
    {
      Filled(ch.Now(), id, clientsMap)
    }

    method Has(client: Client) returns (has: bool)
      ensures has <==> client.id in clientsMap
    {
      has := client.id in clientsMap;
    }

    // Refuses a client that is in the room. Otherwise the client is entered, everybody in the room including the
    // newcomer is told, and the newcomer is told who else is there.
    method Join(client: Client) returns (err: bool)
      requires Valid() && client.id in ch.inbox && ch.shown[client.id] == client.Shown()
      modifies `clientsMap, client`rooms, ch
      ensures Valid()
      ensures err <==> client.id in old(clientsMap)
      ensures err ==> clientsMap == old(clientsMap) && client.rooms == old(client.rooms) && ch.Now() == old(ch.Now())
      ensures !err ==>
                && clientsMap == old(clientsMap)[client.id := client]
                && client.rooms == old(client.rooms)[id := this]
                && Joined(old(ch.Now()), ch.Now(), client.id, id)
    {
      hide IsMemberList, ShownIn, Delivered, Ids, Joined, Filled;
      ghost var before, was := clientsMap, ch.Now();
      FilledMeans(was, id, before);
      var clients;
      err, clients := Enter(client);
      if err {
        return;
      }
      client.rooms := client.rooms[id := this];
      ch.members := ch.members[id := ch.members[id] + {client.id}];
      ch.since := ch.since[client.id := ch.since[client.id][id := |ch.inbox[client.id]|]];
      ghost var told := Announce(client, clients, before);
      JoinedWorld(was, ch.Now(), client.id, id, told, ShownIn(before));
      JoinedFilled(was, ch.Now(), client, id, before);
    }

    // What Join sends once it has left its locked section.
    method Announce(client: Client, clients: seq<Client>, ghost before: map<nat, Client>)
      returns (ghost told: map<Cid, seq<Event>>)
      requires Distinct(clients) && ById(before) && client.id !in before
      requires Ids(clients) == before.Keys + {client.id} && Ids(clients) <= ch.inbox.Keys
      requires forall c :: c in clients <==> c == client || (c.id in before && before[c.id] == c)
      modifies ch`inbox, ch`lost
      ensures told == Delivered(old(ch.inbox), before.Keys + {client.id}, RoomJoin(client.Shown(), id))
      ensures client.id in ch.inbox && ch.inbox == told[client.id := ch.inbox[client.id]]
      ensures told[client.id] <= ch.inbox[client.id]
      ensures IsMemberList(ch.inbox[client.id][|told[client.id]|..], ShownIn(before), before.Keys, id)
    {
      hide IsMemberList, ShownIn, Delivered;
      ch.Broadcast(clients, RoomJoin(client.Shown(), id));
      told := ch.inbox;
      SendMembers(client, clients, before);
    }

    // The locked section of Join.
    method Enter(client: Client) returns (err: bool, clients: seq<Client>)
      requires ById(clientsMap)
      modifies `clientsMap
      ensures err <==> client.id in old(clientsMap)
      ensures clientsMap == if err then old(clientsMap) else old(clientsMap)[client.id := client]
      ensures !err ==> Distinct(clients) && Ids(clients) == clientsMap.Keys
      ensures !err ==> forall c :: c in clients <==> c.id in clientsMap && clientsMap[c.id] == c
    {
      if client.id in clientsMap {
        return true, [];
      }
      clientsMap := clientsMap[client.id := client];
      clients := Values(clientsMap);
      err := false;
    }

    // The second half of Join: the newcomer is sent every other client of the room.
    method SendMembers(client: Client, clients: seq<Client>, ghost before: map<nat, Client>)
      requires Distinct(clients) && ById(before) && client.id !in before && client.id in ch.inbox
      requires forall c :: c in clients <==> c == client || (c.id in before && before[c.id] == c)
      modifies ch`inbox, ch`lost
      ensures ch.inbox.Keys == old(ch.inbox.Keys)
      ensures ch.inbox == old(ch.inbox)[client.id := ch.inbox[client.id]]
      ensures old(ch.inbox)[client.id] <= ch.inbox[client.id]
      ensures IsMemberList(ch.inbox[client.id][|old(ch.inbox)[client.id]|..], ShownIn(before), before.Keys, id)
    {
      hide IsMemberList, ShownIn;
      ghost var was, shown := ch.inbox, ShownIn(before);
      ghost var list: seq<Event> := [];
      ghost var others: set<nat> := {};
      ListStarts(shown, id);
      assert was[client.id] + list == was[client.id];
      for i := 0 to |clients|
        invariant ch.inbox == was[client.id := was[client.id] + list]
        invariant others <= before.Keys
        invariant forall j :: 0 <= j < |clients| && clients[j] != client ==> (clients[j].id in others <==> j < i)
        invariant IsMemberList(list, shown, others, id)
      {
        if clients[i] != client {
          ListGrows(list, shown, others, clients[i].id, id);
          list := SendMember(client, clients[i], was, list);
          others := others + {clients[i].id};
        }
      }
      assert forall k :: k in before ==> before[k] in clients && before[k] != client;
      assert others == before.Keys;
    }

    method SendMember(client: Client, other: Client, ghost was: map<Cid, seq<Event>>, ghost list: seq<Event>)
      returns (ghost list': seq<Event>)
      requires client.id in was && ch.inbox == was[client.id := was[client.id] + list]
      modifies ch`inbox, ch`lost
      ensures list' == list + [RoomJoin(other.Shown(), id)] && ch.inbox == was[client.id := was[client.id] + list']
    {
      var ev := RoomJoin(other.Shown(), id);
      var _ := ch.Send(client, ev);
      list' := list + [ev];
      assert was[client.id] + list + [ev] == was[client.id] + list';
    }

    // Refuses a client that is not in the room. Otherwise the client is removed and everybody who was in the room,
    // itself included, is told.
    method Left(client: Client) returns (err: bool)
      requires Valid() && client.id in ch.inbox && ch.shown[client.id] == client.Shown()
      modifies `clientsMap, client`rooms, ch`inbox, ch`lost, ch`members
      ensures Valid()
      ensures err <==> client.id !in old(clientsMap)
      ensures err ==> clientsMap == old(clientsMap) && client.rooms == old(client.rooms) && ch.Now() == old(ch.Now())
      ensures !err ==>
                && clientsMap == old(clientsMap) - {client.id}
                && client.rooms == old(client.rooms) - {id}
                && RoomViews.Left(old(ch.Now()), ch.Now(), client.id, id)
    {
      hide Delivered, Ids;
      ghost var before, was := clientsMap, ch.Now();
      var clients;
      err, clients := Leave(client);
      if err {
        return;
      }
      client.rooms := client.rooms - {id};
      ch.members := ch.members[id := ch.members[id] - {client.id}];
      ch.Broadcast(clients, RoomLeft(client.Shown(), id));
      LeftFilled(was, ch.Now(), client, id, before);
      hide Filled;
    }

    // The locked section of Left.
    method Leave(client: Client) returns (err: bool, clients: seq<Client>)
      requires ById(clientsMap)
      modifies `clientsMap
      ensures err <==> client.id !in old(clientsMap)
      ensures clientsMap == if err then old(clientsMap) else old(clientsMap) - {client.id}
      ensures !err ==> Distinct(clients) && Ids(clients) == old(clientsMap).Keys
      ensures !err ==> forall c :: c in clients ==> c.id in old(clientsMap)
    {
      if client.id !in clientsMap {
        return true, [];
      }
      clients := Values(clientsMap);
      clientsMap := clientsMap - {client.id};
      err := false;
    }
  }

  // Broadcasting the join and then listing the members is what an atomic join does.
  lemma JoinedWorld(w: World, w': World, c: Cid, room: string, told: map<Cid, seq<Event>>, shown: map<Cid, string>)
    requires room in w.members && c !in w.members[room] && c in w.inbox && c in w.shown && c in w.since
    requires w' == World(w.members[room := w.members[room] + {c}], w.shown, w'.inbox,
                         w.since[c := w.since[c][room := |w.inbox[c]|]])
    requires told == Delivered(w.inbox, w.members[room] + {c}, RoomJoin(w.shown[c], room))
    requires c in w'.inbox && w'.inbox == told[c := w'.inbox[c]] && told[c] <= w'.inbox[c]
    requires IsMemberList(w'.inbox[c][|told[c]|..], shown, w.members[room], room)
    requires forall d :: d in w.members[room] ==> d in shown && d in w.shown && shown[d] == w.shown[d]
    ensures Joined(w, w', c, room)
  {
    hide IsMemberList, Delivered;
    SameMemberList(w'.inbox[c][|told[c]|..], shown, w.shown, w.members[room], room);
  }

  lemma IdsNone(cs: seq<Client>)
    requires cs == []
    ensures Ids(cs) == {}
  {
  }

  lemma IdsGrow(cs: seq<Client>, i: nat)
    requires Distinct(cs) && i < |cs|
    ensures cs[i].id !in Ids(cs[..i]) && Ids(cs[..i + 1]) == Ids(cs[..i]) + {cs[i].id}
  {
    assert cs[..i + 1] == cs[..i] + [cs[i]];
  }

  lemma ListStarts(shown: map<Cid, string>, room: string)
    ensures IsMemberList([], shown, {}, room)
  {
    assert forall u :: Showing(shown, {}, u) == {};
  }

  lemma ListGrows(list: seq<Event>, shown: map<Cid, string>, cs: set<Cid>, c: Cid, room: string)
    requires IsMemberList(list, shown, cs, room) && c !in cs && c in shown
    ensures IsMemberList(list + [RoomJoin(shown[c], room)], shown, cs + {c}, room)
  {
    forall u
      ensures multiset(list + [RoomJoin(shown[c], room)])[RoomJoin(u, room)] == |Showing(shown, cs + {c}, u)|
    {
      ShowingAdd(shown, cs, c, u);
    }
  }

  lemma SameMemberList(list: seq<Event>, shown: map<Cid, string>, shown': map<Cid, string>, cs: set<Cid>, room: string)
    requires IsMemberList(list, shown, cs, room)
    requires forall c :: c in cs ==> c in shown && c in shown' && shown[c] == shown'[c]
    ensures IsMemberList(list, shown', cs, room)
  {
    forall u
      ensures Showing(shown, cs, u) == Showing(shown', cs, u)
    {
    }
  }
}
