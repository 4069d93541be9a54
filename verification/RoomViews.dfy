// The rooms with every handler taken as one atomic step, as values: who is in which room and what every
// connection has received, in order. A connection's view of a room is what its client can compute from that.
module RoomViews {
  type Cid = nat

  datatype Event =
    | RoomCreate(room: string)
    | RoomJoin(id: string, room: string)
    | RoomLeft(id: string, room: string)
    | Other

  // `shown` is the id a connection is announced with; several connections of one user share it. `since` marks,
  // for a connection and a room, how much it had received before its latest join of that room.
  datatype World = World(
    members: map<string, set<Cid>>,
    shown: map<Cid, string>,
    inbox: map<Cid, seq<Event>>,
    since: map<Cid, map<string, int>>)

  const NOBODY := World(map[], map[], map[], map[])

  // The connections among cs that are shown as u.
  function Showing(shown: map<Cid, string>, cs: set<Cid>, u: string): set<Cid> {
    set c | c in cs && c in shown && shown[c] == u
  }

  // What a client makes of the room events it received: an id in for a join, one out for a leave.
  function View(evs: seq<Event>, room: string): multiset<string> {
    if evs == [] then multiset{} else Seen(View(evs[..|evs| - 1], room), evs[|evs| - 1], room)
  }

  function Seen(view: multiset<string>, ev: Event, room: string): multiset<string> {
    match ev
    case RoomJoin(id, r) => if r == room then view + multiset{id} else view
    case RoomLeft(id, r) => if r == room then view - multiset{id} else view
    case _ => view
  }

  // The list of the members cs of a room, in some order.
  ghost predicate IsMemberList(evs: seq<Event>, shown: map<Cid, string>, cs: set<Cid>, room: string) {
    && (forall i :: 0 <= i < |evs| ==> evs[i].RoomJoin? && evs[i].room == room)
    && (forall u :: multiset(evs)[RoomJoin(u, room)] == |Showing(shown, cs, u)|)
  }

  // ---- The handlers ----------------------------------------------------------------------------------------

  ghost predicate Accepted(w: World, w': World, c: Cid, u: string) {
    && c !in w.inbox
    && w' == w.(shown := w.shown[c := u], inbox := w.inbox[c := []], since := w.since[c := map[]])
  }

  // Anything else, sent to the connections cs.
  ghost predicate Noted(w: World, w': World, cs: set<Cid>, ev: Event) {
    && cs <= w.inbox.Keys && !ev.RoomJoin? && !ev.RoomLeft?
    && w'.members == w.members && w'.shown == w.shown && w'.since == w.since
    && w'.inbox.Keys == w.inbox.Keys
    && forall d :: d in w.inbox ==> w'.inbox[d] == w.inbox[d] + if d in cs then [ev] else []
  }

  ghost predicate Created(w: World, w': World, room: string) {
    room !in w.members && w' == w.(members := w.members[room := {}])
  }

  ghost predicate Joined(w: World, w': World, c: Cid, room: string) {
    && room in w.members && c !in w.members[room] && c in w.inbox && c in w.shown && c in w.since
    && w'.shown == w.shown
    && w'.members == w.members[room := w.members[room] + {c}]
    && w'.since == w.since[c := w.since[c][room := |w.inbox[c]|]]
    && w'.inbox.Keys == w.inbox.Keys
    && (forall d :: d in w.inbox && d != c ==>
          w'.inbox[d] == w.inbox[d] + if d in w.members[room] then [RoomJoin(w.shown[c], room)] else [])
    && w.inbox[c] + [RoomJoin(w.shown[c], room)] <= w'.inbox[c]
    && IsMemberList(w'.inbox[c][|w.inbox[c]| + 1..], w.shown, w.members[room], room)
  }

  ghost predicate Left(w: World, w': World, c: Cid, room: string) {
    && room in w.members && c in w.members[room] && c in w.shown
    && w'.shown == w.shown && w'.since == w.since
    && w'.members == w.members[room := w.members[room] - {c}]
    && w'.inbox.Keys == w.inbox.Keys
    && (forall d :: d in w.inbox ==>
          w'.inbox[d] == w.inbox[d] + if d in w.members[room] then [RoomLeft(w.shown[c], room)] else [])
  }

  ghost predicate Next(w: World, w': World) {
    || (exists c, u :: Accepted(w, w', c, u))
    || (exists cs, ev :: Noted(w, w', cs, ev))
    || (exists room :: Created(w, w', room))
    || (exists c, room :: Joined(w, w', c, room))
    || (exists c, room :: Left(w, w', c, room))
  }

  ghost predicate IsRun(run: seq<World>) {
    && |run| > 0 && run[0] == NOBODY
    && forall i :: 0 < i < |run| ==> Next(run[i - 1], run[i])
  }

  // ---- Views -----------------------------------------------------------------------------------------------

  ghost predicate Exact(w: World, c: Cid, room: string)
    requires room in w.members
  {
    && c in w.inbox && c in w.shown && c in w.since && room in w.since[c]
    && 0 <= w.since[c][room] <= |w.inbox[c]|
    && forall u :: View(w.inbox[c][w.since[c][room]..], room)[u] == |Showing(w.shown, w.members[room], u)|
  }

  ghost predicate Inv(w: World) {
    forall room, c :: room in w.members && c in w.members[room] ==> Exact(w, c, room)
  }

  lemma {:induction false} ViewOfList(evs: seq<Event>, list: seq<Event>, room: string, u: string)
    requires forall i :: 0 <= i < |list| ==> list[i].RoomJoin? && list[i].room == room
    ensures View(evs + list, room)[u] == View(evs, room)[u] + multiset(list)[RoomJoin(u, room)]
  {
    if list == [] {
      assert evs + list == evs;
    } else {
      var n := |list| - 1;
      assert (evs + list)[..|evs + list| - 1] == evs + list[..n];
      assert list == list[..n] + [list[n]];
      ViewOfList(evs, list[..n], room, u);
    }
  }

  lemma ViewOfAppend(evs: seq<Event>, from: nat, ev: Event, room: string)
    requires from <= |evs|
    ensures View((evs + [ev])[from..], room) == Seen(View(evs[from..], room), ev, room)
  {
    assert (evs + [ev])[from..] == evs[from..] + [ev];
    assert (evs[from..] + [ev])[..|evs| - from] == evs[from..];
  }

  lemma ShowingAdd(shown: map<Cid, string>, cs: set<Cid>, c: Cid, u: string)
    requires c !in cs && c in shown
    ensures |Showing(shown, cs + {c}, u)| == |Showing(shown, cs, u)| + if shown[c] == u then 1 else 0
  {
    if shown[c] == u {
      assert Showing(shown, cs + {c}, u) == Showing(shown, cs, u) + {c};
    } else {
      assert Showing(shown, cs + {c}, u) == Showing(shown, cs, u);
    }
  }

  lemma JoinedExact(w: World, w': World, c: Cid, room: string)
    requires Inv(w) && Joined(w, w', c, room)
    ensures Inv(w')
  {
    forall r, d | r in w'.members && d in w'.members[r]
      ensures Exact(w', d, r)
    {
      if d == c && r == room {
        NewcomerExact(w, w', c, room);
      } else {
        assert Exact(w, d, r);
        if d == c {
          LaterEvents(w, w', c, room, r);
        } else {
          OthersJoin(w, w', c, room, d, r);
        }
      }
    }
  }

  // The newcomer is told about itself and then about everybody who was there.
  lemma NewcomerExact(w: World, w': World, c: Cid, room: string)
    requires Joined(w, w', c, room)
    ensures Exact(w', c, room)
  {
    var n := |w.inbox[c]|;
    var list := w'.inbox[c][n + 1..];
    var me := RoomJoin(w.shown[c], room);
    assert w'.inbox[c][n..] == [me] + list;
    forall u
      ensures View([me] + list, room)[u] == |Showing(w'.shown, w'.members[room], u)|
    {
      ViewOfList([me], list, room, u);
      ShowingAdd(w.shown, w.members[room], c, u);
      assert View([me][..0], room) == multiset{};
    }
  }

  lemma {:induction false} ViewOfForeign(evs: seq<Event>, list: seq<Event>, room: string)
    requires forall i :: 0 <= i < |list| ==> list[i].RoomJoin? && list[i].room != room
    ensures View(evs + list, room) == View(evs, room)
  {
    if list == [] {
      assert evs + list == evs;
    } else {
      var n := |list| - 1;
      assert (evs + list)[..|evs + list| - 1] == evs + list[..n];
      ViewOfForeign(evs, list[..n], room);
    }
  }

  // What the newcomer receives leaves its views of other rooms alone.
  lemma LaterEvents(w: World, w': World, c: Cid, room: string, r: string)
    requires Joined(w, w', c, room) && r in w.members && Exact(w, c, r) && r != room
    ensures Exact(w', c, r)
  {
    var k := w.since[c][r];
    var list := w'.inbox[c][|w.inbox[c]|..];
    assert w'.inbox[c][k..] == w.inbox[c][k..] + list;
    forall i | 0 <= i < |list|
      ensures list[i].RoomJoin? && list[i].room != r
    {
      if i > 0 {
        assert list[i] == w'.inbox[c][|w.inbox[c]| + 1..][i - 1];
      } else {
        assert list[0] == w'.inbox[c][|w.inbox[c]|];
      }
    }
    ViewOfForeign(w.inbox[c][k..], list, r);
  }

  lemma OthersJoin(w: World, w': World, c: Cid, room: string, d: Cid, r: string)
    requires Joined(w, w', c, room) && r in w.members && d in w.members[r] && d != c && Exact(w, d, r)
    ensures Exact(w', d, r)
  {
    var k := w.since[d][r];
    if d in w.members[room] {
      ViewOfAppend(w.inbox[d], k, RoomJoin(w.shown[c], room), r);
    } else {
      assert w'.inbox[d] == w.inbox[d];
    }
    if r != room {
      return;
    }
    hide View;
    forall u
      ensures View(w'.inbox[d][k..], r)[u] == |Showing(w'.shown, w'.members[r], u)|
    {
      ShowingAdd(w.shown, w.members[room], c, u);
    }
  }

  lemma LeftExact(w: World, w': World, c: Cid, room: string)
    requires Inv(w) && Left(w, w', c, room)
    ensures Inv(w')
  {
    forall r, d | r in w'.members && d in w'.members[r]
      ensures Exact(w', d, r)
    {
      assert Exact(w, d, r);
      OthersLeave(w, w', c, room, d, r);
    }
  }

  lemma OthersLeave(w: World, w': World, c: Cid, room: string, d: Cid, r: string)
    requires Left(w, w', c, room) && r in w.members && d in w.members[r] && Exact(w, d, r)
    requires r == room ==> d != c
    ensures Exact(w', d, r)
  {
    var k := w.since[d][r];
    var ev := RoomLeft(w.shown[c], room);
    if d in w.members[room] {
      ViewOfAppend(w.inbox[d], k, ev, r);
    } else {
      assert w'.inbox[d] == w.inbox[d];
    }
    if r != room {
      return;
    }
    hide View;
    forall u
      ensures View(w'.inbox[d][k..], r)[u] == |Showing(w'.shown, w'.members[r], u)|
    {
      ShowingAdd(w.shown, w.members[room] - {c}, c, u);
      assert w.members[room] - {c} + {c} == w.members[room];
    }
  }

  lemma NotedExact(w: World, w': World, cs: set<Cid>, ev: Event)
    requires Inv(w) && Noted(w, w', cs, ev)
    ensures Inv(w')
  {
    forall r, d | r in w'.members && d in w'.members[r]
      ensures Exact(w', d, r)
    {
      assert Exact(w, d, r);
      if d in cs {
        ViewOfAppend(w.inbox[d], w.since[d][r], ev, r);
      } else {
        assert w'.inbox[d] == w.inbox[d];
      }
    }
  }

  lemma AcceptedExact(w: World, w': World, c: Cid, u: string)
    requires Inv(w) && Accepted(w, w', c, u)
    ensures Inv(w')
  {
    forall r, d | r in w'.members && d in w'.members[r]
      ensures Exact(w', d, r)
    {
      assert Exact(w, d, r);
      assert forall x :: x in w.members[r] ==> Exact(w, x, r);
      forall v
        ensures Showing(w'.shown, w'.members[r], v) == Showing(w.shown, w.members[r], v)
      {
      }
    }
  }

  lemma NextExact(w: World, w': World)
    requires Inv(w) && Next(w, w')
    ensures Inv(w')
  {
    hide Inv;
    if c, u :| Accepted(w, w', c, u) {
      AcceptedExact(w, w', c, u);
    } else if cs, ev :| Noted(w, w', cs, ev) {
      NotedExact(w, w', cs, ev);
    } else if room :| Created(w, w', room) {
      CreatedExact(w, w', room);
    } else if c, room :| Joined(w, w', c, room) {
      JoinedExact(w, w', c, room);
    } else {
      var c, room :| Left(w, w', c, room);
      LeftExact(w, w', c, room);
    }
  }

  lemma CreatedExact(w: World, w': World, room: string)
    requires Inv(w) && Created(w, w', room)
    ensures Inv(w')
  {
    forall r, d | r in w'.members && d in w'.members[r]
      ensures Exact(w', d, r)
    {
      assert Exact(w, d, r);
    }
  }

  lemma {:induction false} RunExact(run: seq<World>)
    requires IsRun(run)
    ensures Inv(run[|run| - 1])
  {
    hide Inv, Next;
    var n := |run| - 1;
    if n == 0 {
      NobodyExact();
    } else {
      RunExact(run[..n]);
      NextExact(run[n - 1], run[n]);
    }
  }

  lemma NobodyExact()
    ensures Inv(NOBODY)
  {
  }

  // With handlers atomic, every member's view of a room is exactly the displayed ids of the room's members, with
  // multiplicity when one user has several connections there, over every run.
  lemma ViewsAreExact(run: seq<World>, room: string, c: Cid, u: string)
    requires IsRun(run)
    requires var w := run[|run| - 1]; room in w.members && c in w.members[room]
    ensures var w := run[|run| - 1];
            && c in w.inbox && c in w.since && room in w.since[c] && 0 <= w.since[c][room] <= |w.inbox[c]|
            && View(w.inbox[c][w.since[c][room]..], room)[u] == |Showing(w.shown, w.members[room], u)|
  {
    RunExact(run);
    assert Exact(run[|run| - 1], c, room);
  }
}
