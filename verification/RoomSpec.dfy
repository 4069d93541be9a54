// What a client may ask about rooms, and what comes of it, told by who is in which room: the same for the interleaved
// machine and for the objects.
module RoomSpec {
  datatype Request =
    | JoinRequest(room: string)
    | LeftRequest(room: string)
    | CreateRequest(room: string, public: bool)

  // The rooms that hold c.
  ghost function RoomsOf(members: map<string, set<int>>, c: int): set<string> {
    set id | id in members && c in members[id]
  }

  // OnRoomEvent answers a client that holds that many rooms with an error.
  ghost predicate Refuses(members: map<string, set<int>>, c: int, held: nat, req: Request, multi: bool, limit: int) {
    match req
    case JoinRequest(id) => id !in members || c in members[id] || (multi && limit > 0 && held >= limit)
    case LeftRequest(id) => id !in members || c !in members[id]
    case CreateRequest(id, _) => id in members
  }

  // What a request that is not refused does to the set of rooms the client is in. A join in single mode trades a
  // room the client is in, if any, for the one it asked for.
  ghost predicate Granted(was: set<string>, now: set<string>, req: Request, multi: bool) {
    match req
    case JoinRequest(id) =>
      id !in was && id in now && now <= was + {id} && |now| == if multi || was == {} then |was| + 1 else |was|
    case LeftRequest(id) => id in was && now == was - {id}
    case CreateRequest(id, _) => id !in was && now == was + {id}
  }
}
