// The wire names that the framework takes for itself, and the messages of the protocol that travel under them.
module ReservedNames {
  import opened Protocol
  import opened RoomSpec
  import Events

  // What a client's room request is called.
  function RequestName(req: Request): string {
    match req
    case JoinRequest(_) => "edd:room:join_request"
    case LeftRequest(_) => "edd:room:left_request"
    case CreateRequest(_, _) => "edd:room:create_request"
  }

  // What a message of the server is called. The two kinds of presence share their names.
  function EventName(ev: Event): string {
    match ev
    case Challenge => "edd:auth:challenge"
    case AuthPass => "edd:auth:pass"
    case AuthJoin(_) => "edd:user:join"
    case AuthLeft(_) => "edd:user:left"
    case UserJoin(_) => "edd:user:join"
    case UserLeft(_) => "edd:user:left"
    case RoomCreate(_) => "edd:room:create"
    case RoomJoin(_, _) => "edd:room:join"
    case RoomLeft(_, _) => "edd:room:left"
  }

  // An event of an application is kept from its handler exactly when it is called like a message of the protocol that
  // travels the same way.
  lemma ReservedIff(name: string)
    ensures name in Events.SERVER_RESERVED <==> exists req :: RequestName(req) == name
    ensures name in Events.CLIENT_RESERVED <==> exists ev :: EventName(ev) == name
  {
    if name in Events.SERVER_RESERVED {
      assert RequestName(JoinRequest("")) == name || RequestName(LeftRequest("")) == name
             || RequestName(CreateRequest("", true)) == name;
    }
    if name in Events.CLIENT_RESERVED {
      assert EventName(Challenge) == name || EventName(AuthPass) == name || EventName(UserJoin(0)) == name
             || EventName(UserLeft(0)) == name || EventName(RoomCreate("")) == name
             || EventName(RoomJoin(0, "")) == name || EventName(RoomLeft(0, "")) == name;
    }
  }
}
