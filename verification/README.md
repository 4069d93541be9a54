# Eddwise, modelled and proved in Dafny

Eddwise is a WebSocket server framework with a code generator. This project models three parts of it and proves what they
promise:

- the room and presence protocol of the server (`room.go`, `eddwise.go`, `user_join.go`, `auth.go`),
- `Broadcast`, the concurrent fan-out of one event to many clients (`eddwise.go`),
- the design compiler (`internal/eddgen`): the type notation, struct parsing, validation, directions, routing, and the field
  renaming of the generated JavaScript client.

`dafny verify dfyconfig.toml` checks everything.

## How the protocol is modelled

It is modelled twice, because some promises hold under every interleaving and others only when a handler is not interrupted.

**Interleaved** (`Protocol.dfy` and the `Protocol*.dfy` beside it). One thread per connection, any number of connections
and rooms. Every region under a lock is one step. `addRoom`, `delRoom` and every single send are steps of their own, with an
arbitrary success bit, so anything can happen between them. The one lock that is held across sends, the read lock of
`SendPublicRooms`, is part of the state. A create request waits for the readers to be done, and while one waits no new reader
gets in, as with Go's `RWMutex`: the lookup of a join or leave request and `SendPublicRooms` wait for it. A state has a
program counter, a room index and a multiset of pending sends per connection, the server's client table, the room table, the
members of every room object, the `ConnManager` maps, and the multiset of all sends attempted so far. Announcements are
counted by connection.

**Atomic handlers, on objects** (`RoomObjects.dfy`, `RoomManagers.dfy`, `RoomServers.dfy`, `ConnManager.dfy`,
`AuthChannel.dfy`, `AuthServers.dfy`). `Client`, `Room`, `Server`, `RoomManager` and `ConnManager` are classes with the maps
of the source, updated in place by methods with the loops of the source. Their sends go to a ghost log that keeps the order
in which every connection is sent to. Each handler is proved to be a sequence of atomic steps of a value-level machine
(`RoomViews.dfy`, `PresenceViews.dfy`), and what clients can compute from their logs is proved about every run of that
machine. `RoomServers.Run` starts a server that nobody is connected to and lets any number of clients connect, ask and
disconnect in any order; `AuthServers.Run` does the same with logins, whatever fails in them, and revocations.

What a room request is refused for, and what it does otherwise, is defined once (`RoomSpec.dfy`). The atomic handlers are
proved against it, and in every interleaving a request is answered as if it had been handled at once at some point before its
answer (`ProtocolRequests.RequestAnswered`).

Assumptions of both, which the source does not check:

- There is one room manager per server, because a client's index of rooms is keyed by room id alone (eddwise.go:96-102).
- Only a connection's own handler changes its memberships, and rooms are created by requests only.
- `MultiRoomMode` and the limit do not change while the server runs.
- At most one channel embeds `ConnManager`; it also implements `OnBasicAuth`, and a connection's auth does not change while
  it is registered.
- Connection numbers do not wrap around.

A send counts when it is attempted. Where a statement is about what has arrived, it says so by excluding failed sends.

## How the compiler is modelled

Code that computes with loops or mutates objects is a method proved against a specification function or relation, and the
promises are lemmas about those. A reference in a struct is an object whose `refStruct` validation writes, as in the source
(`Designs.dfy`). A design is one file, already read as a tree of mappings and scalars. Validation is a recursion that need not
end; its specification `Validation.Attempt` is the same recursion cut off after a number of references in a row, the methods
are proved on every input on which it is not cut off, and which inputs those are is a theorem (`Validation.EndsIff`, with the
graph lemmas of `Walks.dfy`).

## What turned out not to hold

- **Clean-up.** A connection whose `CheckAuth` fails after `setAuth` returns before `RevokeAuth` is deferred. It stays in the
  `ConnManager` and its user counts as connected from then on (auth.go:190-194, auth.go:250-255, eddwise.go:293-320).
  `ProtocolLifecycle.CleanUp` says that this is the only thing that is ever left over. Over a run, it is left over exactly
  when a send of the list of users, of the announcement or of AuthPass failed (`ProtocolLeak.LeakedIff`), and never by a
  connection that passed `CheckAuth` (`ProtocolLeak.PassedLeavesNothing`); `ProtocolLifecycle.FailedLoginLeaks` shows that it
  happens. It is never repaired (`ProtocolLeak.LeakIsForever`), the user is announced and withdrawn by no other connection
  from then on (`ProtocolLeak.NeverFirstNorLast`), and as every first login of another user sends to the leaked connection,
  each of them leaks as well when that send fails (`ProtocolLeak.LeakSpreads`).
- **Presence.** A user is announced by its first connection, and by that one only. When that connection fails at its own list
  of users, its user stays connected and is never announced to those who were there before, not even when a second
  connection of the user passes: `ProtocolTelling.UserToldIff` says exactly who is told, `ProtocolUsers.UserUnknown` shows
  that it happens, for any two users.
- **Stale arrivals.** On a channel without `ConnManager`, a connection that enters the client table after the `onLeft` of
  another has looked at it, and takes its list before `RemoveClient`, is sent that the other one came and never that it has
  gone (eddwise.go:327-358). `ProtocolArrivals.StaleArrivalIff` says that this is the only way to it,
  `ProtocolArrivals.StaleArrival` shows that it happens.
- **Field renaming.** The two generated loops restore a message exactly when no two renamed fields share a wire name and no
  wire name is a key of the message (`Renaming.RoundTripIff`, `Renaming.FullMessage`). Nothing in the generator enforces this;
  `Renaming.SwappedNames` is a design that loses a field. Either loop throws exactly at a renamed field whose key is not
  there when its turn comes (`Renaming.RunsThroughIff`). So a message without one of its renamed fields is not sent at all
  (`Renaming.SendsIff`): a client whose struct has an aliased server-only field throws on every message it sends. And an
  event from which an aliased field was omitted throws on receipt (`Renaming.ReceivesIff`). Fields inside fields are not
  renamed, although their Go tags have the wire names: what is sent agrees with the Go struct at every level, for every
  message, exactly when no field inside a field has an alias (`NestedRenaming.SentAgreesIff`).
- **Directed fields.** `FieldsWithStrictDirection` does not look into maps, nor into tagged fields. The generated checks reach
  every directed field exactly when no directed field is behind one of those (`DirectedFields.AllCheckedIff`);
  `DirectedFields.BehindAMap` is an accepted design where one is. It does not look at array depths either: Go accepts the
  selector of a listed path exactly when no field before its last is an array and the structs on the way have Go names that
  are identifiers and differ (`DirectedFields.SelectableIff`); `DirectedFields.BehindAnArray` is an accepted design whose
  check is not Go.
- **Room limit.** A create request is subject to neither the single-room mode nor the limit (room.go:207-219). The bound that
  does hold adds one per successful create (`ProtocolMembership.RoomCountBound`), so the limit itself holds for every client
  that created no room. For any number of creates the larger bound is attained, with two rooms in single mode after one
  create (`ProtocolWitness.BoundAttained`).
- **Cyclic structs.** Validation has no visited set. It ends exactly when no walk along the structs it enters comes back to
  one of them (`Validation.EndsIff`; for a type without errors, exactly when its references have no cycle:
  `Validation.SoundEndsIff`; for the loop over a whole design, `Validation.DesignEndsIff`), and it accepts exactly the sound
  types without such a cycle (`Validation.AcceptsIff`).
  `Validation.MutualReferenceNeverEnds` is a design that no depth is enough for.

## Model

| member | source | states |
|---|---|---|
| ProtocolMembership.IndexAgreement | room.go:37-104 | In every interleaving a client is in a room's members exactly when the room is in the client's index, except between the locked section of its own Join or Left and the index update that follows, where the two differ in a known way |
| ProtocolMembership.RoomsPersist | room.go:158-173 | No step removes a room, gives a room id another object, or changes the membership of anybody but the connection that moves |
| ProtocolMembership.CheckedJoinSucceeds | room.go:175-200 | A join that passed the checks of OnRoomEvent never meets an error in its later Left and Join, whatever others do in between, and ends in the requested room, out of the one it left, with as many rooms as before when it left one; that it ends is ProtocolProgress.MovesBounded |
| ProtocolRequests.RequestAnswered | room.go:175-232 | Linearisation: in every interleaving, a join, leave or create request that has been answered was answered as if it had been handled all at once in some state between the request and the answer: with an error exactly when the checks of OnRoomEvent fail there, and then its client is in the rooms it was in; otherwise its client's rooms have changed as asked, and a created room is public as asked and its own |
| ProtocolRequests.LeaveAnswered | room.go:201-206 | In every interleaving a leave request succeeds exactly for a room that the client was in when it asked, and takes it out of that room and no other |
| ProtocolMembership.RoomCountBound | room.go:175-219 | Whatever the interleaving, a client is in at most one room, or at most the limit, plus one per successful create |
| ProtocolWitness.BoundAttained | room.go:175-219 | For any number of creates there is a reachable state in which a client holds exactly that many rooms more than the mode and the limit allow |
| ProtocolProgress.Progress | eddwise.go:293-399 | In every reachable state a connection that is not gone waits for its own client's next message, or has an enabled step of its own, or waits in Create for the write lock of the room manager while every connection that holds the read lock can work, or waits for the read lock behind pending writers each of which can work or waits like that; so as long as a connection has something to do, somebody can work |
| ProtocolProgress.OwnStepsEnd | eddwise.go:293-399 | Every step a connection's thread makes by itself leaves it less work, by a later phase or fewer pending sends, and no step of another connection adds to it: between two messages of its client it makes finitely many steps |
| ProtocolProgress.MovesBounded | room.go:175-232 | Under every schedule a thread makes at most as many moves, sends aside, as it has phases ahead; a room request is over after at most ten, and what comes of it is ProtocolRequests.RequestAnswered |
| ProtocolAnnouncements.AnnouncementsConserved | room.go:37-118 | For two connections with nothing left to send, the joins of the one announced to the other equal the partings announced to either of them, plus one if they share the room now; in every interleaving |
| ProtocolAnnouncements.OwnAnnouncementsConserved | room.go:37-118 | Everybody is told of itself: with nothing left to send, a connection has been sent its own joins of a room as often as its own partings, plus one if it is in the room now; in every interleaving |
| ProtocolNotices.MutualKnowledge | user_join.go:91-109 | In every interleaving two connections whose onJoin returned without error and that have not begun to disconnect have each been sent the other's arrival; how often, and the departures, are in ProtocolArrivals |
| ProtocolArrivals.ArrivalTold | user_join.go:91-109 | Over any run, a connection whose list was sent without error has been sent another one's arrival as often as the client table says: once if that one was in it when the list was taken, and once if the connection was in it when that one announced itself |
| ProtocolArrivals.FailedListIsSilent | user_join.go:91-107 | Over any run, a connection whose own list failed announces itself to nobody |
| ProtocolArrivals.DepartureTold | user_join.go:111-113 | Over any run, once the onLeft of a connection is over, its departure has been sent once to every other connection that was in the client table when onLeft looked, and to nobody else; before onLeft looks, to nobody |
| ProtocolArrivals.SpokenInTurn | user_join.go:75-113 | In every interleaving an arrival is sent by the newcomer's onJoin or by the receiver's own list, a departure by the onLeft of the one that goes, and nobody is sent its own |
| ProtocolArrivals.StaleArrivalIff | eddwise.go:327-358 | A connection was sent an arrival and never the departure, of one that has gone, exactly when it entered the client table after that one's onLeft looked and took its list before that one was removed |
| ProtocolArrivals.StaleArrival | eddwise.go:327-358 | There is a run in which that happens |
| ProtocolGenuine.NothingMadeUp | user_join.go:63-113 | In every interleaving, a connection is sent only users that another connection has logged in as, connections other than itself that came, and departures of such that went, rooms that are public or that it created, and joins and leaves of rooms that exist |
| ProtocolReceipts.AdmittedOnce | auth.go:177-199 | In every interleaving with authentication, a connection that has answered was sent its challenge once; its pass is sent once, not before the rest of CheckAuth is over and before everything that follows it |
| ProtocolReceipts.PrivateRoomTold | room.go:207-216 | In every interleaving, once its create is past that send, a private room has been told to its creator once and to nobody else |
| ProtocolNotices.NoPublicRoomMissed | room.go:207-253 | In every interleaving of connecting and creating, a connection whose SendPublicRooms returned without error has been sent every public room whose create broadcast is over |
| ProtocolPresence.UsersKnown | user_join.go:75-109 | In every interleaving, for two connections of different users that passed CheckAuth and have not begun to be revoked, when the setAuth of the one was the first of its user, the other has been sent that user, by its own list or by the announcement; every other case is in ProtocolTelling.UserToldIff |
| ProtocolUsers.UserKnown | user_join.go:75-109 | In every interleaving a connection that passed CheckAuth has been sent every connected user but its own, except one whose first connection has not announced it yet or gave up at its own list of users |
| ProtocolTelling.UserToldIff | user_join.go:75-109 | Over any run, let a user come with a login and be connected ever since: another user's connection that passed CheckAuth has been sent that user since then, exactly unless it was past that place of its own list when the user came, and the announcement of the login is still to be sent to it or a send of the login's own list of users failed |
| ProtocolUsers.UserUnknown | auth.go:190-258 | For any two users there is a run after which connections of both have passed CheckAuth and the one has never been sent the other |
| ProtocolWithdrawals.WithdrawsIff | auth.go:201-214 | In every reachable state, a connection that is revoked goes on to withdraw its user exactly when no other registered connection has that user |
| ProtocolWithdrawals.WithdrawalsTold | auth.go:201-214 | Over any run, once nobody has it still to say, a connection has been told that a user has gone as often as a last connection of that user was revoked while the receiver was registered under another user |
| ProtocolLifecycle.CleanUp | eddwise.go:293-375 | When a connection's handler has returned it is in no client table, holds no lock and is in no room, and it is in the ConnManager maps exactly when its CheckAuth failed after setAuth, which ProtocolLeak.LeakedIff tells by the failed sends of the run |
| ProtocolLifecycle.TablesMatchProgress | auth.go:77-104 | In every reachable state the client table and the ConnManager maps hold exactly the connections that have reached the point where they are entered and not the point where they are removed |
| ProtocolLifecycle.FailedLoginLeaks | auth.go:177-199 | For every user there is a run that ends with the handler returned and the connection still registered |
| ProtocolLeak.LeakedIff | auth.go:177-258 | Over any run, a connection whose handler has returned is still registered, and in its user's group, exactly when some step of the run was a failed send of its list of users, of its announcement or of its AuthPass |
| ProtocolLeak.PassedLeavesNothing | eddwise.go:293-375 | A connection that passed CheckAuth at some point of a run is in no map of the ConnManager when its handler has returned |
| ProtocolLeak.LeakIsForever | eddwise.go:293-320 | A connection that is gone and still registered at some point of a run is so, under the same user, at its end |
| ProtocolLeak.NeverFirstNorLast | auth.go:77-104 | While a connection of a user is leaked, setAuth answers "not first" and removeAuth answers "one is left" for every other connection of that user |
| ProtocolLeak.LeakSpreads | auth.go:250-255 | From where a connection is leaked, as long as no send to it succeeds, every first login of another user that reaches its announcement is leaked as well once its handler has returned |
| RoomViews.ViewsAreExact | room.go:37-118 | With handlers atomic, over every run, the multiset that a member computes from the RoomJoin and RoomLeft it received since its latest join is the displayed ids of the room's members, with multiplicity for several connections of one user |
| RoomViews.JoinedExact | room.go:37-85 | A join keeps every member's view exact: the newcomer's, that of everybody in the room, and the newcomer's views of other rooms |
| RoomViews.LeftExact | room.go:86-118 | A leave keeps every remaining member's view exact |
| RoomObjects.Room.Join | room.go:37-85 | Refuses exactly a client that is in the room and then changes nothing; otherwise enters it in clientsMap and in the client's index, and the log changes as by an atomic join: everybody including the newcomer is told once, then the newcomer is sent the other members |
| RoomObjects.Room.Left | room.go:86-118 | Refuses exactly a client that is not in the room and then changes nothing; otherwise removes it from both indexes and everybody who was in the room is told once |
| RoomObjects.Room.SendMembers | room.go:65-82 | The loop sends the newcomer every other member once and sends nothing to anybody else |
| RoomObjects.SprintIff | room.go:60-63 | A connection without auth is announced under the one text that spells its number in decimal digits without leading zeros, so no two of them alike |
| RoomServers.ViewTellsWho | room.go:54-82 | What an exact view of a room counts under an id is how many connections of that user are there, and the connection without auth that has that number |
| RoomObjects.Network.Broadcast | eddwise.go:526-564 | Seen from outside, every client of the list receives the event once and nobody else receives anything |
| RoomManagers.RoomManager.OnRoomEvent | room.go:175-232 | Answers with an error exactly for an unknown or taken room id, a room the client is in or is not in, or a client at the limit; then nothing changes, otherwise the client's set of rooms changes as requested, single mode trading one room for another, nobody else's memberships change, every room id keeps its object, a new room is a new object, and it is announced to everybody on the server or, when it is private, to its creator |
| RoomManagers.RoomManager.OnJoinRequest | room.go:177-200 | The join branch, with the number of rooms held afterwards in both modes |
| RoomManagers.RoomManager.OnLeftRequest | room.go:201-206 | The leave branch |
| RoomManagers.RoomManager.OnCreateRequest | room.go:207-228 | The create branch: the new room holds exactly the creator, whatever the mode and the limit, the other ids keep their rooms, and exactly everybody on the server, or the creator, is sent RoomCreate |
| RoomManagers.RoomManager.Create | room.go:158-173 | Refuses exactly a taken id; otherwise the table gains one fresh empty room |
| RoomManagers.RoomManager.SendPublicRooms | room.go:242-253 | Sends RoomCreate for distinct public rooms, for all of them unless a send fails; it answers with an error exactly when one send failed, and stops there; it sends to nobody else |
| RoomManagers.RoomManager.RoomClientQuit | room.go:255-261 | Afterwards the client's index is empty and no room holds it, by a sequence of atomic leaves that touch nobody else's memberships |
| RoomManagers.Server.GetClients | eddwise.go:506-520 | Exactly the clients that are not excluded, each once |
| RoomManagers.PathExact | room.go:175-261 | A sequence of atomic handlers, as the methods above produce it, keeps every view exact |
| RoomServers.RoomServer.Accept | eddwise.go:327-366 | A newcomer gets the next number, is in no room and is entered in the client table; what it is sent is a run of atomic handlers, and every client's index, ids and room objects, stays right |
| RoomServers.RoomServer.Serve | room.go:175-232 | A request of a connected client is refused exactly when Refuses says so, with nothing changed, or changes its rooms as asked and nobody else's; every client's index stays right |
| RoomServers.RoomServer.Quit | eddwise.go:327-375 | The client leaves every room and the client table, nobody else's memberships change, and every other index stays right |
| RoomServers.Run | eddwise.go:284-399 | For every sequence of connects, requests and disconnects, starting from nobody, each does what it should, the whole is a run of atomic handlers, and in the end every connected client's index lists exactly the rooms it is in, as the room objects of the table, and its view of each is exactly who is there |
| RoomServers.TwoMeet | room.go:175-261 | In either mode and under any limit two clients meet in the room that one of them created, and the one that quits leaves the other alone in it |
| ConnSpec.SetAuthGrouped | auth.go:77-91 | Registering keeps userConnections equal to clients grouped by user exactly for a connection that is new or keeps its user |
| ConnSpec.RemoveAuthGrouped | auth.go:93-104 | Removing keeps the grouping, and the answer is true exactly when another connection of the user is registered |
| PresenceViews.PresenceIsExact | user_join.go:63-113 | With login and revocation atomic, over every run and any number of connections per user, the set an authorised connection computes from the user events it received is the ids of the other connected users |
| PresenceViews.LoggedInExact | auth.go:250-255 | A login keeps every connection's knowledge exact: the newcomer is told about everybody else, and the others about a user's first connection only |
| PresenceViews.LoggedOutExact | auth.go:201-214 | A revocation keeps everybody's knowledge exact: the others are told when a user's last connection goes |
| PresenceViews.HaltedExact | auth.go:190-258 | So does a login that fails after its list of users went out, which leaves it registered: nobody's knowledge is wrong, the newcomer's included |
| PresenceViews.AnswersBalance | auth.go:77-104 | After any sequence of setAuth for new clients and removeAuth for registered ones the maps are grouped without empty groups, and per user the "first" answers minus the "none left" answers are 1 if it is connected, else 0 |
| ConnManagers.ConnManager.SetAuth | auth.go:77-91 | Both maps gain the client under its user, and the answer is whether it is the user's only connection |
| ConnManagers.ConnManager.RemoveAuth | auth.go:93-104 | Both maps lose the client, the user's group with it when it was the last, and the answer is whether any is left |
| ConnManagers.ConnManager.GetAuthorizedUserClients | auth.go:106-117 | Exactly the registered clients of users that are not excluded, each once |
| ConnManagers.ConnManager.GetAuthorizedClients | auth.go:119-130 | Exactly the registered clients that are not excluded, each once |
| ConnManagers.ConnManager.GetAuthorizedUserIds | auth.go:139-150 | Exactly the connected users that are not excluded, each once |
| ConnManagers.ConnManager.IsUserConnected | auth.go:132-137 | True exactly when some registered client has that user |
| AuthChannels.AuthChannel.OnJoin | user_join.go:91-109 | The newcomer is sent other connected users, each once, and all of them exactly when no send to it fails; only then is everybody of another user told about it, if asked for; nobody else is sent anything, and there is an error exactly when a send failed |
| AuthChannels.AuthChannel.Login | auth.go:177-258 | The connection is registered exactly when it answered right and its challenge was not lost, its list is complete exactly when no send of it was lost, and there is an error exactly when it did not answer right or some send of this login was lost; without an error it is one atomic login: challenge, list of users, announcement of a first connection, pass; when nothing is registered nobody is told; with a later error the registration stays, and the others were told exactly when it was a first connection and its list was complete |
| AuthChannels.AuthChannel.Revoke | auth.go:201-214 | One atomic revocation of exactly this client, whatever sends fail; an error exactly when one did |
| AuthServers.AuthServer.Accept | eddwise.go:293-366 | A newcomer gets the next number, is registered exactly when it authenticates, and passes, to be revoked later, exactly when it answered right and nothing was lost; what it causes is one atomic handler unless its list of users was lost, and then nobody who was there before is sent anything |
| AuthServers.AuthServer.Quit | auth.go:201-214 | A connection that passed is revoked, and nobody else is |
| AuthServers.Run | eddwise.go:284-399 | For every sequence of logins and disconnects, starting from nobody, who is registered and who is let in follows from what clients did and which sends were lost, and in the end what every registered connection computes from its messages is exactly who else is connected, unless the list of users of a registered newcomer was lost |
| AuthServers.TwoLogIn | eddwise.go:284-399 | When nothing is lost two users log in, both are let in, and the one that goes leaves the other |
| Broadcast.NeverPanics | eddwise.go:526-564 | Under every schedule nothing is sent on the closed channel, it is closed once, the wait group never goes below zero, and nobody is sent to twice |
| Broadcast.NoDeadlock | eddwise.go:526-564 | Until the call returns, some goroutine can move |
| Broadcast.EveryScheduleEnds | eddwise.go:526-564 | No schedule is longer than a bound linear in the number of receivers |
| Broadcast.Outcome | eddwise.go:526-564 | Whatever the schedule, every receiver was sent to exactly once unless the field check failed, the collected errors are exactly those of the failing sends, and the result is nil exactly when nothing failed |
| TypeNotation.ParseFieldStringType | internal/eddgen/eddgen_yml.go:280-309 | The loop and the recursion compute the specification parser on every string |
| TypeNotation.PrintOfParse | internal/eddgen/eddgen_yml.go:280-309 | Printing what an accepted string parses to gives that string back, and only well-formed types come out |
| TypeNotation.ParseOfPrint | internal/eddgen/eddgen_yml.go:280-309 | Parsing what a well-formed type prints to gives that type back |
| TypeNotation.Refused | internal/eddgen/eddgen_yml.go:288-293 | A string is refused exactly when one of the pieces before its last arrow starts with a dot once its plus signs are off |
| TypePrinters.GoTypeReads | internal/eddgen/structs.go:73-143 | The Go type of a validated type decodes to the type, up to the Go names of the structs it refers to, for all struct names of ASCII letters, digits, underscores and spaces |
| TypePrinters.GoTypeInjective | internal/eddgen/structs.go:73-143 | Two validated types with the same Go type are the same up to the Go names of structs |
| TypePrinters.JsTypeReads | internal/eddgen/structs.go:77-147 | The JavaScript type of a validated type decodes to its arrays, its maps and its JavaScript names |
| TypePrinters.JsKinds | internal/eddgen/structs.go:93-110 | A listed number type has the JavaScript name of its kind, signed, unsigned or floating, told by its Go name, and complex numbers have none |
| TypePrinters.BothEndsAgree | internal/eddgen/structs.go:73-147 | For every accepted and validated type string the Go and the JavaScript type nest arrays and maps alike |
| TypePrinters.GoNameLetters | internal/eddgen/structs.go:21-23 | A Go name has the characters of the name but underscores and spaces, in order and nothing else, up to case |
| TypePrinters.GoNameWord | internal/eddgen/structs.go:21-23 | The Go name of a word of letters and digits is the word with its first letter as a capital |
| TypePrinters.GoNameJoins | internal/eddgen/structs.go:21-23 | The Go name of two parts with an underscore or a space in between is the Go names of the parts, one after the other; any other separator is kept in between |
| TypePrinters.GoIdentIff | internal/eddgen/structs.go:21-23 | A Go name is an identifier exactly when the name has letters, digits, underscores and spaces only and its first letter or digit is a letter |
| StructParsing.ParseField | internal/eddgen/eddgen_yml.go:311-341 | Succeeds exactly on a type in the notation or a mapping without repeated keys whose fields can be read, and the field mirrors the node |
| StructParsing.ParseStruct | internal/eddgen/eddgen_yml.go:259-278 | The same for a mapping: one field per key, in order, with its own fresh references |
| StructParsing.ParseNamedStruct | internal/eddgen/eddgen_yml.go:357-372 | The same for a struct of the design, with the alias and the direction of its node |
| StructParsing.MatchesOnce | internal/eddgen/eddgen_yml.go:259-341 | Nothing of the shape is lost: nodes that read as the same struct are the same |
| StructParsing.KnownIsSound | internal/eddgen/eddgen.go:22-53 | What validation looks at in a parsed type is what is written in it |
| Validation.Design.ValidateType | internal/eddgen/eddgen.go:22-53 | On every type on which the recursion ends it gives its answer, and after accepting every reference below the type is resolved to its struct; no reference gets a wrong target |
| Validation.Design.ValidateStruct | internal/eddgen/eddgen.go:55-62 | The same for the fields of a struct |
| Validation.Design.ValidateStructs | internal/eddgen/eddgen.go:88-93 | The same for the loop of Validate over the structs of the design; afterwards every reference in it is resolved |
| Validation.Design.StructsMap | internal/eddgen/eddgen.go:666-674 | The cached map is the structs under their names |
| Validation.AcceptsIff | internal/eddgen/eddgen.go:22-62 | Validation ends and accepts exactly when the type and every struct that can be reached from it has listed primitives and defined references only, and no walk along references comes back to a struct |
| Validation.EndsIff | internal/eddgen/eddgen.go:22-62 | Validation of a type ends, with either answer, exactly when no walk along the structs it enters, those named before the first error of a struct, comes back to one of them |
| Validation.SoundEndsIff | internal/eddgen/eddgen.go:35-41 | For a type without errors in anything it reaches, validation ends exactly when the references from it have no cycle |
| Validation.DesignAcceptedIff | internal/eddgen/eddgen.go:88-93 | The loop of Validate accepts a design exactly when every struct by itself is sound and no walk along references, from any struct, comes back to a struct |
| Validation.DesignEndsIff | internal/eddgen/eddgen.go:88-93 | On any design the loop ends, with either answer, exactly when no walk along the structs it enters comes back to one of them |
| Validation.SoundDesignEndsIff | internal/eddgen/eddgen.go:88-93 | On a design whose structs are sound that is the case exactly when the references have no cycle |
| Validation.RefusedIff | internal/eddgen/eddgen.go:88-93 | When the loop ends, it refuses the design exactly for a struct that is not sound |
| Validation.MutualReferenceNeverEnds | internal/eddgen/eddgen.go:35-41 | For the design of two structs that refer to each other no recursion depth is enough |
| Walks.BoundedIff | internal/eddgen/eddgen.go:35-41 | In any finite graph of references the walks from a type have a bounded length exactly when none comes back to a struct |
| DirectedFields.FieldsWithStrictDirection | internal/eddgen/structs.go:219-242 | After validation it meets no unresolved reference, and its result spells exactly the paths through untagged references and nested structs to a field of the asked direction, each once |
| DirectedFields.DirectedFields | internal/eddgen/eddgen.go:426-442 | For any struct of an accepted design the checks are generated for exactly those paths |
| DirectedFields.StrictIff | internal/eddgen/structs.go:219-242 | A path through arrays, maps, references and nested structs is checked exactly when it ends in a field of the direction and every field before is untagged and no map |
| DirectedFields.AllCheckedIff | internal/eddgen/eddgen.go:426-442 | The checks cover every directed field that a struct reaches exactly when none is behind a map or a tagged field |
| DirectedFields.SelectableIff | internal/eddgen/eddgen.go:427-428 | Go resolves the text of a listed path, selector by selector from the struct, exactly when all structs on the way have field names that are identifiers and differ and no field before the last is an array |
| DirectedFields.BehindAMap | internal/eddgen/structs.go:219-242 | An accepted design with a directed field behind a map, for which no check is generated |
| DirectedFields.BehindAnArray | internal/eddgen/structs.go:219-242 | An accepted design with a directed field behind an array, for which a check is generated that Go does not accept |
| Events.ParseStructs | internal/eddgen/eddgen_yml.go:357-372 | Succeeds exactly when no wire name is used twice, and then files every struct under its name |
| Events.ParseChannel | internal/eddgen/eddgen_yml.go:374-426 | Succeeds exactly when every listed event is a struct and is listed once, and then gives the enabled structs in order and both direction sets |
| Events.GetDirectionEvents | internal/eddgen/structs.go:52-66 | Exactly the enabled events outside the reverse direction |
| Events.BothDirections | internal/eddgen/structs.go:52-66 | What the client and what the server may send is together every event; they overlap in exactly the untagged dual events |
| Events.DirectionsEnabled | internal/eddgen/eddgen.go:64-75 | Every event with a direction is enabled in a parsed channel, so Validate's check of that never fails |
| Events.RouteName | internal/eddgen/eddgen.go:376-393 | A reserved name is taken out first; any other name leads to an event that may travel that way under that wire name, and to none exactly if there is none |
| Events.RoutesBack | internal/eddgen/eddgen.go:575-589 | The wire name of an event that may travel leads back to that event at the other end exactly when it is not reserved there; one that may not travel leads to no event |
| ReservedNames.ReservedIff | eddwise.go:479-494 | The names taken out before the events of a channel are exactly the names of the room requests, at the server, and of the messages the server sends in the protocol, at the client |
| Renaming.RenameToSend | internal/eddgen/eddgen.go:625-632 | The loop before a send, on the object it renames in place, including where it throws |
| Renaming.RenameReceived | internal/eddgen/eddgen.go:596-607 | The loop on receipt, likewise |
| Renaming.CleanMoves | internal/eddgen/eddgen.go:625-632 | When no wire name is a key and names and wire names are distinct, no move throws, every renamed field ends up under its wire name with its value, and everything else stays |
| Renaming.RoundTripIff | internal/eddgen/eddgen.go:596-632 | For fields with distinct names whose renamed ones are present, sending and receiving restores the message exactly when no two renamed fields share a wire name and no wire name is a key of the message |
| Renaming.FullMessage | internal/eddgen/structs.go:195-200 | On messages with all fields that is a condition on the design: wire names of renamed fields differ from each other and from every field name |
| Renaming.RunsThroughIff | internal/eddgen/eddgen.go:596-632 | Either loop, for any fields and any object, runs through exactly when every renamed field finds its key, as the fields before it leave the keys |
| Renaming.SendsIff | internal/eddgen/eddgen.go:625-632 | When field names differ, and the wire names of renamed fields differ from each other and from every field name, sending throws exactly for a message that lacks a renamed field |
| Renaming.ReceivesIff | internal/eddgen/eddgen.go:596-607 | And receiving throws exactly for an event that lacks the wire name of a renamed field, as the server sends it when such a field is omitted |
| Renaming.SwappedNames | internal/eddgen/eddgen.go:625-632 | Two fields with each other's names for aliases lose one of them |
| NestedRenaming.SentAgreesIff | internal/eddgen/structs.go:167-172 | For a struct as in SendsIff, every message that is sent has at every level the keys that the Go struct decodes to the same fields, exactly when no field inside a field has an alias |

## Left out

- Exact room and presence views under full interleaving: sends happen outside the locks, so a client can be shown a join
  after the matching leave. What holds there is conservation, mutual knowledge and that no public room is missed.
- Messages other than these events, the handlers `Connected`, `Disconnected` and `On...` of an application, and rooms that an
  application creates or joins clients to by itself.
- Several room managers, or several channels with authentication, on one server: the indexes do not keep these properties
  there.
- The use of channel aliases on the wire, decoding, the check of the channel name, and error texts: an error is an error.
- Fairness: who of several waiting writers, or of several connections that can work, goes first is left open.
- The 64-bit counter of connection numbers, which does not wrap around here.
- RoomServers.RoomServer.Accept: leaves out `CheckAuth`, `Connected` and `onJoin`, which run before or beside the entry in the
  client table and touch no room.
- AuthChannels.AuthChannel.OnJoin: leaves out the branch for a channel without `ConnManager`, which is in the interleaved
  machine.
- RoomObjects.Network.Broadcast: sends in list order and drops the errors, because the schedules of its goroutines and its
  result are the subject of the `Broadcast` module.
- Merging several design files: the cached struct map then misses the structs of the later files.
- YAML text, comments, `ProcessTags`, the skeleton generators and the text of the generated files.
- What a generated check does with a message: it tests every path of `DirectedFields` for nil and fails on the first that is
  set.
- The Go text of nested structs (`GoDef`) and the documentation paths of `UnnestFieldMap`.
- StructParsing.ParseField: leaves out the documentation comment of a field, which reaches the generated files only.
- TypePrinters.GoTypeReads: leaves out names beyond ASCII and with punctuation; schema.yml:53 allows lower-case letters,
  digits and underscores only.
- DirectedFields.SelectableIff: does not know the methods of a generated struct, whose names a Go field must not have.
- Validation.Design.ValidateStructs: leaves out the reserved struct names and the sorting in `Validate`.
- Property attributes of JavaScript objects, prototypes, and the special key `__proto__`.
