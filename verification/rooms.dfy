/** The two-way index between real-time clients and rooms, updated in place. */
module Rooms {
  type ClientId = string
  type Room = string
  type Index = map<string, set<string>>

  /** One membership; the index is meant to be a set of these. */
  datatype Member = Member(client: ClientId, room: Room)

  predicate Lists(index: Index, key: string, value: string) {
    key in index && value in index[key]
  }

  /** What `rooms` alone says. */
  function Members(rooms: Index): set<Member> {
    set room, client | room in rooms && client in rooms[room] :: Member(client, room)
  }

  /** What `clientRooms` alone says. */
  function Memberships(clientRooms: Index): set<Member> {
    set client, room | client in clientRooms && room in clientRooms[client] :: Member(client, room)
  }

  function With(index: Index, key: string, value: string): Index {
    index[key := (if key in index then index[key] else {}) + {value}]
  }

  function Without(index: Index, key: string, value: string): Index {
    if key in index then index[key := index[key] - {value}] else index
  }

  /** Drops an entry that has become empty. */
  function Trimmed(index: Index, key: string): Index {
    if key in index && index[key] == {} then index - {key} else index
  }

  ghost predicate Inverse(rooms: Index, clientRooms: Index) {
    forall client, room :: Lists(rooms, room, client) <==> Lists(clientRooms, client, room)
  }

  ghost predicate NoEmpty(rooms: Index) {
    forall room :: room in rooms ==> rooms[room] != {}
  }

  lemma MembersAreListed(rooms: Index, m: Member)
    ensures m in Members(rooms) <==> Lists(rooms, m.room, m.client)
  {
    assert m == Member(m.client, m.room);
  }

  lemma MembershipsAreListed(clientRooms: Index, m: Member)
    ensures m in Memberships(clientRooms) <==> Lists(clientRooms, m.client, m.room)
  {
    assert m == Member(m.client, m.room);
  }

  /** Two maps are inverse exactly when they tell the same set of memberships. */
  lemma InverseIffSamePairs(rooms: Index, clientRooms: Index)
    ensures Inverse(rooms, clientRooms) <==> Members(rooms) == Memberships(clientRooms)
  {
    forall m
      ensures m in Members(rooms) <==> Lists(rooms, m.room, m.client)
      ensures m in Memberships(clientRooms) <==> Lists(clientRooms, m.client, m.room)
    {
      MembersAreListed(rooms, m);
      MembershipsAreListed(clientRooms, m);
    }
    if Members(rooms) == Memberships(clientRooms) {
      forall client, room
        ensures Lists(rooms, room, client) <==> Lists(clientRooms, client, room)
      {
        var m := Member(client, room);
        assert Lists(rooms, m.room, m.client) <==> Lists(clientRooms, m.client, m.room);
      }
    }
  }

  lemma WithLists(index: Index, key: string, value: string)
    ensures forall k, v :: Lists(With(index, key, value), k, v) <==> Lists(index, k, v) || (k == key && v == value)
    ensures NoEmpty(index) ==> NoEmpty(With(index, key, value))
  {
  }

  lemma WithoutLists(index: Index, key: string, value: string)
    ensures forall k, v :: Lists(Without(index, key, value), k, v) <==> Lists(index, k, v) && !(k == key && v == value)
    ensures forall k, v :: Lists(Trimmed(Without(index, key, value), key), k, v)
                      <==> Lists(index, k, v) && !(k == key && v == value)
    ensures NoEmpty(index) ==> NoEmpty(Trimmed(Without(index, key, value), key))
  {
  }

  lemma WithAdds(rooms: Index, room: Room, client: ClientId)
    ensures Members(With(rooms, room, client)) == Members(rooms) + {Member(client, room)}
  {
    WithLists(rooms, room, client);
    forall m
      ensures m in Members(With(rooms, room, client)) <==> m in Members(rooms) + {Member(client, room)}
    {
      MembersAreListed(With(rooms, room, client), m);
      MembersAreListed(rooms, m);
    }
  }

  lemma WithoutRemoves(rooms: Index, room: Room, client: ClientId)
    ensures Members(Trimmed(Without(rooms, room, client), room)) == Members(rooms) - {Member(client, room)}
  {
    WithoutLists(rooms, room, client);
    forall m
      ensures m in Members(Trimmed(Without(rooms, room, client), room))
         <==> m in Members(rooms) - {Member(client, room)}
    {
      MembersAreListed(Trimmed(Without(rooms, room, client), room), m);
      MembersAreListed(rooms, m);
    }
  }

  /** Adding the pair to both maps, or taking it out of both, keeps them inverse. */
  lemma UpdatesKeepInverse(rooms: Index, clientRooms: Index, client: ClientId, room: Room)
    requires Inverse(rooms, clientRooms)
    ensures Inverse(With(rooms, room, client), With(clientRooms, client, room))
    ensures Inverse(Trimmed(Without(rooms, room, client), room), Without(clientRooms, client, room))
  {
    WithLists(rooms, room, client);
    WithLists(clientRooms, client, room);
    WithoutLists(rooms, room, client);
    WithoutLists(clientRooms, client, room);
  }

  /** Rooms stored by a valid index are exactly those with a member. */
  lemma StoredIffMember(rooms: Index, room: Room)
    requires NoEmpty(rooms)
    ensures room in rooms <==> exists client :: Member(client, room) in Members(rooms)
  {
    if room in rooms {
      var client :| client in rooms[room];
      assert Member(client, room) in Members(rooms);
    }
  }

  /** Once a client's rooms no longer list it, dropping its own entry restores the inverse. */
  lemma RemovedEverywhere(rooms: Index, clientRooms: Index, rooms': Index, client: ClientId)
    requires Inverse(rooms, clientRooms)
    requires forall c, room :: Lists(rooms', room, c)
               <==> Lists(rooms, room, c) && !(c == client && Lists(clientRooms, client, room))
    ensures Inverse(rooms', clientRooms - {client})
    ensures Members(rooms') == set m | m in Members(rooms) && m.client != client
  {
    forall c, room
      ensures Lists(rooms', room, c) <==> Lists(rooms, room, c) && c != client
    {
      assert Lists(rooms, room, c) <==> Lists(clientRooms, c, room);
    }
    forall m
      ensures m in Members(rooms') <==> m in Members(rooms) && m.client != client
    {
      MembersAreListed(rooms', m);
      MembersAreListed(rooms, m);
    }
  }

  class RoomManager {
    var rooms: Index
    var clientRooms: Index

    ghost predicate Valid()
      reads this
    {
      Inverse(rooms, clientRooms) && NoEmpty(rooms)
    }

    /** The memberships both maps stand for. */
    ghost function Pairs(): set<Member>
      reads this
    {
      Members(rooms)
    }

    constructor ()
      ensures Valid() && Pairs() == {}
    {
      rooms, clientRooms := map[], map[];
    }

    method JoinRoom(clientId: ClientId, room: Room)
      requires Valid()
      modifies this
      ensures Valid() && Pairs() == old(Pairs()) + {Member(clientId, room)}
      ensures clientRooms.Keys == old(clientRooms.Keys) + {clientId}
    {
      WithAdds(rooms, room, clientId);
      WithLists(rooms, room, clientId);
      UpdatesKeepInverse(rooms, clientRooms, clientId, room);
      ghost var before, clientsBefore := rooms, clientRooms;
      if room !in rooms {
        rooms := rooms[room := {}];
      }
      rooms := rooms[room := rooms[room] + {clientId}];
      if clientId !in clientRooms {
        clientRooms := clientRooms[clientId := {}];
      }
      clientRooms := clientRooms[clientId := clientRooms[clientId] + {room}];
      assert rooms == With(before, room, clientId) && clientRooms == With(clientsBefore, clientId, room);
    }

    /** The client's own entry stays even when it has left its last room. */
    method LeaveRoom(clientId: ClientId, room: Room)
      requires Valid()
      modifies this
      ensures Valid() && Pairs() == old(Pairs()) - {Member(clientId, room)}
      ensures clientRooms.Keys == old(clientRooms.Keys)
    {
      WithoutRemoves(rooms, room, clientId);
      WithoutLists(rooms, room, clientId);
      UpdatesKeepInverse(rooms, clientRooms, clientId, room);
      ghost var before, clientsBefore := rooms, clientRooms;
      if room in rooms {
        rooms := rooms[room := rooms[room] - {clientId}];
      }
      if clientId in clientRooms {
        clientRooms := clientRooms[clientId := clientRooms[clientId] - {room}];
      }
      if room in rooms && |rooms[room]| == 0 {
        rooms := rooms - {room};
      }
      assert rooms == Trimmed(Without(before, room, clientId), room);
      assert clientRooms == Without(clientsBefore, clientId, room);
    }

    /** Takes the client out of every room it is in, and forgets it. */
    method RemoveClient(clientId: ClientId)
      requires Valid()
      modifies this
      ensures Valid() && Pairs() == set m | m in old(Pairs()) && m.client != clientId
      ensures clientRooms.Keys == old(clientRooms.Keys) - {clientId}
    {
      var left := if clientId in clientRooms then clientRooms[clientId] else {};
      ghost var mine := left;
      while left != {}
        invariant left <= mine && clientRooms == old(clientRooms) && NoEmpty(rooms)
        invariant forall client, room :: Lists(rooms, room, client)
                    <==> Lists(old(rooms), room, client) && !(client == clientId && room in mine - left)
        decreases |left|
      {
        var room :| room in left;
        WithoutLists(rooms, room, clientId);
        ghost var before := rooms;
        if room in rooms {
          rooms := rooms[room := rooms[room] - {clientId}];
          if |rooms[room]| == 0 {
            rooms := rooms - {room};
          }
        }
        assert rooms == Trimmed(Without(before, room, clientId), room);
        left := left - {room};
      }
      clientRooms := clientRooms - {clientId};
      RemovedEverywhere(old(rooms), old(clientRooms), rooms, clientId);
    }

    method GetClientsInRoom(room: Room) returns (clients: set<ClientId>)
      requires Valid()
      ensures forall client :: client in clients <==> Member(client, room) in Pairs()
    {
      clients := if room in rooms then rooms[room] else {};
    }

    method GetClientRooms(clientId: ClientId) returns (joined: set<Room>)
      requires Valid()
      ensures forall room :: room in joined <==> Member(clientId, room) in Pairs()
    {
      joined := if clientId in clientRooms then clientRooms[clientId] else {};
      assert forall room :: Member(clientId, room) in Pairs() <==> Lists(rooms, room, clientId);
    }

    /** Counts the rooms that have a member. */
    method GetRoomCount() returns (count: nat)
      requires Valid()
      ensures count == |set m | m in Pairs() :: m.room|
    {
      forall room
        ensures room in rooms <==> exists m :: m in Pairs() && m.room == room
      {
        StoredIffMember(rooms, room);
      }
      assert rooms.Keys == set m | m in Pairs() :: m.room;
      count := |rooms|;
      assert |rooms| == |rooms.Keys|;
    }
  }

  // ------------------------------------------------------------ any sequence of calls

  datatype Call = Join(client: ClientId, room: Room) | Leave(client: ClientId, room: Room) | Remove(client: ClientId)

  /** The set of memberships after a sequence of calls. */
  function After(calls: seq<Call>): set<Member> {
    if calls == [] then {}
    else
      var before := After(calls[..|calls| - 1]);
      match calls[|calls| - 1]
      case Join(client, room) => before + {Member(client, room)}
      case Leave(client, room) => before - {Member(client, room)}
      case Remove(client) => set m | m in before && m.client != client
  }

  /** `calls[k]` ends the membership. */
  predicate Ends(call: Call, m: Member) {
    match call
    case Join(_, _) => false
    case Leave(client, room) => m == Member(client, room)
    case Remove(client) => m.client == client
  }

  ghost predicate JoinedSince(calls: seq<Call>, m: Member) {
    exists k :: 0 <= k < |calls| && calls[k] == Join(m.client, m.room)
      && forall j :: k < j < |calls| ==> !Ends(calls[j], m)
  }

  /** A client is in a room exactly when it has joined it and since then neither left it nor been removed. */
  lemma {:induction false} MemberIffJoinedSince(calls: seq<Call>, m: Member)
    ensures m in After(calls) <==> JoinedSince(calls, m)
    decreases |calls|
  {
    if calls != [] {
      var n := |calls| - 1;
      var before := calls[..n];
      MemberIffJoinedSince(before, m);
      if calls[n] == Join(m.client, m.room) {
        assert JoinedSince(calls, m);
      } else if Ends(calls[n], m) {
        assert !JoinedSince(calls, m);
      } else if JoinedSince(before, m) {
        var k :| 0 <= k < |before| && before[k] == Join(m.client, m.room)
                 && forall j :: k < j < |before| ==> !Ends(before[j], m);
        assert calls[k] == Join(m.client, m.room);
        assert forall j :: k < j < |calls| ==> !Ends(calls[j], m);
      } else {
        LastCallIrrelevant(calls, m);
      }
    }
  }

  lemma LastCallIrrelevant(calls: seq<Call>, m: Member)
    requires calls != [] && calls[|calls| - 1] != Join(m.client, m.room) && !Ends(calls[|calls| - 1], m)
    ensures JoinedSince(calls, m) ==> JoinedSince(calls[..|calls| - 1], m)
  {
    var before := calls[..|calls| - 1];
    if JoinedSince(calls, m) {
      var k :| 0 <= k < |calls| && calls[k] == Join(m.client, m.room)
               && forall j :: k < j < |calls| ==> !Ends(calls[j], m);
      assert before[k] == calls[k];
      assert forall j :: k < j < |before| ==> before[j] == calls[j];
    }
  }

  /** Replays the calls on a fresh index: both maps tell the memberships the calls leave. */
  method Replay(calls: seq<Call>) returns (manager: RoomManager)
    ensures fresh(manager) && manager.Valid() && manager.Pairs() == After(calls)
    ensures Memberships(manager.clientRooms) == After(calls)
  {
    manager := new RoomManager();
    for i := 0 to |calls|
      invariant fresh(manager) && manager.Valid() && manager.Pairs() == After(calls[..i])
    {
      assert calls[..i + 1][..i] == calls[..i];
      match calls[i] {
        case Join(client, room) => manager.JoinRoom(client, room);
        case Leave(client, room) => manager.LeaveRoom(client, room);
        case Remove(client) => manager.RemoveClient(client);
      }
    }
    assert calls[..|calls|] == calls;
    InverseIffSamePairs(manager.rooms, manager.clientRooms);
  }
}
