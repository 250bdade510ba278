/** Room membership, server/RoomManager.cc: a map of rooms to members and its reverse index. */
module Rooms {
  import opened Names

  datatype RoomError = InvalidRoomName | RoomExists | NoSuchRoom | NotAMember

  datatype Outcome = Done | Failed(error: RoomError)

  type RoomMap = map<string, set<string>>

  predicate IsMember(rooms: RoomMap, room: string, user: string) {
    room in rooms && user in rooms[room]
  }

  function WithoutUser(rooms: RoomMap, user: string): RoomMap {
    map r | r in rooms :: rooms[r] - {user}
  }

  /** The reverse index lists exactly the memberships, and has no entry for a user in no room. */
  ghost predicate Inverse(rooms: RoomMap, userRooms: map<string, set<string>>) {
    && (forall r, u :: IsMember(rooms, r, u) <==> u in userRooms && r in userRooms[u])
    && (forall u | u in userRooms :: userRooms[u] != {})
  }

  /** The index is determined by the memberships: two indices of the same rooms are equal. */
  lemma InverseIsUnique(rooms: RoomMap, index: map<string, set<string>>, index': map<string, set<string>>)
    requires Inverse(rooms, index) && Inverse(rooms, index')
    ensures index == index'
  {
    forall u ensures u in index <==> u in index' {
      if u in index { var r :| r in index[u]; assert IsMember(rooms, r, u); }
      if u in index' { var r :| r in index'[u]; assert IsMember(rooms, r, u); }
    }
    forall u | u in index ensures index[u] == index'[u] {
      forall r ensures r in index[u] <==> r in index'[u] { assert IsMember(rooms, r, u) <==> r in index[u]; }
    }
  }

  class RoomManager {
    var rooms: map<string, set<string>>
    var userRooms: map<string, set<string>>

    ghost predicate Valid() reads this { Inverse(rooms, userRooms) }

    constructor ()
      ensures Valid() && rooms == map[]
    {
      rooms, userRooms := map[], map[];
    }

    method CreateRoom(room: string) returns (outcome: Outcome)
      requires Valid()
      modifies this
      ensures Valid()
      ensures outcome == if !IsValidName(room) then Failed(InvalidRoomName)
                         else if room in old(rooms) then Failed(RoomExists) else Done
      ensures rooms == if outcome == Done then old(rooms)[room := {}] else old(rooms)
    {
      if !IsValidName(room) { return Failed(InvalidRoomName); }
      if room in rooms { return Failed(RoomExists); }
      rooms := rooms[room := {}];
      assert forall r, u :: IsMember(rooms, r, u) <==> IsMember(old(rooms), r, u);
      return Done;
    }

    method JoinRoom(room: string, username: string) returns (outcome: Outcome)
      requires Valid()
      modifies this
      ensures Valid()
      ensures outcome == if room in old(rooms) then Done else Failed(NoSuchRoom)
      ensures rooms == if outcome == Done then old(rooms)[room := old(rooms)[room] + {username}] else old(rooms)
    {
      if room !in rooms { return Failed(NoSuchRoom); }
      rooms := rooms[room := rooms[room] + {username}];
      var known := if username in userRooms then userRooms[username] else {};
      userRooms := userRooms[username := known + {room}];
      assert forall r, u :: IsMember(rooms, r, u) <==> IsMember(old(rooms), r, u) || (r == room && u == username);
      return Done;
    }

    method LeaveRoom(room: string, username: string) returns (outcome: Outcome)
      requires Valid()
      modifies this
      ensures Valid()
      ensures outcome == if room !in old(rooms) then Failed(NoSuchRoom)
                         else if username !in old(rooms)[room] then Failed(NotAMember) else Done
      ensures rooms == if outcome == Done then old(rooms)[room := old(rooms)[room] - {username}] else old(rooms)
    {
      if room !in rooms { return Failed(NoSuchRoom); }
      if username !in rooms[room] { return Failed(NotAMember); }
      assert IsMember(rooms, room, username);
      assert username in userRooms && room in userRooms[username];
      rooms := rooms[room := rooms[room] - {username}];
      if username in userRooms {
        userRooms := userRooms[username := userRooms[username] - {room}];
        if userRooms[username] == {} {
          userRooms := userRooms - {username};
        }
      }
      assert forall r, u :: IsMember(rooms, r, u) <==> IsMember(old(rooms), r, u) && !(r == room && u == username);
      forall r, u ensures (u in userRooms && r in userRooms[u]) <==> IsMember(rooms, r, u) {
        assert IsMember(old(rooms), r, u) <==> u in old(userRooms) && r in old(userRooms)[u];
        if u == username {
          assert u in userRooms ==> userRooms[u] == old(userRooms)[u] - {room};
          assert u !in userRooms ==> old(userRooms)[u] - {room} == {};
          assert r != room && r in old(userRooms)[u] ==> r in old(userRooms)[u] - {room};
        }
      }
      return Done;
    }

    /** Driven by the reverse index alone, yet it takes the user out of every room and changes no
        other membership; the rooms themselves stay, even those nobody is left in. */
    method LeaveAll(username: string)
      requires Valid()
      modifies this
      ensures Valid()
      ensures rooms == WithoutUser(old(rooms), username)
      ensures rooms.Keys == old(rooms).Keys
      ensures forall r, u :: IsMember(rooms, r, u) <==> IsMember(old(rooms), r, u) && u != username
      ensures userRooms == old(userRooms) - {username}
    {
      if username !in userRooms {
        forall r | r in rooms ensures rooms[r] == rooms[r] - {username} { assert !IsMember(rooms, r, username); }
        assert forall r :: !IsMember(rooms, r, username);
        return;
      }
      var left := userRooms[username];
      while left != {}
        invariant userRooms == old(userRooms) && left <= userRooms[username]
        invariant rooms.Keys == old(rooms).Keys
        invariant forall r | r in rooms ::
                    rooms[r] == if r in userRooms[username] - left then old(rooms)[r] - {username} else old(rooms)[r]
      {
        var room := Least(left);
        if room in rooms {
          rooms := rooms[room := rooms[room] - {username}];
        }
        left := left - {room};
      }
      userRooms := userRooms - {username};
      forall r | r in rooms ensures rooms[r] == old(rooms)[r] - {username} {
        assert IsMember(old(rooms), r, username) <==> r in old(userRooms)[username];
      }
      assert forall r, u :: IsMember(rooms, r, u) <==> IsMember(old(rooms), r, u) && u != username;
    }

    method RoomCount() returns (activeRooms: int)
      ensures activeRooms == |set r | r in rooms && rooms[r] != {}|
    {
      activeRooms := 0;
      var left := rooms.Keys;
      ghost var active := {};
      while left != {}
        invariant left <= rooms.Keys
        invariant active == set r | r in rooms && r !in left && rooms[r] != {}
        invariant activeRooms == |active|
      {
        var room := Least(left);
        if rooms[room] != {} {
          activeRooms := activeRooms + 1;
          active := active + {room};
        }
        left := left - {room};
      }
      assert active == set r | r in rooms && rooms[r] != {};
    }

    method MembersForMessage(room: string, username: string) returns (outcome: Outcome, members: seq<string>)
      ensures outcome == if room !in rooms then Failed(NoSuchRoom)
                         else if username !in rooms[room] then Failed(NotAMember) else Done
      ensures members == if outcome == Done then Ascending(rooms[room]) else []
    {
      members := [];
      if room !in rooms { return Failed(NoSuchRoom), []; }
      if username !in rooms[room] { return Failed(NotAMember), []; }
      var left := rooms[room];
      while left != {}
        invariant left <= rooms[room]
        invariant members + Ascending(left) == Ascending(rooms[room])
      {
        var member := Least(left);
        assert members + Ascending(left) == members + [member] + Ascending(left - {member});
        members := members + [member];
        left := left - {member};
      }
      return Done, members;
    }
  }
}
