/** Which connection owns which name, server/UserManager.cc. */
module Users {
  import opened Names

  type Conn = nat

  type OnlineMap = map<string, Conn>

  datatype LoginOutcome = Registered | InvalidUsername | AlreadyOnline

  datatype Found = NotOnline | At(conn: Conn)

  function Lookup(online: OnlineMap, name: string): Found {
    if name in online then At(online[name]) else NotOnline
  }

  function LookupAll(online: OnlineMap, names: seq<string>): seq<Conn> {
    if names == [] then []
    else
      var last := names[|names| - 1];
      LookupAll(online, names[..|names| - 1]) + if last in online then [online[last]] else []
  }

  /** findMany keeps the order of the names asked for, drops those offline and adds nobody. */
  lemma {:induction false} LookupAllOfOnline(online: OnlineMap, names: seq<string>)
    ensures |LookupAll(online, names)| <= |names|
    ensures (forall n | n in names :: n in online) <==> |LookupAll(online, names)| == |names|
    ensures forall c :: c in LookupAll(online, names) <==> exists n | n in names && n in online :: online[n] == c
    ensures (forall n | n in names :: n in online) ==>
              forall i | 0 <= i < |names| :: LookupAll(online, names)[i] == online[names[i]]
  {
    if names != [] {
      var init, last := names[..|names| - 1], names[|names| - 1];
      LookupAllOfOnline(online, init);
      assert names == init + [last];
      forall c ensures c in LookupAll(online, names) <==> exists n | n in names && n in online :: online[n] == c {
        if n :| n in names && n in online && online[n] == c {
          assert n in init || n == last;
        }
      }
    }
  }

  class UserManager {
    var users: map<string, Conn>

    constructor ()
      ensures users == map[]
    {
      users := map[];
    }

    method Login(username: string, connection: Conn) returns (outcome: LoginOutcome)
      modifies this
      ensures outcome == if !IsValidName(username) then InvalidUsername
                         else if username in old(users) then AlreadyOnline else Registered
      ensures users == if outcome == Registered then old(users)[username := connection] else old(users)
    {
      if !IsValidName(username) { return InvalidUsername; }
      if username in users { return AlreadyOnline; }
      users := users[username := connection];
      return Registered;
    }

    /** Only the connection that owns the name can give it up. */
    method Logout(username: string, connection: Conn)
      modifies this
      ensures Lookup(old(users), username) == At(connection) ==> users == old(users) - {username}
      ensures Lookup(old(users), username) != At(connection) ==> users == old(users)
    {
      if username in users && users[username] == connection {
        users := users - {username};
      }
    }

    method Find(username: string) returns (found: Found)
      ensures found == Lookup(users, username)
    {
      if username !in users { return NotOnline; }
      return At(users[username]);
    }

    method FindMany(usernames: seq<string>) returns (connections: seq<Conn>)
      ensures connections == LookupAll(users, usernames)
    {
      connections := [];
      for i := 0 to |usernames|
        invariant connections == LookupAll(users, usernames[..i])
      {
        assert usernames[..i + 1][..i] == usernames[..i];
        if usernames[i] in users {
          connections := connections + [users[usernames[i]]];
        }
      }
      assert usernames[..|usernames|] == usernames;
    }

    method OnlineUsers() returns (names: seq<string>)
      ensures names == Ascending(users.Keys)
    {
      names := [];
      var left := users.Keys;
      while left != {}
        invariant names + Ascending(left) == Ascending(users.Keys)
      {
        var name := Least(left);
        assert names + Ascending(left) == names + [name] + Ascending(left - {name});
        names := names + [name];
        left := left - {name};
      }
    }
  }
}
