/** plex_tv.go: the plex.tv user list of an account, and the check that a
    user has been granted access to a given server. Fetching and decoding
    the list is not modelled; the list is an input. */
module PlexTv {

  /** A server shared with a user. Owned and Pending are carried but never
      consulted. */
  datatype Server = Server(
    ID: string, ServerId: string, MachineIdentifier: string, Name: string,
    Owned: string, Pending: string)

  datatype UserEntry = UserEntry(
    ID: string, Username: string, Email: string, AllowSync: string, Server: seq<Server>)

  /** The user list of an account. */
  datatype Users = Users(MachineIdentifier: string, User: seq<UserEntry>)
  {
    /** HasUser: scans the users in order; for each entry with the wanted
        id it scans its servers and answers true at the first one with the
        wanted machine identifier; false once every user has been seen. */
    method HasUser(userId: string, machineId: string) returns (b: bool)
      ensures b <==> Grants(User, userId, machineId)
    {
      for i := 0 to |User|
        invariant !Grants(User[..i], userId, machineId)
      {
        var user := User[i];
        if user.ID == userId {
          for j := 0 to |user.Server|
            invariant forall k :: 0 <= k < j ==> user.Server[k].MachineIdentifier != machineId
          {
            if user.Server[j].MachineIdentifier == machineId {
              assert User[i] == user;
              return true;
            }
          }
        }
        GrantsAppend(User[..i], user, userId, machineId);
        assert User[..i + 1] == User[..i] + [user];
      }
      assert User[..|User|] == User;
      return false;
    }
  }

  /** The user has a server with the machine identifier. */
  predicate HasServer(u: UserEntry, machineId: string)
  {
    exists j :: 0 <= j < |u.Server| && u.Server[j].MachineIdentifier == machineId
  }

  /** Some entry has the id and a server with the machine identifier. */
  predicate Grants(users: seq<UserEntry>, userId: string, machineId: string)
  {
    exists i :: 0 <= i < |users| && users[i].ID == userId && HasServer(users[i], machineId)
  }

  /** A later entry is examined whatever came before it: appending an entry
      adds exactly that entry's grant, so an earlier entry with the same id
      but without the server does not end the search. */
  lemma GrantsAppend(users: seq<UserEntry>, e: UserEntry, userId: string, machineId: string)
    ensures Grants(users + [e], userId, machineId)
        <==> Grants(users, userId, machineId) || (e.ID == userId && HasServer(e, machineId))
  {
    var all := users + [e];
    if Grants(all, userId, machineId) {
      var i :| 0 <= i < |all| && all[i].ID == userId && HasServer(all[i], machineId);
      if i < |users| {
        assert users[i] == all[i];
      }
    }
    if Grants(users, userId, machineId) {
      var i :| 0 <= i < |users| && users[i].ID == userId && HasServer(users[i], machineId);
      assert all[i] == users[i];
    }
    if e.ID == userId && HasServer(e, machineId) {
      assert all[|users|] == e;
    }
  }

  /** An empty list grants nothing, and an entry without servers adds nothing. */
  lemma ServerlessEntriesGrantNothing(users: seq<UserEntry>, e: UserEntry, userId: string, machineId: string)
    requires |e.Server| == 0
    ensures !Grants([], userId, machineId)
    ensures Grants(users + [e], userId, machineId) == Grants(users, userId, machineId)
  {
    GrantsAppend(users, e, userId, machineId);
  }

  /** The grant stated on entries rather than positions. */
  lemma GrantsByMembership(users: seq<UserEntry>, userId: string, machineId: string)
    ensures Grants(users, userId, machineId)
        <==> exists u, s :: u in users && s in u.Server && u.ID == userId && s.MachineIdentifier == machineId
  {
    if Grants(users, userId, machineId) {
      var i :| 0 <= i < |users| && users[i].ID == userId && HasServer(users[i], machineId);
      var j :| 0 <= j < |users[i].Server| && users[i].Server[j].MachineIdentifier == machineId;
      assert users[i] in users && users[i].Server[j] in users[i].Server;
    }
    if exists u, s :: u in users && s in u.Server && u.ID == userId && s.MachineIdentifier == machineId {
      var u, s :| u in users && s in u.Server && u.ID == userId && s.MachineIdentifier == machineId;
      var i :| 0 <= i < |users| && users[i] == u;
      var j :| 0 <= j < |u.Server| && u.Server[j] == s;
      assert HasServer(users[i], machineId);
    }
  }

  /** The answer does not depend on the order of the users, nor on the
      order of any user's servers. */
  lemma OrderIrrelevant(a: seq<UserEntry>, b: seq<UserEntry>, userId: string, machineId: string)
    requires |a| == |b|
    requires forall i :: 0 <= i < |a| ==> a[i].ID == b[i].ID && multiset(a[i].Server) == multiset(b[i].Server)
    ensures forall p: seq<UserEntry> :: multiset(p) == multiset(a) ==>
      Grants(p, userId, machineId) == Grants(a, userId, machineId)
    ensures Grants(a, userId, machineId) == Grants(b, userId, machineId)
  {
    forall p: seq<UserEntry> | multiset(p) == multiset(a)
      ensures Grants(p, userId, machineId) == Grants(a, userId, machineId)
    {
      UserOrderIrrelevant(p, a, userId, machineId);
    }
    ServerOrderCarries(a, b, userId, machineId);
    ServerOrderCarries(b, a, userId, machineId);
  }

  lemma UserOrderIrrelevant(p: seq<UserEntry>, a: seq<UserEntry>, userId: string, machineId: string)
    requires multiset(p) == multiset(a)
    ensures Grants(p, userId, machineId) == Grants(a, userId, machineId)
  {
    GrantsByMembership(p, userId, machineId);
    GrantsByMembership(a, userId, machineId);
    forall u ensures u in p <==> u in a {
      assert u in p <==> u in multiset(p);
      assert u in a <==> u in multiset(a);
    }
  }

  lemma ServerOrderCarries(a: seq<UserEntry>, b: seq<UserEntry>, userId: string, machineId: string)
    requires |a| == |b|
    requires forall i :: 0 <= i < |a| ==> a[i].ID == b[i].ID && multiset(a[i].Server) == multiset(b[i].Server)
    ensures Grants(a, userId, machineId) ==> Grants(b, userId, machineId)
  {
    if Grants(a, userId, machineId) {
      var i :| 0 <= i < |a| && a[i].ID == userId && HasServer(a[i], machineId);
      var j :| 0 <= j < |a[i].Server| && a[i].Server[j].MachineIdentifier == machineId;
      assert a[i].Server[j] in multiset(b[i].Server);
      var k :| 0 <= k < |b[i].Server| && b[i].Server[k] == a[i].Server[j];
      assert HasServer(b[i], machineId);
    }
  }

  /** The ids and machine identifiers of a user list, in order: all that
      the answer is computed from. */
  function Identifiers(users: seq<UserEntry>): seq<(string, seq<string>)>
  {
    seq(|users|, i requires 0 <= i < |users| =>
      (users[i].ID, seq(|users[i].Server|, j requires 0 <= j < |users[i].Server| => users[i].Server[j].MachineIdentifier)))
  }

  /** Lists that agree on ids and machine identifiers get the same answer:
      ownership and a pending invitation make no difference. */
  lemma OnlyIdentifiersMatter(a: seq<UserEntry>, b: seq<UserEntry>, userId: string, machineId: string)
    requires Identifiers(a) == Identifiers(b)
    ensures Grants(a, userId, machineId) == Grants(b, userId, machineId)
  {
    assert |a| == |Identifiers(a)| == |Identifiers(b)| == |b|;
    forall i | 0 <= i < |a|
      ensures a[i].ID == b[i].ID && HasServer(a[i], machineId) == HasServer(b[i], machineId)
    {
      assert Identifiers(a)[i] == Identifiers(b)[i];
      var ma, mb := Identifiers(a)[i].1, Identifiers(b)[i].1;
      assert |a[i].Server| == |ma| == |mb| == |b[i].Server|;
      assert forall j :: 0 <= j < |ma| ==> a[i].Server[j].MachineIdentifier == ma[j] == mb[j] == b[i].Server[j].MachineIdentifier;
    }
  }
}
