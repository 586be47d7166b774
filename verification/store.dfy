/**
 * An in-memory stand-in for the database the user handlers talk to: a
 * table of users and a table of local credentials. The database enforces
 * unique credential ids, usernames and user ids; the tables here keep the
 * same constraints (`Valid`), and an insert or update that would break one
 * fails as the database's would. Every call also takes `fault`, which makes
 * it fail as a database error would.
 */
module Datastore {
  import opened Wrappers
  import opened UserModel
  import opened AuthUserModel

  /** The answer of a lookup: a row, the record-not-found error, or any
      other database error. */
  datatype Get<T> = Hit(value: T) | Miss | Fault

  function GetFirst<T>(rows: seq<T>, p: T -> bool, fault: bool): (r: Get<T>)
    ensures fault ==> r == Fault
    ensures r.Hit? ==> r.value in rows && p(r.value)
    ensures !fault ==> (r == Miss <==> forall x :: x in rows ==> !p(x))
  {
    if fault then Fault
    else
      match FirstIndex(rows, p)
      case None => Miss
      case Some(k) => Hit(rows[k])
  }

  /** The primary key of a user row and of a credential row. */
  function UserKey(u: User): int { u.id }
  function AuthKey(a: AuthUser): int { a.id }

  /** An update by primary key: `rows` with the row whose key is that of
      `x` replaced by `x`; when no row has that key nothing changes. */
  function ReplaceById<T>(rows: seq<T>, key: T -> int, x: T): (r: seq<T>)
    ensures |r| == |rows|
    ensures forall i :: 0 <= i < |rows| ==> r[i] == if key(rows[i]) == key(x) then x else rows[i]
    ensures (forall y :: y in rows ==> key(y) != key(x)) ==> r == rows
  {
    seq(|rows|, i requires 0 <= i < |rows| => if key(rows[i]) == key(x) then x else rows[i])
  }

  /** `rows` without the rows whose id is `id`, in the same order. */
  function RemoveUser(rows: seq<User>, id: int): (r: seq<User>)
    ensures forall x :: x in r <==> x in rows && x.id != id
    ensures |r| <= |rows|
  {
    if rows == [] then []
    else if rows[0].id == id then RemoveUser(rows[1..], id)
    else [rows[0]] + RemoveUser(rows[1..], id)
  }

  /** Two credential rows clash when they share an id, a username or a user id. */
  predicate AuthClash(a: AuthUser, b: AuthUser) {
    a.id == b.id || a.username == b.username || a.userId == b.userId
  }

  /** `GetUserByLogin`: the first user of that forge with that login. */
  function UserByLogin(users: seq<User>, forgeId: int, login: string, fault: bool): Get<User> {
    GetFirst(users, (u: User) => u.forgeId == forgeId && u.login == login, fault)
  }

  /** `GetUserByRemoteID`: the first user of that forge with that remote id. */
  function UserByRemoteID(users: seq<User>, forgeId: int, remoteId: string, fault: bool): Get<User> {
    GetFirst(users, (u: User) => u.forgeId == forgeId && u.forgeRemoteId == remoteId, fault)
  }

  /** `GetUserByEmail`: the first user of that forge with that email. */
  function UserByEmail(users: seq<User>, forgeId: int, email: string, fault: bool): Get<User> {
    GetFirst(users, (u: User) => u.forgeId == forgeId && u.email == email, fault)
  }

  /** Whether `UPDATE ... WHERE id = a.id` goes through: it matches no row
      (and so writes nothing and reports no error), or the row it rewrites
      would share its username and user id with no other row. */
  predicate AuthUpdateOk(rows: seq<AuthUser>, a: AuthUser) {
    || (forall b :: b in rows ==> b.id != a.id)
    || (forall b :: b in rows && b.id != a.id ==> b.username != a.username && b.userId != a.userId)
  }

  /** `AuthUserFindByUsername`: the credential row with that username. */
  function AuthByUsername(auths: seq<AuthUser>, username: string, fault: bool): Get<AuthUser> {
    GetFirst(auths, (a: AuthUser) => a.username == username, fault)
  }

  /** Deleting a row that was just appended under a fresh id restores the
      table exactly. */
  lemma {:induction false} RemoveFresh(rows: seq<User>, c: User)
    requires forall v :: v in rows ==> v.id != c.id
    ensures RemoveUser(rows + [c], c.id) == rows
  {
    if rows == [] {
      assert [] + [c] == [c];
      assert RemoveUser([c], c.id) == RemoveUser([], c.id);
    } else {
      assert (rows + [c])[1..] == rows[1..] + [c];
      RemoveFresh(rows[1..], c);
      assert [rows[0]] + rows[1..] == rows;
    }
  }

  class Store {
    var users: seq<User>
    var auths: seq<AuthUser>
    var nextUserId: int
    var nextAuthId: int

    ghost predicate Valid()
      reads this
    {
      && nextUserId >= 1 && nextAuthId >= 1
      && (forall u :: u in users ==> 1 <= u.id < nextUserId)
      && (forall u, v :: u in users && v in users && u.id == v.id ==> u == v)
      && (forall a :: a in auths ==> 1 <= a.id < nextAuthId)
      && (forall a, b :: a in auths && b in auths && AuthClash(a, b) ==> a == b)
    }

    constructor ()
      ensures Valid() && users == [] && auths == []
    {
      users, auths := [], [];
      nextUserId, nextAuthId := 1, 1;
    }

    /** `CreateUser`: inserts `u` under a fresh id. */
    method CreateUser(u: User, fault: bool) returns (ok: bool, created: User)
      requires Valid()
      modifies this
      ensures Valid() && auths == old(auths) && nextAuthId == old(nextAuthId)
      ensures ok == !fault
      ensures ok ==> created == u.(id := old(nextUserId)) && users == old(users) + [created]
      ensures ok ==> forall v :: v in old(users) ==> v.id != created.id
      ensures !ok ==> users == old(users) && created == u && nextUserId == old(nextUserId)
    {
      if fault {
        return false, u;
      }
      created := u.(id := nextUserId);
      users := users + [created];
      nextUserId := nextUserId + 1;
      ok := true;
    }

    /** `UpdateUser`: overwrites the row with `u`'s id. */
    method UpdateUser(u: User, fault: bool) returns (ok: bool)
      requires Valid()
      modifies this
      ensures Valid()
      ensures ok == !fault
      ensures users == (if ok then ReplaceById(old(users), UserKey, u) else old(users))
      ensures auths == old(auths) && nextUserId == old(nextUserId) && nextAuthId == old(nextAuthId)
    {
      if fault {
        return false;
      }
      ghost var before := users;
      users := ReplaceById(users, UserKey, u);
      assert forall x :: x in users ==> x == u || (x in before && x.id != u.id) by {
        forall x | x in users ensures x == u || (x in before && x.id != u.id) {
          var i :| 0 <= i < |users| && users[i] == x;
        }
      }
      assert u in users ==> exists i :: 0 <= i < |before| && before[i].id == u.id;
      ok := true;
    }

    /** `DeleteUser`: removes the row with this id. */
    method DeleteUser(id: int, fault: bool) returns (ok: bool)
      requires Valid()
      modifies this
      ensures Valid()
      ensures ok == !fault
      ensures users == (if ok then RemoveUser(old(users), id) else old(users))
      ensures auths == old(auths) && nextUserId == old(nextUserId) && nextAuthId == old(nextAuthId)
    {
      if fault {
        return false;
      }
      users := RemoveUser(users, id);
      ok := true;
    }

    /** `AuthUserCreate`: inserts `a` under a fresh id, unless its username
        or user id is taken. */
    method AuthUserCreate(a: AuthUser, fault: bool) returns (ok: bool, created: AuthUser)
      requires Valid()
      modifies this
      ensures Valid() && users == old(users) && nextUserId == old(nextUserId)
      ensures ok <==> !fault && forall b :: b in old(auths) ==> b.username != a.username && b.userId != a.userId
      ensures ok ==> created == a.(id := old(nextAuthId)) && auths == old(auths) + [created]
      ensures !ok ==> auths == old(auths) && nextAuthId == old(nextAuthId)
    {
      created := a;
      if fault {
        return false, a;
      }
      var i := 0;
      while i < |auths|
        invariant 0 <= i <= |auths|
        invariant forall j :: 0 <= j < i ==> auths[j].username != a.username && auths[j].userId != a.userId
      {
        if auths[i].username == a.username || auths[i].userId == a.userId {
          return false, a;
        }
        i := i + 1;
      }
      created := a.(id := nextAuthId);
      auths := auths + [created];
      nextAuthId := nextAuthId + 1;
      ok := true;
    }

    /** `AuthUserUpdate`: an update by `a`'s id. A row with that id is
        overwritten unless another row already holds its username or user
        id; when no row has that id nothing is written and no error is
        reported. */
    method AuthUserUpdate(a: AuthUser, fault: bool) returns (ok: bool)
      requires Valid()
      modifies this
      ensures Valid() && users == old(users) && nextUserId == old(nextUserId) && nextAuthId == old(nextAuthId)
      ensures ok <==> !fault && AuthUpdateOk(old(auths), a)
      ensures auths == (if ok then ReplaceById(old(auths), AuthKey, a) else old(auths))
      ensures (forall b :: b in old(auths) ==> b.id != a.id) ==> auths == old(auths)
    {
      if fault {
        return false;
      }
      var matched, clash := false, false;
      var i := 0;
      while i < |auths|
        invariant 0 <= i <= |auths|
        invariant matched <==> exists j :: 0 <= j < i && auths[j].id == a.id
        invariant clash <==> exists j :: 0 <= j < i && auths[j].id != a.id && AuthClash(auths[j], a)
      {
        if auths[i].id == a.id {
          matched := true;
        } else if auths[i].username == a.username || auths[i].userId == a.userId {
          clash := true;
        }
        i := i + 1;
      }
      if matched && clash {
        assert !AuthUpdateOk(auths, a) by {
          var j :| 0 <= j < |auths| && auths[j].id == a.id;
          var k :| 0 <= k < |auths| && auths[k].id != a.id && AuthClash(auths[k], a);
          assert auths[j] in auths && auths[k] in auths;
        }
        return false;
      }
      ghost var before := auths;
      auths := ReplaceById(auths, AuthKey, a);
      if matched {
        assert forall x :: x in auths ==> x == a || (x in before && x.id != a.id) by {
          forall x | x in auths ensures x == a || (x in before && x.id != a.id) {
            var k :| 0 <= k < |auths| && auths[k] == x;
          }
        }
        assert a in auths;
      } else {
        assert forall b :: b in before ==> b.id != a.id;
      }
      ok := true;
    }
  }
}
