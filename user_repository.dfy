/**
 * The first backend's users: a plain domain record and the in-memory repository
 * that stores user rows in a list with a monotonic id counter. Conversions between
 * rows and users only copy fields, so no read can fail.
 */
module DeclaringUserRepository {
  import opened Wrappers
  import opened Clock

  datatype User = User(id: Option<int>, username: string, email: string, createdAt: Instant)

  /** A stored user row. */
  datatype UserRow = UserRow(id: int, username: string, email: string, createdAt: Instant)

  function UserOfRow(row: UserRow): (u: User)
    ensures u.id == Some(row.id) && u.username == row.username && u.email == row.email
    ensures u.createdAt == row.createdAt
  {
    User(Some(row.id), row.username, row.email, row.createdAt)
  }

  /** The row of a domain user, with the id and creation time the repository forces. */
  function UserRowOf(u: User, id: int, createdAt: Instant): (row: UserRow)
    ensures UserOfRow(row) == u.(id := Some(id), createdAt := createdAt)
  {
    UserRow(id, u.username, u.email, createdAt)
  }

  function UserIds(rows: seq<UserRow>): set<int>
  {
    set k | 0 <= k < |rows| :: rows[k].id
  }

  /** The first slot holding the user with this id. */
  function UserIndex(rows: seq<UserRow>, id: int): (r: Option<nat>)
    ensures r.Some? ==>
      r.value < |rows| && rows[r.value].id == id && forall k :: 0 <= k < r.value ==> rows[k].id != id
    ensures r.None? <==> id !in UserIds(rows)
  {
    if |rows| == 0 then None
    else if rows[0].id == id then Some(0)
    else
      var t := UserIndex(rows[1..], id);
      assert UserIds(rows) == {rows[0].id} + UserIds(rows[1..]);
      if t.None? then None else Some(t.value + 1)
  }

  /** `find_by_id`. */
  function FindUser(rows: seq<UserRow>, id: int): Option<User>
  {
    var k := UserIndex(rows, id);
    if k.None? then None else Some(UserOfRow(rows[k.value]))
  }

  /** `find_all`: every stored user in insertion order. */
  function AllUsers(rows: seq<UserRow>): (r: seq<User>)
    ensures |r| == |rows| && forall k :: 0 <= k < |rows| ==> r[k] == UserOfRow(rows[k])
  {
    seq(|rows|, k requires 0 <= k < |rows| => UserOfRow(rows[k]))
  }

  /** Ids lie in [1, next) and increase along the list, so they are unique. */
  predicate UserIdsValid(rows: seq<UserRow>, next: int)
  {
    1 <= next
    && (forall k :: 0 <= k < |rows| ==> 1 <= rows[k].id < next)
    && (forall i, j :: 0 <= i < j < |rows| ==> rows[i].id < rows[j].id)
  }

  lemma IdsOfAppend(rows: seq<UserRow>, row: UserRow)
    ensures UserIds(rows + [row]) == UserIds(rows) + {row.id}
  {
    var s := rows + [row];
    forall x | x in UserIds(s) ensures x in UserIds(rows) + {row.id} {
      var j :| 0 <= j < |s| && s[j].id == x;
      if j < |rows| { assert s[j] == rows[j]; }
    }
    forall x | x in UserIds(rows) + {row.id} ensures x in UserIds(s) {
      if x != row.id {
        var j :| 0 <= j < |rows| && rows[j].id == x;
        assert s[j] == rows[j];
      } else {
        assert s[|rows|] == row;
      }
    }
  }

  /** The counter is not in use, and a row created with it keeps the ids valid. */
  lemma CounterIsFresh(rows: seq<UserRow>, next: int, row: UserRow)
    requires UserIdsValid(rows, next) && row.id == next
    ensures next !in UserIds(rows)
    ensures UserIdsValid(rows + [row], next + 1)
  {
    var s := rows + [row];
    assert forall k :: 0 <= k < |rows| ==> s[k] == rows[k];
    assert s[|rows|] == row;
  }

  /** After a create, looking the new id up finds the created user. */
  lemma FindAfterAppend(rows: seq<UserRow>, row: UserRow)
    requires row.id !in UserIds(rows)
    ensures FindUser(rows + [row], row.id) == Some(UserOfRow(row))
  {
    var s := rows + [row];
    assert s[|rows|] == row;
    assert forall k :: 0 <= k < |rows| ==> s[k] == rows[k];
    IdsOfAppend(rows, row);
    assert row.id in UserIds(s);
    forall k | 0 <= k < |rows| ensures s[k].id != row.id {
      assert rows[k].id in UserIds(rows);
    }
  }

  /** With unique ids, removing the found slot leaves no user with that id and every
      other user where it was found before. */
  lemma DeleteLeavesNone(rows: seq<UserRow>, next: int, id: int)
    requires UserIdsValid(rows, next)
    requires UserIndex(rows, id).Some?
    ensures var r := RemoveAt(rows, UserIndex(rows, id).value);
      FindUser(r, id) == None && UserIds(r) == UserIds(rows) - {id} && UserIdsValid(r, next)
  {
    var k := UserIndex(rows, id).value;
    RemoveKeepsValid(rows, next, k);
    RemoveDropsId(rows, next, k);
  }

  /** Removing a slot keeps the ids increasing and below the counter. */
  lemma RemoveKeepsValid(rows: seq<UserRow>, next: int, k: nat)
    requires UserIdsValid(rows, next) && k < |rows|
    ensures UserIdsValid(RemoveAt(rows, k), next)
  {
    var r := RemoveAt(rows, k);
    forall m | 0 <= m < |r| ensures r[m] == rows[if m < k then m else m + 1] {
    }
  }

  /** Removing a slot removes exactly its id, since the ids are unique. */
  lemma RemoveDropsId(rows: seq<UserRow>, next: int, k: nat)
    requires UserIdsValid(rows, next) && k < |rows|
    ensures UserIds(RemoveAt(rows, k)) == UserIds(rows) - {rows[k].id}
  {
    var r := RemoveAt(rows, k);
    forall x | x in UserIds(r) ensures x in UserIds(rows) - {rows[k].id} {
      var j :| 0 <= j < |r| && r[j].id == x;
      if j < k { assert r[j] == rows[j]; } else { assert r[j] == rows[j + 1]; }
    }
    forall x | x in UserIds(rows) - {rows[k].id} ensures x in UserIds(r) {
      var j :| 0 <= j < |rows| && rows[j].id == x;
      if j < k { assert r[j] == rows[j]; } else { assert r[j - 1] == rows[j]; }
    }
  }

  /** A slot update that keeps the id keeps every lookup's slot. */
  lemma {:induction false} SameIdsSameIndex(rows: seq<UserRow>, k: nat, row: UserRow, id: int)
    requires k < |rows| && row.id == rows[k].id
    ensures UserIndex(rows[k := row], id) == UserIndex(rows, id)
    ensures UserIds(rows[k := row]) == UserIds(rows)
  {
    var s := rows[k := row];
    assert forall j :: 0 <= j < |rows| ==> s[j].id == rows[j].id;
    forall x | x in UserIds(s) ensures x in UserIds(rows) {
      var j :| 0 <= j < |s| && s[j].id == x;
    }
    forall x | x in UserIds(rows) ensures x in UserIds(s) {
      var j :| 0 <= j < |rows| && rows[j].id == x;
      assert s[j].id == x;
    }
  }

  /** After an update of a present id, looking it up finds the argument with the stored
      id and creation time. */
  lemma FindAfterUpdate(rows: seq<UserRow>, id: int, u: User)
    requires UserIndex(rows, id).Some?
    ensures var k := UserIndex(rows, id).value;
      FindUser(rows[k := UserRowOf(u, id, rows[k].createdAt)], id)
      == Some(u.(id := Some(id), createdAt := rows[k].createdAt))
  {
    var k := UserIndex(rows, id).value;
    SameIdsSameIndex(rows, k, UserRowOf(u, id, rows[k].createdAt), id);
  }

  class UserRepository {
    var users: seq<UserRow>
    var nextId: int

    ghost predicate Valid()
      reads this
    {
      UserIdsValid(users, nextId)
    }

    constructor ()
      ensures Valid() && users == [] && nextId == 1
    {
      users := [];
      nextId := 1;
    }

    /** `find_all`. */
    method FindAll() returns (r: seq<User>)
      ensures r == AllUsers(users)
    {
      r := [];
      var k := 0;
      while k < |users|
        invariant 0 <= k <= |users|
        invariant r == AllUsers(users[..k])
      {
        r := r + [UserOfRow(users[k])];
        k := k + 1;
      }
      assert users[..k] == users;
    }

    /** `find_by_id`. */
    method FindById(id: int) returns (r: Option<User>)
      ensures r == FindUser(users, id)
    {
      var k := 0;
      while k < |users|
        invariant 0 <= k <= |users|
        invariant forall j :: 0 <= j < k ==> users[j].id != id
      {
        if users[k].id == id {
          return Some(UserOfRow(users[k]));
        }
        k := k + 1;
      }
      return None;
    }

    /** `create`: the counter becomes the id and is then incremented. */
    method Create(u: User) returns (r: User)
      requires Valid()
      modifies this
      ensures Valid()
      ensures old(nextId) !in UserIds(old(users))
      ensures users == old(users) + [UserRowOf(u, old(nextId), u.createdAt)]
      ensures nextId == old(nextId) + 1
      ensures r == u.(id := Some(old(nextId)))
    {
      var row := UserRowOf(u, nextId, u.createdAt);
      CounterIsFresh(users, nextId, row);
      nextId := nextId + 1;
      users := users + [row];
      r := UserOfRow(row);
    }

    /** `update`: a present id's slot is replaced, keeping the id and the stored creation
        time; an absent id changes nothing. */
    method Update(id: int, u: User) returns (r: Option<User>)
      requires Valid()
      modifies this
      ensures Valid() && nextId == old(nextId)
      ensures UserIndex(old(users), id).None? ==> users == old(users) && r == None
      ensures UserIndex(old(users), id).Some? ==>
        var k := UserIndex(old(users), id).value;
        users == old(users)[k := UserRowOf(u, id, old(users)[k].createdAt)]
        && r == Some(u.(id := Some(id), createdAt := old(users)[k].createdAt))
    {
      var k := 0;
      while k < |users|
        invariant 0 <= k <= |users|
        invariant forall j :: 0 <= j < k ==> users[j].id != id
      {
        if users[k].id == id {
          var row := UserRowOf(u, id, users[k].createdAt);
          SameIdsSameIndex(users, k, row, id);
          users := users[k := row];
          return Some(UserOfRow(row));
        }
        k := k + 1;
      }
      return None;
    }

    /** `delete`. */
    method Delete(id: int) returns (deleted: bool)
      requires Valid()
      modifies this
      ensures Valid() && nextId == old(nextId)
      ensures deleted <==> UserIndex(old(users), id).Some?
      ensures deleted ==> users == RemoveAt(old(users), UserIndex(old(users), id).value)
      ensures !deleted ==> users == old(users)
    {
      var k := 0;
      while k < |users|
        invariant 0 <= k <= |users|
        invariant forall j :: 0 <= j < k ==> users[j].id != id
      {
        if users[k].id == id {
          DeleteLeavesNone(users, nextId, id);
          users := RemoveAt(users, k);
          return true;
        }
        k := k + 1;
      }
      return false;
    }
  }
}
