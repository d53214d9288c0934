/**
 * The first backend's user service over the in-memory user repository: reads are
 * passed through; every successful mutation publishes exactly one event; a missing
 * user means no write and no event.
 */
module DeclaringUserService {
  import opened Wrappers
  import opened Clock
  import opened DeclaringUserRepository
  import opened DomainEvents

  /** The partial update of `update_user`: only a present value overwrites. */
  function ApplyUserUpdate(u: User, username: Option<string>, email: Option<string>): (r: User)
    ensures r.id == u.id && r.createdAt == u.createdAt
    ensures r.username == (if username.Some? then username.value else u.username)
    ensures r.email == (if email.Some? then email.value else u.email)
  {
    var a := if username.Some? then u.(username := username.value) else u;
    if email.Some? then a.(email := email.value) else a
  }

  /** An update with nothing supplied changes nothing, and repeating an update changes
      nothing more. */
  lemma UserUpdateLaws(u: User, username: Option<string>, email: Option<string>)
    ensures ApplyUserUpdate(u, None, None) == u
    ensures ApplyUserUpdate(ApplyUserUpdate(u, username, email), username, email) == ApplyUserUpdate(u, username, email)
  {
  }

  /** `get_all_users`: the repository's list, unchanged. */
  method GetAllUsers(repo: UserRepository) returns (r: seq<User>)
    ensures r == AllUsers(repo.users)
  {
    r := repo.FindAll();
  }

  /** `get_user`: the repository's answer, unchanged. */
  method GetUser(repo: UserRepository, id: int) returns (r: Option<User>)
    ensures r == FindUser(repo.users, id)
  {
    r := repo.FindById(id);
  }

  /** `create_user`: persist the user and publish one creation event with the stored
      id, username and email. */
  method CreateUser(repo: UserRepository, log: EventLog, username: string, email: string, now: Instant)
    returns (r: User)
    requires repo.Valid()
    modifies repo, log
    ensures repo.Valid()
    ensures repo.users == old(repo.users) + [UserRow(old(repo.nextId), username, email, now)]
    ensures repo.nextId == old(repo.nextId) + 1
    ensures r == User(Some(old(repo.nextId)), username, email, now)
    ensures log.published == old(log.published) + [UserCreated(old(repo.nextId), username, email)]
  {
    r := repo.Create(User(None, username, email, now));
    log.Publish(UserCreated(r.id.value, r.username, r.email));
  }

  /** `update_user`: a missing user gives None with no write and no event; otherwise the
      supplied fields overwrite, the slot is rewritten and one event carries the updated
      values. */
  method UpdateUser(repo: UserRepository, log: EventLog, id: int, username: Option<string>, email: Option<string>)
    returns (r: Option<User>)
    requires repo.Valid()
    modifies repo, log
    ensures repo.Valid() && repo.nextId == old(repo.nextId)
    ensures var found := FindUser(old(repo.users), id);
      if found.None? then
        r == None && repo.users == old(repo.users) && log.published == old(log.published)
      else
        var k := UserIndex(old(repo.users), id).value;
        var e := ApplyUserUpdate(found.value, username, email);
        repo.users == old(repo.users)[k := UserRowOf(e, id, old(repo.users)[k].createdAt)]
        && r == Some(e) && e.id == Some(id)
        && log.published == old(log.published) + [UserUpdated(id, e.username, e.email)]
  {
    var existing := repo.FindById(id);
    if existing.None? {
      return None;
    }
    var e := ApplyUserUpdate(existing.value, username, email);
    r := repo.Update(id, e);
    if r.Some? {
      log.Publish(UserUpdated(r.value.id.value, r.value.username, r.value.email));
    }
  }

  /** `delete_user`: False without calling delete when the user is missing; otherwise
      the user is deleted and one event published. */
  method DeleteUser(repo: UserRepository, log: EventLog, id: int) returns (deleted: bool)
    requires repo.Valid()
    modifies repo, log
    ensures repo.Valid() && repo.nextId == old(repo.nextId)
    ensures deleted <==> FindUser(old(repo.users), id).Some?
    ensures deleted ==>
      repo.users == RemoveAt(old(repo.users), UserIndex(old(repo.users), id).value)
      && log.published == old(log.published) + [UserDeleted(id)]
    ensures !deleted ==> repo.users == old(repo.users) && log.published == old(log.published)
  {
    var existing := repo.FindById(id);
    if existing.None? {
      return false;
    }
    deleted := repo.Delete(id);
    if deleted {
      log.Publish(UserDeleted(id));
    }
  }
}
