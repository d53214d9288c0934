/**
 * The second backend's user service. It runs the same rules as the first backend's,
 * but on a repository handed to every call, and it asserts that a created or updated
 * user has an id before publishing. The repository here is the in-memory one, which
 * stands for any implementation of the same find/create/update/delete protocol; the
 * creation time is the storage default, a parameter.
 */
module IntentionsUserService {
  import opened Wrappers
  import opened Clock
  import opened DeclaringUserRepository
  import opened DomainEvents
  import DeclaringUserService

  /** `get_all_users(repository)`. */
  method GetAllUsers(repository: UserRepository) returns (r: seq<User>)
    ensures |r| == |repository.users|
    ensures forall k :: 0 <= k < |r| ==> r[k] == UserOfRow(repository.users[k])
  {
    r := repository.FindAll();
  }

  /** `get_user(user_id, repository)`: the stored user with that id, if any. */
  method GetUser(userId: int, repository: UserRepository) returns (r: Option<User>)
    ensures r.Some? <==> userId in UserIds(repository.users)
    ensures r.Some? ==> r.value.id == Some(userId) && r == FindUser(repository.users, userId)
  {
    r := repository.FindById(userId);
  }

  /** `create_user(request, repository)`: the user is built without an id, stored, and
      the asserted id is always present, so exactly one creation event is published. */
  method CreateUser(username: string, email: string, repository: UserRepository, log: EventLog,
                    storedAt: Instant)
    returns (r: User)
    requires repository.Valid()
    modifies repository, log
    ensures repository.Valid()
    ensures r.id.Some? && r.id.value !in UserIds(old(repository.users))
    ensures repository.users == old(repository.users) + [UserRow(r.id.value, username, email, storedAt)]
    ensures r == User(Some(old(repository.nextId)), username, email, storedAt)
    ensures log.published == old(log.published) + [UserCreated(r.id.value, username, email)]
  {
    var user := User(None, username, email, storedAt);
    r := repository.Create(user);
    assert r.id.Some?;
    log.Publish(UserCreated(r.id.value, r.username, r.email));
  }

  /** `update_user(user_id, request, repository)`: no write and no event for a missing
      user; otherwise the supplied fields overwrite, the asserted id is present, and one
      event carries the values stored. */
  method UpdateUser(userId: int, username: Option<string>, email: Option<string>,
                    repository: UserRepository, log: EventLog)
    returns (r: Option<User>)
    requires repository.Valid()
    modifies repository, log
    ensures repository.Valid()
    ensures r.Some? <==> userId in UserIds(old(repository.users))
    ensures r.None? ==> repository.users == old(repository.users) && log.published == old(log.published)
    ensures r.Some? ==>
      var k := UserIndex(old(repository.users), userId).value;
      var before := old(repository.users)[k];
      r.value == User(Some(userId), if username.Some? then username.value else before.username,
                      if email.Some? then email.value else before.email, before.createdAt)
      && repository.users == old(repository.users)[k := UserRowOf(r.value, userId, before.createdAt)]
      && log.published == old(log.published) + [UserUpdated(userId, r.value.username, r.value.email)]
  {
    var existing := repository.FindById(userId);
    if existing.None? {
      return None;
    }
    var changed := DeclaringUserService.ApplyUserUpdate(existing.value, username, email);
    r := repository.Update(userId, changed);
    if r.Some? {
      assert r.value.id.Some?;
      log.Publish(UserUpdated(r.value.id.value, r.value.username, r.value.email));
    }
  }

  /** `delete_user(user_id, repository)`: False, with no call to delete, for a missing
      user; otherwise the row is removed and one deletion event published. */
  method DeleteUser(userId: int, repository: UserRepository, log: EventLog) returns (deleted: bool)
    requires repository.Valid()
    modifies repository, log
    ensures repository.Valid() && repository.nextId == old(repository.nextId)
    ensures deleted <==> userId in UserIds(old(repository.users))
    ensures deleted ==> UserIds(repository.users) == UserIds(old(repository.users)) - {userId}
                        && |repository.users| == |old(repository.users)| - 1
                        && log.published == old(log.published) + [UserDeleted(userId)]
    ensures !deleted ==> repository.users == old(repository.users) && log.published == old(log.published)
  {
    var existing := repository.FindById(userId);
    if existing.None? {
      return false;
    }
    DeleteLeavesNone(repository.users, repository.nextId, userId);
    deleted := repository.Delete(userId);
    if deleted {
      log.Publish(UserDeleted(userId));
    }
  }
}
