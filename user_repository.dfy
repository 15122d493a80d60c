/** repository/user_repository.go: the `users` table. The look-ups read every column
    but profile_photo; the listing reads neither the password nor the photo. */
module UserRepo {
  import opened Wrappers
  import opened Domain
  import opened Store
  import Ordering

  /** A user as `FindByUsername` and `FindByID` scan it: profile_photo is not selected,
      so it comes back empty. */
  function Loaded(id: int, row: UserRow): User {
    User(id, row.username, row.password, "", row.createdAt, row.updatedAt)
  }

  /** A user as `FindAll` scans it: neither password nor profile_photo is selected. */
  function Listed(id: int, row: UserRow): User {
    User(id, row.username, "", "", row.createdAt, row.updatedAt)
  }

  /** `ORDER BY username ASC`, ties broken by the lower id first. */
  function ByUsername(users: map<int, UserRow>): int -> Ordering.Rank {
    id => Ordering.Rank(if id in users then users[id].username else "", 0, id)
  }

  function UserIds(r: seq<User>): seq<int> {
    seq(|r|, i requires 0 <= i < |r| => r[i].id)
  }

  /** `r` is what `FindAll` returns: every user once, by user name. */
  ghost predicate IsUserListing(users: map<int, UserRow>, r: seq<User>) {
    && Ordering.Ascending(ByUsername(users), UserIds(r))
    && (forall i :: 0 <= i < |r| ==> r[i].id in users && r[i] == Listed(r[i].id, users[r[i].id]))
    && (forall id :: id in users ==> id in UserIds(r))
  }

  /** The user listing is in ascending user-name order, lists every user, and carries
      no password and no photo. */
  lemma UserListingOrdered(users: map<int, UserRow>, r: seq<User>)
    requires IsUserListing(users, r)
    ensures forall i, j :: 0 <= i < j < |r| ==>
              r[i].username == r[j].username || Ordering.StrLess(r[i].username, r[j].username)
    ensures forall i :: 0 <= i < |r| ==> r[i].password == "" && r[i].profilePhoto == ""
    ensures |r| == |users|
  {
    forall i, j | 0 <= i < j < |r|
      ensures r[i].username == r[j].username || Ordering.StrLess(r[i].username, r[j].username)
    {
      assert UserIds(r)[i] == r[i].id && UserIds(r)[j] == r[j].id;
      assert Ordering.RankLess(ByUsername(users)(r[i].id), ByUsername(users)(r[j].id));
    }
    IdsCount(users, r);
  }

  /** The ids of a listing are distinct and are exactly the table's keys. */
  lemma IdsCount(users: map<int, UserRow>, r: seq<User>)
    requires IsUserListing(users, r)
    ensures |r| == |users|
  {
    var ids := UserIds(r);
    var s := set x | x in ids;
    assert s == users.Keys by {
      forall id | id in s ensures id in users {
        var i :| 0 <= i < |ids| && ids[i] == id;
        assert r[i].id == id;
      }
      forall id | id in users ensures id in s {
        assert id in ids;
      }
    }
    DistinctCount(ids, ByUsername(users));
  }

  /** A strictly ascending sequence has as many elements as it has entries. */
  lemma {:induction false} DistinctCount(ids: seq<int>, key: int -> Ordering.Rank)
    requires Ordering.Ascending(key, ids)
    ensures |set x | x in ids| == |ids|
  {
    if ids != [] {
      var tail := ids[1..];
      Ordering.AscendingTail(key, ids);
      DistinctCount(tail, key);
      assert (set x | x in ids) == (set x | x in tail) + {ids[0]};
    }
  }

  class UserRepository {
    const db: Db

    constructor (db: Db)
      ensures this.db == db
    {
      this.db := db;
    }

    /** INSERT (username, password, created_at, updated_at) RETURNING id: one new row
        under a fresh id, both timestamps the current time; profile_photo takes the
        column's empty default. */
    method Create(u: User, now: Time, ok: bool) returns (r: Result<User, Error>)
      requires db.Valid()
      modifies db`users, db`nextUserId
      ensures db.Valid()
      ensures ok ==> old(db.nextUserId) !in old(db.users)
      ensures ok ==> r == Success(u.(id := old(db.nextUserId), createdAt := now, updatedAt := now))
      ensures ok ==> db.users == old(db.users)[old(db.nextUserId) := UserRow(u.username, u.password, "", now, now)]
      ensures ok ==> db.nextUserId == old(db.nextUserId) + 1
      ensures !ok ==> r == Failure(UserCreateFailed)
      ensures !ok ==> db.users == old(db.users) && db.nextUserId == old(db.nextUserId)
    {
      if !ok {
        return Failure(UserCreateFailed);
      }
      var id := db.nextUserId;
      db.users := db.users[id := UserRow(u.username, u.password, "", now, now)];
      db.nextUserId := id + 1;
      r := Success(u.(id := id, createdAt := now, updatedAt := now));
    }

    /** `FindByUsername`: a user whose name is exactly `username`, or "user not found".
        The table does not constrain names to be unique here, so with several matches
        any one of them may come back. */
    method FindByUsername(username: string) returns (r: Result<User, Error>)
      ensures r.Success? <==> exists id :: id in db.users && db.users[id].username == username
      ensures r.Success? ==> r.value.id in db.users && r.value == Loaded(r.value.id, db.users[r.value.id])
      ensures r.Success? ==> r.value.username == username && r.value.profilePhoto == ""
      ensures r.Failure? ==> r.error == UserNotFound
    {
      if exists id :: id in db.users && db.users[id].username == username {
        var id :| id in db.users && db.users[id].username == username;
        r := Success(Loaded(id, db.users[id]));
      } else {
        r := Failure(UserNotFound);
      }
    }

    /** `FindByID`: user `id`, without its photo, or "user not found". */
    method FindByID(id: int) returns (r: Result<User, Error>)
      ensures r.Success? <==> id in db.users
      ensures r.Success? ==> r.value.id == id && r.value.username == db.users[id].username
      ensures r.Success? ==> r.value.password == db.users[id].password && r.value.profilePhoto == ""
      ensures r.Success? ==> r.value.createdAt == db.users[id].createdAt && r.value.updatedAt == db.users[id].updatedAt
      ensures r.Failure? ==> r.error == UserNotFound
    {
      if id in db.users {
        r := Success(Loaded(id, db.users[id]));
      } else {
        r := Failure(UserNotFound);
      }
    }

    /** `FindAll`: every user, by user name, without password or photo. */
    method FindAll() returns (r: seq<User>)
      ensures IsUserListing(db.users, r)
    {
      var users := db.users;
      var key := ByUsername(users);
      var ids := Ordering.SortIds(users.Keys, key);
      r := [];
      var i := 0;
      while i < |ids|
        invariant 0 <= i <= |ids|
        invariant |r| == i
        invariant forall k :: 0 <= k < i ==> ids[k] in users && r[k] == Listed(ids[k], users[ids[k]])
      {
        var id := ids[i];
        assert id in ids;
        r := r + [Listed(id, users[id])];
        i := i + 1;
      }
      assert UserIds(r) == ids;
      forall id | id in users ensures id in UserIds(r) {
        assert id in users.Keys;
      }
    }

    /** `Update`: overwrites username, password, profile_photo and updated_at of row
        `u.id`; created_at and every other row are unchanged, and an id that matches no
        row is not an error. */
    method Update(u: User, now: Time, ok: bool) returns (r: Outcome<Error>)
      requires db.Valid()
      modifies db`users
      ensures db.Valid()
      ensures r == if ok then Pass else Fail(UserUpdateFailed)
      ensures db.users == if ok && u.id in old(db.users)
                          then old(db.users)[u.id := UserRow(u.username, u.password, u.profilePhoto,
                                                             old(db.users)[u.id].createdAt, now)]
                          else old(db.users)
    {
      if !ok {
        return Fail(UserUpdateFailed);
      }
      if u.id in db.users {
        db.users := db.users[u.id := UserRow(u.username, u.password, u.profilePhoto, db.users[u.id].createdAt, now)];
      }
      r := Pass;
    }
  }
}
