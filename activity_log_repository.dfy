/** repository/activity_log_repository.go: the `activity_logs` table, appended to by
    the ticket service and read newest first, one page of at most 100 entries. */
module ActivityLogRepo {
  import opened Wrappers
  import opened Domain
  import opened Store
  import Ordering

  /** `LIMIT 100`. */
  const PageSize: nat := 100

  /** The columns the INSERT writes; `created_at` is the current time. */
  function RowOf(log: ActivityLog, now: Time): LogRow {
    LogRow(log.ticketId, log.userId, log.action, now)
  }

  /** Entry `id` as the SELECT returns it: `JOIN users u` fills in the user name, and an
      entry whose user is missing is not returned. */
  function Joined(logs: map<int, LogRow>, users: map<int, UserRow>, id: int): (r: Option<ActivityLog>)
    ensures r.Some? <==> id in logs && logs[id].userId in users
    ensures r.Some? ==> r.value.id == id && RowOf(r.value, r.value.createdAt) == logs[id]
    ensures r.Some? ==> r.value.username == users[r.value.userId].username
  {
    if id !in logs || logs[id].userId !in users then None
    else
      var row := logs[id];
      Some(ActivityLog(id, row.ticketId, row.userId, users[row.userId].username, row.action, row.createdAt))
  }

  /** `ORDER BY al.created_at DESC`, ties broken by the higher id first. */
  function NewestFirst(logs: map<int, LogRow>): int -> Ordering.Rank {
    id => Ordering.Rank("", if id in logs then -logs[id].createdAt else 0, -id)
  }

  function LogIds(r: seq<ActivityLog>): seq<int> {
    seq(|r|, i requires 0 <= i < |r| => r[i].id)
  }

  /** `r` is the page the SELECT returns: at most 100 joined entries, newest first, and
      an entry is left out only when the page is full and the entry ranks after every
      entry on it. */
  ghost predicate IsPage(logs: map<int, LogRow>, users: map<int, UserRow>, r: seq<ActivityLog>) {
    && |r| <= PageSize
    && Ordering.Ascending(NewestFirst(logs), LogIds(r))
    && (forall i :: 0 <= i < |r| ==> Joined(logs, users, r[i].id) == Some(r[i]))
    && (forall id :: Joined(logs, users, id).Some? && id !in LogIds(r) ==>
          |r| == PageSize &&
          forall i :: 0 <= i < |r| ==> Ordering.RankLess(NewestFirst(logs)(r[i].id), NewestFirst(logs)(id)))
  }

  /** A page is newest first by creation time, and no omitted entry is newer than any
      entry on it. */
  lemma PageNewestFirst(logs: map<int, LogRow>, users: map<int, UserRow>, r: seq<ActivityLog>)
    requires IsPage(logs, users, r)
    ensures forall i, j :: 0 <= i < j < |r| ==> r[i].createdAt >= r[j].createdAt
    ensures forall id, i :: Joined(logs, users, id).Some? && id !in LogIds(r) && 0 <= i < |r| ==>
              logs[id].createdAt <= r[i].createdAt
  {
    forall i, j | 0 <= i < j < |r| ensures r[i].createdAt >= r[j].createdAt {
      assert LogIds(r)[i] == r[i].id && LogIds(r)[j] == r[j].id;
      assert Ordering.RankLess(NewestFirst(logs)(r[i].id), NewestFirst(logs)(r[j].id));
    }
    forall id, i | Joined(logs, users, id).Some? && id !in LogIds(r) && 0 <= i < |r|
      ensures logs[id].createdAt <= r[i].createdAt
    {
      assert Ordering.RankLess(NewestFirst(logs)(r[i].id), NewestFirst(logs)(id));
    }
  }

  /** With fewer than 100 entries whose user exists, the page holds all of them. */
  lemma SmallLogFullyListed(logs: map<int, LogRow>, users: map<int, UserRow>, r: seq<ActivityLog>, id: int)
    requires IsPage(logs, users, r)
    requires |r| < PageSize
    requires id in logs && logs[id].userId in users
    ensures exists i :: 0 <= i < |r| && r[i] == Joined(logs, users, id).value
  {
    assert id in LogIds(r);
    var i :| 0 <= i < |r| && LogIds(r)[i] == id;
    assert r[i].id == id;
  }

  class ActivityLogRepository {
    const db: Db

    constructor (db: Db)
      ensures this.db == db
    {
      this.db := db;
    }

    /** INSERT ... RETURNING id, created_at: appends one entry under a fresh id and
        writes the id and creation time back into it; existing entries are unchanged. */
    method Create(log: ActivityLog, now: Time, ok: bool) returns (r: Result<ActivityLog, Error>)
      requires db.Valid()
      modifies db`logs, db`nextLogId
      ensures db.Valid()
      ensures ok ==> old(db.nextLogId) !in old(db.logs)
      ensures ok ==> r == Success(log.(id := old(db.nextLogId), createdAt := now))
      ensures ok ==> db.logs == old(db.logs)[old(db.nextLogId) := RowOf(log, now)]
      ensures ok ==> db.nextLogId == old(db.nextLogId) + 1
      ensures !ok ==> r == Failure(LogCreateFailed)
      ensures !ok ==> db.logs == old(db.logs) && db.nextLogId == old(db.nextLogId)
    {
      if !ok {
        return Failure(LogCreateFailed);
      }
      var id := db.nextLogId;
      db.logs := db.logs[id := RowOf(log, now)];
      db.nextLogId := id + 1;
      r := Success(log.(id := id, createdAt := now));
    }

    /** `FindAll`: the newest 100 entries whose user exists, with the user name. */
    method FindAll() returns (r: seq<ActivityLog>)
      ensures IsPage(db.logs, db.users, r)
    {
      var logs, users := db.logs, db.users;
      var key := NewestFirst(logs);
      var chosen := set id | id in logs && Joined(logs, users, id).Some?;
      var ids := Ordering.SortIds(chosen, key);
      var n := if |ids| < PageSize then |ids| else PageSize;
      r := [];
      var i := 0;
      while i < n
        invariant 0 <= i <= n
        invariant |r| == i
        invariant forall k :: 0 <= k < i ==> ids[k] in chosen && Joined(logs, users, ids[k]) == Some(r[k])
      {
        var id := ids[i];
        assert id in ids;
        assert id in chosen;
        r := r + [Joined(logs, users, id).value];
        i := i + 1;
      }
      assert LogIds(r) == ids[..n];
      Ordering.PrefixAscending(key, ids, n);
      forall id | Joined(logs, users, id).Some? && id !in LogIds(r)
        ensures |r| == PageSize && forall i :: 0 <= i < |r| ==> Ordering.RankLess(key(r[i].id), key(id))
      {
        assert id in chosen;
        assert id in ids;
        var k :| 0 <= k < |ids| && ids[k] == id;
        if k < n {
          assert false;
        }
        forall i | 0 <= i < |r| ensures Ordering.RankLess(key(r[i].id), key(id)) {
          assert r[i].id == ids[i];
        }
      }
    }
  }
}
