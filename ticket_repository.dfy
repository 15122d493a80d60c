/** repository/ticket_repository.go: the `tickets` table and the queries that join
    the creator's and the assignee's user names onto it. */
module TicketRepo {
  import opened Wrappers
  import opened Domain
  import opened Store
  import Ordering

  /** The values `Create` substitutes for an empty status and an empty priority. */
  const DefaultStatus: string := "Backlog"
  const DefaultPriority: string := "Medium"

  /** The ticket as `Create` fills it in before the INSERT: both timestamps are the
      current time, and an empty status or priority takes its default. */
  function Prepare(t: Ticket, now: Time): (r: Ticket)
    ensures r.createdAt == now && r.updatedAt == now
    ensures r.status != "" && r.priority != ""
    ensures t.status != "" ==> r.status == t.status
    ensures t.status == "" ==> r.status == DefaultStatus
    ensures t.priority != "" ==> r.priority == t.priority
    ensures t.priority == "" ==> r.priority == DefaultPriority
    ensures r.(status := t.status, priority := t.priority, createdAt := t.createdAt, updatedAt := t.updatedAt) == t
  {
    t.(status := if t.status == "" then DefaultStatus else t.status,
       priority := if t.priority == "" then DefaultPriority else t.priority,
       createdAt := now,
       updatedAt := now)
  }

  /** The columns the INSERT writes. */
  function RowOf(t: Ticket): TicketRow {
    TicketRow(t.title, t.description, t.status, t.priority, t.dueDate, t.creatorId, t.assigneeId,
              t.createdAt, t.updatedAt)
  }

  /** The row of ticket `id` as the SELECTs return it: `JOIN users u1` on the creator
      (no creator, no row) and `LEFT JOIN users u2` on the assignee. */
  function Joined(tickets: map<int, TicketRow>, users: map<int, UserRow>, id: int): (r: Option<Ticket>)
    ensures r.Some? <==> id in tickets && tickets[id].creatorId in users
    ensures r.Some? ==> r.value.id == id && RowOf(r.value) == tickets[id]
    ensures r.Some? ==> r.value.creatorUsername == users[r.value.creatorId].username
    ensures r.Some? ==> (r.value.assigneeUsername.Some? <==>
                           r.value.assigneeId.Some? && r.value.assigneeId.value in users)
    ensures r.Some? && r.value.assigneeUsername.Some? ==>
              r.value.assigneeUsername.value == users[r.value.assigneeId.value].username
  {
    if id !in tickets || tickets[id].creatorId !in users then None
    else
      var row := tickets[id];
      var assignee := match row.assigneeId
        case Some(a) => if a in users then Some(users[a].username) else None
        case None => None;
      Some(Ticket(id, row.title, row.description, row.status, row.priority, row.creatorId,
                  users[row.creatorId].username, row.assigneeId, assignee, row.dueDate,
                  row.createdAt, row.updatedAt))
  }

  /** The WHERE clause: no condition for FindAll, `t.status = $1` for FindByStatus. */
  predicate Selected(status: Option<string>, row: TicketRow) {
    status.None? || row.status == status.value
  }

  /** `ORDER BY t.created_at DESC`, ties broken by the higher id first (the database
      leaves ties in an unspecified order). */
  function NewestFirst(tickets: map<int, TicketRow>): int -> Ordering.Rank {
    id => Ordering.Rank("", if id in tickets then -tickets[id].createdAt else 0, -id)
  }

  function Ids(r: seq<Ticket>): seq<int> {
    seq(|r|, i requires 0 <= i < |r| => r[i].id)
  }

  /** `r` is what a SELECT over the tickets returns: the joined rows the WHERE clause
      selects, each once, newest first. */
  ghost predicate IsListing(tickets: map<int, TicketRow>, users: map<int, UserRow>,
                            status: Option<string>, r: seq<Ticket>) {
    && Ordering.Ascending(NewestFirst(tickets), Ids(r))
    && (forall i :: 0 <= i < |r| ==>
          r[i].id in tickets && Selected(status, tickets[r[i].id]) && Joined(tickets, users, r[i].id) == Some(r[i]))
    && (forall id :: id in tickets && Selected(status, tickets[id]) && Joined(tickets, users, id).Some? ==>
          id in Ids(r))
  }

  /** The tickets of `r` whose status is `s`, in the order of `r`. */
  function WithStatus(r: seq<Ticket>, s: string): seq<Ticket> {
    if r == [] then []
    else (if r[0].status == s then [r[0]] else []) + WithStatus(r[1..], s)
  }

  /** A listing is newest first by creation time. */
  lemma ListingNewestFirst(tickets: map<int, TicketRow>, users: map<int, UserRow>,
                           status: Option<string>, r: seq<Ticket>)
    requires IsListing(tickets, users, status, r)
    ensures forall i, j :: 0 <= i < j < |r| ==> r[i].createdAt >= r[j].createdAt
  {
    forall i, j | 0 <= i < j < |r| ensures r[i].createdAt >= r[j].createdAt {
      assert Ids(r)[i] == r[i].id && Ids(r)[j] == r[j].id;
      assert Ordering.RankLess(NewestFirst(tickets)(r[i].id), NewestFirst(tickets)(r[j].id));
      assert RowOf(r[i]) == tickets[r[i].id] && RowOf(r[j]) == tickets[r[j].id];
    }
  }

  /** At most one sequence is a listing: the query's answer is determined by the tables. */
  lemma ListingUnique(tickets: map<int, TicketRow>, users: map<int, UserRow>,
                      status: Option<string>, a: seq<Ticket>, b: seq<Ticket>)
    requires IsListing(tickets, users, status, a) && IsListing(tickets, users, status, b)
    ensures a == b
  {
    forall y ensures y in Ids(a) <==> y in Ids(b) {
      if y in Ids(a) {
        var i :| 0 <= i < |a| && Ids(a)[i] == y;
        assert a[i].id == y;
      }
      if y in Ids(b) {
        var i :| 0 <= i < |b| && Ids(b)[i] == y;
        assert b[i].id == y;
      }
    }
    Ordering.AscendingUnique(NewestFirst(tickets), Ids(a), Ids(b));
    assert |a| == |Ids(a)| == |Ids(b)| == |b|;
    forall i | 0 <= i < |a| ensures a[i] == b[i] {
      assert Ids(a)[i] == Ids(b)[i];
    }
  }

  /** Which tickets `WithStatus` keeps. */
  lemma {:induction false} WithStatusMembers(r: seq<Ticket>, s: string)
    ensures forall t :: t in WithStatus(r, s) <==> t in r && t.status == s
  {
    if r != [] {
      WithStatusMembers(r[1..], s);
      assert r == [r[0]] + r[1..];
    }
  }

  /** In an ascending listing the first ticket ranks before every later one. */
  lemma HeadRanksFirst(key: int -> Ordering.Rank, r: seq<Ticket>, t: Ticket)
    requires Ordering.Ascending(key, Ids(r)) && |r| > 0 && t in r[1..]
    ensures Ordering.RankLess(key(r[0].id), key(t.id))
  {
    var k :| 0 <= k < |r[1..]| && r[1..][k] == t;
    assert Ids(r)[0] == r[0].id && Ids(r)[k + 1] == t.id;
  }

  /** Keeping the tickets of one status keeps the listing's order. */
  lemma {:induction false} WithStatusAscending(key: int -> Ordering.Rank, r: seq<Ticket>, s: string)
    requires Ordering.Ascending(key, Ids(r))
    ensures Ordering.Ascending(key, Ids(WithStatus(r, s)))
  {
    if r != [] {
      assert Ids(r[1..]) == Ids(r)[1..];
      Ordering.AscendingTail(key, Ids(r));
      var rest := WithStatus(r[1..], s);
      WithStatusAscending(key, r[1..], s);
      WithStatusMembers(r[1..], s);
      if r[0].status == s {
        var f := [r[0]] + rest;
        assert WithStatus(r, s) == f;
        forall i, j | 0 <= i < j < |f| ensures Ordering.RankLess(key(Ids(f)[i]), key(Ids(f)[j])) {
          if i == 0 {
            var t := rest[j - 1];
            assert t in rest;
            HeadRanksFirst(key, r, t);
            assert Ids(f)[0] == r[0].id && Ids(f)[j] == t.id;
          } else {
            assert Ids(f)[i] == Ids(rest)[i - 1] && Ids(f)[j] == Ids(rest)[j - 1];
          }
        }
      } else {
        assert WithStatus(r, s) == rest;
      }
    }
  }

  /** Each ticket of the restricted listing is a selected, joined row. */
  lemma WithStatusRows(tickets: map<int, TicketRow>, users: map<int, UserRow>, s: string, all: seq<Ticket>)
    requires IsListing(tickets, users, None, all)
    ensures forall i :: 0 <= i < |WithStatus(all, s)| ==>
              var t := WithStatus(all, s)[i];
              t.id in tickets && Selected(Some(s), tickets[t.id]) && Joined(tickets, users, t.id) == Some(t)
  {
    var f := WithStatus(all, s);
    WithStatusMembers(all, s);
    forall i | 0 <= i < |f|
      ensures f[i].id in tickets && Selected(Some(s), tickets[f[i].id]) && Joined(tickets, users, f[i].id) == Some(f[i])
    {
      var t := f[i];
      assert t in f;
      var k :| 0 <= k < |all| && all[k] == t;
    }
  }

  /** Every selected, joined row of status `s` is in the restricted listing. */
  lemma WithStatusCovers(tickets: map<int, TicketRow>, users: map<int, UserRow>, s: string, all: seq<Ticket>)
    requires IsListing(tickets, users, None, all)
    ensures forall id :: id in tickets && Selected(Some(s), tickets[id]) && Joined(tickets, users, id).Some? ==>
              id in Ids(WithStatus(all, s))
  {
    var f := WithStatus(all, s);
    WithStatusMembers(all, s);
    forall id | id in tickets && Selected(Some(s), tickets[id]) && Joined(tickets, users, id).Some?
      ensures id in Ids(f)
    {
      assert id in Ids(all);
      var k :| 0 <= k < |all| && Ids(all)[k] == id;
      var t := all[k];
      assert t in all;
      assert t.status == s;
      assert t in f;
      var m :| 0 <= m < |f| && f[m] == t;
      assert Ids(f)[m] == id;
    }
  }

  /** `FindByStatus(s)` returns exactly `FindAll` restricted to status `s`, in the same order. */
  lemma ByStatusIsFiltered(tickets: map<int, TicketRow>, users: map<int, UserRow>, s: string,
                           all: seq<Ticket>, some: seq<Ticket>)
    requires IsListing(tickets, users, None, all)
    requires IsListing(tickets, users, Some(s), some)
    ensures some == WithStatus(all, s)
  {
    WithStatusAscending(NewestFirst(tickets), all, s);
    WithStatusRows(tickets, users, s, all);
    WithStatusCovers(tickets, users, s, all);
    ListingUnique(tickets, users, Some(s), WithStatus(all, s), some);
  }

  class TicketRepository {
    const db: Db

    constructor (db: Db)
      ensures this.db == db
    {
      this.db := db;
    }

    /** INSERT ... RETURNING id. On success the ticket comes back with its new id,
        its timestamps and its defaults; the id was unused. */
    method Create(t: Ticket, now: Time, ok: bool) returns (r: Result<Ticket, Error>)
      requires db.Valid()
      modifies db`tickets, db`nextTicketId
      ensures db.Valid()
      ensures ok ==> old(db.nextTicketId) !in old(db.tickets)
      ensures ok ==> r == Success(Prepare(t, now).(id := old(db.nextTicketId)))
      ensures ok ==> db.tickets == old(db.tickets)[old(db.nextTicketId) := RowOf(Prepare(t, now))]
      ensures ok ==> db.nextTicketId == old(db.nextTicketId) + 1
      ensures !ok ==> r == Failure(TicketCreateFailed)
      ensures !ok ==> db.tickets == old(db.tickets) && db.nextTicketId == old(db.nextTicketId)
    {
      var p := Prepare(t, now);
      if !ok {
        return Failure(TicketCreateFailed);
      }
      var id := db.nextTicketId;
      db.tickets := db.tickets[id := RowOf(p)];
      db.nextTicketId := id + 1;
      r := Success(p.(id := id));
    }

    /** The SELECT shared by FindAll (`status == None`) and FindByStatus: sort the
        selected ids, then scan the joined rows in that order. */
    method Select(status: Option<string>) returns (r: seq<Ticket>)
      ensures IsListing(db.tickets, db.users, status, r)
    {
      var tickets, users := db.tickets, db.users;
      var key := NewestFirst(tickets);
      var chosen := set id | id in tickets && Selected(status, tickets[id]) && Joined(tickets, users, id).Some?;
      var ids := Ordering.SortIds(chosen, key);
      r := [];
      var i := 0;
      while i < |ids|
        invariant 0 <= i <= |ids|
        invariant |r| == i
        invariant forall k :: 0 <= k < i ==> ids[k] in chosen && Joined(tickets, users, ids[k]) == Some(r[k])
      {
        var id := ids[i];
        assert id in ids;
        assert id in chosen;
        r := r + [Joined(tickets, users, id).value];
        i := i + 1;
      }
      assert Ids(r) == ids;
      forall id | id in tickets && Selected(status, tickets[id]) && Joined(tickets, users, id).Some?
        ensures id in Ids(r)
      {
        assert id in chosen;
      }
    }

    /** `FindAll`: every ticket whose creator exists, newest first. */
    method FindAll() returns (r: seq<Ticket>)
      ensures IsListing(db.tickets, db.users, None, r)
    {
      r := Select(None);
    }

    /** `FindByStatus`: the tickets with exactly that status, newest first. */
    method FindByStatus(status: string) returns (r: seq<Ticket>)
      ensures IsListing(db.tickets, db.users, Some(status), r)
    {
      r := Select(Some(status));
    }

    /** `FindByID`: "ticket not found" unless the id exists and its creator exists. */
    method FindByID(id: int) returns (r: Result<Ticket, Error>)
      ensures r.Success? <==> id in db.tickets && db.tickets[id].creatorId in db.users
      ensures r.Success? ==> Joined(db.tickets, db.users, id) == Some(r.value)
      ensures r.Failure? ==> r.error == TicketNotFound
    {
      var j := Joined(db.tickets, db.users, id);
      if j.None? {
        return Failure(TicketNotFound);
      }
      r := Success(j.value);
    }

    /** `Update`: overwrites the seven SET columns of row `t.id`; an id that matches no
        row is not an error. */
    method Update(t: Ticket, now: Time, ok: bool) returns (r: Outcome<Error>)
      requires db.Valid()
      modifies db`tickets
      ensures db.Valid()
      ensures r == if ok then Pass else Fail(TicketUpdateFailed)
      ensures db.tickets == if ok && t.id in old(db.tickets)
                            then old(db.tickets)[t.id := Overwritten(old(db.tickets)[t.id], t, now)]
                            else old(db.tickets)
    {
      if !ok {
        return Fail(TicketUpdateFailed);
      }
      if t.id in db.tickets {
        db.tickets := db.tickets[t.id := Overwritten(db.tickets[t.id], t, now)];
      }
      r := Pass;
    }

    /** `UpdateStatus`: changes status and updated_at of row `id` only; an id that
        matches no row is not an error. */
    method UpdateStatus(id: int, status: string, now: Time, ok: bool) returns (r: Outcome<Error>)
      requires db.Valid()
      modifies db`tickets
      ensures db.Valid()
      ensures r == if ok then Pass else Fail(TicketStatusUpdateFailed)
      ensures db.tickets == if ok && id in old(db.tickets)
                            then old(db.tickets)[id := old(db.tickets)[id].(status := status, updatedAt := now)]
                            else old(db.tickets)
    {
      if !ok {
        return Fail(TicketStatusUpdateFailed);
      }
      if id in db.tickets {
        db.tickets := db.tickets[id := db.tickets[id].(status := status, updatedAt := now)];
      }
      r := Pass;
    }

    /** `Delete`: removes row `id` if there is one; an unknown id is not an error. */
    method Delete(id: int, ok: bool) returns (r: Outcome<Error>)
      requires db.Valid()
      modifies db`tickets
      ensures db.Valid()
      ensures r == if ok then Pass else Fail(TicketDeleteFailed)
      ensures db.tickets == if ok then old(db.tickets) - {id} else old(db.tickets)
    {
      if !ok {
        return Fail(TicketDeleteFailed);
      }
      db.tickets := db.tickets - {id};
      r := Pass;
    }
  }

  /** The row after `UPDATE tickets SET title, description, status, priority, due_date,
      assignee_id, updated_at`: those columns come from `t`, the creator and the creation
      time stay. */
  function Overwritten(row: TicketRow, t: Ticket, now: Time): (r: TicketRow)
    ensures r.creatorId == row.creatorId && r.createdAt == row.createdAt
    ensures r.title == t.title && r.description == t.description && r.status == t.status
    ensures r.priority == t.priority && r.dueDate == t.dueDate && r.assigneeId == t.assigneeId
    ensures r.updatedAt == now
  {
    TicketRow(t.title, t.description, t.status, t.priority, t.dueDate, row.creatorId, t.assigneeId,
              row.createdAt, now)
  }
}
