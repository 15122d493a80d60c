/** service/ticket_service.go: ticket operations over the ticket repository, each
    write followed by an activity-log append whose own failure is ignored. */
module TicketSvc {
  import opened Wrappers
  import opened Domain
  import opened Store
  import TicketRepo
  import ActivityLogRepo

  /** The JSON body of a create or update request. */
  datatype TicketRequest = TicketRequest(
    title: string,
    description: string,
    status: string,
    priority: string,
    dueDate: Option<Time>,
    creatorId: int,
    assigneeId: Option<int>)

  /** A ticket as the service returns it: without the two timestamps. */
  datatype TicketResponse = TicketResponse(
    id: int,
    title: string,
    description: string,
    status: string,
    priority: string,
    dueDate: Option<Time>,
    creatorId: int,
    creatorUsername: string,
    assigneeId: Option<int>,
    assigneeUsername: Option<string>)

  function ToResponse(t: Ticket): TicketResponse {
    TicketResponse(t.id, t.title, t.description, t.status, t.priority, t.dueDate, t.creatorId,
                   t.creatorUsername, t.assigneeId, t.assigneeUsername)
  }

  /** The ticket `CreateTicket` hands to the repository: the request's fields, every
      other field at its zero value. */
  function FromRequest(req: TicketRequest): Ticket {
    Ticket(0, req.title, req.description, req.status, req.priority, req.creatorId, "",
           req.assigneeId, None, req.dueDate, 0, 0)
  }

  /** The fetched ticket with the six fields `UpdateTicket` takes from the request. */
  function Edited(t: Ticket, req: TicketRequest): Ticket {
    t.(title := req.title, description := req.description, status := req.status,
       priority := req.priority, dueDate := req.dueDate, assigneeId := req.assigneeId)
  }

  /** A log entry as the service builds it: id, user name and time are filled in later. */
  function Entry(ticketId: int, userId: int, action: string): ActivityLog {
    ActivityLog(0, Some(ticketId), userId, "", action, 0)
  }

  /** The three activity texts. */
  function CreatedAction(title: string): string { "created ticket: " + title }
  function UpdatedAction(title: string): string { "updated ticket: " + title }
  function StatusAction(status: string): string { "changed status to " + status }

  /** The log after an append that may have failed. */
  function Appended(logs: map<int, LogRow>, next: int, row: LogRow, ok: bool): map<int, LogRow> {
    if ok then logs[next := row] else logs
  }

  /** `LEFT JOIN users a`: the assignee's name, or null when there is no assignee or
      the assignee's row is missing. */
  function AssigneeName(users: map<int, UserRow>, assigneeId: Option<int>): Option<string> {
    if assigneeId.Some? && assigneeId.value in users then Some(users[assigneeId.value].username) else None
  }

  class TicketService {
    const ticketRepo: TicketRepo.TicketRepository
    const activityLogRepo: ActivityLogRepo.ActivityLogRepository

    /** Both repositories work on the same database, as the program wires them. */
    ghost predicate Valid()
      reads ticketRepo.db
    {
      ticketRepo.db == activityLogRepo.db && ticketRepo.db.Valid()
    }

    constructor (ticketRepo: TicketRepo.TicketRepository, activityLogRepo: ActivityLogRepo.ActivityLogRepository)
      ensures this.ticketRepo == ticketRepo && this.activityLogRepo == activityLogRepo
    {
      this.ticketRepo := ticketRepo;
      this.activityLogRepo := activityLogRepo;
    }

    /** `CreateTicket`: insert, then log "created ticket: <title>" under the creator,
        then answer with the re-fetched row, which shows the repository's defaults.
        A failed insert writes nothing and logs nothing. */
    method CreateTicket(req: TicketRequest, now: Time, insertOk: bool, logOk: bool)
      returns (r: Result<TicketResponse, Error>)
      requires Valid()
      modifies ticketRepo.db`tickets, ticketRepo.db`nextTicketId, ticketRepo.db`logs, ticketRepo.db`nextLogId
      ensures Valid()
      ensures !insertOk ==> r == Failure(TicketCreateFailed)
      ensures !insertOk ==> ticketRepo.db.tickets == old(ticketRepo.db.tickets)
                            && ticketRepo.db.nextTicketId == old(ticketRepo.db.nextTicketId)
                            && ticketRepo.db.logs == old(ticketRepo.db.logs)
                            && ticketRepo.db.nextLogId == old(ticketRepo.db.nextLogId)
      ensures insertOk ==>
                ticketRepo.db.tickets == old(ticketRepo.db.tickets)[old(ticketRepo.db.nextTicketId) :=
                                           TicketRepo.RowOf(TicketRepo.Prepare(FromRequest(req), now))]
      ensures insertOk ==>
                ticketRepo.db.logs == Appended(old(ticketRepo.db.logs), old(ticketRepo.db.nextLogId),
                                               LogRow(Some(old(ticketRepo.db.nextTicketId)), req.creatorId,
                                                      CreatedAction(req.title), now), logOk)
      ensures insertOk ==> ticketRepo.db.nextTicketId == old(ticketRepo.db.nextTicketId) + 1
                           && ticketRepo.db.nextLogId == old(ticketRepo.db.nextLogId) + (if logOk then 1 else 0)
      ensures insertOk ==> (r.Success? <==> req.creatorId in ticketRepo.db.users)
      ensures insertOk && r.Failure? ==> r.error == TicketNotFound
      ensures r.Success? ==>
                && r.value.id == old(ticketRepo.db.nextTicketId)
                && r.value.title == req.title && r.value.description == req.description
                && r.value.status == (if req.status == "" then TicketRepo.DefaultStatus else req.status)
                && r.value.priority == (if req.priority == "" then TicketRepo.DefaultPriority else req.priority)
                && r.value.dueDate == req.dueDate && r.value.assigneeId == req.assigneeId
                && r.value.creatorId == req.creatorId
                && r.value.creatorUsername == ticketRepo.db.users[req.creatorId].username
                && r.value.assigneeUsername == AssigneeName(ticketRepo.db.users, req.assigneeId)
    {
      var created := ticketRepo.Create(FromRequest(req), now, insertOk);
      if created.Failure? {
        return Failure(created.error);
      }
      var t := created.value;
      var _ := activityLogRepo.Create(Entry(t.id, t.creatorId, CreatedAction(t.title)), now, logOk);
      var fetched := ticketRepo.FindByID(t.id);
      if fetched.Failure? {
        return Failure(fetched.error);
      }
      r := Success(ToResponse(fetched.value));
    }

    /** `FindAll`: the repository's listing, each ticket without its timestamps. */
    method FindAll() returns (r: seq<TicketResponse>)
      ensures exists l :: TicketRepo.IsListing(ticketRepo.db.tickets, ticketRepo.db.users, None, l)
                          && r == seq(|l|, i requires 0 <= i < |l| => ToResponse(l[i]))
    {
      var l := ticketRepo.FindAll();
      r := [];
      var i := 0;
      while i < |l|
        invariant 0 <= i <= |l|
        invariant r == seq(i, k requires 0 <= k < i => ToResponse(l[k]))
      {
        r := r + [ToResponse(l[i])];
        i := i + 1;
      }
    }

    /** `FindByID`: the repository's look-up without timestamps. */
    method FindByID(id: int) returns (r: Result<TicketResponse, Error>)
      ensures r.Success? <==> TicketRepo.Joined(ticketRepo.db.tickets, ticketRepo.db.users, id).Some?
      ensures r.Success? ==> r.value == ToResponse(TicketRepo.Joined(ticketRepo.db.tickets, ticketRepo.db.users, id).value)
      ensures r.Failure? ==> r.error == TicketNotFound
    {
      var t := ticketRepo.FindByID(id);
      if t.Failure? {
        return Failure(t.error);
      }
      r := Success(ToResponse(t.value));
    }

    /** `UpdateTicket`: fetch, overwrite title, description, status, priority, due date
        and assignee, log "updated ticket: <title>" under the ticket's creator (not the
        caller), and answer with the re-fetched row. An id that cannot be fetched writes
        nothing and logs nothing; so does a failed update. */
    method UpdateTicket(id: int, req: TicketRequest, now: Time, updateOk: bool, logOk: bool)
      returns (r: Result<TicketResponse, Error>)
      requires Valid()
      modifies ticketRepo.db`tickets, ticketRepo.db`logs, ticketRepo.db`nextLogId
      ensures Valid()
      ensures TicketRepo.Joined(old(ticketRepo.db.tickets), ticketRepo.db.users, id).None? ==>
                r == Failure(TicketNotFound)
      ensures TicketRepo.Joined(old(ticketRepo.db.tickets), ticketRepo.db.users, id).Some? && !updateOk ==>
                r == Failure(TicketUpdateFailed)
      ensures r.Failure? ==> ticketRepo.db.tickets == old(ticketRepo.db.tickets)
                             && ticketRepo.db.logs == old(ticketRepo.db.logs)
                             && ticketRepo.db.nextLogId == old(ticketRepo.db.nextLogId)
      ensures r.Success? ==>
                && id in old(ticketRepo.db.tickets)
                && ticketRepo.db.tickets == old(ticketRepo.db.tickets)[id :=
                     TicketRepo.Overwritten(old(ticketRepo.db.tickets)[id], Edited(TicketRepo.Joined(old(ticketRepo.db.tickets), ticketRepo.db.users, id).value, req), now)]
                && ticketRepo.db.logs == Appended(old(ticketRepo.db.logs), old(ticketRepo.db.nextLogId),
                     LogRow(Some(id), old(ticketRepo.db.tickets)[id].creatorId, UpdatedAction(req.title), now), logOk)
      ensures r.Success? ==>
                && r.value.id == id
                && r.value.title == req.title && r.value.description == req.description
                && r.value.status == req.status && r.value.priority == req.priority
                && r.value.dueDate == req.dueDate && r.value.assigneeId == req.assigneeId
                && r.value.creatorId == old(ticketRepo.db.tickets)[id].creatorId
                && r.value.creatorUsername == ticketRepo.db.users[r.value.creatorId].username
                && r.value.assigneeUsername == AssigneeName(ticketRepo.db.users, req.assigneeId)
      ensures r.Success? ==>
                ticketRepo.db.nextLogId == old(ticketRepo.db.nextLogId) + (if logOk then 1 else 0)
      ensures r.Success? <==> TicketRepo.Joined(old(ticketRepo.db.tickets), ticketRepo.db.users, id).Some? && updateOk
    {
      var found := ticketRepo.FindByID(id);
      if found.Failure? {
        return Failure(found.error);
      }
      var t := Edited(found.value, req);
      var updated := ticketRepo.Update(t, now, updateOk);
      if updated.Fail? {
        return Failure(updated.error);
      }
      var _ := activityLogRepo.Create(Entry(id, t.creatorId, UpdatedAction(t.title)), now, logOk);
      var fetched := ticketRepo.FindByID(id);
      if fetched.Failure? {
        // The row was just updated in place and its creator still exists, so the
        // re-fetch cannot miss it.
        assert false;
      }
      r := Success(ToResponse(fetched.value));
    }

    /** `DeleteTicket`: the repository's delete; nothing is logged. */
    method DeleteTicket(id: int, ok: bool) returns (r: Outcome<Error>)
      requires Valid()
      modifies ticketRepo.db`tickets
      ensures Valid()
      ensures r == if ok then Pass else Fail(TicketDeleteFailed)
      ensures ticketRepo.db.tickets == if ok then old(ticketRepo.db.tickets) - {id} else old(ticketRepo.db.tickets)
    {
      r := ticketRepo.Delete(id, ok);
    }

    /** `UpdateStatus`: set the status (any string, also for an id with no row), then
        log "changed status to <status>" under the calling user. A failed update logs
        nothing. */
    method UpdateStatus(id: int, status: string, userId: int, now: Time, updateOk: bool, logOk: bool)
      returns (r: Outcome<Error>)
      requires Valid()
      modifies ticketRepo.db`tickets, ticketRepo.db`logs, ticketRepo.db`nextLogId
      ensures Valid()
      ensures r == if updateOk then Pass else Fail(TicketStatusUpdateFailed)
      ensures ticketRepo.db.tickets == if updateOk && id in old(ticketRepo.db.tickets)
                                       then old(ticketRepo.db.tickets)[id := old(ticketRepo.db.tickets)[id].(status := status, updatedAt := now)]
                                       else old(ticketRepo.db.tickets)
      ensures ticketRepo.db.logs == Appended(old(ticketRepo.db.logs), old(ticketRepo.db.nextLogId),
                                             LogRow(Some(id), userId, StatusAction(status), now), updateOk && logOk)
      ensures ticketRepo.db.nextLogId == old(ticketRepo.db.nextLogId) + (if updateOk && logOk then 1 else 0)
    {
      r := ticketRepo.UpdateStatus(id, status, now, updateOk);
      if r.Fail? {
        return;
      }
      var _ := activityLogRepo.Create(Entry(id, userId, StatusAction(status)), now, logOk);
    }
  }
}
