/** The PostgreSQL database the repositories share: one map per table, keyed by
    the serial id, and the next value of each serial. The model's counter moves only
    on a successful insert, so its ids have no gaps. */
module Store {
  import opened Wrappers
  import opened Domain

  /** A row of `users`. */
  datatype UserRow = UserRow(
    username: string,
    password: string,
    profilePhoto: string,
    createdAt: Time,
    updatedAt: Time)

  /** A row of `tickets`. */
  datatype TicketRow = TicketRow(
    title: string,
    description: string,
    status: string,
    priority: string,
    dueDate: Option<Time>,
    creatorId: int,
    assigneeId: Option<int>,
    createdAt: Time,
    updatedAt: Time)

  /** A row of `activity_logs`. */
  datatype LogRow = LogRow(
    ticketId: Option<int>,
    userId: int,
    action: string,
    createdAt: Time)

  /** Every key of a table is a positive id below the table's next serial value. */
  ghost predicate SerialBelow<R>(table: map<int, R>, next: int) {
    1 <= next && forall id :: id in table ==> 1 <= id < next
  }

  class Db {
    var users: map<int, UserRow>
    var tickets: map<int, TicketRow>
    var logs: map<int, LogRow>
    var nextUserId: int
    var nextTicketId: int
    var nextLogId: int

    ghost predicate Valid()
      reads this
    {
      && SerialBelow(users, nextUserId)
      && SerialBelow(tickets, nextTicketId)
      && SerialBelow(logs, nextLogId)
    }

    /** An empty database whose serials start at 1. */
    constructor ()
      ensures Valid()
      ensures users == map[] && tickets == map[] && logs == map[]
      ensures nextUserId == 1 && nextTicketId == 1 && nextLogId == 1
    {
      users, tickets, logs := map[], map[], map[];
      nextUserId, nextTicketId, nextLogId := 1, 1, 1;
    }
  }
}
