/** The records of the backend's domain package (domain/ticket.go, domain/user.go,
    domain/activity_log.go) and the errors the repositories and services return. */
module Domain {
  import opened Wrappers

  /** An instant, as read from the caller's clock (Go `time.Time`). */
  type Time = int

  /** domain.Ticket: a stored ticket together with the user names a query joins in. */
  datatype Ticket = Ticket(
    id: int,
    title: string,
    description: string,
    status: string,
    priority: string,
    creatorId: int,
    creatorUsername: string,
    assigneeId: Option<int>,
    assigneeUsername: Option<string>,
    dueDate: Option<Time>,
    createdAt: Time,
    updatedAt: Time)

  /** domain.User. */
  datatype User = User(
    id: int,
    username: string,
    password: string,
    profilePhoto: string,
    createdAt: Time,
    updatedAt: Time)

  /** domain.ActivityLog: a log entry with its user's name joined in. */
  datatype ActivityLog = ActivityLog(
    id: int,
    ticketId: Option<int>,
    userId: int,
    username: string,
    action: string,
    createdAt: Time)

  /** The errors, one per distinct message prefix in the repositories and services. */
  datatype Error =
    | TicketCreateFailed
    | TicketNotFound
    | TicketUpdateFailed
    | TicketDeleteFailed
    | TicketStatusUpdateFailed
    | LogCreateFailed
    | CredentialsRequired
    | InvalidCredentials
    | PasswordTooShort
    | UsernameTaken
    | HashFailed
    | HashLibraryError(text: string)
    | UserCreateFailed
    | TokenFailed
    | UserNotFound
    | UserUpdateFailed

  /** The text of each error (the part the code itself writes; wrapped driver
      errors are not modelled). A hash error passed on unwrapped carries the hash
      library's own text. */
  function Message(e: Error): string {
    match e
    case TicketCreateFailed => "failed to create ticket"
    case TicketNotFound => "ticket not found"
    case TicketUpdateFailed => "failed to update ticket"
    case TicketDeleteFailed => "failed to delete ticket"
    case TicketStatusUpdateFailed => "failed to update ticket status"
    case LogCreateFailed => "failed to create activity log"
    case CredentialsRequired => "username and password are required"
    case InvalidCredentials => "invalid username or password"
    case PasswordTooShort => "password must be at least 6 characters"
    case UsernameTaken => "username already exists"
    case HashFailed => "failed to hash password"
    case HashLibraryError(text) => text
    case UserCreateFailed => "failed to create user"
    case TokenFailed => "failed to generate token"
    case UserNotFound => "user not found"
    case UserUpdateFailed => "failed to update user"
  }
}
