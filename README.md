# Kanban ticket board: a verified model

This project models the logic of a small kanban issue tracker.

- **Go backend.** Users, tickets and an activity log are stored in PostgreSQL. A ticket service and an auth service sit on top of three repositories.
- **React front end.** It has a board with search, priority filter, four fixed columns and drag and drop. It also has a dashboard of counts, an issue-creation dialog, a settings page and a route gate on the stored token.

The model is written in Dafny, in the source's own shape:

- Each SQL table is a `map` from id to row. All three maps live in one `Store.Db` object, together with a fresh-id counter per table.
- The repositories and services are classes whose methods change those maps. Their contracts state the whole new state.
- The clock (`now`) is a parameter.
- A statement that may fail in the database is a boolean parameter (`ok`, `insertOk`, `logOk`, ...).
- Password hashing, password checking and token signing are uninterpreted functions in `AuthSvc.Crypto`. The one assumption about them is `Sound`: a password checks against its own hash.
- The pure front-end code (the filter, the columns, the menu, the dashboard counts, the request bodies and the route gate) becomes functions with lemmas.
- The stateful front-end code (the drag handlers and the two forms) becomes classes with `modifies` frames.

Files:

| file | models |
|---|---|
| `wrappers.dfy` | `Option`, `Result` and `Outcome` |
| `ordering.dfy` | string order, the sort keys used by `ORDER BY`, and sorting a set of ids |
| `domain.dfy` | the Go domain records and the service error messages |
| `store.dfy` | the three tables and their id counters |
| `ticket_repository.dfy` | `backend/internal/repository/ticket_repository.go` |
| `activity_log_repository.dfy` | `backend/internal/repository/activity_log_repository.go` |
| `user_repository.dfy` | `backend/internal/repository/user_repository.go` |
| `ticket_service.dfy` | `backend/internal/service/ticket_service.go` |
| `auth_service.dfy` | `backend/internal/service/auth_service.go` |
| `board.dfy` | `frontend/src/components/kanban-board.tsx` |
| `dashboard.dfy` | `frontend/src/components/dashboard.tsx` |
| `create_issue.dfy` | `frontend/src/components/create-issue.tsx` |
| `profile.dfy` | `frontend/src/components/profile-page.tsx` |
| `app.dfy` | `frontend/src/App.tsx` |

## Model

| member | source | states |
|---|---|---|
| Ordering.StrLessTotal | backend/internal/repository/user_repository.go:97 | The string order used for `ORDER BY username` is total: of two different names, one sorts first. |
| Ordering.RankLessTransitive | backend/internal/repository/ticket_repository.go:65 | The composite sort key (text, then major, then minor) is transitively ordered. |
| Ordering.SortIds | backend/internal/repository/ticket_repository.go:65 | For an injective key, sorting a set of row ids gives a strictly ascending sequence holding exactly the ids of the set. |
| Ordering.AscendingUnique | backend/internal/repository/ticket_repository.go:65 | Two strictly ascending sequences with the same elements are equal, so an ordered query has exactly one answer. |
| Ordering.PrefixAscending | backend/internal/repository/activity_log_repository.go:48-49 | A prefix of an ascending sequence is ascending, and each of its elements ranks before every element after the cut. Follows from the definition of `Ascending` by unfolding. |
| TicketRepo.Prepare | backend/internal/repository/ticket_repository.go:27-36 | Both timestamps become `now`. An empty status becomes "Backlog" and an empty priority "Medium", and a non-empty one is kept. Every other field is unchanged. |
| TicketRepo.RowOf | backend/internal/repository/ticket_repository.go:22-23 | No contract; the nine INSERT columns. `TicketRepo.Joined` states that a returned ticket maps back to its stored row, and `TicketRepo.TicketRepository.Create` that the stored row is this one. |
| TicketRepo.Joined | backend/internal/repository/ticket_repository.go:100-130 | A ticket is returned iff its row exists and its creator exists (inner join). The creator name comes from the users table. The assignee name is present iff an assignee is set and exists (left join). The columns are the row's. |
| TicketRepo.Overwritten | backend/internal/repository/ticket_repository.go:132-139 | The UPDATE writes title, description, status, priority, due date, assignee and `updated_at` from the ticket. It keeps the creator and `created_at`. |
| TicketRepo.ListingNewestFirst | backend/internal/repository/ticket_repository.go:59-98 | A listing is in non-increasing `created_at` order. |
| TicketRepo.ListingUnique | backend/internal/repository/ticket_repository.go:59-98 | The tables determine the listing: two listings of the same tables and filter are equal. |
| TicketRepo.WithStatusMembers | backend/internal/repository/ticket_repository.go:172-180 | Restricting a listing to status `s` keeps exactly its tickets with status `s`. |
| TicketRepo.WithStatusAscending | backend/internal/repository/ticket_repository.go:172-180 | The restriction keeps the listing's order. |
| TicketRepo.ByStatusIsFiltered | backend/internal/repository/ticket_repository.go:172-212 | `FindByStatus(s)` equals `FindAll` restricted to status `s`, in the same order. |
| TicketRepo.TicketRepository.Create | backend/internal/repository/ticket_repository.go:20-57 | On success, one new row holds the prepared ticket under an unused id. The ticket comes back with that id, the defaults and the timestamps. On failure nothing changes. |
| TicketRepo.TicketRepository.Select | backend/internal/repository/ticket_repository.go:59-98 | The result is a listing: the selected joined rows, each once, newest first, ties broken by the higher id. |
| TicketRepo.TicketRepository.FindAll | backend/internal/repository/ticket_repository.go:59-98 | Every ticket whose creator exists, joined, newest first. |
| TicketRepo.TicketRepository.FindByStatus | backend/internal/repository/ticket_repository.go:172-212 | The tickets with exactly that status whose creator exists, newest first. |
| TicketRepo.TicketRepository.FindByID | backend/internal/repository/ticket_repository.go:100-130 | Returns the joined ticket iff the row and its creator exist. Otherwise the error is "ticket not found". |
| TicketRepo.TicketRepository.Update | backend/internal/repository/ticket_repository.go:132-159 | On success, row `t.id` is overwritten as `Overwritten` says and no other row changes. An unknown id is not an error and changes nothing. |
| TicketRepo.TicketRepository.UpdateStatus | backend/internal/repository/ticket_repository.go:214-223 | Changes only the status and `updated_at` of row `id`. An unknown id is not an error. |
| TicketRepo.TicketRepository.Delete | backend/internal/repository/ticket_repository.go:161-170 | The table loses row `id` and nothing else. An unknown id is not an error. |
| ActivityLogRepo.Joined | backend/internal/repository/activity_log_repository.go:45-47 | An entry is returned iff its user exists. The user name is filled in from the users table. |
| ActivityLogRepo.RowOf | backend/internal/repository/activity_log_repository.go:22-23 | No contract; the four INSERT columns. `ActivityLogRepo.Joined` and `ActivityLogRepo.ActivityLogRepository.Create` state that an entry maps to this row. |
| ActivityLogRepo.PageNewestFirst | backend/internal/repository/activity_log_repository.go:43-76 | A page is in non-increasing `created_at` order, and no omitted entry is newer than an entry on the page. |
| ActivityLogRepo.SmallLogFullyListed | backend/internal/repository/activity_log_repository.go:49 | A page with fewer than 100 entries holds every entry whose user exists. |
| ActivityLogRepo.ActivityLogRepository.Create | backend/internal/repository/activity_log_repository.go:20-41 | On success, appends one entry under an unused id with `created_at = now`, and returns the entry with that id and time. Existing entries are unchanged. On failure nothing changes. |
| ActivityLogRepo.ActivityLogRepository.FindAll | backend/internal/repository/activity_log_repository.go:43-76 | At most 100 joined entries, newest first. An entry is omitted only when the page is full and the entry ranks after all of it. |
| UserRepo.Loaded | backend/internal/repository/user_repository.go:49 | No contract; the look-up columns without profile_photo. `UserRepo.UserRepository.FindByUsername` and `UserRepo.UserRepository.FindByID` state that the returned user has an empty photo. |
| UserRepo.Listed | backend/internal/repository/user_repository.go:95 | No contract; the listing columns without password and profile_photo. `UserRepo.UserListingOrdered` states that no listed user carries either. |
| UserRepo.UserListingOrdered | backend/internal/repository/user_repository.go:93-122 | The listing is in ascending user-name order, has one entry per user, and carries neither password nor photo. |
| UserRepo.IdsCount | backend/internal/repository/user_repository.go:93-122 | The listing has as many entries as the table has users. |
| UserRepo.DistinctCount | backend/internal/repository/user_repository.go:97 | A strictly ascending id sequence has no repeated id. |
| UserRepo.UserRepository.Create | backend/internal/repository/user_repository.go:20-45 | On success, one new row holds name, password, an empty photo and both timestamps `now`, under an unused id. On failure nothing changes. |
| UserRepo.UserRepository.FindByUsername | backend/internal/repository/user_repository.go:47-68 | Succeeds iff some user has exactly that name, and returns that user with an empty photo. Otherwise the error is "user not found". |
| UserRepo.UserRepository.FindByID | backend/internal/repository/user_repository.go:70-91 | Succeeds iff the id exists, and returns its name, password and timestamps with an empty photo. |
| UserRepo.UserRepository.FindAll | backend/internal/repository/user_repository.go:93-122 | Every user once, by user name, without password or photo. |
| UserRepo.UserRepository.Update | backend/internal/repository/user_repository.go:124-148 | Overwrites name, password, photo and `updated_at` of row `u.id`, keeping `created_at`. Other rows are unchanged, and an unknown id is not an error. |
| TicketSvc.FromRequest | backend/internal/service/ticket_service.go:44-52 | No contract; the ticket built from the request. `TicketSvc.TicketService.CreateTicket` states the stored row and the response it leads to. |
| TicketSvc.Edited | backend/internal/service/ticket_service.go:137-142 | No contract; the six fields taken from the request. `TicketSvc.TicketService.UpdateTicket` states the row and the response it leads to. |
| TicketSvc.TicketService.CreateTicket | backend/internal/service/ticket_service.go:43-84 | A failed insert returns the error and writes and logs nothing. On success, one log entry is appended with the new id, the creator and "created ticket: " + title (its own failure is ignored). The response comes from the re-fetched row, with the defaults. Both counters advance by exactly the rows written. The response carries the creator's and the assignee's names. |
| TicketSvc.TicketService.FindAll | backend/internal/service/ticket_service.go:86-109 | The repository listing, each ticket without timestamps, in the same order. |
| TicketSvc.TicketService.FindByID | backend/internal/service/ticket_service.go:111-129 | The repository look-up without timestamps, and the same error. |
| TicketSvc.TicketService.UpdateTicket | backend/internal/service/ticket_service.go:131-174 | An unknown id or a failed update writes and logs nothing. Otherwise the six request fields are overwritten and the creator is kept. The log gets "updated ticket: " + title under the ticket's creator, not the caller. The log counter advances only when the entry is written. The response carries the creator's and the assignee's names. |
| TicketSvc.TicketService.DeleteTicket | backend/internal/service/ticket_service.go:176-178 | The repository delete, with no log entry. |
| TicketSvc.TicketService.UpdateStatus | backend/internal/service/ticket_service.go:180-193 | Sets any status string. Only on success does it log "changed status to " + status under the calling user. The log counter advances only then. |
| TicketSvc.ToResponse | backend/internal/service/ticket_service.go:72-83 | No contract: a field-by-field copy without the timestamps; `TicketSvc.TicketService.FindByID` and `FindAll` state what it is applied to. |
| AuthSvc.Utf8Len | backend/internal/service/auth_service.go:69 | Go's byte length of a string lies between its length and four times its length, and equals its length for ASCII text. |
| AuthSvc.SignupGate | backend/internal/service/auth_service.go:65-77 | Checks come in order, each outcome stated both ways: "required" iff a field is empty; "too short" iff both fields are present and the password has under 6 bytes; "taken" iff both are present, the password is long enough and the name is taken; pass iff all three checks hold. |
| AuthSvc.PasswordLengthInBytes | backend/internal/service/auth_service.go:69 | The length rule counts bytes: "ééé" passes and "abcde" is too short. A missing field is reported before a taken name. |
| AuthSvc.AuthService.Login | backend/internal/service/auth_service.go:34-61 | "Required" iff a field is empty, before any look-up. An unknown name, or a password that checks against no stored hash of that name, gives "invalid username or password"; that error only comes when the name is unknown or some user of that name fails the check. A token failure only after a user of that name passed the check. Success returns the user found by that name, whose stored hash checks, with a token for it. |
| AuthSvc.AuthService.Signup | backend/internal/service/auth_service.go:63-105 | Each gate, hash or insert failure returns its error and creates no user. Success stores exactly one new row with the hash, not the plain password. Afterwards a login with the same credentials is accepted. |
| AuthSvc.AuthService.UpdateProfile | backend/internal/service/auth_service.go:119-129 | An unknown id is an error with no write. Otherwise the name and photo are set, with no emptiness or uniqueness check. |
| AuthSvc.AuthService.UpdatePassword | backend/internal/service/auth_service.go:131-145 | An unknown id or a failed hash means no write. Otherwise the new hash is stored with no length rule, and the photo is cleared because the look-up did not read it. A hash failure is returned unwrapped, carrying the hash library's own message, not Signup's "failed to hash password". |
| Board.KeepSpec | frontend/src/components/kanban-board.tsx:249-254 | `filter` keeps exactly the accepted tickets, as an order-preserving subsequence. Its length equals the input's iff every ticket is accepted. |
| Board.ContainsSpec | frontend/src/components/kanban-board.tsx:250-251 | `includes` holds iff the needle occurs at some position of the haystack. |
| Board.FilterSpec | frontend/src/components/kanban-board.tsx:249-254 | A ticket is visible iff the lower-cased search occurs in its lower-cased title or description, and the priority filter is "All" or equal to its priority. Visible tickets keep their order. |
| Board.FilterNoCriteria | frontend/src/components/kanban-board.tsx:249-253 | An empty search with "All" shows the full list. |
| Board.Filter | frontend/src/components/kanban-board.tsx:249-254 | No contract; `Board.FilterSpec` states what it keeps. |
| Board.ExactlyOneColumn | frontend/src/components/kanban-board.tsx:64 | A visible ticket whose status is a column name is in exactly that column. Any other ticket is in none. |
| Board.Column | frontend/src/components/kanban-board.tsx:387-395 | No contract; `Board.ExactlyOneColumn`, `Board.ColumnCountsSum` and `Board.VisibleColumns` state what it holds. |
| Board.ColumnCountsSum | frontend/src/components/kanban-board.tsx:387-395 | The four column counts add up to the number of tickets whose status is a column name. |
| Board.VisibleColumns | frontend/src/components/kanban-board.tsx:387-395 | Applied to the visible tickets: a column holds exactly the tickets that match the search and the filter and have that status; each visible ticket with a column status is in exactly one column; the counts add up to the visible tickets with a column status. |
| Board.MenuOptionsSpec | frontend/src/components/kanban-board.tsx:115 | The "Move to" menu offers every column except the card's own, in column order: three for a card in a column. |
| Board.MenuOptions | frontend/src/components/kanban-board.tsx:115 | No contract; the filter of the columns by `c != status`, and `Board.MenuOptionsSpec` states which columns it lists. |
| Board.Menu | frontend/src/components/kanban-board.tsx:115-128 | No contract; `Board.MenuCommandSpec` states what its entries send. |
| Board.MenuCommand | frontend/src/components/kanban-board.tsx:118-125 | No contract; `Board.MenuCommandSpec` states what it sends. |
| Board.MenuCommandSpec | frontend/src/components/kanban-board.tsx:115-128 | Every click on a card's menu sends one request about that card: a move to a column other than its own, or its deletion. A move to each other column, and the deletion, are all on offer. |
| Board.FindById | frontend/src/components/kanban-board.tsx:272 | `find` returns the first ticket with the id, or nothing iff no ticket has it. |
| Board.ResolveStatus | frontend/src/components/kanban-board.tsx:267-276 | A column name resolves to itself and any other string to nothing. A card's id resolves to that card's status in the unfiltered list. |
| Board.DropCommand | frontend/src/components/kanban-board.tsx:263-283 | A drop sends an update iff there is a target, it resolves to a non-empty status, the dragged ticket is found and its status differs. The update is for the dragged id and that status. |
| Board.DropOnColumn | frontend/src/components/kanban-board.tsx:269-270 | Dropping on another column sends exactly the update to that column. A special case of `Board.DropCommand`, holding by unfolding. |
| Board.DropOnCard | frontend/src/components/kanban-board.tsx:271-281 | Dropping on a card moves the dragged ticket to that card's status, and sends nothing when the statuses agree. A special case of `Board.DropCommand`, holding by unfolding. |
| Board.NoTargetNoCommand | frontend/src/components/kanban-board.tsx:263 | No drop target, or no resolved status, sends nothing. A special case of `Board.DropCommand`, holding by unfolding. |
| Board.BoardController.DragStart | frontend/src/components/kanban-board.tsx:256-258 | Sets the active id to the dragged ticket's id. |
| Board.BoardController.DragEnd | frontend/src/components/kanban-board.tsx:260-287 | Sends exactly `DropCommand`'s update, if any, and always clears the active id. |
| Board.BoardController.constructor | frontend/src/components/kanban-board.tsx:205-207 | Nothing is being dragged, the search is empty and the filter is "All", so every ticket is visible. |
| Board.BoardController.SetSearchQuery | frontend/src/components/kanban-board.tsx:349 | The search input sets the query and nothing else. |
| Board.BoardController.SetPriorityFilter | frontend/src/components/kanban-board.tsx:357 | The priority select sets the filter and nothing else. |
| Dashboard.StatusCountIsMultiplicity | frontend/src/components/dashboard.tsx:38-43 | A status count is the number of tickets whose status is exactly that name. |
| Dashboard.PriorityCountIsMultiplicity | frontend/src/components/dashboard.tsx:45-49 | A priority count is the number of tickets with exactly that priority. |
| Dashboard.StatusDataSpec | frontend/src/components/dashboard.tsx:38-43 | The status chart lists Backlog, Todo, In Progress and Done, in that order, each with its exact count. |
| Dashboard.PriorityDataSpec | frontend/src/components/dashboard.tsx:45-49 | The priority chart lists High, Medium and Low, in that order, each with its exact count. |
| Dashboard.CountStatus | frontend/src/components/dashboard.tsx:39-42 | No contract; `Dashboard.StatusCountIsMultiplicity` and `Dashboard.StatusDataSpec` state its value. |
| Dashboard.CountPriority | frontend/src/components/dashboard.tsx:46-48 | No contract; `Dashboard.PriorityCountIsMultiplicity` and `Dashboard.PriorityDataSpec` state its value. |
| Dashboard.StatusData | frontend/src/components/dashboard.tsx:38-43 | No contract; `Dashboard.StatusDataSpec` and `Dashboard.StatusCountIsMultiplicity` state its entries. |
| Dashboard.PriorityData | frontend/src/components/dashboard.tsx:45-49 | No contract; `Dashboard.PriorityDataSpec` and `Dashboard.PriorityCountIsMultiplicity` state its entries. |
| Dashboard.TotalIssues | frontend/src/components/dashboard.tsx:100 | No contract; `Dashboard.NoDataAllZero` states its value. |
| Dashboard.NoDataAllZero | frontend/src/components/dashboard.tsx:100 | Before the data loads every figure is 0. Afterwards the total is the list's length. Holds by unfolding the definitions. |
| Dashboard.CardsMatchCharts | frontend/src/components/dashboard.tsx:109-129 | The In Progress, Completed and High Priority cards equal the matching chart entries. Holds by unfolding: the cards and the charts use the same filters. |
| Dashboard.InProgressCard | frontend/src/components/dashboard.tsx:109 | No contract; `Dashboard.CardsMatchCharts` states that it equals the "In Progress" chart entry. |
| Dashboard.CompletedCard | frontend/src/components/dashboard.tsx:119 | No contract; `Dashboard.CardsMatchCharts` states that it equals the "Done" chart entry. |
| Dashboard.HighPriorityCard | frontend/src/components/dashboard.tsx:129 | No contract; `Dashboard.CardsMatchCharts` states that it equals the "High" chart entry. |
| Dashboard.StatusSumBound | frontend/src/components/dashboard.tsx:38-43 | The four status counts sum to at most the total. They sum to exactly the total iff every status is a column name. |
| Dashboard.ThreeTicketScenario | frontend/src/components/dashboard.tsx:38-43 | One Backlog and two Todo tickets chart as 1, 2, 0, 0 with total 3. |
| CreateIssue.DigitPrefix | frontend/src/components/create-issue.tsx:51 | The longest run of decimal digits at the front of a string. |
| CreateIssue.ParseInt | frontend/src/components/create-issue.tsx:51 | `parseInt` gives NaN (null) iff no digit follows the optional sign. It is negative only after a minus sign. |
| CreateIssue.DecimalString | frontend/src/components/create-issue.tsx:136 | An id in decimal: non-empty, all digits, no leading zero. |
| CreateIssue.DigitsOfDecimal | frontend/src/components/create-issue.tsx:136 | Reading the decimal digits of `n` back gives `n`. |
| CreateIssue.ParseDecimal | frontend/src/components/create-issue.tsx:51 | `parseInt` of an id in decimal, followed by any non-digit text, is that id. With a leading minus it is its negation. |
| CreateIssue.NothingToParse | frontend/src/components/create-issue.tsx:51 | An empty string, a lone sign and non-numeric text parse to NaN. Worked examples of `CreateIssue.ParseInt`, holding by unfolding. |
| CreateIssue.Body | frontend/src/components/create-issue.tsx:45-52 | The body carries the three text fields unchanged and status "Todo" whatever the form holds. `due_date` is null iff the date is empty, and an empty assignee is null. |
| CreateIssue.ChosenAssignee | frontend/src/components/create-issue.tsx:51 | Choosing a user from the select sends exactly that id. "Unassigned" sends null. |
| CreateIssue.IssueForm.constructor | frontend/src/components/create-issue.tsx:28-32 | Starts with title, description, due date and assignee empty and priority "Medium". |
| CreateIssue.IssueForm.Submit | frontend/src/components/create-issue.tsx:69-72 | Something is sent iff the dialog is open, the title is non-empty and no create is pending. What is sent is the body of the current fields. |
| CreateIssue.IssueForm.Succeeded | frontend/src/components/create-issue.tsx:54-62 | The dialog closes and all five fields return to their initial values. |
| CreateIssue.IssueForm.Failed | frontend/src/components/create-issue.tsx:63-66 | Alerts the error's message or "Failed to create ticket". The fields are untouched. |
| CreateIssue.IssueForm.Cancel | frontend/src/components/create-issue.tsx:142 | Closes the dialog and keeps what was typed. |
| Profile.ProfileBodyOf | frontend/src/components/profile-page.tsx:34 | A profile save sends the current name and an empty photo. |
| Profile.PressChangePassword | frontend/src/components/profile-page.tsx:44-45 | The press is disabled iff a change is pending or the password is empty. It is a mismatch iff enabled and the two fields differ. Otherwise it sends the password. |
| Profile.SentPasswordConfirmed | frontend/src/components/profile-page.tsx:44-45 | A request is sent iff the button is enabled and both fields agree. A restatement of `Profile.PressChangePassword`, holding by unfolding. |
| Profile.ProfileForm.SaveProfile | frontend/src/components/profile-page.tsx:32-35 | Sends the profile body iff no save is pending. |
| Profile.ProfileForm.ProfileSettled | frontend/src/components/profile-page.tsx:36-39 | A successful save alerts "Profile updated!". A failed one shows nothing. |
| Profile.ProfileForm.ChangePassword | frontend/src/components/profile-page.tsx:42-46 | Disabled: nothing happens. Mismatch: "Passwords do not match" is alerted and nothing is sent. Otherwise the password is sent. |
| Profile.ProfileForm.PasswordSucceeded | frontend/src/components/profile-page.tsx:47-51 | Both password fields are cleared, "Password updated!" is alerted, and the button is disabled again. |
| Profile.ProfileForm.PasswordFailed | frontend/src/components/profile-page.tsx:52-54 | The message is alerted and the fields keep what was typed. |
| Profile.ProfileForm.constructor | frontend/src/components/profile-page.tsx:15-17 | All three fields start empty, nothing is pending, and the password button starts disabled. |
| App.Gate | frontend/src/App.tsx:12-18 | Redirects to `/login` iff the token is absent or empty. Any other token renders the page unexamined. |
| App.Lookup | frontend/src/App.tsx:24-59 | Finds a route with the given path, or none iff no route has it. |
| App.Normalize | frontend/src/App.tsx:24-59 | No contract; `App.RoutesNormal` and `App.MatchingIsLoose` state how it is used. |
| App.Navigate | frontend/src/App.tsx:22-60 | No contract; `App.PublicPagesNeverGated`, `App.AppPagesGated`, `App.MatchingIsLoose` and `App.RedirectOnlyWithoutToken` state what each path shows. |
| App.PublicPagesNeverGated | frontend/src/App.tsx:24-33 | `/login` and `/signup` render whatever the token. |
| App.PathsDistinct | frontend/src/App.tsx:24-59 | No two routes share a path. |
| App.RoutesNormal | frontend/src/App.tsx:24-59 | Every route path is already in the normal form that matching compares, so each route is found at its own path. |
| App.MatchingIsLoose | frontend/src/App.tsx:24-59 | A path with a trailing slash, or with its ASCII letters lower-cased, shows the same as the path itself, because no route sets `caseSensitive`. |
| App.DashboardAnyCase | frontend/src/App.tsx:40-44 | `/Dashboard` renders the dashboard for a signed-in visitor. An instance of `App.MatchingIsLoose` and `App.AppPagesGated`. |
| App.LogsTrailingSlash | frontend/src/App.tsx:55-59 | `/logs/` without a token redirects to `/login`. An instance of `App.MatchingIsLoose` and `App.AppPagesGated`. |
| App.AppPagesGated | frontend/src/App.tsx:34-59 | `/`, `/dashboard`, `/calendar`, `/profile` and `/logs` are gated. Each redirects without a non-empty token and renders its own page with one. |
| App.RedirectOnlyWithoutToken | frontend/src/App.tsx:13-17 | Every redirect goes to `/login` and happens only without a usable token. Two non-empty tokens always give the same view. Follows from `App.Gate` by unfolding. |

## Left out

- React rendering, styling, icons, dialogs and toasts have no behaviour to state. They are not modelled.
- dnd-kit internals (sensors, collision detection, the drag overlay) are not modelled. Only the `over.id` that reaches `handleDragEnd` is modelled, as `Board.DropTarget`.
- react-query caching, invalidation, refetching and timing are not modelled. A mutation is modelled as the request it would send, and its settling as an explicit `Succeeded`/`Failed` call.
- The board's requests are modelled as an emitted `Board.Command`: the drop's status update by `Board.BoardController.DragEnd`, and the card menu's "Move to" and "Delete" clicks by `Board.MenuCommand`. Sending them, and refetching the board afterwards, is not modelled.
- The board's two filter inputs are the methods `SetSearchQuery` and `SetPriorityFilter`. The field setters of the issue dialog and the settings page (`setTitle`, `setPassword`, ...) are plain assignments to the class fields, not separate methods.
- TicketSvc.TicketService.CreateTicket, TicketSvc.TicketService.UpdateTicket, TicketSvc.TicketService.UpdateStatus: each call is one atomic step. The Go code finds, writes, logs and re-reads without a transaction while requests are served concurrently. A delete that lands between the write and the re-read would make the re-read fail. That interleaving is not modelled, so the model's re-read always finds the row.
- `localStorage`, navigation, log-in and sign-up forms, logout buttons, the user menu, notifications, the calendar view and the activity-log page are left out. They are browser I/O or date arithmetic.
- The gin handlers, the router and `main.go` are HTTP plumbing, so they are left out. Which user calls an operation is therefore a parameter.
- The todo repository and todo service are not wired into the program, so they are left out. The activity-log service is a pass-through, and so are the auth service's `GetUserByID` and `FindAllUsers`.
- PostgreSQL is not modelled. Each table is a map with a fresh-id counter.
- Gaps in serial ids are not modelled: the model's ids have no gaps, because a failed insert leaves its counter unchanged. A PostgreSQL serial is not rolled back, so an INSERT that fails after `nextval` (a foreign-key violation on `creator_id`, say) uses up an id and the real ids may skip.
- Read-side database errors are not modelled: reads never fail except for not-found.
- Foreign keys, column defaults and uniqueness of user names are schema matters outside the Go code. `profile_photo` is taken to default to the empty string.
- Collation and ties are not modelled. Text sorts by code point. Rows with equal `created_at` (or equal user names) are ordered by id, where the database leaves their order unspecified.
- `time.Now()` is one `now` parameter per call. A service call that reads the clock in two repositories sees the same time in both.
- Hashing, checking and token signing are uninterpreted. The salt and the bcrypt and JWT formats are not modelled.
- UserRepo.UserRepository.FindByUsername: with several users of one name it returns any one of them, where the database returns one it picks.
- TicketSvc.TicketService.FindAll: an empty result is `[]`. Go returns a nil slice, which the JSON response carries as null, and the board treats null like an empty list.
- Board.LowerChar: `toLowerCase` is modelled for ASCII letters only. Other scripts are compared case-sensitively. The same holds for the route matching of `App.Normalize`, which React Router does with a case-insensitive pattern.
- CreateIssue.ParseInt: leading blanks, a `0x` prefix and the loss of precision of very long digit runs are not modelled. The assignee select only holds "" and decimal ids.
- CreateIssue.Body: `new Date(d).toISOString()` is the parameter `iso`. An invalid date, which would throw, cannot come from a date input.
- The settings page's profile look-up is not modelled. Its `setUsername` sits in `meta.onSuccess`. The model assumes a query client with no global callback that reads `meta`, which is react-query's default, so the name field starts empty and stays so until typed into. The query client's setup is not part of this model.
