/** frontend/src/components/kanban-board.tsx: the board's search and priority filter,
    its four fixed columns, the per-card "Move to" menu, and the drag-and-drop handlers
    that turn a drop into at most one status update. */
module Board {
  import opened Wrappers

  /** A ticket as the board receives it from `GET /tickets/`. */
  datatype Ticket = Ticket(
    id: int,
    title: string,
    description: string,
    status: string,
    priority: string,
    dueDate: Option<string>,
    creatorId: int,
    creatorUsername: string,
    assigneeId: Option<int>,
    assigneeUsername: Option<string>)

  /** `COLUMNS`. */
  const Columns: seq<string> := ["Backlog", "Todo", "In Progress", "Done"]

  /** `Array.prototype.filter`. */
  function Keep<T>(ts: seq<T>, f: T -> bool): seq<T> {
    if ts == [] then [] else (if f(ts[0]) then [ts[0]] else []) + Keep(ts[1..], f)
  }

  /** `a` is `b` with some elements left out, the rest in their order. */
  predicate IsSubsequence<T(==)>(a: seq<T>, b: seq<T>)
    decreases |b|
  {
    a == [] || (b != [] && ((a[0] == b[0] && IsSubsequence(a[1..], b[1..])) || IsSubsequence(a, b[1..])))
  }

  /** `Keep` keeps exactly the elements `f` accepts, in order, and never adds one. */
  lemma {:induction false} KeepSpec<T>(ts: seq<T>, f: T -> bool)
    ensures forall t :: t in Keep(ts, f) <==> t in ts && f(t)
    ensures IsSubsequence(Keep(ts, f), ts)
    ensures |Keep(ts, f)| <= |ts|
    ensures |Keep(ts, f)| == |ts| <==> forall i :: 0 <= i < |ts| ==> f(ts[i])
  {
    if ts != [] {
      KeepSpec(ts[1..], f);
      assert ts == [ts[0]] + ts[1..];
      var k := Keep(ts, f);
      if f(ts[0]) {
        assert k[0] == ts[0] && k[1..] == Keep(ts[1..], f);
      } else {
        assert k == Keep(ts[1..], f);
        assert !(forall i :: 0 <= i < |ts| ==> f(ts[i])) by {
          assert !f(ts[0]);
        }
      }
      if forall i :: 0 <= i < |ts[1..]| ==> f(ts[1..][i]) {
      } else {
        var i :| 0 <= i < |ts[1..]| && !f(ts[1..][i]);
        assert !f(ts[i + 1]);
      }
    }
  }

  /** ASCII `toLowerCase`. */
  function LowerChar(c: char): char {
    if 'A' <= c <= 'Z' then (c as int + 32) as char else c
  }

  function ToLower(s: string): string {
    seq(|s|, i requires 0 <= i < |s| => LowerChar(s[i]))
  }

  /** `String.prototype.includes`. */
  function Contains(hay: string, needle: string): bool
    decreases |hay|
  {
    if needle <= hay then true
    else if |hay| <= |needle| then false
    else Contains(hay[1..], needle)
  }

  ghost predicate OccursAt(hay: string, needle: string, i: int) {
    0 <= i && i + |needle| <= |hay| && hay[i..i + |needle|] == needle
  }

  /** `Contains` finds the needle exactly when it occurs somewhere in the haystack;
      the empty needle occurs everywhere. */
  lemma {:induction false} ContainsSpec(hay: string, needle: string)
    ensures Contains(hay, needle) <==> exists i :: OccursAt(hay, needle, i)
    decreases |hay|
  {
    if needle <= hay {
      assert OccursAt(hay, needle, 0);
    } else if |hay| <= |needle| {
      assert forall i :: !OccursAt(hay, needle, i);
    } else {
      ContainsSpec(hay[1..], needle);
      forall i | OccursAt(hay, needle, i) ensures OccursAt(hay[1..], needle, i - 1) {
        assert i != 0;
        assert hay[1..][i - 1..i - 1 + |needle|] == hay[i..i + |needle|];
      }
      forall j | OccursAt(hay[1..], needle, j) ensures OccursAt(hay, needle, j + 1) {
        assert hay[1..][j..j + |needle|] == hay[j + 1..j + 1 + |needle|];
      }
    }
  }

  /** The search term occurs, ignoring case, in the title or in the description. */
  predicate MatchesSearch(t: Ticket, query: string) {
    var q := ToLower(query);
    Contains(ToLower(t.title), q) || Contains(ToLower(t.description), q)
  }

  /** The priority filter is `All` or names the ticket's priority exactly. */
  predicate MatchesPriority(t: Ticket, priority: string) {
    priority == "All" || t.priority == priority
  }

  function Matches(query: string, priority: string): Ticket -> bool {
    (t: Ticket) => MatchesSearch(t, query) && MatchesPriority(t, priority)
  }

  /** `filteredTickets`. */
  function Filter(ts: seq<Ticket>, query: string, priority: string): seq<Ticket> {
    Keep(ts, Matches(query, priority))
  }

  /** A ticket is visible exactly when it matches the search and the priority filter,
      and the visible tickets keep their order. */
  lemma FilterSpec(ts: seq<Ticket>, query: string, priority: string)
    ensures forall t :: t in Filter(ts, query, priority) <==>
              && t in ts
              && ((exists i :: OccursAt(ToLower(t.title), ToLower(query), i))
                  || (exists i :: OccursAt(ToLower(t.description), ToLower(query), i)))
              && (priority == "All" || t.priority == priority)
    ensures IsSubsequence(Filter(ts, query, priority), ts)
  {
    KeepSpec(ts, Matches(query, priority));
    forall t: Ticket
      ensures Matches(query, priority)(t) <==>
                && ((exists i :: OccursAt(ToLower(t.title), ToLower(query), i))
                    || (exists i :: OccursAt(ToLower(t.description), ToLower(query), i)))
                && (priority == "All" || t.priority == priority)
    {
      ContainsSpec(ToLower(t.title), ToLower(query));
      ContainsSpec(ToLower(t.description), ToLower(query));
    }
  }

  /** With an empty search and `All` priorities the board shows every ticket. */
  lemma FilterNoCriteria(ts: seq<Ticket>)
    ensures Filter(ts, "", "All") == ts
  {
    var f := Matches("", "All");
    forall i | 0 <= i < |ts| ensures f(ts[i]) {
      assert ToLower("") == "";
    }
    KeepSpec(ts, f);
    KeepAll(ts, f);
  }

  lemma {:induction false} KeepAll<T>(ts: seq<T>, f: T -> bool)
    requires forall i :: 0 <= i < |ts| ==> f(ts[i])
    ensures Keep(ts, f) == ts
  {
    if ts != [] {
      KeepAll(ts[1..], f);
      assert ts == [ts[0]] + ts[1..];
    }
  }

  function StatusIs(c: string): Ticket -> bool {
    (t: Ticket) => t.status == c
  }

  /** The cards of column `c`: `filteredTickets.filter(t => t.status === column)`. */
  function Column(ts: seq<Ticket>, c: string): seq<Ticket> {
    Keep(ts, StatusIs(c))
  }

  /** A visible ticket whose status is one of the four columns is in exactly that
      column; a ticket with any other status is in none of them. */
  lemma ExactlyOneColumn(ts: seq<Ticket>, t: Ticket)
    requires t in ts
    ensures t.status in Columns ==> forall c :: c in Columns ==> (t in Column(ts, c) <==> c == t.status)
    ensures t.status !in Columns ==> forall c :: c in Columns ==> t !in Column(ts, c)
  {
    forall c | c in Columns {
      KeepSpec(ts, StatusIs(c));
    }
  }

  function InAnyColumn(): Ticket -> bool {
    (t: Ticket) => t.status in Columns
  }

  /** The four column counts add up to the number of tickets whose status is a column. */
  lemma {:induction false} ColumnCountsSum(ts: seq<Ticket>)
    ensures |Column(ts, Columns[0])| + |Column(ts, Columns[1])| + |Column(ts, Columns[2])| + |Column(ts, Columns[3])|
            == |Keep(ts, InAnyColumn())|
  {
    if ts != [] {
      ColumnCountsSum(ts[1..]);
    }
  }

  /** The board's columns are cut from the visible tickets: a column holds exactly the
      tickets that match the search and the priority filter and have that status, each
      visible ticket with a column status is in exactly one column, and the column
      counts add up to the visible tickets with a column status. */
  lemma VisibleColumns(ts: seq<Ticket>, query: string, priority: string)
    ensures var v := Filter(ts, query, priority);
            forall c, t :: t in Column(v, c) <==> t in ts && Matches(query, priority)(t) && t.status == c
    ensures var v := Filter(ts, query, priority);
            forall t :: t in v && t.status in Columns ==>
              forall c :: c in Columns ==> (t in Column(v, c) <==> c == t.status)
    ensures var v := Filter(ts, query, priority);
            |Column(v, Columns[0])| + |Column(v, Columns[1])| + |Column(v, Columns[2])| + |Column(v, Columns[3])|
            == |Keep(v, InAnyColumn())|
  {
    var v := Filter(ts, query, priority);
    KeepSpec(ts, Matches(query, priority));
    forall c { KeepSpec(v, StatusIs(c)); }
    forall t | t in v { ExactlyOneColumn(v, t); }
    ColumnCountsSum(v);
  }

  /** The columns offered in a card's "Move to" menu: `COLUMNS.filter(c => c !== status)`. */
  function MenuOptions(status: string): seq<string> {
    Keep(Columns, (c: string) => c != status)
  }

  /** `Keep` over four elements, spelled out. */
  lemma KeepFour<T>(a: T, b: T, c: T, d: T, f: T -> bool)
    ensures Keep([a, b, c, d], f) ==
              (if f(a) then [a] else []) + (if f(b) then [b] else []) +
              (if f(c) then [c] else []) + (if f(d) then [d] else [])
  {
    assert [d][1..] == [];
    assert Keep([d], f) == (if f(d) then [d] else []);
    assert [c, d][1..] == [d];
    assert Keep([c, d], f) == (if f(c) then [c] else []) + Keep([d], f);
    assert [b, c, d][1..] == [c, d];
    assert Keep([b, c, d], f) == (if f(b) then [b] else []) + Keep([c, d], f);
    assert [a, b, c, d][1..] == [b, c, d];
  }

  /** The menu lists every column except the card's own, in column order: three of
      them for a card in a column, all four otherwise. */
  lemma MenuOptionsSpec(status: string)
    ensures forall c :: c in MenuOptions(status) <==> c in Columns && c != status
    ensures IsSubsequence(MenuOptions(status), Columns)
    ensures |MenuOptions(status)| == if status in Columns then 3 else 4
  {
    var f := (c: string) => c != status;
    KeepSpec(Columns, f);
    KeepFour(Columns[0], Columns[1], Columns[2], Columns[3], f);
    assert Columns == [Columns[0], Columns[1], Columns[2], Columns[3]];
  }

  /** `tickets?.find(t => t.id === id)`: the first ticket with that id. */
  function FindById(ts: seq<Ticket>, id: int): (r: Option<Ticket>)
    ensures r.None? <==> forall t :: t in ts ==> t.id != id
    ensures r.Some? ==> exists i :: 0 <= i < |ts| && ts[i] == r.value && r.value.id == id
                                    && forall j :: 0 <= j < i ==> ts[j].id != id
  {
    if ts == [] then None
    else if ts[0].id == id then Some(ts[0])
    else
      var r := FindById(ts[1..], id);
      assert forall t :: t in ts ==> t == ts[0] || t in ts[1..];
      if r.Some? then
        var i :| 0 <= i < |ts[1..]| && ts[1..][i] == r.value && r.value.id == id
                 && forall j :: 0 <= j < i ==> ts[1..][j].id != id;
        assert ts[i + 1] == r.value && forall j :: 0 <= j < i + 1 ==> ts[j].id != id;
        r
      else r
  }

  /** `over.id`: a column's droppable id is its name, a card's is its ticket id. */
  datatype DropTarget = StringId(name: string) | NumberId(number: int)

  /** The requests the board sends: `PATCH /tickets/:id/status` and `DELETE /tickets/:id`. */
  datatype Command = UpdateStatus(id: int, status: string) | Delete(id: int)

  /** An entry of a card's dropdown menu: "Move to <status>" or "Delete". */
  datatype MenuItem = MoveTo(status: string) | DeleteItem

  /** The card's dropdown menu: one "Move to" entry per option, then "Delete". */
  function Menu(t: Ticket): seq<MenuItem> {
    var opts := MenuOptions(t.status);
    seq(|opts|, i requires 0 <= i < |opts| => MoveTo(opts[i])) + [DeleteItem]
  }

  /** The click handlers of the menu entries: `onUpdateStatus(ticket.id, newStatus)`
      and `onDelete(ticket.id)`. */
  function MenuCommand(t: Ticket, item: MenuItem): Command {
    match item
    case MoveTo(s) => UpdateStatus(t.id, s)
    case DeleteItem => Delete(t.id)
  }

  /** Every menu click sends one request about the card itself: either a move to
      another column or its deletion. Moving to each other column, and deleting, are
      all on offer. */
  lemma MenuCommandSpec(t: Ticket)
    ensures forall item :: item in Menu(t) ==>
              || MenuCommand(t, item) == Delete(t.id)
              || (&& MenuCommand(t, item) == UpdateStatus(t.id, MenuCommand(t, item).status)
                  && MenuCommand(t, item).status in Columns
                  && MenuCommand(t, item).status != t.status)
    ensures forall c :: c in Columns && c != t.status ==>
              exists item :: item in Menu(t) && MenuCommand(t, item) == UpdateStatus(t.id, c)
    ensures exists item :: item in Menu(t) && MenuCommand(t, item) == Delete(t.id)
  {
    var opts := MenuOptions(t.status);
    var m := Menu(t);
    MenuOptionsSpec(t.status);
    assert m[|m| - 1] == DeleteItem && m[|m| - 1] in m;
    assert MenuCommand(t, m[|m| - 1]) == Delete(t.id);
    forall item | item in m
      ensures item == DeleteItem || (item.MoveTo? && item.status in opts)
    {
      var k :| 0 <= k < |m| && m[k] == item;
      if k < |opts| {
        assert item == MoveTo(opts[k]);
      }
    }
    forall c | c in Columns && c != t.status
      ensures exists item :: item in m && MenuCommand(t, item) == UpdateStatus(t.id, c)
    {
      var k :| 0 <= k < |opts| && opts[k] == c;
      assert m[k] == MoveTo(c) && m[k] in m;
      assert MenuCommand(t, m[k]) == UpdateStatus(t.id, c);
    }
  }

  /** `newStatus`: a column name dropped on, or the status of the card dropped on,
      looked up among all tickets (not only the visible ones). A string that is not a
      column never equals a numeric ticket id, so it resolves to nothing. */
  function ResolveStatus(ts: seq<Ticket>, target: DropTarget): (r: Option<string>)
    ensures target.StringId? ==> r == (if target.name in Columns then Some(target.name) else None)
    ensures target.NumberId? ==> (r.Some? <==> FindById(ts, target.number).Some?)
    ensures target.NumberId? && r.Some? ==> r.value == FindById(ts, target.number).value.status
  {
    match target
    case StringId(name) => if name in Columns then Some(name) else None
    case NumberId(n) =>
      match FindById(ts, n)
      case Some(t) => Some(t.status)
      case None => None
  }

  /** What a drop sends: a status update for the dragged ticket, when there is a
      drop target, it resolves to a non-empty status (`if (newStatus)`), the dragged
      ticket is found, and its status differs; otherwise nothing. */
  function DropCommand(ts: seq<Ticket>, active: int, over: Option<DropTarget>): (r: Option<Command>)
    ensures r.Some? <==>
              && over.Some?
              && ResolveStatus(ts, over.value).Some? && ResolveStatus(ts, over.value).value != ""
              && FindById(ts, active).Some?
              && FindById(ts, active).value.status != ResolveStatus(ts, over.value).value
    ensures r.Some? ==> r.value == UpdateStatus(active, ResolveStatus(ts, over.value).value)
  {
    if over.None? then None
    else
      var newStatus := ResolveStatus(ts, over.value);
      if newStatus.None? || newStatus.value == "" then None
      else
        match FindById(ts, active)
        case None => None
        case Some(t) => if t.status != newStatus.value then Some(UpdateStatus(active, newStatus.value)) else None
  }

  /** Dropping a ticket onto another column sends exactly one update, to that column.
      A special case of `DropCommand`'s contract, stated for the column drop. */
  lemma DropOnColumn(ts: seq<Ticket>, active: int, c: string)
    requires c in Columns
    requires FindById(ts, active).Some? && FindById(ts, active).value.status != c
    ensures DropCommand(ts, active, Some(StringId(c))) == Some(UpdateStatus(active, c))
  {
  }

  /** Dropping onto a card moves the dragged ticket to that card's status, and sends
      nothing when the two statuses agree. A special case of `DropCommand`'s contract,
      stated for the card drop. */
  lemma DropOnCard(ts: seq<Ticket>, active: int, card: int)
    requires FindById(ts, card).Some? && FindById(ts, active).Some?
    ensures var target, dragged := FindById(ts, card).value, FindById(ts, active).value;
            DropCommand(ts, active, Some(NumberId(card))) ==
              if target.status != "" && target.status != dragged.status
              then Some(UpdateStatus(active, target.status)) else None
  {
  }

  /** Without a drop target, or when no status resolves, nothing is sent. A special
      case of `DropCommand`'s contract. */
  lemma NoTargetNoCommand(ts: seq<Ticket>, active: int, target: DropTarget)
    ensures DropCommand(ts, active, None) == None
    ensures ResolveStatus(ts, target).None? ==> DropCommand(ts, active, Some(target)) == None
  {
  }

  /** The board's own state: the card being dragged and the two filter inputs. */
  class BoardController {
    var activeId: Option<int>
    var searchQuery: string
    var priorityFilter: string

    constructor ()
      ensures activeId == None && searchQuery == "" && priorityFilter == "All"
      ensures forall ts :: Visible(ts) == ts
    {
      activeId, searchQuery, priorityFilter := None, "", "All";
      new;
      forall ts ensures Visible(ts) == ts {
        FilterNoCriteria(ts);
      }
    }

    function Visible(ts: seq<Ticket>): seq<Ticket>
      reads this
    {
      Filter(ts, searchQuery, priorityFilter)
    }

    method SetSearchQuery(q: string)
      modifies this`searchQuery
      ensures searchQuery == q
    {
      searchQuery := q;
    }

    method SetPriorityFilter(p: string)
      modifies this`priorityFilter
      ensures priorityFilter == p
    {
      priorityFilter := p;
    }

    /** `handleDragStart`. */
    method DragStart(id: int)
      modifies this`activeId
      ensures activeId == Some(id)
    {
      activeId := Some(id);
    }

    /** `handleDragEnd`: at most one status update, and the drag state is cleared
        whatever happened. `tickets` is the query's data, absent before it loads. */
    method DragEnd(tickets: Option<seq<Ticket>>, active: int, over: Option<DropTarget>) returns (cmd: Option<Command>)
      modifies this`activeId
      ensures activeId == None
      ensures cmd == DropCommand(tickets.GetOr([]), active, over)
    {
      var ts := tickets.GetOr([]);
      cmd := None;
      if over.Some? {
        var newStatus: Option<string> := None;
        match over.value {
          case StringId(name) =>
            if name in Columns {
              newStatus := Some(name);
            }
          case NumberId(n) =>
            var overTicket := FindById(ts, n);
            if overTicket.Some? {
              newStatus := Some(overTicket.value.status);
            }
        }
        if newStatus.Some? && newStatus.value != "" {
          var ticket := FindById(ts, active);
          if ticket.Some? && ticket.value.status != newStatus.value {
            cmd := Some(UpdateStatus(active, newStatus.value));
          }
        }
      }
      activeId := None;
    }
  }
}
