/** frontend/src/components/dashboard.tsx: the status and priority charts and the four
    summary cards, all counted over the ticket list (absent until it loads). */
module Dashboard {
  import opened Wrappers
  import opened Board

  /** One bar or slice: `{ name, value }`. */
  datatype Entry = Entry(name: string, value: nat)

  /** The priorities in the order of `priorityData`. */
  const Priorities: seq<string> := ["High", "Medium", "Low"]

  function Loaded(data: Option<seq<Ticket>>): seq<Ticket> {
    data.GetOr([])
  }

  function PriorityIs(p: string): Ticket -> bool {
    (t: Ticket) => t.priority == p
  }

  /** `tickets?.filter(t => t.status === s).length || 0`. */
  function CountStatus(data: Option<seq<Ticket>>, s: string): nat {
    |Column(Loaded(data), s)|
  }

  /** `tickets?.filter(t => t.priority === p).length || 0`. */
  function CountPriority(data: Option<seq<Ticket>>, p: string): nat {
    |Keep(Loaded(data), PriorityIs(p))|
  }

  /** `statusData`. */
  function StatusData(data: Option<seq<Ticket>>): seq<Entry> {
    [Entry("Backlog", CountStatus(data, "Backlog")),
     Entry("Todo", CountStatus(data, "Todo")),
     Entry("In Progress", CountStatus(data, "In Progress")),
     Entry("Done", CountStatus(data, "Done"))]
  }

  /** `priorityData`. */
  function PriorityData(data: Option<seq<Ticket>>): seq<Entry> {
    [Entry("High", CountPriority(data, "High")),
     Entry("Medium", CountPriority(data, "Medium")),
     Entry("Low", CountPriority(data, "Low"))]
  }

  /** The "Total Issues" card: `tickets?.length || 0`. */
  function TotalIssues(data: Option<seq<Ticket>>): nat {
    if data.Some? then |data.value| else 0
  }

  /** The "In Progress", "Completed" and "High Priority" cards, each its own filter. */
  function InProgressCard(data: Option<seq<Ticket>>): nat { CountStatus(data, "In Progress") }
  function CompletedCard(data: Option<seq<Ticket>>): nat { CountStatus(data, "Done") }
  function HighPriorityCard(data: Option<seq<Ticket>>): nat { CountPriority(data, "High") }

  function Statuses(ts: seq<Ticket>): seq<string> {
    seq(|ts|, i requires 0 <= i < |ts| => ts[i].status)
  }

  function PriorityList(ts: seq<Ticket>): seq<string> {
    seq(|ts|, i requires 0 <= i < |ts| => ts[i].priority)
  }

  /** A status count is the number of occurrences of that exact status. */
  lemma {:induction false} StatusCountIsMultiplicity(ts: seq<Ticket>, s: string)
    ensures |Column(ts, s)| == multiset(Statuses(ts))[s]
  {
    if ts != [] {
      StatusCountIsMultiplicity(ts[1..], s);
      assert Statuses(ts) == [ts[0].status] + Statuses(ts[1..]);
    }
  }

  /** A priority count is the number of occurrences of that exact priority. */
  lemma {:induction false} PriorityCountIsMultiplicity(ts: seq<Ticket>, p: string)
    ensures |Keep(ts, PriorityIs(p))| == multiset(PriorityList(ts))[p]
  {
    if ts != [] {
      PriorityCountIsMultiplicity(ts[1..], p);
      assert PriorityList(ts) == [ts[0].priority] + PriorityList(ts[1..]);
    }
  }

  /** The status chart lists the four columns in board order, each with the number of
      tickets whose status is exactly that name. */
  lemma StatusDataSpec(data: Option<seq<Ticket>>)
    ensures |StatusData(data)| == |Columns|
    ensures forall i :: 0 <= i < |Columns| ==>
              StatusData(data)[i].name == Columns[i]
              && StatusData(data)[i].value == multiset(Statuses(Loaded(data)))[Columns[i]]
  {
    forall i | 0 <= i < |Columns| {
      StatusCountIsMultiplicity(Loaded(data), Columns[i]);
    }
  }

  /** The priority chart lists High, Medium, Low, each with the number of tickets of
      exactly that priority. */
  lemma PriorityDataSpec(data: Option<seq<Ticket>>)
    ensures |PriorityData(data)| == |Priorities|
    ensures forall i :: 0 <= i < |Priorities| ==>
              PriorityData(data)[i].name == Priorities[i]
              && PriorityData(data)[i].value == multiset(PriorityList(Loaded(data)))[Priorities[i]]
  {
    forall i | 0 <= i < |Priorities| {
      PriorityCountIsMultiplicity(Loaded(data), Priorities[i]);
    }
  }

  /** Before the tickets load every figure is 0; afterwards the total is the list's length. */
  lemma NoDataAllZero(data: Option<seq<Ticket>>)
    ensures data.None? ==> TotalIssues(data) == 0
                           && (forall i :: 0 <= i < 4 ==> StatusData(data)[i].value == 0)
                           && (forall i :: 0 <= i < 3 ==> PriorityData(data)[i].value == 0)
    ensures data.Some? ==> TotalIssues(data) == |data.value|
  {
  }

  /** The summary cards show the same numbers as the matching chart entries. It holds
      by unfolding: the cards and the charts are counted with the same filters. */
  lemma CardsMatchCharts(data: Option<seq<Ticket>>)
    ensures InProgressCard(data) == StatusData(data)[2].value && StatusData(data)[2].name == "In Progress"
    ensures CompletedCard(data) == StatusData(data)[3].value && StatusData(data)[3].name == "Done"
    ensures HighPriorityCard(data) == PriorityData(data)[0].value && PriorityData(data)[0].name == "High"
  {
  }

  /** The four status counts add up to at most the total, and to exactly the total
      when, and only when, every ticket's status is one of the four column names. */
  lemma StatusSumBound(data: Option<seq<Ticket>>)
    ensures var sd := StatusData(data);
            sd[0].value + sd[1].value + sd[2].value + sd[3].value <= TotalIssues(data)
    ensures var sd := StatusData(data);
            sd[0].value + sd[1].value + sd[2].value + sd[3].value == TotalIssues(data)
            <==> forall t :: t in Loaded(data) ==> t.status in Columns
  {
    var ts := Loaded(data);
    ColumnCountsSum(ts);
    KeepSpec(ts, InAnyColumn());
    assert forall t :: InAnyColumn()(t) == (t.status in Columns);
    if forall t :: t in ts ==> t.status in Columns {
      forall i | 0 <= i < |ts| ensures InAnyColumn()(ts[i]) {
        var t := ts[i];
        assert t in ts;
      }
    }
  }

  function Indicator(b: bool): nat {
    if b then 1 else 0
  }

  /** The count of one status over three tickets, ticket by ticket. */
  lemma ColumnOfThree(a: Ticket, b: Ticket, c: Ticket, s: string)
    ensures |Column([a, b, c], s)| == Indicator(a.status == s) + Indicator(b.status == s) + Indicator(c.status == s)
  {
    var f := StatusIs(s);
    assert [a, b, c][1..] == [b, c] && [b, c][1..] == [c] && [c][1..] == [];
    assert |Keep([c], f)| == Indicator(c.status == s);
    assert |Keep([b, c], f)| == Indicator(b.status == s) + |Keep([c], f)|;
    assert |Keep([a, b, c], f)| == Indicator(a.status == s) + |Keep([b, c], f)|;
  }

  /** One ticket in Backlog and two in Todo. */
  lemma ThreeTicketScenario(a: Ticket, b: Ticket, c: Ticket)
    requires a.status == "Backlog" && b.status == "Todo" && c.status == "Todo"
    ensures var d := Some([a, b, c]);
            && StatusData(d) == [Entry("Backlog", 1), Entry("Todo", 2), Entry("In Progress", 0), Entry("Done", 0)]
            && TotalIssues(d) == 3
  {
    assert "Todo" != "Backlog" && "Todo" != "In Progress" && "Backlog" != "In Progress";
    assert "Todo"[0] != "Done"[0] && "Backlog" != "Done";
    ColumnOfThree(a, b, c, "Backlog");
    ColumnOfThree(a, b, c, "Todo");
    ColumnOfThree(a, b, c, "In Progress");
    ColumnOfThree(a, b, c, "Done");
  }
}
