/** frontend/src/components/create-issue.tsx: the "Create new issue" dialog. Five text
    fields, the request body built from them, the reset after a successful create and
    the alert after a failed one. */
module CreateIssue {
  import opened Wrappers

  predicate IsDigit(c: char) {
    '0' <= c <= '9'
  }

  /** The length of the longest prefix of `s` made of decimal digits. */
  function DigitPrefix(s: string): (n: nat)
    ensures n <= |s|
    ensures forall i :: 0 <= i < n ==> IsDigit(s[i])
    ensures n < |s| ==> !IsDigit(s[n])
  {
    if s != [] && IsDigit(s[0]) then 1 + DigitPrefix(s[1..]) else 0
  }

  /** The number a run of decimal digits denotes, most significant digit first. */
  function DigitsValue(d: string): nat
    requires forall i :: 0 <= i < |d| ==> IsDigit(d[i])
  {
    if d == [] then 0
    else 10 * DigitsValue(d[..|d| - 1]) + ValueOf(d[|d| - 1])
  }

  function ValueOf(c: char): nat
    requires IsDigit(c)
  {
    c as int - '0' as int
  }

  /** `s` without one leading sign. */
  function Unsigned(s: string): string {
    if |s| > 0 && (s[0] == '+' || s[0] == '-') then s[1..] else s
  }

  /** JavaScript's `parseInt(s)` on a string without leading blanks or a `0x` prefix: an
      optional sign, then as many decimal digits as follow it, the rest ignored. None
      stands for NaN, which the JSON body carries as null. */
  function ParseInt(s: string): (r: Option<int>)
    ensures r.None? <==> DigitPrefix(Unsigned(s)) == 0
    ensures r.Some? && r.value < 0 ==> s[0] == '-'
    ensures r.Some? && s[0] != '-' ==> r.value >= 0
  {
    var body := Unsigned(s);
    var n := DigitPrefix(body);
    if n == 0 then None
    else
      var v: int := DigitsValue(body[..n]);
      Some(if s[0] == '-' then -v else v)
  }

  function Digit(d: nat): (c: char)
    requires d < 10
    ensures IsDigit(c) && ValueOf(c) == d
  {
    ('0' as int + d) as char
  }

  /** A natural number in decimal, as an `<option value={user.id}>` holds it. */
  function DecimalString(n: nat): (s: string)
    ensures |s| >= 1
    ensures forall i :: 0 <= i < |s| ==> IsDigit(s[i])
    ensures s[0] == '0' ==> n == 0
  {
    if n < 10 then [Digit(n)] else DecimalString(n / 10) + [Digit(n % 10)]
  }

  /** Reading back the decimal digits of `n` gives `n`. */
  lemma {:induction false} DigitsOfDecimal(n: nat)
    ensures DigitsValue(DecimalString(n)) == n
  {
    var s := DecimalString(n);
    if n >= 10 {
      assert s[..|s| - 1] == DecimalString(n / 10);
      DigitsOfDecimal(n / 10);
    }
  }

  /** The digit run at the front of `s + rest` is exactly `s` when `s` is all digits and
      `rest` does not start with one. */
  lemma {:induction false} DigitPrefixOfConcat(s: string, rest: string)
    requires forall i :: 0 <= i < |s| ==> IsDigit(s[i])
    requires rest == [] || !IsDigit(rest[0])
    ensures DigitPrefix(s + rest) == |s|
  {
    if s == [] {
      assert s + rest == rest;
    } else {
      assert (s + rest)[0] == s[0] && (s + rest)[1..] == s[1..] + rest;
      DigitPrefixOfConcat(s[1..], rest);
    }
  }

  /** `parseInt` reads an id written in decimal back as that id, whatever non-digit
      text follows it, and with a minus sign in front as its negation. */
  lemma ParseDecimal(n: nat, rest: string)
    requires rest == [] || !IsDigit(rest[0])
    ensures ParseInt(DecimalString(n) + rest) == Some(n)
    ensures ParseInt("-" + DecimalString(n) + rest) == Some(-(n as int))
  {
    var d := DecimalString(n);
    DigitPrefixOfConcat(d, rest);
    DigitsOfDecimal(n);
    assert (d + rest)[0] == d[0];
    assert Unsigned(d + rest) == d + rest;
    assert (d + rest)[..|d|] == d;
    var neg := "-" + d + rest;
    assert neg[0] == '-';
    assert Unsigned(neg) == d + rest;
  }

  /** No number can be read from an empty string or a lone sign: worked examples of
      `ParseInt`'s first ensures. */
  lemma NothingToParse()
    ensures ParseInt("") == None && ParseInt("-") == None && ParseInt("+") == None
    ensures ParseInt("x1") == None
  {
  }

  /** The body of `POST /tickets/`. */
  datatype Payload = Payload(
    title: string,
    description: string,
    priority: string,
    status: string,
    dueDate: Option<string>,
    assigneeId: Option<int>)

  const DefaultPriority := "Medium"

  /** Every ticket created here starts in this column. */
  const NewStatus := "Todo"

  /** The body built from the five fields. `iso` is `new Date(d).toISOString()`. An
      empty due date or assignee is sent as null; an assignee that does not parse is
      sent as null too. */
  function Body(title: string, description: string, priority: string, dueDate: string,
                assigneeId: string, iso: string -> string): (p: Payload)
    ensures p.title == title && p.description == description && p.priority == priority
    ensures p.status == NewStatus
    ensures p.dueDate.None? <==> dueDate == ""
    ensures assigneeId == "" ==> p.assigneeId.None?
  {
    Payload(title, description, priority, NewStatus,
            if dueDate != "" then Some(iso(dueDate)) else None,
            if assigneeId != "" then ParseInt(assigneeId) else None)
  }

  /** The assignee select holds "" (Unassigned) or a user id in decimal: the body
      carries null for the first and exactly that id for the second, so `assignee_id`
      is null iff no assignee was chosen. */
  lemma ChosenAssignee(title: string, description: string, priority: string, dueDate: string,
                       id: nat, iso: string -> string)
    ensures Body(title, description, priority, dueDate, DecimalString(id), iso).assigneeId == Some(id)
    ensures Body(title, description, priority, dueDate, "", iso).assigneeId == None
  {
    ParseDecimal(id, "");
    assert DecimalString(id) + "" == DecimalString(id);
  }

  class IssueForm {
    var title: string
    var description: string
    var priority: string
    var dueDate: string
    var assigneeId: string
    /** The dialog's `open` prop, which the dialog asks its owner to set through
        `onOpenChange`. */
    var open: bool
    /** `createMutation.isPending`. */
    var pending: bool
    /** Every `alert` shown so far. */
    var alerts: seq<string>

    /** The five fields as the dialog starts: all empty but the priority, "Medium". */
    predicate Blank()
      reads this
    {
      title == "" && description == "" && priority == DefaultPriority && dueDate == "" && assigneeId == ""
    }

    /** The form can be submitted: it is shown, the title's `required` check passes and
        the submit button is not disabled by a pending create. */
    predicate CanSubmit()
      reads this
    {
      open && title != "" && !pending
    }

    constructor (open: bool)
      ensures Blank() && this.open == open && !pending && alerts == []
    {
      title, description, priority, dueDate, assigneeId := "", "", DefaultPriority, "", "";
      this.open := open;
      pending := false;
      alerts := [];
    }

    /** Submitting: `handleSubmit` checks nothing itself; the browser refuses an empty
        title, and a disabled button cannot submit. Otherwise the create starts and
        the body built from the current fields is sent. */
    method Submit(iso: string -> string) returns (sent: Option<Payload>)
      modifies this`pending
      ensures sent.Some? <==> old(CanSubmit())
      ensures sent.Some? ==> pending && sent.value == Body(title, description, priority, dueDate, assigneeId, iso)
      ensures sent.None? ==> pending == old(pending)
    {
      if !open || title == "" || pending {
        return None;
      }
      pending := true;
      sent := Some(Body(title, description, priority, dueDate, assigneeId, iso));
    }

    /** `onSuccess`: the dialog closes and the five fields are reset one by one, after
        which the form cannot be submitted again until a title is typed. */
    method Succeeded()
      modifies this
      ensures Blank() && !open && !pending && alerts == old(alerts)
      ensures !CanSubmit()
    {
      open := false;
      title := "";
      description := "";
      priority := DefaultPriority;
      dueDate := "";
      assigneeId := "";
      pending := false;
    }

    /** `onError`: alert the error's message, or a fixed text when what was thrown is
        not an `Error`; the fields and the dialog stay as they were. */
    method Failed(error: Option<string>)
      modifies this`alerts, this`pending
      ensures alerts == old(alerts) + [error.GetOr("Failed to create ticket")]
      ensures !pending
    {
      alerts := alerts + [error.GetOr("Failed to create ticket")];
      pending := false;
    }

    /** The Cancel button closes the dialog and keeps what was typed. */
    method Cancel()
      modifies this`open
      ensures !open
    {
      open := false;
    }
  }
}
