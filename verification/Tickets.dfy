/** Ticket rows and the composite attributes that key their sparse indexes (api/src/db.rs,
    api/src/dynamodb.rs). */
module Tickets {
  import opened Prelude

  datatype Status = Open | Closed | Deleted

  /** The status as it is stored. */
  function StatusText(status: Status): string {
    match status
    case Open => "open"
    case Closed => "closed"
    case Deleted => "deleted"
  }

  /** The index keys a ticket row should carry; `None` is an absent attribute. */
  datatype Markers = Markers(instanceStatus: string, instanceVisible: Option<string>, instanceAssignee: Option<string>)

  function Composite(left: string, right: string): string { left + "#" + right }

  function ComputeMarkers(instanceId: Id, status: Status, assignee: Option<Id>): Markers {
    var instanceStatus := Composite(instanceId, StatusText(status));
    if status.Deleted? then Markers(instanceStatus, None, None)
    else
      Markers(instanceStatus, Some(instanceId),
              if assignee.Some? then Some(Composite(instanceId, assignee.value)) else None)
  }

  datatype Ticket = Ticket(
    instanceId: Id, number: nat, subject: string, status: Status,
    requesters: set<string>, ccs: set<string>, assignee: Option<Id>, replyToken: string,
    createdAt: nat, updatedAt: nat, lastActivityAt: nat, hasAttachments: bool,
    instanceStatus: string, instanceVisible: Option<string>, instanceAssignee: Option<string>, instanceNumber: string)
  {
    function Carried(): Markers { Markers(instanceStatus, instanceVisible, instanceAssignee) }

    /** The index keys agree with the fields they stand for. */
    predicate Consistent() {
      && Carried() == ComputeMarkers(instanceId, status, assignee)
      && instanceNumber == Composite(instanceId, Decimal(number))
    }
  }

  type Rows = map<Id, Ticket>

  /** The update shapes. */
  datatype Change =
    | SetStatusAndAssignee(instanceId: Id, status: Status, assignee: Option<Id>, now: nat)
    | AddRequester(email: string, now: nat)
    | RemoveRequester(email: string, now: nat)
    | AddCc(email: string, now: nat)
    | RemoveCc(email: string, now: nat)
    | Touch(now: nat)
    | MarkHasAttachments

  /** What a caller of `create_ticket` decides; the rest is minted or read off the clock. */
  datatype Draft = Draft(instanceId: Id, number: nat, subject: string, requesters: seq<string>, ccs: seq<string>)

  datatype Op =
    | Create(id: Id, draft: Draft, replyToken: string, now: nat)
    | Update(id: Id, change: Change)

  datatype Reply = Done | NotFound | Refused

  function NewTicket(draft: Draft, replyToken: string, now: nat): Ticket {
    var markers := ComputeMarkers(draft.instanceId, Open, None);
    Ticket(draft.instanceId, draft.number, draft.subject, Open, Elements(draft.requesters), Elements(draft.ccs), None,
           replyToken, now, now, now, false,
           markers.instanceStatus, markers.instanceVisible, None, Composite(draft.instanceId, Decimal(draft.number)))
  }

  function Touched(t: Ticket, now: nat): Ticket { t.(updatedAt := now, lastActivityAt := now) }

  function Changed(t: Ticket, change: Change): Ticket {
    match change
    case SetStatusAndAssignee(instanceId, status, assignee, now) =>
      var markers := ComputeMarkers(instanceId, status, assignee);
      Touched(t, now).(status := status, assignee := assignee, instanceStatus := markers.instanceStatus,
        instanceVisible := markers.instanceVisible, instanceAssignee := markers.instanceAssignee)
    case AddRequester(email, now) => Touched(t, now).(requesters := t.requesters + {email})
    case RemoveRequester(email, now) => Touched(t, now).(requesters := t.requesters - {email})
    case AddCc(email, now) => Touched(t, now).(ccs := t.ccs + {email})
    case RemoveCc(email, now) => Touched(t, now).(ccs := t.ccs - {email})
    case Touch(now) => Touched(t, now)
    case MarkHasAttachments => t.(hasAttachments := true)
  }

  /** Field by field, what a change leaves of a ticket: everything it does not name stays. */
  predicate ChangeShows(t: Ticket, t': Ticket, change: Change) {
    match change
    case SetStatusAndAssignee(instanceId, status, assignee, now) =>
      && t' == t.(status := status, assignee := assignee, updatedAt := now, lastActivityAt := now,
           instanceStatus := t'.instanceStatus, instanceVisible := t'.instanceVisible,
           instanceAssignee := t'.instanceAssignee)
      && t'.instanceStatus
         == instanceId + "#" + (match status case Open => "open" case Closed => "closed" case Deleted => "deleted")
      && t'.instanceVisible == (if status == Deleted then None else Some(instanceId))
      && t'.instanceAssignee
         == if status == Deleted || assignee.None? then None else Some(instanceId + "#" + assignee.value)
    case AddRequester(email, now) =>
      t' == t.(requesters := t.requesters + {email}, updatedAt := now, lastActivityAt := now)
    case RemoveRequester(email, now) =>
      t' == t.(requesters := t.requesters - {email}, updatedAt := now, lastActivityAt := now)
    case AddCc(email, now) => t' == t.(ccs := t.ccs + {email}, updatedAt := now, lastActivityAt := now)
    case RemoveCc(email, now) => t' == t.(ccs := t.ccs - {email}, updatedAt := now, lastActivityAt := now)
    case Touch(now) => t' == t.(updatedAt := now, lastActivityAt := now)
    case MarkHasAttachments => t' == t.(hasAttachments := true)
  }

  /** What one write does to the table. A string set with a repeated element is refused by
      the store, and so is an id that is taken. */
  function Exec(rows: Rows, op: Op): (Rows, Reply) {
    match op
    case Create(id, draft, replyToken, now) =>
      if id in rows || !Distinct(draft.requesters) || !Distinct(draft.ccs) then (rows, Refused)
      else (rows[id := NewTicket(draft, replyToken, now)], Done)
    case Update(id, change) =>
      if id !in rows then (rows, NotFound)
      else (rows[id := Changed(rows[id], change)], Done)
  }

  // ---------------------------------------------------------------- the store

  /** `at_most_one`. */
  datatype Unique = Integrity | AtMost1(id: Option<Id>)

  function AtMostOne(matches: seq<Id>): (r: Unique)
    ensures r.Integrity? <==> |matches| > 1
    ensures r.AtMost1? ==> matches == if r.id.Some? then [r.id.value] else []
  {
    if |matches| > 1 then Integrity
    else if |matches| == 1 then AtMost1(Some(matches[0]))
    else AtMost1(None)
  }

  class TicketTable {
    var rows: Rows
    var counters: map<Id, nat>

    constructor ()
      ensures rows == map[] && counters == map[]
    {
      rows, counters := map[], map[];
    }

    /** `ADD next_ticket_number 1`, returning the new value; an absent counter counts as zero. */
    method IncrementTicketCounter(instanceId: Id) returns (n: nat)
      modifies `counters
      ensures n == Counted(old(counters), instanceId) + 1
      ensures counters == old(counters)[instanceId := n]
    {
      n := 1;
      if instanceId in counters { n := counters[instanceId] + 1; }
      counters := counters[instanceId := n];
    }

    method CreateTicket(id: Id, draft: Draft, replyToken: string, now: nat) returns (r: Reply)
      modifies `rows
      ensures (rows, r) == Exec(old(rows), Create(id, draft, replyToken, now))
      ensures r == if id !in old(rows) && Distinct(draft.requesters) && Distinct(draft.ccs) then Done else Refused
      ensures r == Refused ==> rows == old(rows)
      ensures r == Done ==> rows == old(rows)[id := Ticket(
                  draft.instanceId, draft.number, draft.subject, Open, Elements(draft.requesters), Elements(draft.ccs),
                  None, replyToken, now, now, now, false,
                  draft.instanceId + "#" + "open", Some(draft.instanceId), None, draft.instanceId + "#" + Decimal(draft.number))]
    {
      var repeated := Repeats(draft.requesters);
      var repeatedCc := Repeats(draft.ccs);
      if repeated || repeatedCc || id in rows { return Refused; }
      var markers := ComputeMarkers(draft.instanceId, Open, None);
      var row := Ticket(
        draft.instanceId, draft.number, draft.subject, Open, Elements(draft.requesters), Elements(draft.ccs), None,
        replyToken, now, now, now, false,
        markers.instanceStatus, None, None, Composite(draft.instanceId, Decimal(draft.number)));
      if markers.instanceVisible.Some? {
        row := row.(instanceVisible := markers.instanceVisible);
      }
      rows := rows[id := row];
      r := Done;
    }

    /** Whether the store would refuse a list as a string set. */
    static method Repeats(s: seq<string>) returns (repeated: bool)
      ensures repeated <==> !Distinct(s)
    {
      var seen: set<string> := {};
      for i := 0 to |s|
        invariant seen == Elements(s[..i])
        invariant Distinct(s[..i])
      {
        if s[i] in seen {
          var j :| 0 <= j < i && s[j] == s[i];
          return true;
        }
        assert s[..i + 1] == s[..i] + [s[i]];
        seen := seen + {s[i]};
      }
      assert s[..|s|] == s;
      repeated := false;
    }

    /** The `SET` and `REMOVE` parts of each update shape, on a row that must exist. */
    method UpdateTicket(id: Id, change: Change) returns (r: Reply)
      modifies `rows
      ensures (rows, r) == Exec(old(rows), Update(id, change))
      ensures r == if id in old(rows) then Done else NotFound
      ensures r == NotFound ==> rows == old(rows)
      ensures r == Done ==> id in rows && rows == old(rows)[id := rows[id]] && ChangeShows(old(rows)[id], rows[id], change)
    {
      if id !in rows { return NotFound; }
      var row := rows[id];
      match change {
        case SetStatusAndAssignee(instanceId, status, assignee, now) =>
          var markers := ComputeMarkers(instanceId, status, assignee);
          row := row.(status := status, updatedAt := now, lastActivityAt := now,
            instanceStatus := markers.instanceStatus);
          match assignee {
            case Some(user) => row := row.(assignee := Some(user));
            case None => row := row.(assignee := None);
          }
          match markers.instanceVisible {
            case Some(v) => row := row.(instanceVisible := Some(v));
            case None => row := row.(instanceVisible := None);
          }
          match markers.instanceAssignee {
            case Some(v) => row := row.(instanceAssignee := Some(v));
            case None => row := row.(instanceAssignee := None);
          }
        case AddRequester(email, now) =>
          row := row.(updatedAt := now, lastActivityAt := now, requesters := row.requesters + {email});
        case RemoveRequester(email, now) =>
          row := row.(updatedAt := now, lastActivityAt := now, requesters := row.requesters - {email});
        case AddCc(email, now) =>
          row := row.(updatedAt := now, lastActivityAt := now, ccs := row.ccs + {email});
        case RemoveCc(email, now) =>
          row := row.(updatedAt := now, lastActivityAt := now, ccs := row.ccs - {email});
        case Touch(now) =>
          row := row.(updatedAt := now, lastActivityAt := now);
        case MarkHasAttachments =>
          row := row.(hasAttachments := true);
      }
      rows := rows[id := row];
      r := Done;
    }

    /** The query on `instance_number-index` and `at_most_one` of what it finds. */
    method GetTicketIdByInstanceNumber(instanceId: Id, number: nat) returns (r: Unique)
      ensures IsUnique(r, Numbered(rows, Composite(instanceId, Decimal(number))))
    {
      var index := map id | id in rows :: rows[id].instanceNumber;
      r := QueryUnique(index, Composite(instanceId, Decimal(number)));
      assert Hits(index, Composite(instanceId, Decimal(number))) == Numbered(rows, Composite(instanceId, Decimal(number)));
    }
  }

  /** The rows an index holds under a key; a row without the attribute is in no index. */
  function Hits(index: map<Id, string>, key: string): set<Id> {
    set id | id in index && index[id] == key
  }

  predicate IsUnique(r: Unique, hits: set<Id>) {
    && (r.Integrity? <==> |hits| > 1)
    && (r.AtMost1? ==> hits == if r.id.Some? then {r.id.value} else {})
  }

  /** An index query on an attribute that should be unique; the rows come in any order. */
  method QueryUnique(index: map<Id, string>, key: string) returns (r: Unique)
    ensures IsUnique(r, Hits(index, key))
  {
    var rest := index.Keys;
    var ids: seq<Id> := [];
    while rest != {}
      invariant rest <= index.Keys
      invariant forall id :: id in ids <==> id in Hits(index, key) && id !in rest
      invariant Distinct(ids)
      decreases |rest|
    {
      var id :| id in rest;
      rest := rest - {id};
      if index[id] == key { ids := ids + [id]; }
    }
    SizeOfElements(ids);
    assert Elements(ids) == Hits(index, key);
    r := AtMostOne(ids);
  }

  function Counted(counters: map<Id, nat>, instanceId: Id): nat {
    if instanceId in counters then counters[instanceId] else 0
  }

  // ---------------------------------------------------------------- markers over every run

  predicate AllConsistent(rows: Rows) { forall id :: id in rows ==> rows[id].Consistent() }

  /** A status or assignee write that names the ticket's own instance. */
  predicate NamesOwnInstance(rows: Rows, op: Op) {
    op.Update? && op.change.SetStatusAndAssignee? && op.id in rows ==> op.change.instanceId == rows[op.id].instanceId
  }

  /** A changed ticket has the right markers exactly when a status write named its instance. */
  lemma {:induction false} ChangeKeepsMarkersIff(t: Ticket, change: Change)
    requires t.Consistent()
    ensures Changed(t, change).Consistent() <==> (change.SetStatusAndAssignee? ==> change.instanceId == t.instanceId)
  {
    if change.SetStatusAndAssignee? && Changed(t, change).Consistent() {
      SameRight(change.instanceId, t.instanceId, StatusText(change.status));
    }
  }

  lemma {:induction false} NewTicketConsistent(draft: Draft, replyToken: string, now: nat)
    ensures NewTicket(draft, replyToken, now).Consistent()
  {}

  /** A write keeps every marker right exactly when it names the ticket's own instance. */
  lemma {:induction false} StepKeepsMarkersIff(rows: Rows, op: Op)
    requires AllConsistent(rows)
    ensures AllConsistent(Exec(rows, op).0) <==> NamesOwnInstance(rows, op)
  {
    match op {
      case Create(id, draft, replyToken, now) => NewTicketConsistent(draft, replyToken, now);
      case Update(id, change) =>
        if id in rows {
          ChangeKeepsMarkersIff(rows[id], change);
          PutKeepsIff(rows, id, Changed(rows[id], change));
        }
    }
  }

  lemma {:induction false} PutKeepsIff(rows: Rows, id: Id, t: Ticket)
    requires AllConsistent(rows)
    ensures AllConsistent(rows[id := t]) <==> t.Consistent()
  {
    assert rows[id := t][id] == t;
  }

  lemma {:induction false} SameRight(a: string, b: string, right: string)
    requires Composite(a, right) == Composite(b, right)
    ensures a == b
  {
    assert a == Composite(a, right)[..|a|] && b == Composite(b, right)[..|b|];
  }

  /** The tables along a sequence of writes to an empty table. */
  function Played(ops: seq<Op>): Rows {
    if ops == [] then map[] else Exec(Played(ops[..|ops| - 1]), ops[|ops| - 1]).0
  }

  /** Over every run whose status writes name the ticket's own instance, all markers agree. */
  lemma {:induction false} RunKeepsMarkers(ops: seq<Op>)
    requires forall i :: 0 <= i < |ops| ==> NamesOwnInstance(Played(ops[..i]), ops[i])
    ensures AllConsistent(Played(ops))
  {
    if ops != [] {
      var front := ops[..|ops| - 1];
      forall i | 0 <= i < |front|
        ensures NamesOwnInstance(Played(front[..i]), front[i])
      {
        assert front[..i] == ops[..i];
      }
      RunKeepsMarkers(front);
      StepKeepsMarkersIff(Played(front), ops[|ops| - 1]);
    }
  }

  /** A ticket never changes its instance or its number. */
  lemma {:induction false} IdentityKept(rows: Rows, op: Op, id: Id)
    requires id in rows
    ensures var after := Exec(rows, op).0;
            && id in after
            && after[id].instanceId == rows[id].instanceId && after[id].number == rows[id].number
            && after[id].instanceNumber == rows[id].instanceNumber && after[id].replyToken == rows[id].replyToken
  {}

  /** Deleting a ticket and restoring it with the kept assignee restores its markers. */
  lemma {:induction false} RestoreRestoresMarkers(t: Ticket, deletedAt: nat, restoredAt: nat)
    requires t.Consistent() && !t.status.Deleted?
    ensures var deleted := Changed(t, SetStatusAndAssignee(t.instanceId, Deleted, t.assignee, deletedAt));
            var restored := Changed(deleted, SetStatusAndAssignee(t.instanceId, t.status, deleted.assignee, restoredAt));
            && deleted.instanceVisible.None? && deleted.instanceAssignee.None?
            && restored == Touched(t, restoredAt)
  {}

  // ---------------------------------------------------------------- index queries

  datatype Filter = ByStatus(status: Status) | Visible | AssignedTo(user: Id, only: Option<Status>)

  /** What a listing should show: a filter on the fields of the base table. */
  predicate Shows(filter: Filter, instanceId: Id, t: Ticket) {
    && t.instanceId == instanceId
    && match filter
       case ByStatus(status) => t.status == status
       case Visible => !t.status.Deleted?
       case AssignedTo(user, only) =>
         !t.status.Deleted? && t.assignee == Some(user) && (only.Some? ==> t.status == only.value)
  }

  /** The key condition of the query on the index the filter selects. */
  predicate KeyMatches(filter: Filter, instanceId: Id, t: Ticket) {
    match filter
    case ByStatus(status) => t.instanceStatus == Composite(instanceId, StatusText(status))
    case Visible => t.instanceVisible == Some(instanceId)
    case AssignedTo(user, _) => t.instanceAssignee == Some(Composite(instanceId, user))
  }

  /** The filter expression on the status, which only the assignee query may carry. */
  predicate PassesFilter(filter: Filter, t: Ticket) {
    filter.AssignedTo? && filter.only.Some? ==> StatusText(t.status) == StatusText(filter.only.value)
  }

  predicate Queried(filter: Filter, instanceId: Id, t: Ticket) {
    KeyMatches(filter, instanceId, t) && PassesFilter(filter, t)
  }

  /** The assignee key can be read in one way only. */
  predicate Unambiguous(filter: Filter, instanceId: Id, t: Ticket) {
    filter.AssignedTo? && t.assignee.Some? ==>
      || ('#' !in instanceId && '#' !in t.instanceId)
      || ('#' !in filter.user && '#' !in t.assignee.value)
  }

  /** The index finds exactly the tickets the filter on the base table shows. Status and
      visibility need nothing of the ids; the assignee index needs either the instance ids
      or the user ids to be free of `#`. */
  lemma {:induction false} QueryIsFilter(filter: Filter, instanceId: Id, t: Ticket)
    requires t.Consistent() && Unambiguous(filter, instanceId, t)
    ensures Queried(filter, instanceId, t) <==> Shows(filter, instanceId, t)
  {
    StatusTextsDiffer();
    match filter {
      case ByStatus(status) =>
        if Queried(filter, instanceId, t) {
          LastSplitUnique(instanceId, StatusText(status), t.instanceId, StatusText(t.status), '#');
        }
      case Visible =>
      case AssignedTo(user, only) =>
        if Queried(filter, instanceId, t) {
          AssigneeKeyReads(instanceId, user, t.instanceId, t.assignee.value);
        }
    }
  }

  lemma {:induction false} AssigneeKeyReads(a: string, b: string, x: string, y: string)
    requires Composite(a, b) == Composite(x, y)
    requires ('#' !in a && '#' !in x) || ('#' !in b && '#' !in y)
    ensures a == x && b == y
  {
    if '#' !in a && '#' !in x {
      FirstSplitUnique(a, b, x, y, '#');
    } else {
      LastSplitUnique(a, b, x, y, '#');
    }
  }

  lemma {:induction false} StatusTextsDiffer()
    ensures forall s: Status :: '#' !in StatusText(s)
    ensures forall s: Status, t: Status :: StatusText(s) == StatusText(t) ==> s == t
  {
    assert "open" != "closed" && |"open"| == 4 && |"closed"| == 6 && |"deleted"| == 7;
  }

  /** With `#` in both kinds of id the assignee index shows a foreign ticket. */
  lemma {:induction false} HashInIdsLeaks() returns (t: Ticket, filter: Filter)
    ensures t.Consistent() && filter == AssignedTo("b#c", None)
    ensures Queried(filter, "a", t) && !Shows(filter, "a", t)
  {
    var draft := Draft("a#b", 1, "", [], []);
    t := Changed(NewTicket(draft, "", 0), SetStatusAndAssignee("a#b", Open, Some("c"), 0));
    filter := AssignedTo("b#c", None);
    assert Composite("a#b", "c") == "a#b#c" == Composite("a", "b#c");
  }

  /** The tickets the number index holds under a key. */
  function Numbered(rows: Rows, key: string): set<Id> {
    set id | id in rows && rows[id].instanceNumber == key
  }

  /** The number index finds exactly the tickets of that instance with that number, whatever
      the ids look like. */
  lemma {:induction false} NumberKeyIsFilter(rows: Rows, instanceId: Id, number: nat)
    requires AllConsistent(rows)
    ensures Numbered(rows, Composite(instanceId, Decimal(number)))
            == set id | id in rows && rows[id].instanceId == instanceId && rows[id].number == number
  {
    forall id | id in rows && rows[id].instanceNumber == Composite(instanceId, Decimal(number))
      ensures rows[id].instanceId == instanceId && rows[id].number == number
    {
      assert rows[id].Consistent();
      NumberKeyReads(instanceId, number, rows[id].instanceId, rows[id].number);
    }
    forall id | id in rows && rows[id].instanceId == instanceId && rows[id].number == number
      ensures rows[id].instanceNumber == Composite(instanceId, Decimal(number))
    {
      assert rows[id].Consistent();
    }
  }

  lemma {:induction false} NumberKeyReads(a: Id, m: nat, b: Id, n: nat)
    requires Composite(a, Decimal(m)) == Composite(b, Decimal(n))
    ensures a == b && m == n
  {
    var x, y := Decimal(m), Decimal(n);
    assert AllDigits(x) && AllDigits(y);
    LastSplitUnique(a, x, b, y, '#');
    assert Denotes(x) == m && Denotes(y) == n;
  }
}
