/** `process_raw_message` from the claim to the stored message (api/src/inbound/pipeline.rs). */
module Pipeline {
  import opened Prelude
  import opened Tickets
  import opened Routing
  import opened Resolution
  import opened Intake
  import opened TicketResolution

  datatype Instance = Instance(deleted: bool, support: bool)

  /** What the pipeline reads and does not write; the address rows of an instance are listed
      in some order. */
  datatype Env = Env(table: AddressTable, instances: map<Id, Instance>, listing: map<Id, seq<InboundAddress>>)

  ghost predicate ValidEnv(env: Env) {
    && ValidTable(env.table)
    && forall i :: i in env.instances ==> i in env.listing && RowsOf(env.table, i, env.listing[i])
  }

  /** A parsed message; `looping` is the structural loop check, `attachments` how many were stored. */
  datatype Mail = Mail(looping: bool, sender: Option<string>, to: seq<string>, cc: seq<string>, subject: string,
                       messageId: Option<string>, inReplyTo: Option<string>, references: Option<string>, attachments: nat)

  /** Fresh ids and the clock. */
  datatype Minted = Minted(ticketId: Id, replyToken: string, messageRowId: Id, now: nat)

  datatype Reason = Duplicate | Unparseable | Looping | NoRoute | InstanceGone | OwnSender | NoSender | ForeignTicket

  datatype Outcome =
    | Dropped(reason: Reason)
    | Delivered(ticketId: Id, messageRowId: Id, isNew: bool, reopened: bool, addedCc: bool)
    | Errored

  datatype Screened = Rejected(reason: Reason) | Accepted(instanceId: Id, sender: string)

  const NO_SUBJECT := "(no subject)"

  // ---------------------------------------------------------------- specification

  /** The checks before any ticket is looked at, in order. */
  function Screen(env: Env, parsed: Option<Mail>): Screened {
    if parsed.None? then Rejected(Unparseable)
    else
      var mail := parsed.value;
      if mail.looping then Rejected(Looping)
      else
        match ResolveInstanceId(env.table, mail.to + mail.cc)
        case None => Rejected(NoRoute)
        case Some(i) =>
          if i !in env.instances || i !in env.listing || env.instances[i].deleted || !env.instances[i].support
          then Rejected(InstanceGone)
          else if mail.sender.None? then Rejected(NoSender)
          else if ResolveInstanceId(env.table, [mail.sender.value]).Some? then Rejected(OwnSender)
          else Accepted(i, NormalizeRecipient(mail.sender.value).address)
  }

  predicate Participates(t: Ticket, sender: string) { sender in t.requesters || sender in t.ccs }

  /** A message on an existing ticket: the sender is copied in, a closed ticket reopens. */
  function Joined(rows: Rows, id: Id, instanceId: Id, sender: string, now: nat): Rows
    requires id in rows
  {
    var t := rows[id];
    var copied := if Participates(t, sender) then rows else Exec(rows, Update(id, AddCc(sender, now))).0;
    if t.status.Closed? then Exec(copied, Update(id, SetStatusAndAssignee(instanceId, Open, t.assignee, now))).0
    else Exec(copied, Update(id, Touch(now))).0
  }

  function SubjectFor(subject: string): string { if Trim(subject) == "" then NO_SUBJECT else subject }

  /** The ticket a message without one opens. */
  function DraftFor(s: State, env: Env, mail: Mail, instanceId: Id, sender: string): Draft
    requires instanceId in env.listing
  {
    Draft(instanceId, Counted(s.counters, instanceId) + 1, SubjectFor(mail.subject), [sender],
          Stripped(env.listing[instanceId], mail.to + mail.cc, sender))
  }

  /** The counter moves even when the ticket is then refused. */
  function Opened(s: State, env: Env, source: MailId, mail: Mail, instanceId: Id, sender: string,
                  minted: Minted): (State, bool)
    requires instanceId in env.listing
  {
    var draft := DraftFor(s, env, mail, instanceId, sender);
    var counted := s.(counters := s.counters[instanceId := draft.number]);
    var (rows, reply) := Exec(s.rows, Create(minted.ticketId, draft, minted.replyToken, minted.now));
    if reply.Done? then (counted.(rows := rows, origin := s.origin[minted.ticketId := source]), true)
    else (counted, false)
  }

  function RowFor(source: MailId, mail: Mail, ticketId: Id, sender: string): MessageRow {
    MessageRow(ticketId, Some(source), Some(sender), mail.to, mail.cc, mail.inReplyTo, mail.references, None)
  }

  /** The message row, its message id, and the mark of the attachments. */
  function Stored(s: State, source: MailId, mail: Mail, ticketId: Id, sender: string, id: Id): State {
    var row := RowFor(source, mail, ticketId, sender);
    var messages := s.messages[id := if mail.messageId.Some? then row.(rfcMessageId := mail.messageId) else row];
    s.(messages := messages,
       rows := if mail.attachments > 0 then Exec(s.rows, Update(ticketId, MarkHasAttachments)).0 else s.rows)
  }

  function Finish(s: State, source: MailId, mail: Mail, sender: string, minted: Minted, delivered: Outcome): (State,
                  Outcome)
    requires delivered.Delivered?
  {
    if Storable(s, minted.messageRowId, RowFor(source, mail, delivered.ticketId, sender))
    then (Stored(s, source, mail, delivered.ticketId, sender, minted.messageRowId), delivered)
    else (s, Errored)
  }

  ghost function Matched(s: State, mail: Mail, instanceId: Id): Lookup {
    Resolved(s.rows, s.messages, PlanOf(mail.to + mail.cc, mail.inReplyTo, mail.references, mail.subject), instanceId)
  }

  /** What a claimed and accepted message does, given the ticket it was matched with. */
  function Act(env: Env, s: State, source: MailId, mail: Mail, instanceId: Id, sender: string, minted: Minted,
               lookup: Lookup): (State, Outcome)
    requires instanceId in env.listing && (lookup.Found? ==> lookup.id in s.rows)
  {
    match lookup
    case CrossTenant => (s, Dropped(ForeignTicket))
    case Failed => (s, Errored)
    case Found(id) =>
      var t := s.rows[id];
      Finish(s.(rows := Joined(s.rows, id, instanceId, sender, minted.now)), source, mail, sender, minted,
             Delivered(id, minted.messageRowId, false, t.status.Closed?, !Participates(t, sender)))
    case Unmatched =>
      var (after, ok) := Opened(s, env, source, mail, instanceId, sender, minted);
      if ok
      then Finish(after, source, mail, sender, minted, Delivered(minted.ticketId, minted.messageRowId, true, false, false))
      else (after, Errored)
  }

  /** Everything one delivery does when nothing comes between its writes. */
  ghost function Process(env: Env, s: State, source: MailId, parsed: Option<Mail>, minted: Minted): (State, Outcome)
    requires AllConsistent(s.rows)
  {
    if source in s.processed then (s, Dropped(Duplicate))
    else
      var claimed := s.(processed := s.processed + {source});
      match Screen(env, parsed)
      case Rejected(reason) => (claimed, Dropped(reason))
      case Accepted(instanceId, sender) =>
        LookupConfined(s, parsed.value, instanceId);
        Act(env, Routed(s, source, instanceId), source, parsed.value, instanceId, sender, minted,
            Matched(s, parsed.value, instanceId))
  }

  /** The state after the claim of a mail that is let through to an instance. */
  function Routed(s: State, source: MailId, instanceId: Id): State {
    s.(processed := s.processed + {source}, route := s.route[source := instanceId])
  }

  lemma {:induction false} LookupConfined(s: State, mail: Mail, instanceId: Id)
    requires AllConsistent(s.rows)
    ensures var r := Matched(s, mail, instanceId); r.Found? ==> r.id in s.rows && s.rows[r.id].instanceId == instanceId
  {
    if Matched(s, mail, instanceId).Found? {
      Confined(s.rows, s.messages, PlanOf(mail.to + mail.cc, mail.inReplyTo, mail.references, mail.subject), instanceId);
    }
  }

  // ---------------------------------------------------------------- the code

  class Mailroom {
    const env: Env
    const tickets: TicketTable
    var processed: set<MailId>
    var messages: Messages
    ghost var tasks: map<nat, Task>
    ghost var origin: map<Id, MailId>
    ghost var route: map<MailId, Id>

    constructor (env: Env, tickets: TicketTable)
      ensures this.env == env && this.tickets == tickets
      ensures processed == {} && messages == map[] && tasks == map[] && origin == map[] && route == map[]
    {
      this.env, this.tickets := env, tickets;
      processed, messages, tasks, origin, route := {}, map[], map[], map[], map[];
    }

    ghost function View(): State
      reads this, tickets
    {
      State(tickets.rows, tickets.counters, processed, messages, tasks, origin, route)
    }

    /** A conditional put: true for the one call that claims the id. */
    method ClaimProcessedMessage(source: MailId) returns (claimed: bool)
      modifies `processed
      ensures claimed <==> source !in old(processed)
      ensures processed == old(processed) + {source}
    {
      claimed := source !in processed;
      processed := processed + {source};
    }

    method ScreenMail(parsed: Option<Mail>) returns (r: Screened)
      ensures r == Screen(env, parsed)
    {
      if parsed.None? { return Rejected(Unparseable); }
      var mail := parsed.value;
      if mail.looping { return Rejected(Looping); }
      var routed := FindInstance(env.table, mail.to + mail.cc);
      if routed.None? { return Rejected(NoRoute); }
      var i := routed.value;
      if i !in env.instances || i !in env.listing || env.instances[i].deleted || !env.instances[i].support {
        return Rejected(InstanceGone);
      }
      if mail.sender.Some? {
        var own := FindInstance(env.table, [mail.sender.value]);
        if own.Some? { return Rejected(OwnSender); }
      }
      if mail.sender.None? { return Rejected(NoSender); }
      r := Accepted(i, NormalizeRecipient(mail.sender.value).address);
    }

    method JoinTicket(id: Id, instanceId: Id, sender: string, now: nat) returns (reopened: bool, addedCc: bool)
      requires id in tickets.rows
      modifies tickets
      ensures tickets.rows == Joined(old(tickets.rows), id, instanceId, sender, now)
      ensures tickets.counters == old(tickets.counters)
      ensures reopened == old(tickets.rows)[id].status.Closed?
      ensures addedCc == !Participates(old(tickets.rows)[id], sender)
    {
      var ticket := tickets.rows[id];
      addedCc := !(sender in ticket.requesters) && !(sender in ticket.ccs);
      if addedCc {
        var _ := tickets.UpdateTicket(id, AddCc(sender, now));
      }
      reopened := ticket.status.Closed?;
      if reopened {
        var _ := tickets.UpdateTicket(id, SetStatusAndAssignee(instanceId, Open, ticket.assignee, now));
      } else {
        var _ := tickets.UpdateTicket(id, Touch(now));
      }
    }

    method OpenTicket(source: MailId, mail: Mail, instanceId: Id, sender: string, minted: Minted) returns (ok: bool)
      requires instanceId in env.listing
      modifies tickets, `origin
      ensures (View(), ok) == Opened(old(View()), env, source, mail, instanceId, sender, minted)
    {
      var subject := if Trim(mail.subject) == "" then NO_SUBJECT else mail.subject;
      var ccs := StripOwnAddresses(env.listing[instanceId], mail.to, mail.cc, sender);
      var number := tickets.IncrementTicketCounter(instanceId);
      var draft := Draft(instanceId, number, subject, [sender], ccs);
      var reply := tickets.CreateTicket(minted.ticketId, draft, minted.replyToken, minted.now);
      ok := reply.Done?;
      if ok { origin := origin[minted.ticketId := source]; }
    }

    method CreateTicketMessage(id: Id, row: MessageRow) returns (ok: bool)
      modifies `messages
      ensures ok == Storable(old(View()), id, row)
      ensures messages == if ok then old(messages)[id := row] else old(messages)
    {
      var repeatedTo := TicketTable.Repeats(row.to);
      var repeatedCc := TicketTable.Repeats(row.cc);
      if id in messages || repeatedTo || repeatedCc { return false; }
      messages := messages[id := row];
      ok := true;
    }

    method StoreMessage(source: MailId, mail: Mail, sender: string, minted: Minted, delivered: Outcome)
      returns (r: Outcome)
      requires delivered.Delivered?
      modifies `messages, tickets
      ensures (View(), r) == Finish(old(View()), source, mail, sender, minted, delivered)
    {
      var id := minted.messageRowId;
      var row := RowFor(source, mail, delivered.ticketId, sender);
      var ok := CreateTicketMessage(id, row);
      if !ok { return Errored; }
      if mail.messageId.Some? {
        messages := messages[id := messages[id].(rfcMessageId := mail.messageId)];
        assert messages == old(messages)[id := row.(rfcMessageId := mail.messageId)];
      }
      if mail.attachments > 0 {
        var _ := tickets.UpdateTicket(delivered.ticketId, MarkHasAttachments);
      }
      r := delivered;
    }

    method ProcessRawMessage(source: MailId, parsed: Option<Mail>, minted: Minted) returns (r: Outcome)
      requires AllConsistent(tickets.rows)
      modifies this, tickets
      ensures (View(), r) == Process(env, old(View()), source, parsed, minted)
    {
      var claimed := ClaimProcessedMessage(source);
      if !claimed {
        assert processed == old(processed);
        return Dropped(Duplicate);
      }
      var screened := ScreenMail(parsed);
      if screened.Rejected? { return Dropped(screened.reason); }
      var instanceId, sender, mail := screened.instanceId, screened.sender, parsed.value;
      route := route[source := instanceId];
      var plan := BuildPlan(mail.to + mail.cc, mail.inReplyTo, mail.references, mail.subject);
      var found := ResolveTicket(tickets.rows, messages, plan, instanceId);
      match found {
        case CrossTenant => r := Dropped(ForeignTicket);
        case Failed => r := Errored;
        case Found(id) =>
          LookupConfined(View(), mail, instanceId);
          var reopened, addedCc := JoinTicket(id, instanceId, sender, minted.now);
          r := StoreMessage(source, mail, sender, minted, Delivered(id, minted.messageRowId, false, reopened, addedCc));
        case Unmatched =>
          var ok := OpenTicket(source, mail, instanceId, sender, minted);
          if !ok { return Errored; }
          r := StoreMessage(source, mail, sender, minted, Delivered(minted.ticketId, minted.messageRowId, true, false, false));
      }
    }
  }

  // ---------------------------------------------------------------- what one delivery does

  /** A second delivery of a message does nothing at all, whatever it says. */
  lemma {:induction false} SecondDeliveryDoesNothing(
    env: Env, s: State, source: MailId, parsed: Option<Mail>, minted: Minted, again: Option<Mail>, minted': Minted)
    requires Inv(s)
    ensures var s' := Process(env, s, source, parsed, minted).0;
            AllConsistent(s'.rows) && Process(env, s', source, again, minted') == (s', Dropped(Duplicate))
  {
    ProcessKeepsMarkers(env, s, source, parsed, minted);
  }

  lemma {:induction false} JoinedConsistent(rows: Rows, id: Id, instanceId: Id, sender: string, now: nat)
    requires AllConsistent(rows) && id in rows && rows[id].instanceId == instanceId
    ensures AllConsistent(Joined(rows, id, instanceId, sender, now))
  {
    var t := rows[id];
    StepKeepsMarkersIff(rows, Update(id, AddCc(sender, now)));
    var copied := if Participates(t, sender) then rows else Exec(rows, Update(id, AddCc(sender, now))).0;
    IdentityKept(rows, Update(id, AddCc(sender, now)), id);
    StepKeepsMarkersIff(copied, Update(id, SetStatusAndAssignee(instanceId, Open, t.assignee, now)));
    StepKeepsMarkersIff(copied, Update(id, Touch(now)));
  }

  /** A lookup that found a ticket found one of the instance; `Confined` says so of every one. */
  ghost predicate FitsInstance(s: State, instanceId: Id, lookup: Lookup) {
    lookup.Found? ==> lookup.id in s.rows && s.rows[lookup.id].instanceId == instanceId
  }

  lemma {:induction false} FinishKeepsMarkers(s: State, source: MailId, mail: Mail, sender: string, minted: Minted,
                                              delivered: Outcome)
    requires delivered.Delivered? && AllConsistent(s.rows)
    ensures AllConsistent(Finish(s, source, mail, sender, minted, delivered).0.rows)
  {
    StepKeepsMarkersIff(s.rows, Update(delivered.ticketId, MarkHasAttachments));
  }

  lemma {:induction false} OpenedConsistent(s: State, env: Env, source: MailId, mail: Mail, instanceId: Id,
                                            sender: string, minted: Minted)
    requires instanceId in env.listing && AllConsistent(s.rows)
    ensures AllConsistent(Opened(s, env, source, mail, instanceId, sender, minted).0.rows)
  {
    var draft := DraftFor(s, env, mail, instanceId, sender);
    StepKeepsMarkersIff(s.rows, Create(minted.ticketId, draft, minted.replyToken, minted.now));
  }

  lemma {:induction false} ActKeepsMarkers(env: Env, s: State, source: MailId, mail: Mail, instanceId: Id,
                                           sender: string,
                                           minted: Minted, lookup: Lookup)
    requires instanceId in env.listing && AllConsistent(s.rows) && FitsInstance(s, instanceId, lookup)
    ensures AllConsistent(Act(env, s, source, mail, instanceId, sender, minted, lookup).0.rows)
  {
    match lookup {
      case Found(id) =>
        JoinedConsistent(s.rows, id, instanceId, sender, minted.now);
        var joined := s.(rows := Joined(s.rows, id, instanceId, sender, minted.now));
        var t := s.rows[id];
        var delivered := Delivered(id, minted.messageRowId, false, t.status.Closed?, !Participates(t, sender));
        FinishKeepsMarkers(joined, source, mail, sender, minted, delivered);
      case Unmatched =>
        OpenedConsistent(s, env, source, mail, instanceId, sender, minted);
        var after := Opened(s, env, source, mail, instanceId, sender, minted).0;
        var delivered := Delivered(minted.ticketId, minted.messageRowId, true, false, false);
        FinishKeepsMarkers(after, source, mail, sender, minted, delivered);
      case CrossTenant =>
      case Failed =>
    }
  }

  lemma {:induction false} ActKeepsClaims(env: Env, s: State, source: MailId, mail: Mail, instanceId: Id,
                                          sender: string,
                                          minted: Minted, lookup: Lookup)
    requires instanceId in env.listing && (lookup.Found? ==> lookup.id in s.rows)
    ensures var s' := Act(env, s, source, mail, instanceId, sender, minted, lookup).0;
            s'.processed == s.processed && s'.tasks == s.tasks && s'.route == s.route
  {
    match lookup {
      case Found(id) =>
        var joined := s.(rows := Joined(s.rows, id, instanceId, sender, minted.now));
        var t := s.rows[id];
        var delivered := Delivered(id, minted.messageRowId, false, t.status.Closed?, !Participates(t, sender));
        FinishKeepsClaims(joined, source, mail, sender, minted, delivered);
      case Unmatched =>
        var after := Opened(s, env, source, mail, instanceId, sender, minted).0;
        var delivered := Delivered(minted.ticketId, minted.messageRowId, true, false, false);
        FinishKeepsClaims(after, source, mail, sender, minted, delivered);
      case CrossTenant =>
      case Failed =>
    }
  }

  lemma {:induction false} FinishKeepsClaims(s: State, source: MailId, mail: Mail, sender: string, minted: Minted,
                                             delivered: Outcome)
    requires delivered.Delivered?
    ensures var s' := Finish(s, source, mail, sender, minted, delivered).0;
            s'.processed == s.processed && s'.tasks == s.tasks && s'.route == s.route
  {}

  lemma {:induction false} ProcessKeepsMarkers(env: Env, s: State, source: MailId, parsed: Option<Mail>, minted: Minted)
    requires AllConsistent(s.rows)
    ensures AllConsistent(Process(env, s, source, parsed, minted).0.rows)
    ensures source in Process(env, s, source, parsed, minted).0.processed
  {
    match Screen(env, parsed) {
      case Rejected(_) =>
      case Accepted(instanceId, sender) =>
        var lookup := Matched(s, parsed.value, instanceId);
        LookupConfined(s, parsed.value, instanceId);
        var routed := Routed(s, source, instanceId);
        ActKeepsMarkers(env, routed, source, parsed.value, instanceId, sender, minted, lookup);
        ActKeepsClaims(env, routed, source, parsed.value, instanceId, sender, minted, lookup);
    }
  }

  /** The one new message is on the ticket, stored for this mail with its sender and headers and
      under the message id it brought. */
  ghost predicate WellStored(s: State, s': State, r: Outcome, source: MailId, mail: Mail, instanceId: Id, sender: string)
    requires r.Delivered?
  {
    && r.ticketId in s'.rows && s'.rows[r.ticketId].instanceId == instanceId
    && r.messageRowId !in s.messages
    && s'.messages == s.messages[r.messageRowId := MessageRow(
         r.ticketId, Some(source), Some(sender), mail.to, mail.cc, mail.inReplyTo, mail.references, mail.messageId)]
  }

  /** On a ticket that existed the sender takes part afterwards; a closed ticket is open again,
      an open or deleted one keeps its status; the times are the mail's; attachments are marked;
      nothing else of the ticket but the keys of its status, and nothing else of the tickets,
      changes. */
  ghost predicate WellJoined(s: State, s': State, r: Outcome, mail: Mail, sender: string, now: nat)
    requires r.Delivered?
  {
    && r.ticketId in s.rows && r.ticketId in s'.rows && s'.counters == s.counters && s'.origin == s.origin
    && s'.rows == s.rows[r.ticketId := s'.rows[r.ticketId]]
    && var t, t' := s.rows[r.ticketId], s'.rows[r.ticketId];
    && t' == t.(ccs := t'.ccs, status := t'.status, updatedAt := now, lastActivityAt := now,
         hasAttachments := t.hasAttachments || mail.attachments > 0,
         instanceStatus := t'.instanceStatus, instanceVisible := t'.instanceVisible, instanceAssignee := t'.instanceAssignee)
    && t'.ccs == (if sender in t.requesters then t.ccs else t.ccs + {sender})
    && (r.addedCc <==> sender !in t.requesters && sender !in t.ccs)
    && t'.status == (if t.status.Closed? then Open else t.status) && (r.reopened <==> t.status.Closed?)
    && t'.Carried() == (if t.status.Closed? then ComputeMarkers(t.instanceId, Open, t.assignee) else t.Carried())
  }

  /** A new ticket takes the next number of its instance, the subject of the mail and the reply
      token that was drawn; it is open and unassigned; the sender is its only requester, and its
      copies are exactly the other addressees that are none of the instance's own. */
  ghost predicate WellOpened(env: Env, s: State, s': State, r: Outcome, mail: Mail, instanceId: Id, sender: string,
                             minted: Minted)
    requires r.Delivered? && instanceId in env.listing
  {
    && r.ticketId == minted.ticketId && r.ticketId !in s.rows && r.ticketId in s'.rows
    && s'.rows == s.rows[r.ticketId := s'.rows[r.ticketId]] && !r.reopened && !r.addedCc
    && var t := s'.rows[r.ticketId];
    && t.number == Counted(s.counters, instanceId) + 1 && s'.counters == s.counters[instanceId := t.number]
    && t.instanceId == instanceId && t.Consistent()
    && t.subject == (if Trim(mail.subject) == "" then "(no subject)" else mail.subject)
    && t.replyToken == minted.replyToken
    && t.status.Open? && t.assignee.None? && t.requesters == {sender}
    && t.ccs == Elements(Stripped(env.listing[instanceId], mail.to + mail.cc, sender))
    && t.createdAt == t.updatedAt == t.lastActivityAt == minted.now && (t.hasAttachments <==> mail.attachments > 0)
  }

  /** What storing the message leaves of the state before it. */
  lemma {:induction false} FinishSpec(s: State, source: MailId, mail: Mail, sender: string, minted: Minted,
                                      delivered: Outcome)
    requires delivered.Delivered? && delivered.messageRowId == minted.messageRowId && delivered.ticketId in s.rows
    ensures var (s', r) := Finish(s, source, mail, sender, minted, delivered);
            && s'.counters == s.counters && s'.origin == s.origin
            && (r.Delivered? ==>
                  && r == delivered && WellStored(s, s', r, source, mail, s.rows[r.ticketId].instanceId, sender)
                  && s'.rows == if mail.attachments > 0 then s.rows[r.ticketId := s.rows[r.ticketId].(hasAttachments := true)]
                                else s.rows)
  {}

  lemma {:induction false} JoinedIs(rows: Rows, id: Id, instanceId: Id, sender: string, now: nat)
    requires id in rows && rows[id].instanceId == instanceId
    ensures var t := rows[id];
            var joined := Joined(rows, id, instanceId, sender, now);
            && id in joined && joined == rows[id := joined[id]]
            && joined[id] == t.(
                 ccs := if Participates(t, sender) then t.ccs else t.ccs + {sender},
                 status := if t.status.Closed? then Open else t.status, updatedAt := now, lastActivityAt := now,
                 instanceStatus := joined[id].instanceStatus, instanceVisible := joined[id].instanceVisible,
                 instanceAssignee := joined[id].instanceAssignee)
            && joined[id].Carried() == if t.status.Closed? then ComputeMarkers(instanceId, Open, t.assignee) else t.Carried()
  {}

  lemma {:induction false} JoinDelivers(s: State, source: MailId, mail: Mail, instanceId: Id, sender: string,
                                        minted: Minted, id: Id)
    requires id in s.rows && s.rows[id].instanceId == instanceId
    ensures var joined := s.(rows := Joined(s.rows, id, instanceId, sender, minted.now));
            var t := s.rows[id];
            var delivered := Delivered(id, minted.messageRowId, false, t.status.Closed?, !Participates(t, sender));
            var (s', r) := Finish(joined, source, mail, sender, minted, delivered);
            r.Delivered? ==>
              && r == delivered && WellStored(s, s', r, source, mail, instanceId, sender)
              && WellJoined(s, s', r, mail, sender, minted.now)
  {
    JoinedIs(s.rows, id, instanceId, sender, minted.now);
    var joined := s.(rows := Joined(s.rows, id, instanceId, sender, minted.now));
    var t := s.rows[id];
    var delivered := Delivered(id, minted.messageRowId, false, t.status.Closed?, !Participates(t, sender));
    FinishSpec(joined, source, mail, sender, minted, delivered);
    var s' := Finish(joined, source, mail, sender, minted, delivered).0;
    assert s'.rows == s.rows[id := s'.rows[id]];
  }

  lemma {:induction false} OpenDelivers(env: Env, s: State, source: MailId, mail: Mail, instanceId: Id, sender: string,
                                        minted: Minted)
    requires instanceId in env.listing && Opened(s, env, source, mail, instanceId, sender, minted).1
    ensures var delivered := Delivered(minted.ticketId, minted.messageRowId, true, false, false);
            var after := Opened(s, env, source, mail, instanceId, sender, minted).0;
            var (s', r) := Finish(after, source, mail, sender, minted, delivered);
            r.Delivered? ==>
              && r == delivered && WellStored(s, s', r, source, mail, instanceId, sender)
              && WellOpened(env, s, s', r, mail, instanceId, sender, minted)
  {
    var delivered := Delivered(minted.ticketId, minted.messageRowId, true, false, false);
    var after := Opened(s, env, source, mail, instanceId, sender, minted).0;
    FinishSpec(after, source, mail, sender, minted, delivered);
    assert Elements([sender]) == {sender};
    NewTicketConsistent(DraftFor(s, env, mail, instanceId, sender), minted.replyToken, minted.now);
    var s' := Finish(after, source, mail, sender, minted, delivered).0;
    assert s'.rows == s.rows[minted.ticketId := s'.rows[minted.ticketId]];
  }

  lemma {:induction false} ActDelivers(env: Env, s: State, source: MailId, mail: Mail, instanceId: Id, sender: string,
                                       minted: Minted, lookup: Lookup)
    requires instanceId in env.listing && FitsInstance(s, instanceId, lookup)
    ensures var (s', r) := Act(env, s, source, mail, instanceId, sender, minted, lookup);
            && (r.Delivered? ==> r.messageRowId == minted.messageRowId)
            && (r.Delivered? ==> WellStored(s, s', r, source, mail, instanceId, sender))
            && (r.Delivered? && !r.isNew ==> lookup == Found(r.ticketId) && WellJoined(s, s', r, mail, sender, minted.now))
            && (r.Delivered? && r.isNew ==>
                  lookup == Unmatched && WellOpened(env, s, s', r, mail, instanceId, sender, minted))
  {
    match lookup {
      case Found(id) => JoinDelivers(s, source, mail, instanceId, sender, minted, id);
      case Unmatched =>
        if Opened(s, env, source, mail, instanceId, sender, minted).1 {
          OpenDelivers(env, s, source, mail, instanceId, sender, minted);
        }
      case CrossTenant =>
      case Failed =>
    }
  }

  /** Which mail is let through, to which instance and in whose name; and the first of the checks
      that the others fail. */
  lemma {:induction false} ScreenIff(env: Env, parsed: Option<Mail>)
    ensures var r := Screen(env, parsed);
            if parsed.None? then r == Rejected(Unparseable)
            else
              var mail := parsed.value;
              var routed := ResolveInstanceId(env.table, mail.to + mail.cc);
              if mail.looping then r == Rejected(Looping)
              else if routed.None? then r == Rejected(NoRoute)
              else
                var i := routed.value;
                var serves := i in env.instances && i in env.listing && !env.instances[i].deleted && env.instances[i].support;
                && (r == Rejected(InstanceGone) <==> !serves)
                && (r == Rejected(NoSender) <==> serves && mail.sender.None?)
                && (r == Rejected(OwnSender) <==>
                      serves && mail.sender.Some? && ResolveInstanceId(env.table, [mail.sender.value]).Some?)
                && (r.Accepted? <==>
                      serves && mail.sender.Some? && ResolveInstanceId(env.table, [mail.sender.value]).None?)
                && (r.Accepted? ==> r.instanceId == i && r.sender == NormalizeRecipient(mail.sender.value).address)
  {}

  lemma {:induction false} ProcessDelivers(env: Env, s: State, source: MailId, mail: Mail, minted: Minted)
    requires AllConsistent(s.rows) && Process(env, s, source, Some(mail), minted).1.Delivered?
    ensures Screen(env, Some(mail)).Accepted? && source !in s.processed
    ensures var (s', r) := Process(env, s, source, Some(mail), minted);
            var screened := Screen(env, Some(mail));
            && screened.instanceId in env.listing && r.messageRowId == minted.messageRowId
            && s'.processed == s.processed + {source}
            && WellStored(s, s', r, source, mail, screened.instanceId, screened.sender)
            && (!r.isNew ==>
                  && Matched(s, mail, screened.instanceId) == Found(r.ticketId)
                  && WellJoined(s, s', r, mail, screened.sender, minted.now))
            && (r.isNew ==>
                  && Matched(s, mail, screened.instanceId) == Unmatched
                  && WellOpened(env, s, s', r, mail, screened.instanceId, screened.sender, minted))
  {
    var screened := Screen(env, Some(mail));
    LookupConfined(s, mail, screened.instanceId);
    var lookup := Matched(s, mail, screened.instanceId);
    var routed := Routed(s, source, screened.instanceId);
    ActDelivers(env, routed, source, mail, screened.instanceId, screened.sender, minted, lookup);
    ActKeepsClaims(env, routed, source, mail, screened.instanceId, screened.sender, minted, lookup);
  }

  /** A mail that is not let through leaves its claim and nothing else. */
  lemma {:induction false} RejectedLeavesClaim(env: Env, s: State, source: MailId, parsed: Option<Mail>, minted: Minted)
    requires AllConsistent(s.rows) && source !in s.processed && Screen(env, parsed).Rejected?
    ensures Process(env, s, source, parsed, minted)
            == (s.(processed := s.processed + {source}), Dropped(Screen(env, parsed).reason))
  {}

  /** A delivered message is on a ticket of the instance its recipients route to, on the one
      that matched or on a new one. */
  lemma {:induction false} DeliveredWhereRouted(env: Env, s: State, source: MailId, mail: Mail, minted: Minted)
    requires AllConsistent(s.rows) && Process(env, s, source, Some(mail), minted).1.Delivered?
    ensures mail.sender.Some? && ResolveInstanceId(env.table, mail.to + mail.cc).Some?
    ensures var (s', r) := Process(env, s, source, Some(mail), minted);
            var instanceId := ResolveInstanceId(env.table, mail.to + mail.cc).value;
            var sender := NormalizeRecipient(mail.sender.value).address;
            && instanceId in env.listing
            && source !in s.processed && s'.processed == s.processed + {source} && r.messageRowId == minted.messageRowId
            && WellStored(s, s', r, source, mail, instanceId, sender)
            && (!r.isNew ==> WellJoined(s, s', r, mail, sender, minted.now))
            && (r.isNew ==> WellOpened(env, s, s', r, mail, instanceId, sender, minted))
  {
    ProcessDelivers(env, s, source, mail, minted);
    ScreenIff(env, Some(mail));
  }

  /** The copies of a new ticket: every other addressee, and none that routes to the instance. */
  lemma {:induction false} CopiesNeverReturn(env: Env, instanceId: Id, raws: seq<string>, sender: string,
                                             address: string)
    requires ValidEnv(env) && instanceId in env.instances
    ensures var ccs := Elements(Stripped(env.listing[instanceId], raws, sender));
            && (address in ccs ==> address != sender && ResolveInstanceId(env.table, [address]) != Some(instanceId))
            && (address in ccs <==>
                  address != sender && !IsOwnAddress(env.listing[instanceId], address)
                  && exists raw :: raw in raws && NormalizeRecipient(raw).address == address)
  {
    StrippedSpec(env.listing[instanceId], raws, sender);
    NoSelfMail(env.table, instanceId, env.listing[instanceId], address);
  }

  /** A message that is claimed and let through is stored exactly when the walk found a ticket
      or none, its rows' ids are fresh and neither `To` nor `Cc` repeats an address; the copies
      of a new ticket are never what fails. Else the claim stands and no message changed. */
  lemma {:induction false} DeliveredIff(env: Env, s: State, source: MailId, mail: Mail, minted: Minted)
    requires AllConsistent(s.rows) && source !in s.processed && Screen(env, Some(mail)).Accepted?
    ensures var (s', r) := Process(env, s, source, Some(mail), minted);
            var lookup := Matched(s, mail, Screen(env, Some(mail)).instanceId);
            && (r.Delivered? <==>
                  && (lookup.Found? || lookup.Unmatched?)
                  && minted.messageRowId !in s.messages && Distinct(mail.to) && Distinct(mail.cc)
                  && (lookup.Unmatched? ==> minted.ticketId !in s.rows))
            && (!r.Delivered? ==>
                  && r == (if lookup.CrossTenant? then Dropped(ForeignTicket) else Errored)
                  && source in s'.processed && s'.messages == s.messages)
  {
    var screened := Screen(env, Some(mail));
    LookupConfined(s, mail, screened.instanceId);
    StrippedSpec(env.listing[screened.instanceId], mail.to + mail.cc, screened.sender);
    ActIff(env, Routed(s, source, screened.instanceId), source, mail, screened.instanceId, screened.sender, minted,
           Matched(s, mail, screened.instanceId));
  }

  lemma {:induction false} ActIff(env: Env, s: State, source: MailId, mail: Mail, instanceId: Id, sender: string,
                                  minted: Minted, lookup: Lookup)
    requires instanceId in env.listing && FitsInstance(s, instanceId, lookup)
    requires Distinct(Stripped(env.listing[instanceId], mail.to + mail.cc, sender))
    ensures var (s', r) := Act(env, s, source, mail, instanceId, sender, minted, lookup);
            && (r.Delivered? <==>
                  && (lookup.Found? || lookup.Unmatched?)
                  && minted.messageRowId !in s.messages && Distinct(mail.to) && Distinct(mail.cc)
                  && (lookup.Unmatched? ==> minted.ticketId !in s.rows))
            && (!r.Delivered? ==>
                  && r == (if lookup.CrossTenant? then Dropped(ForeignTicket) else Errored)
                  && s'.processed == s.processed && s'.messages == s.messages)
  {
    match lookup {
      case Found(id) =>
        var t := s.rows[id];
        var joined := s.(rows := Joined(s.rows, id, instanceId, sender, minted.now));
        FinishIff(joined, source, mail, sender, minted,
                  Delivered(id, minted.messageRowId, false, t.status.Closed?, !Participates(t, sender)));
      case Unmatched =>
        OpenedIff(s, env, source, mail, instanceId, sender, minted);
        FinishIff(Opened(s, env, source, mail, instanceId, sender, minted).0, source, mail, sender, minted,
                  Delivered(minted.ticketId, minted.messageRowId, true, false, false));
      case CrossTenant =>
      case Failed =>
    }
  }

  lemma {:induction false} FinishIff(s: State, source: MailId, mail: Mail, sender: string, minted: Minted, delivered: Outcome)
    requires delivered.Delivered?
    ensures var (s', r) := Finish(s, source, mail, sender, minted, delivered);
            && (r.Delivered? <==> minted.messageRowId !in s.messages && Distinct(mail.to) && Distinct(mail.cc))
            && (!r.Delivered? ==> r == Errored && s' == s)
  {}

  lemma {:induction false} OpenedIff(s: State, env: Env, source: MailId, mail: Mail, instanceId: Id, sender: string,
                                     minted: Minted)
    requires instanceId in env.listing
    requires Distinct(Stripped(env.listing[instanceId], mail.to + mail.cc, sender))
    ensures var (after, ok) := Opened(s, env, source, mail, instanceId, sender, minted);
            (ok <==> minted.ticketId !in s.rows) && after.messages == s.messages && after.processed == s.processed
  {}
}
