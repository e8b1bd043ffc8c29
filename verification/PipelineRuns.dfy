/** One delivery, write by write, is a run of the interleaved machine; so what every run keeps,
    every delivery keeps (api/src/inbound/pipeline.rs). */
module PipelineRuns {
  import opened Prelude
  import opened Tickets
  import opened Routing
  import opened Intake
  import opened TicketResolution
  import opened Pipeline

  /** A state with one more worker in it. */
  function With(s: State, task: nat, source: MailId, stage: Stage): State {
    s.(tasks := s.tasks[task := Task(Some(source), stage)])
  }

  ghost predicate Leads(s: State, events: seq<Event>, s': State) {
    Possible(s, events) && Play(s, events) == s'
  }

  lemma {:induction false} One(s: State, e: Event)
    requires Enabled(s, e)
    ensures Leads(s, [e], Next(s, e))
  {
    assert [e][1..] == [];
  }

  lemma {:induction false} Then(s: State, a: seq<Event>, m: State, b: seq<Event>, s': State)
    requires Leads(s, a, m) && Leads(m, b, s')
    ensures Leads(s, a + b, s')
    decreases |a|
  {
    if a == [] {
      assert a + b == b;
    } else {
      Then(Next(s, a[0]), a[1..], m, b, s');
      assert (a + b)[1..] == a[1..] + b;
    }
  }

  lemma {:induction false} Two(s: State, d: Event, e: Event)
    requires Enabled(s, d) && Enabled(Next(s, d), e)
    ensures Leads(s, [d, e], Next(Next(s, d), e))
  {
    One(s, d);
    One(Next(s, d), e);
    Then(s, [d], Next(s, d), [e], Next(Next(s, d), e));
    assert [d] + [e] == [d, e];
  }

  lemma {:induction false} Replaced(tasks: map<nat, Task>, task: nat, a: Task, b: Task)
    ensures tasks[task := a][task := b] == tasks[task := b]
  {}

  lemma {:induction false} ClaimRun(s: State, task: nat, source: MailId)
    requires task !in s.tasks
    ensures Leads(s, [Deliver(task, source), Claim(task)],
                  if source in s.processed then s else With(s.(processed := s.processed + {source}), task, source, Claimed))
  {
    Two(s, Deliver(task, source), Claim(task));
    assert s.tasks[task := Task(Some(source), Arrived)] - {task} == s.tasks;
    Replaced(s.tasks, task, Task(Some(source), Arrived), Task(Some(source), Claimed));
  }

  lemma {:induction false} StopRun(s: State, task: nat, source: MailId, stage: Stage)
    requires task !in s.tasks
    ensures Leads(With(s, task, source, stage), [Stop(task)], s)
  {
    One(With(s, task, source, stage), Stop(task));
    assert s.tasks[task := Task(Some(source), stage)] - {task} == s.tasks;
  }

  lemma {:induction false} EditRun(s: State, task: nat, source: MailId, stage: Stage, id: Id, change: Change)
    requires NamesOwnInstance(s.rows, Update(id, change))
    ensures Leads(With(s, task, source, stage), [Edit(id, change)],
                  With(s.(rows := Exec(s.rows, Update(id, change)).0), task, source, stage))
  {
    One(With(s, task, source, stage), Edit(id, change));
  }

  /** Where a worker is once its walk has ended. */
  function Landed(s: State, task: nat, source: MailId, instanceId: Id, lookup: Lookup): State {
    match lookup
    case Found(id) => With(s, task, source, OnTicket(instanceId, id))
    case Unmatched => With(s, task, source, Opening(instanceId))
    case _ => s
  }

  /** One read of the walk. */
  lemma {:induction false} LookRun(s: State, task: nat, source: MailId, instanceId: Id, walk: Walk, answer: Unique)
    returns (e: Event)
    requires task !in s.tasks && !walk.Ended? && Answers(s.rows, s.messages, instanceId, walk, answer)
    ensures var after := Await(s.rows, s.messages, instanceId, walk, answer);
            Leads(With(s, task, source, Walking(instanceId, walk)), [e],
                  if after.Ended? then Landed(s, task, source, instanceId, after.lookup)
                  else With(s, task, source, Walking(instanceId, after)))
  {
    var from := With(s, task, source, Walking(instanceId, walk));
    var stage := Looked(s, instanceId, walk, answer);
    assert Looked(from, instanceId, walk, answer) == stage;
    e := Look(task, answer, stage);
    One(from, e);
    assert from.tasks - {task} == s.tasks;
    if stage.Some? {
      Replaced(s.tasks, task, Task(Some(source), Walking(instanceId, walk)), Task(Some(source), stage.value));
    }
  }

  lemma {:induction false} AnswerFor(hits: set<Id>) returns (answer: Unique)
    ensures IsUnique(answer, hits)
    ensures answer.AtMost1? && answer.id.Some? ==> hits == {answer.id.value}
    ensures answer.AtMost1? && answer.id.None? ==> hits == {}
  {
    if |hits| > 1 {
      answer := Integrity;
    } else if hits == {} {
      answer := AtMost1(None);
    } else {
      var id :| id in hits;
      assert |hits - {id}| == 0;
      assert hits == {id};
      answer := AtMost1(Some(id));
    }
  }

  /** The walk from the plan on, when nobody writes between its reads, ends where `Resolved`
      says. */
  lemma {:induction false} WalkRun(s: State, task: nat, source: MailId, instanceId: Id, plan: Plan)
    returns (events: seq<Event>)
    requires task !in s.tasks
    ensures Leads(With(s, task, source, Walking(instanceId, Searching(plan))), events,
                  Landed(s, task, source, instanceId, Resolved(s.rows, s.messages, plan, instanceId)))
    decreases |plan.replyTags| + |plan.messageIds|
  {
    if plan.replyTags != [] {
      events := TagRun(s, task, source, instanceId, plan);
    } else if plan.messageIds != [] {
      events := MessageIdRun(s, task, source, instanceId, plan);
    } else {
      events := SubjectRun(s, task, source, instanceId, plan);
    }
  }

  lemma {:induction false} TagRun(s: State, task: nat, source: MailId, instanceId: Id, plan: Plan)
    returns (events: seq<Event>)
    requires task !in s.tasks && plan.replyTags != []
    ensures Leads(With(s, task, source, Walking(instanceId, Searching(plan))), events,
                  Landed(s, task, source, instanceId, Resolved(s.rows, s.messages, plan, instanceId)))
    decreases |plan.replyTags| + |plan.messageIds|, 0
  {
    var start := With(s, task, source, Walking(instanceId, Searching(plan)));
    var e := LookRun(s, task, source, instanceId, Searching(plan), Integrity);
    events := [e];
    if !Verifies(s.rows, plan.replyTags[0]) {
      var rest := plan.(replyTags := plan.replyTags[1..]);
      var more := WalkRun(s, task, source, instanceId, rest);
      Then(start, events, With(s, task, source, Walking(instanceId, Searching(rest))), more,
           Landed(s, task, source, instanceId, Resolved(s.rows, s.messages, rest, instanceId)));
      events := events + more;
    }
  }

  lemma {:induction false} MessageIdRun(s: State, task: nat, source: MailId, instanceId: Id, plan: Plan)
    returns (events: seq<Event>)
    requires task !in s.tasks && plan.replyTags == [] && plan.messageIds != []
    ensures Leads(With(s, task, source, Walking(instanceId, Searching(plan))), events,
                  Landed(s, task, source, instanceId, Resolved(s.rows, s.messages, plan, instanceId)))
    decreases |plan.replyTags| + |plan.messageIds|, 0
  {
    var start := With(s, task, source, Walking(instanceId, Searching(plan)));
    var hits := Carrying(s.messages, plan.messageIds[0]);
    var answer := AnswerFor(hits);
    var e := LookRun(s, task, source, instanceId, Searching(plan), answer);
    events := [e];
    if answer.AtMost1? {
      var rest := plan.(messageIds := plan.messageIds[1..]);
      var searching := With(s, task, source, Walking(instanceId, Searching(rest)));
      if answer.id.Some? {
        OnlyHit(hits, answer.id.value);
        events := FollowRun(s, task, source, instanceId, start, events, answer.id.value, rest);
      }
      if Led(s.rows, s.messages, plan.messageIds[0], instanceId).None? {
        var more := WalkRun(s, task, source, instanceId, rest);
        Then(start, events, searching, more,
             Landed(s, task, source, instanceId, Resolved(s.rows, s.messages, rest, instanceId)));
        events := events + more;
      }
    }
  }

  /** The two reads behind a message id: the message row, then the ticket row. */
  lemma {:induction false} FollowRun(s: State, task: nat, source: MailId, instanceId: Id, start: State,
                                     before: seq<Event>, id: Id, rest: Plan)
    returns (events: seq<Event>)
    requires task !in s.tasks && id in s.messages
    requires Leads(start, before, With(s, task, source, Walking(instanceId, Following(id, rest))))
    ensures var ticketId := s.messages[id].ticketId;
            Leads(start, events,
                  if ticketId in s.rows then Landed(s, task, source, instanceId, Decide(s.rows, ticketId, instanceId))
                  else With(s, task, source, Walking(instanceId, Searching(rest))))
  {
    var ticketId := s.messages[id].ticketId;
    var following := With(s, task, source, Walking(instanceId, Following(id, rest)));
    var fetching := With(s, task, source, Walking(instanceId, Fetching(ticketId, false, rest)));
    var e := LookRun(s, task, source, instanceId, Following(id, rest), Integrity);
    Then(start, before, following, [e], fetching);
    var e' := LookRun(s, task, source, instanceId, Fetching(ticketId, false, rest), Integrity);
    Then(start, before + [e], fetching, [e'],
         if ticketId in s.rows then Landed(s, task, source, instanceId, Decide(s.rows, ticketId, instanceId))
         else With(s, task, source, Walking(instanceId, Searching(rest))));
    events := before + [e] + [e'];
  }

  lemma {:induction false} SubjectRun(s: State, task: nat, source: MailId, instanceId: Id, plan: Plan)
    returns (events: seq<Event>)
    requires task !in s.tasks && plan.replyTags == [] && plan.messageIds == []
    ensures Leads(With(s, task, source, Walking(instanceId, Searching(plan))), events,
                  Landed(s, task, source, instanceId, Resolved(s.rows, s.messages, plan, instanceId)))
  {
    var start := With(s, task, source, Walking(instanceId, Searching(plan)));
    if plan.subjectNumber.None? {
      var e := LookRun(s, task, source, instanceId, Searching(plan), Integrity);
      events := [e];
    } else {
      var hits := Tickets.Numbered(s.rows, Composite(instanceId, Decimal(plan.subjectNumber.value)));
      var answer := AnswerFor(hits);
      var e := LookRun(s, task, source, instanceId, Searching(plan), answer);
      events := [e];
      if answer.AtMost1? && answer.id.Some? {
        OnlyHit(hits, answer.id.value);
        var fetching := Fetching(answer.id.value, true, NOTHING_LEFT);
        var e' := LookRun(s, task, source, instanceId, fetching, Integrity);
        Then(start, events, With(s, task, source, Walking(instanceId, fetching)), [e'],
             Landed(s, task, source, instanceId, Found(answer.id.value)));
        events := events + [e'];
      }
    }
  }

  /** The writes on a ticket that was found. */
  lemma {:induction false} JoinRun(s: State, task: nat, source: MailId, id: Id, instanceId: Id, sender: string,
                                   now: nat)
    returns (events: seq<Event>)
    requires task !in s.tasks && id in s.rows && s.rows[id].instanceId == instanceId
    ensures Leads(With(s, task, source, OnTicket(instanceId, id)), events,
                  With(s.(rows := Joined(s.rows, id, instanceId, sender, now)), task, source, OnTicket(instanceId, id)))
  {
    var t, stage := s.rows[id], OnTicket(instanceId, id);
    var start := With(s, task, source, stage);
    var copied := s;
    events := [];
    if !Participates(t, sender) {
      copied := s.(rows := Exec(s.rows, Update(id, AddCc(sender, now))).0);
      EditRun(s, task, source, stage, id, AddCc(sender, now));
      events := [Edit(id, AddCc(sender, now))];
    }
    var change := if t.status.Closed? then SetStatusAndAssignee(instanceId, Open, t.assignee, now) else Touch(now);
    EditRun(copied, task, source, stage, id, change);
    var joined := s.(rows := Joined(s.rows, id, instanceId, sender, now));
    assert copied.(rows := Exec(copied.rows, Update(id, change)).0) == joined;
    Then(start, events, With(copied, task, source, stage), [Edit(id, change)], With(joined, task, source, stage));
    events := events + [Edit(id, change)];
  }

  /** The writes of a new ticket. */
  lemma {:induction false} OpenRun(s: State, task: nat, env: Env, source: MailId, mail: Mail, instanceId: Id,
                                   sender: string, minted: Minted)
    returns (events: seq<Event>)
    requires task !in s.tasks && instanceId in env.listing
    ensures var (after, ok) := Opened(s, env, source, mail, instanceId, sender, minted);
            Leads(With(s, task, source, Opening(instanceId)), events,
                  if ok then With(after, task, source, OnTicket(instanceId, minted.ticketId)) else after)
  {
    var draft := DraftFor(s, env, mail, instanceId, sender);
    var d := Allocate(task);
    var e := Event.OpenTicket(task, minted.ticketId, draft.subject, draft.requesters, draft.ccs,
                              minted.replyToken, minted.now);
    events := [d, e];
    var start := With(s, task, source, Opening(instanceId));
    var stage := Stage.Numbered(instanceId, draft.number);
    var numbered := With(s.(counters := s.counters[instanceId := draft.number]), task, source, stage);
    Replaced(s.tasks, task, Task(Some(source), Opening(instanceId)), Task(Some(source), stage));
    assert Next(start, d) == numbered;
    Two(start, d, e);
    assert numbered.tasks - {task} == s.tasks;
    Replaced(s.tasks, task, Task(Some(source), stage), Task(Some(source), OnTicket(instanceId, minted.ticketId)));
  }

  /** The writes of the message. */
  lemma {:induction false} FinishRun(s: State, task: nat, source: MailId, mail: Mail, instanceId: Id, sender: string,
                                     minted: Minted, delivered: Outcome)
    returns (events: seq<Event>)
    requires task !in s.tasks && delivered.Delivered?
    ensures Leads(With(s, task, source, OnTicket(instanceId, delivered.ticketId)), events,
                  Finish(s, source, mail, sender, minted, delivered).0)
  {
    var id := minted.messageRowId;
    var row := RowFor(source, mail, delivered.ticketId, sender);
    var start := With(s, task, source, OnTicket(instanceId, delivered.ticketId));
    var store := Event.StoreMessage(task, id, row);
    One(start, store);
    events := [store];
    assert start.tasks - {task} == s.tasks;
    if Storable(s, id, row) {
      events := NameRun(start, events, s, id, row, mail.messageId);
      var named := s.(messages := s.messages[id := if mail.messageId.Some? then row.(rfcMessageId := mail.messageId) else row]);
      events := MarkRun(start, events, named, delivered.ticketId, mail.attachments);
    }
  }

  /** The message id of the message just stored, if it has one. */
  lemma {:induction false} NameRun(start: State, before: seq<Event>, s: State, id: Id, row: MessageRow,
                                   messageId: Option<string>)
    returns (events: seq<Event>)
    requires Leads(start, before, s.(messages := s.messages[id := row]))
    ensures Leads(start, events,
                  s.(messages := s.messages[id := if messageId.Some? then row.(rfcMessageId := messageId) else row]))
  {
    events := before;
    if messageId.Some? {
      var put := s.(messages := s.messages[id := row]);
      var named := s.(messages := s.messages[id := row.(rfcMessageId := messageId)]);
      var rename := Event.SetRfcMessageId(id, messageId.value);
      assert put.messages[id := row.(rfcMessageId := messageId)] == named.messages;
      One(put, rename);
      Then(start, before, put, [rename], named);
      events := before + [rename];
    }
  }

  /** The mark of the attachments, if there are any. */
  lemma {:induction false} MarkRun(start: State, before: seq<Event>, s: State, ticketId: Id, attachments: nat)
    returns (events: seq<Event>)
    requires Leads(start, before, s)
    ensures Leads(start, events,
                  if attachments > 0 then s.(rows := Exec(s.rows, Update(ticketId, MarkHasAttachments)).0) else s)
  {
    events := before;
    if attachments > 0 {
      var mark := Edit(ticketId, MarkHasAttachments);
      One(s, mark);
      Then(start, before, s, [mark], s.(rows := Exec(s.rows, Update(ticketId, MarkHasAttachments)).0));
      events := before + [mark];
    }
  }

  /** The writes after the walk. */
  lemma {:induction false} ActRun(s: State, task: nat, env: Env, source: MailId, mail: Mail, instanceId: Id,
                                  sender: string, minted: Minted, lookup: Lookup)
    returns (events: seq<Event>)
    requires task !in s.tasks && instanceId in env.listing && FitsInstance(s, instanceId, lookup)
    ensures Leads(Landed(s, task, source, instanceId, lookup), events,
                  Act(env, s, source, mail, instanceId, sender, minted, lookup).0)
  {
    var start := Landed(s, task, source, instanceId, lookup);
    match lookup {
      case CrossTenant => events := [];
      case Failed => events := [];
      case Found(id) =>
        var joined := s.(rows := Joined(s.rows, id, instanceId, sender, minted.now));
        var t := s.rows[id];
        var delivered := Delivered(id, minted.messageRowId, false, t.status.Closed?, !Participates(t, sender));
        var a := JoinRun(s, task, source, id, instanceId, sender, minted.now);
        var b := FinishRun(joined, task, source, mail, instanceId, sender, minted, delivered);
        Then(start, a, With(joined, task, source, OnTicket(instanceId, id)), b,
             Finish(joined, source, mail, sender, minted, delivered).0);
        events := a + b;
      case Unmatched =>
        var after := Opened(s, env, source, mail, instanceId, sender, minted).0;
        events := OpenRun(s, task, env, source, mail, instanceId, sender, minted);
        if Opened(s, env, source, mail, instanceId, sender, minted).1 {
          var delivered := Delivered(minted.ticketId, minted.messageRowId, true, false, false);
          var b := FinishRun(after, task, source, mail, instanceId, sender, minted, delivered);
          Then(start, events, With(after, task, source, OnTicket(instanceId, minted.ticketId)), b,
               Finish(after, source, mail, sender, minted, delivered).0);
          events := events + b;
        }
    }
  }

  /** The routing, the walk and the writes of a mail that is let through. */
  lemma {:induction false} RouteRun(s: State, task: nat, source: MailId, instanceId: Id, plan: Plan)
    returns (events: seq<Event>)
    requires task !in s.tasks
    ensures Leads(With(s.(processed := s.processed + {source}), task, source, Claimed), events,
                  Landed(Routed(s, source, instanceId), task, source, instanceId,
                         Resolved(s.rows, s.messages, plan, instanceId)))
  {
    var claimed := With(s.(processed := s.processed + {source}), task, source, Claimed);
    var routed := Routed(s, source, instanceId);
    var walking := Walking(instanceId, Searching(plan));
    One(claimed, Route(task, instanceId, plan));
    Replaced(s.tasks, task, Task(Some(source), Claimed), Task(Some(source), walking));
    assert Next(claimed, Route(task, instanceId, plan)) == With(routed, task, source, walking);
    var walk := WalkRun(routed, task, source, instanceId, plan);
    Then(claimed, [Route(task, instanceId, plan)], With(routed, task, source, walking), walk,
         Landed(routed, task, source, instanceId, Resolved(s.rows, s.messages, plan, instanceId)));
    events := [Route(task, instanceId, plan)] + walk;
  }

  /** Every delivery is a run: its reads and writes, in this order, are steps the interleaved
      machine may take, and lead exactly where the delivery leads. */
  lemma {:induction false} ProcessIsRun(env: Env, s: State, source: MailId, parsed: Option<Mail>, minted: Minted,
                                        task: nat)
    returns (events: seq<Event>)
    requires AllConsistent(s.rows) && task !in s.tasks
    ensures Leads(s, events, Process(env, s, source, parsed, minted).0)
  {
    events := [Deliver(task, source), Claim(task)];
    ClaimRun(s, task, source);
    if source !in s.processed {
      var claimed := s.(processed := s.processed + {source});
      var b := AcceptedRun(env, s, source, parsed, minted, task);
      Then(s, events, With(claimed, task, source, Claimed), b, Process(env, s, source, parsed, minted).0);
      events := events + b;
    }
  }

  lemma {:induction false} AcceptedRun(env: Env, s: State, source: MailId, parsed: Option<Mail>, minted: Minted,
                                       task: nat)
    returns (events: seq<Event>)
    requires AllConsistent(s.rows) && task !in s.tasks && source !in s.processed
    ensures Leads(With(s.(processed := s.processed + {source}), task, source, Claimed), events,
                  Process(env, s, source, parsed, minted).0)
  {
    var claimed := s.(processed := s.processed + {source});
    match Screen(env, parsed) {
      case Rejected(_) =>
        events := [Stop(task)];
        StopRun(claimed, task, source, Claimed);
      case Accepted(instanceId, sender) =>
        var mail := parsed.value;
        LookupConfined(s, mail, instanceId);
        var lookup, routed := Matched(s, mail, instanceId), Routed(s, source, instanceId);
        var plan := PlanOf(mail.to + mail.cc, mail.inReplyTo, mail.references, mail.subject);
        var a := RouteRun(s, task, source, instanceId, plan);
        var b := ActRun(routed, task, env, source, mail, instanceId, sender, minted, lookup);
        Then(With(claimed, task, source, Claimed), a, Landed(routed, task, source, instanceId, lookup), b,
             Process(env, s, source, parsed, minted).0);
        events := a + b;
    }
  }

  /** So a delivery keeps the invariant of the machine. */
  lemma {:induction false} ProcessKeepsInv(env: Env, s: State, source: MailId, parsed: Option<Mail>, minted: Minted,
                                           task: nat)
    requires Inv(s) && task !in s.tasks
    ensures Inv(Process(env, s, source, parsed, minted).0)
  {
    var events := ProcessIsRun(env, s, source, parsed, minted, task);
    RunKeepsInv(s, events);
  }

  // ---------------------------------------------------------------- a message id that two messages share

  /** In every reachable state: a mail whose walk meets a shared message id first errs, and is
      lost; it is claimed, and no later event stores it. */
  lemma {:induction false} SharedIdLosesMail(s: State, task: nat, source: MailId, instanceId: Id, plan: Plan)
    returns (events: seq<Event>)
    requires Inv(s) && task !in s.tasks && source !in s.processed
    requires MeetsSharedId(s.rows, s.messages, plan, instanceId)
    ensures Leads(s, events, Routed(s, source, instanceId))
    ensures forall later ::
              Possible(Routed(s, source, instanceId), later) ==> Lost(Play(Routed(s, source, instanceId), later), source)
  {
    FailsIffSharedId(s, plan, instanceId);
    var routed := Routed(s, source, instanceId);
    var claimed := With(s.(processed := s.processed + {source}), task, source, Claimed);
    ClaimRun(s, task, source);
    var a := RouteRun(s, task, source, instanceId, plan);
    Then(s, [Deliver(task, source), Claim(task)], claimed, a, routed);
    events := [Deliver(task, source), Claim(task)] + a;
    assert OneMail(s, source);
    assert forall other :: !Holds(routed, other, source) by {
      assert forall other :: Holds(routed, other, source) ==> Holds(s, other, source);
    }
    assert forall id :: !StoredFor(routed, id, source) by {
      assert forall id :: StoredFor(routed, id, source) ==> StoredFor(s, id, source);
    }
    forall later | Possible(routed, later)
      ensures Lost(Play(routed, later), source)
    {
      LostForGood(routed, later, source);
    }
  }
}
