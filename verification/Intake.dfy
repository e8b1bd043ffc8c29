/** Inbound mail as a state machine (api/src/inbound/pipeline.rs): any number of deliveries
    of any messages, other ticket openers and editors, and crashes, interleaved read by read
    and write by write. */
module Intake {
  import opened Prelude
  import opened Tickets
  import opened TicketResolution

  /** Where a worker stands between its reads and writes, once routed with the instance. */
  datatype Stage =
    | Arrived
    | Claimed
    | Walking(instanceId: Id, walk: Walk)
    | Opening(instanceId: Id)
    | Numbered(instanceId: Id, number: nat)
    | OnTicket(instanceId: Id, ticketId: Id)

  /** A worker: a delivery of a mail, or, without one, somebody else opening a ticket. */
  datatype Task = Task(mail: Option<MailId>, stage: Stage)

  /** The tables, the workers, and, as history, the mail each ticket was opened for and the
      instance each mail was routed to. */
  datatype State = State(rows: Rows, counters: map<Id, nat>, processed: set<MailId>, messages: Messages,
                         tasks: map<nat, Task>, origin: map<Id, MailId>, route: map<MailId, Id>)

  const START := State(map[], map[], {}, map[], map[], map[], map[])

  datatype Event =
    | Deliver(task: nat, mail: MailId)
    | Submit(task: nat, instanceId: Id)
    | Claim(task: nat)
    | Stop(task: nat)
    | Route(task: nat, instanceId: Id, plan: Plan)
    | Look(task: nat, answer: Unique, leadsTo: Option<Stage>)
    | Allocate(task: nat)
    | OpenTicket(task: nat, id: Id, subject: string, requesters: seq<string>, ccs: seq<string>,
                 replyToken: string, now: nat)
    | Edit(id: Id, change: Change)
    | StoreMessage(task: nat, id: Id, row: MessageRow)
    | AddMessage(id: Id, row: MessageRow)
    | SetRfcMessageId(id: Id, rfcMessageId: string)

  predicate At(s: State, task: nat) { task in s.tasks }

  /** Where a walk has taken its worker; `None` ends it, rejected or in error. */
  function StageAfter(instanceId: Id, walk: Walk): (stage: Option<Stage>)
    ensures stage.Some? ==> stage.value.OnTicket? || stage.value.Opening? || stage.value.Walking?
    ensures stage.Some? ==> stage.value.instanceId == instanceId
  {
    match walk
    case Ended(Found(id)) => Some(OnTicket(instanceId, id))
    case Ended(Unmatched) => Some(Opening(instanceId))
    case Ended(_) => None
    case _ => Some(Walking(instanceId, walk))
  }

  function Looked(s: State, instanceId: Id, walk: Walk, answer: Unique): Option<Stage>
    requires !walk.Ended?
  {
    StageAfter(instanceId, Await(s.rows, s.messages, instanceId, walk, answer))
  }

  /** A read of the walk, with the answer of the store, takes a worker from one stage to another. */
  predicate Looks(s: State, from: Stage, answer: Unique, to: Option<Stage>) {
    && from.Walking? && !from.walk.Ended?
    && Answers(s.rows, s.messages, from.instanceId, from.walk, answer)
    && to == Looked(s, from.instanceId, from.walk, answer)
  }

  /** What can happen next. A delivery may come again at any time and be routed anywhere with
      any plan; a worker may stop at any stage; status writes name the ticket's own instance,
      as every caller's do (`WorkerNamesOwnInstance` for those of a worker). */
  predicate Enabled(s: State, e: Event) {
    match e
    case Deliver(task, _) => task !in s.tasks
    case Submit(task, _) => task !in s.tasks
    case Claim(task) => At(s, task) && s.tasks[task].stage.Arrived? && s.tasks[task].mail.Some?
    case Stop(task) => At(s, task)
    case Route(task, _, _) => At(s, task) && s.tasks[task].stage.Claimed? && s.tasks[task].mail.Some?
    case Look(task, answer, stage) => At(s, task) && Looks(s, s.tasks[task].stage, answer, stage)
    case Allocate(task) => At(s, task) && s.tasks[task].stage.Opening?
    case OpenTicket(task, _, _, _, _, _, _) => At(s, task) && s.tasks[task].stage.Numbered?
    case Edit(id, change) => NamesOwnInstance(s.rows, Update(id, change))
    case StoreMessage(task, id, row) =>
      && At(s, task) && s.tasks[task].stage.OnTicket?
      && row.ticketId == s.tasks[task].stage.ticketId && row.source == s.tasks[task].mail
    case AddMessage(id, row) => id !in s.messages && row.source.None?
    case SetRfcMessageId(id, _) => id in s.messages
  }

  function Moved(s: State, task: nat, stage: Stage): map<nat, Task>
    requires At(s, task)
  {
    s.tasks[task := s.tasks[task].(stage := stage)]
  }

  /** The conditional put of a new ticket. */
  function PutTicket(s: State, e: Event): (Rows, Reply)
    requires Enabled(s, e) && e.OpenTicket?
  {
    var stage := s.tasks[e.task].stage;
    var draft := Draft(stage.instanceId, stage.number, e.subject, e.requesters, e.ccs);
    Exec(s.rows, Create(e.id, draft, e.replyToken, e.now))
  }

  function NextTasks(s: State, e: Event): map<nat, Task>
    requires Enabled(s, e)
  {
    match e
    case Deliver(task, mail) => s.tasks[task := Task(Some(mail), Arrived)]
    case Submit(task, instanceId) => s.tasks[task := Task(None, Opening(instanceId))]
    case Claim(task) => if s.tasks[task].mail.value in s.processed then s.tasks - {task} else Moved(s, task, Claimed)
    case Stop(task) => s.tasks - {task}
    case Route(task, instanceId, plan) => Moved(s, task, Walking(instanceId, Searching(plan)))
    case Look(task, _, stage) => if stage.Some? then Moved(s, task, stage.value) else s.tasks - {task}
    case Allocate(task) =>
      var instanceId := s.tasks[task].stage.instanceId;
      Moved(s, task, Numbered(instanceId, Counted(s.counters, instanceId) + 1))
    case OpenTicket(task, id, _, _, _, _, _) =>
      if PutTicket(s, e).1.Done? then Moved(s, task, OnTicket(s.tasks[task].stage.instanceId, id)) else s.tasks - {task}
    case StoreMessage(task, _, _) => s.tasks - {task}
    case _ => s.tasks
  }

  function NextMessages(s: State, e: Event): Messages
    requires Enabled(s, e)
  {
    match e
    case StoreMessage(_, id, row) => if Storable(s, id, row) then s.messages[id := row] else s.messages
    case AddMessage(id, row) => s.messages[id := row]
    case SetRfcMessageId(id, rfcMessageId) => s.messages[id := s.messages[id].(rfcMessageId := Some(rfcMessageId))]
    case _ => s.messages
  }

  function NextRows(s: State, e: Event): Rows
    requires Enabled(s, e)
  {
    match e
    case OpenTicket(_, _, _, _, _, _, _) => PutTicket(s, e).0
    case Edit(id, change) => Exec(s.rows, Update(id, change)).0
    case _ => s.rows
  }

  function NextCounters(s: State, e: Event): map<Id, nat>
    requires Enabled(s, e)
  {
    if e.Allocate? then
      var instanceId := s.tasks[e.task].stage.instanceId;
      s.counters[instanceId := Counted(s.counters, instanceId) + 1]
    else s.counters
  }

  function NextOrigin(s: State, e: Event): map<Id, MailId>
    requires Enabled(s, e)
  {
    if e.OpenTicket? && PutTicket(s, e).1.Done? && s.tasks[e.task].mail.Some?
    then s.origin[e.id := s.tasks[e.task].mail.value] else s.origin
  }

  /** What one step makes of each table, of the workers and of the history. */
  function Next(s: State, e: Event): State
    requires Enabled(s, e)
  {
    State(NextRows(s, e), NextCounters(s, e),
          if e.Claim? then s.processed + {s.tasks[e.task].mail.value} else s.processed,
          NextMessages(s, e), NextTasks(s, e), NextOrigin(s, e),
          if e.Route? then s.route[s.tasks[e.task].mail.value := e.instanceId] else s.route)
  }

  /** A message row is refused for a taken id, or for a string set with a repeated element. */
  predicate Storable(s: State, id: Id, row: MessageRow) {
    id !in s.messages && Distinct(row.to) && Distinct(row.cc)
  }

  predicate Possible(s: State, events: seq<Event>)
    decreases |events|
  {
    events == [] || (Enabled(s, events[0]) && Possible(Next(s, events[0]), events[1..]))
  }

  function Play(s: State, events: seq<Event>): State
    requires Possible(s, events)
    decreases |events|
  {
    if events == [] then s else Play(Next(s, events[0]), events[1..])
  }

  // ---------------------------------------------------------------- one mail

  /** A worker past its claim of a mail. */
  predicate Holds(s: State, task: nat, mail: MailId) {
    task in s.tasks && s.tasks[task].mail == Some(mail) && !s.tasks[task].stage.Arrived?
  }

  predicate StoredFor(s: State, id: Id, mail: MailId) { id in s.messages && s.messages[id].source == Some(mail) }

  predicate OpenedFor(s: State, id: Id, mail: MailId) { id in s.origin && s.origin[id] == mail }

  /** A mail is unclaimed and has nothing; or it has one worker, or one message, and at most
      one ticket, opened late. */
  ghost predicate OneMail(s: State, mail: MailId) {
    && (forall task :: Holds(s, task, mail) ==> mail in s.processed)
    && (forall id :: StoredFor(s, id, mail) || OpenedFor(s, id, mail) ==> mail in s.processed)
    && (forall task, other :: Holds(s, task, mail) && Holds(s, other, mail) ==> task == other)
    && (forall id, other :: StoredFor(s, id, mail) && StoredFor(s, other, mail) ==> id == other)
    && (forall id, other :: OpenedFor(s, id, mail) && OpenedFor(s, other, mail) ==> id == other)
    && (forall task, id :: Holds(s, task, mail) ==> !StoredFor(s, id, mail))
    && (forall task, id :: Holds(s, task, mail) && !s.tasks[task].stage.OnTicket? ==> !OpenedFor(s, id, mail))
  }

  /** Who holds a mail after a step held it before, or has just claimed it. */
  lemma {:induction false} HeldBefore(s: State, e: Event, mail: MailId, task: nat)
    requires Enabled(s, e) && Holds(Next(s, e), task, mail)
    ensures Holds(s, task, mail) || Claims(s, e, task, mail)
    ensures Claims(s, e, task, mail) ==> mail in Next(s, e).processed
  {}

  /** No worker goes back from its ticket, none outlives its message, and opening ends on it. */
  lemma {:induction false} StagesAdvance(s: State, e: Event, mail: MailId, task: nat)
    requires Enabled(s, e) && Holds(Next(s, e), task, mail)
    ensures Holds(s, task, mail) && !Next(s, e).tasks[task].stage.OnTicket? ==> !s.tasks[task].stage.OnTicket?
    ensures e.StoreMessage? || e.Stop? ==> e.task != task
    ensures e.OpenTicket? && e.task == task ==> Next(s, e).tasks[task].stage.OnTicket?
  {}

  predicate Claims(s: State, e: Event, task: nat, mail: MailId) {
    e.Claim? && e.task == task && task in s.tasks && s.tasks[task].mail == Some(mail) && mail !in s.processed
  }

  lemma {:induction false} StoredBefore(s: State, e: Event, mail: MailId, id: Id)
    requires Enabled(s, e) && StoredFor(Next(s, e), id, mail)
    ensures StoredFor(s, id, mail) || (e.StoreMessage? && e.id == id && Holds(s, e.task, mail))
  {}

  lemma {:induction false} OpenedBefore(s: State, e: Event, mail: MailId, id: Id)
    requires Enabled(s, e) && OpenedFor(Next(s, e), id, mail)
    ensures OpenedFor(s, id, mail)
            || (e.OpenTicket? && e.id == id && Holds(s, e.task, mail) && !s.tasks[e.task].stage.OnTicket?)
  {}

  lemma {:induction false} ProcessedGrows(s: State, e: Event)
    requires Enabled(s, e)
    ensures s.processed <= Next(s, e).processed
  {}

  /** Where the workers, messages and tickets of a mail after a step come from. */
  ghost predicate MailTraced(s: State, e: Event, mail: MailId)
    requires Enabled(s, e)
  {
    var s' := Next(s, e);
    && (forall task :: Holds(s', task, mail) ==>
          && (Holds(s, task, mail) || Claims(s, e, task, mail))
          && (Holds(s, task, mail) && !s'.tasks[task].stage.OnTicket? ==> !s.tasks[task].stage.OnTicket?)
          && (e.StoreMessage? || e.Stop? ==> e.task != task)
          && (e.OpenTicket? && e.task == task ==> s'.tasks[task].stage.OnTicket?)
          && mail in s'.processed)
    && (forall id :: StoredFor(s', id, mail) ==>
          StoredFor(s, id, mail) || (e.StoreMessage? && e.id == id && Holds(s, e.task, mail)))
    && (forall id :: OpenedFor(s', id, mail) ==>
          || OpenedFor(s, id, mail)
          || (e.OpenTicket? && e.id == id && Holds(s, e.task, mail) && !s.tasks[e.task].stage.OnTicket?))
  }

  lemma {:induction false} TraceMail(s: State, e: Event, mail: MailId)
    requires Enabled(s, e) && OneMail(s, mail)
    ensures MailTraced(s, e, mail)
  {
    ProcessedGrows(s, e);
    forall task | Holds(Next(s, e), task, mail)
      ensures Holds(s, task, mail) || Claims(s, e, task, mail)
      ensures Holds(s, task, mail) && !Next(s, e).tasks[task].stage.OnTicket? ==> !s.tasks[task].stage.OnTicket?
      ensures e.StoreMessage? || e.Stop? ==> e.task != task
      ensures e.OpenTicket? && e.task == task ==> Next(s, e).tasks[task].stage.OnTicket?
      ensures mail in Next(s, e).processed
    {
      HeldBefore(s, e, mail, task);
      StagesAdvance(s, e, mail, task);
    }
    forall id | StoredFor(Next(s, e), id, mail)
      ensures StoredFor(s, id, mail) || (e.StoreMessage? && e.id == id && Holds(s, e.task, mail))
    {
      StoredBefore(s, e, mail, id);
    }
    forall id | OpenedFor(Next(s, e), id, mail)
      ensures OpenedFor(s, id, mail)
              || (e.OpenTicket? && e.id == id && Holds(s, e.task, mail) && !s.tasks[e.task].stage.OnTicket?)
    {
      OpenedBefore(s, e, mail, id);
    }
  }

  lemma {:induction false} OneMailKept(s: State, e: Event, mail: MailId)
    requires Enabled(s, e) && OneMail(s, mail)
    ensures OneMail(Next(s, e), mail)
  {
    TraceMail(s, e, mail);
    ProcessedGrows(s, e);
  }

  // ---------------------------------------------------------------- one number

  predicate HasNumber(s: State, id: Id, instanceId: Id, number: nat) {
    id in s.rows && s.rows[id].instanceId == instanceId && s.rows[id].number == number
  }

  predicate Carries(s: State, task: nat, instanceId: Id, number: nat) {
    task in s.tasks && s.tasks[task].stage == Numbered(instanceId, number)
  }

  /** A number is with one ticket or one worker, and with none beyond the counter. */
  ghost predicate OneNumber(s: State, instanceId: Id, number: nat) {
    && (forall id :: HasNumber(s, id, instanceId, number) ==> number <= Counted(s.counters, instanceId))
    && (forall task :: Carries(s, task, instanceId, number) ==> number <= Counted(s.counters, instanceId))
    && (forall id, other :: HasNumber(s, id, instanceId, number) && HasNumber(s, other, instanceId, number) ==> id == other)
    && (forall task, other :: Carries(s, task, instanceId, number) && Carries(s, other, instanceId, number) ==> task == other)
    && (forall task, id :: Carries(s, task, instanceId, number) ==> !HasNumber(s, id, instanceId, number))
  }

  predicate Allocates(s: State, e: Event, task: nat, instanceId: Id, number: nat) {
    && e.Allocate? && e.task == task && At(s, task) && s.tasks[task].stage == Opening(instanceId)
    && number == Counted(s.counters, instanceId) + 1
  }

  lemma {:induction false} CarriedBefore(s: State, e: Event, instanceId: Id, number: nat, task: nat)
    requires Enabled(s, e) && Carries(Next(s, e), task, instanceId, number)
    ensures Carries(s, task, instanceId, number) || Allocates(s, e, task, instanceId, number)
    ensures e.OpenTicket? ==> e.task != task
  {}

  lemma {:induction false} NumberedBefore(s: State, e: Event, instanceId: Id, number: nat, id: Id)
    requires Enabled(s, e) && HasNumber(Next(s, e), id, instanceId, number)
    ensures HasNumber(s, id, instanceId, number) || (e.OpenTicket? && e.id == id && Carries(s, e.task, instanceId, number))
  {}

  lemma {:induction false} CounterGrows(s: State, e: Event, instanceId: Id)
    requires Enabled(s, e)
    ensures Counted(Next(s, e).counters, instanceId)
            == Counted(s.counters, instanceId)
               + if e.Allocate? && s.tasks[e.task].stage == Opening(instanceId) then 1 else 0
  {}

  /** At most one worker has just taken the number from the counter, or one has just put it on a
      ticket. */
  lemma {:induction false} OneNumberTraced(s: State, s': State, instanceId: Id, number: nat, taker: Option<nat>,
                                           opener: Option<nat>, ticketId: Id)
    requires OneNumber(s, instanceId, number) && (taker.None? || opener.None?)
    requires Counted(s.counters, instanceId) <= Counted(s'.counters, instanceId)
    requires taker.Some? ==> number == Counted(s.counters, instanceId) + 1 == Counted(s'.counters, instanceId)
    requires forall task: nat :: Carries(s', task, instanceId, number) ==>
               (Carries(s, task, instanceId, number) || taker == Some(task)) && opener != Some(task)
    requires forall id :: HasNumber(s', id, instanceId, number) ==>
               || HasNumber(s, id, instanceId, number)
               || (opener.Some? && id == ticketId && Carries(s, opener.value, instanceId, number))
    ensures OneNumber(s', instanceId, number)
  {}

  lemma {:induction false} OneNumberKept(s: State, e: Event, instanceId: Id, number: nat)
    requires Enabled(s, e) && OneNumber(s, instanceId, number)
    ensures OneNumber(Next(s, e), instanceId, number)
  {
    var s' := Next(s, e);
    CounterGrows(s, e, instanceId);
    forall task | Carries(s', task, instanceId, number)
      ensures Carries(s, task, instanceId, number) || Allocates(s, e, task, instanceId, number)
      ensures e.OpenTicket? ==> e.task != task
    {
      CarriedBefore(s, e, instanceId, number, task);
    }
    forall id | HasNumber(s', id, instanceId, number)
      ensures HasNumber(s, id, instanceId, number) || (e.OpenTicket? && e.id == id && Carries(s, e.task, instanceId, number))
    {
      NumberedBefore(s, e, instanceId, number, id);
    }
    var taker := if e.Allocate? && Allocates(s, e, e.task, instanceId, number) then Some(e.task) else None;
    var opener := if e.OpenTicket? then Some(e.task) else None;
    OneNumberTraced(s, s', instanceId, number, taker, opener, if e.OpenTicket? then e.id else "");
  }

  // ---------------------------------------------------------------- one instance

  /** The instance a worker was routed to. */
  function InstanceOf(stage: Stage): Option<Id> {
    if stage.Arrived? || stage.Claimed? then None else Some(stage.instanceId)
  }

  /** The ticket a worker has found or opened, or is about to take over from the number index,
      is of the instance it is for. */
  predicate Settled(s: State, stage: Stage) {
    match stage
    case OnTicket(instanceId, id) => id in s.rows && s.rows[id].instanceId == instanceId
    case Walking(instanceId, walk) => !walk.Ended? && Confines(s.rows, instanceId, walk)
    case _ => true
  }

  predicate SettledTask(s: State, task: nat) { task in s.tasks ==> Settled(s, s.tasks[task].stage) }

  predicate FollowsRoute(s: State, task: nat) {
    task in s.tasks && s.tasks[task].mail.Some? && InstanceOf(s.tasks[task].stage).Some? ==>
      && s.tasks[task].mail.value in s.route
      && s.route[s.tasks[task].mail.value] == InstanceOf(s.tasks[task].stage).value
  }

  predicate RoutedTask(s: State, task: nat) { SettledTask(s, task) && FollowsRoute(s, task) }

  /** A message stored for a mail is on a ticket of the instance that mail was routed to. */
  predicate RoutedMessage(s: State, id: Id) {
    id in s.messages && s.messages[id].source.Some? ==>
      && s.messages[id].source.value in s.route && s.messages[id].ticketId in s.rows
      && s.rows[s.messages[id].ticketId].instanceId == s.route[s.messages[id].source.value]
  }

  /** A ticket stays, in its instance, whatever happens. */
  lemma {:induction false} InstanceKept(s: State, e: Event, id: Id)
    requires Enabled(s, e) && id in s.rows
    ensures id in Next(s, e).rows && Next(s, e).rows[id].instanceId == s.rows[id].instanceId
  {
    if e.Edit? {
      IdentityKept(s.rows, Update(e.id, e.change), id);
    }
  }

  /** So what a worker found stays of its instance until it writes. */
  lemma {:induction false} SettledKept(s: State, e: Event, stage: Stage)
    requires Enabled(s, e) && Settled(s, stage)
    ensures Settled(Next(s, e), stage)
  {
    match stage {
      case OnTicket(_, id) => InstanceKept(s, e, id);
      case Walking(_, Fetching(id, true, _)) => InstanceKept(s, e, id);
      case _ =>
    }
  }

  /** What a read makes of the walk. */
  lemma {:induction false} LookSettled(s: State, instanceId: Id, walk: Walk, answer: Unique)
    requires AllConsistent(s.rows) && !walk.Ended? && Confines(s.rows, instanceId, walk)
    requires Answers(s.rows, s.messages, instanceId, walk, answer)
    ensures var stage := Looked(s, instanceId, walk, answer);
            stage.Some? ==> Settled(s, stage.value)
  {
    AwaitConfines(s.rows, s.messages, instanceId, walk, answer);
  }

  /** What a step makes of the worker that takes it. */
  ghost predicate Moves(s: State, e: Event, task: nat) {
    && Enabled(s, e) && task in s.tasks && Settled(s, s.tasks[task].stage)
    && task in Next(s, e).tasks && Next(s, e).tasks[task] != s.tasks[task]
  }

  lemma {:induction false} LookMoves(s: State, task: nat, answer: Unique, to: Option<Stage>)
    requires Moves(s, Look(task, answer, to), task) && AllConsistent(s.rows)
    ensures Settled(Next(s, Look(task, answer, to)), Next(s, Look(task, answer, to)).tasks[task].stage)
  {
    var stage := s.tasks[task].stage;
    LookSettled(s, stage.instanceId, stage.walk, answer);
  }

  lemma {:induction false} OpenMoves(s: State, e: Event, task: nat)
    requires Moves(s, e, task) && e.OpenTicket?
    ensures Settled(Next(s, e), Next(s, e).tasks[task].stage)
  {}

  lemma {:induction false} PlainMoves(s: State, e: Event, task: nat)
    requires Moves(s, e, task) && !e.OpenTicket? && !e.Look?
    ensures Settled(Next(s, e), Next(s, e).tasks[task].stage)
  {}

  lemma {:induction false} OwnStepSettled(s: State, e: Event, task: nat)
    requires Moves(s, e, task) && AllConsistent(s.rows)
    ensures Settled(Next(s, e), Next(s, e).tasks[task].stage)
  {
    if e.Look? {
      assert e.task == task;
      LookMoves(s, task, e.answer, e.leadsTo);
    } else if e.OpenTicket? {
      OpenMoves(s, e, task);
    } else {
      PlainMoves(s, e, task);
    }
  }

  /** Nothing but the routing of its own mail changes where a worker's mail was routed. */
  lemma {:induction false} RouteKept(s: State, e: Event, task: nat, mail: MailId)
    requires Enabled(s, e) && OneMail(s, mail) && Holds(s, task, mail)
    requires InstanceOf(s.tasks[task].stage).Some?
    ensures mail in s.route ==> mail in Next(s, e).route && Next(s, e).route[mail] == s.route[mail]
  {
    if e.Route? && s.tasks[e.task].mail == Some(mail) {
      assert Holds(s, e.task, mail);
    }
  }

  lemma {:induction false} SettledTaskKept(s: State, e: Event, task: nat)
    requires Enabled(s, e) && AllConsistent(s.rows) && SettledTask(s, task)
    ensures SettledTask(Next(s, e), task)
  {
    if task in s.tasks && task in Next(s, e).tasks {
      if Next(s, e).tasks[task] == s.tasks[task] {
        SettledKept(s, e, s.tasks[task].stage);
      } else {
        OwnStepSettled(s, e, task);
      }
    }
  }

  /** A worker keeps its mail and, once routed, its instance; only its routing gives it one. */
  lemma {:induction false} WorkerKeepsInstance(s: State, e: Event, task: nat)
    requires Enabled(s, e) && task in s.tasks && task in Next(s, e).tasks
    ensures var before, after := s.tasks[task], Next(s, e).tasks[task];
            && after.mail == before.mail
            && (InstanceOf(before.stage).Some? ==> InstanceOf(after.stage) == InstanceOf(before.stage))
            && (InstanceOf(before.stage).None? && InstanceOf(after.stage).Some? ==>
                  e.Route? && e.task == task && InstanceOf(after.stage) == Some(e.instanceId))
  {}

  lemma {:induction false} FollowsRouteKept(s: State, e: Event, task: nat)
    requires Enabled(s, e) && FollowsRoute(s, task)
    requires task in s.tasks && s.tasks[task].mail.Some? ==> OneMail(s, s.tasks[task].mail.value)
    ensures FollowsRoute(Next(s, e), task)
  {
    if task in s.tasks && task in Next(s, e).tasks {
      WorkerKeepsInstance(s, e, task);
      if s.tasks[task].mail.Some? && InstanceOf(s.tasks[task].stage).Some? {
        RouteKept(s, e, task, s.tasks[task].mail.value);
      }
    }
  }

  lemma {:induction false} RoutedMessageKept(s: State, e: Event, id: Id)
    requires Enabled(s, e) && RoutedMessage(s, id)
    requires id in s.messages && s.messages[id].source.Some? ==> OneMail(s, s.messages[id].source.value)
    requires e.StoreMessage? ==> RoutedTask(s, e.task)
    ensures RoutedMessage(Next(s, e), id)
  {
    if id in s.messages && s.messages[id].source.Some? {
      InstanceKept(s, e, s.messages[id].ticketId);
      assert StoredFor(s, id, s.messages[id].source.value);
      if e.Route? && s.tasks[e.task].mail == s.messages[id].source {
        assert Holds(s, e.task, s.messages[id].source.value);
      }
    }
  }

  // ---------------------------------------------------------------- over every run

  ghost predicate Inv(s: State) {
    && (forall mail :: OneMail(s, mail))
    && (forall instanceId, number :: OneNumber(s, instanceId, number))
    && (forall task :: RoutedTask(s, task))
    && (forall id :: RoutedMessage(s, id))
    && AllConsistent(s.rows)
  }

  lemma {:induction false} StepKeepsInv(s: State, e: Event)
    requires Enabled(s, e) && Inv(s)
    ensures Inv(Next(s, e))
  {
    forall mail ensures OneMail(Next(s, e), mail) {
      OneMailKept(s, e, mail);
    }
    forall instanceId, number ensures OneNumber(Next(s, e), instanceId, number) {
      OneNumberKept(s, e, instanceId, number);
    }
    forall task ensures RoutedTask(Next(s, e), task) {
      assert RoutedTask(s, task);
      SettledTaskKept(s, e, task);
      FollowsRouteKept(s, e, task);
    }
    forall id ensures RoutedMessage(Next(s, e), id) {
      RoutedMessageKept(s, e, id);
    }
    StepKeepsMarkers(s, e);
  }

  lemma {:induction false} StepKeepsMarkers(s: State, e: Event)
    requires Enabled(s, e) && AllConsistent(s.rows)
    ensures AllConsistent(Next(s, e).rows)
  {
    if e.Edit? {
      StepKeepsMarkersIff(s.rows, Update(e.id, e.change));
    } else if e.OpenTicket? {
      var stage := s.tasks[e.task].stage;
      var draft := Draft(stage.instanceId, stage.number, e.subject, e.requesters, e.ccs);
      StepKeepsMarkersIff(s.rows, Create(e.id, draft, e.replyToken, e.now));
    }
  }

  lemma {:induction false} RunKeepsInv(s: State, events: seq<Event>)
    requires Possible(s, events) && Inv(s)
    ensures Inv(Play(s, events))
    decreases |events|
  {
    if events != [] {
      StepKeepsInv(s, events[0]);
      RunKeepsInv(Next(s, events[0]), events[1..]);
    }
  }

  /** Every state that a run from empty tables reaches keeps the invariant. */
  lemma {:induction false} ReachedKeepsInv(events: seq<Event>)
    requires Possible(START, events)
    ensures Inv(Play(START, events))
  {
    StartHolds();
    RunKeepsInv(START, events);
  }

  lemma {:induction false} StartHolds()
    ensures Inv(START)
  {}

  /** Over every run from empty tables, a mail leads to at most one inbound message and at most
      one new ticket, however often it is delivered and whoever crashes. */
  lemma {:induction false} OncePerMail(events: seq<Event>, mail: MailId, id: Id, other: Id)
    requires Possible(START, events)
    ensures var s := Play(START, events);
            && (StoredFor(s, id, mail) && StoredFor(s, other, mail) ==> id == other)
            && (OpenedFor(s, id, mail) && OpenedFor(s, other, mail) ==> id == other)
  {
    ReachedKeepsInv(events);
    assert OneMail(Play(START, events), mail);
  }

  /** Over every run, with every read of every walk in a state of its own, each message stored
      for a mail is on a ticket of the instance that mail was routed to. */
  lemma {:induction false} StoredWhereRouted(events: seq<Event>, id: Id)
    requires Possible(START, events)
    requires id in Play(START, events).messages && Play(START, events).messages[id].source.Some?
    ensures var s := Play(START, events);
            var row := s.messages[id];
            && row.source.value in s.route && row.ticketId in s.rows
            && s.rows[row.ticketId].instanceId == s.route[row.source.value]
  {
    ReachedKeepsInv(events);
    assert RoutedMessage(Play(START, events), id);
  }

  /** The status write of a worker on the ticket it found names that ticket's own instance,
      although it was found earlier. */
  lemma {:induction false} WorkerNamesOwnInstance(s: State, task: nat, status: Status, assignee: Option<Id>, now: nat)
    requires Inv(s) && task in s.tasks && s.tasks[task].stage.OnTicket?
    ensures var stage := s.tasks[task].stage;
            Enabled(s, Edit(stage.ticketId, SetStatusAndAssignee(stage.instanceId, status, assignee, now)))
  {
    assert RoutedTask(s, task);
  }

  /** In every reachable state the walk of a mail errs exactly when no reply tag verifies and
      its first message id that leads anywhere is carried by two messages. */
  lemma {:induction false} FailsIffSharedId(s: State, plan: Plan, instanceId: Id)
    requires Inv(s)
    ensures Resolved(s.rows, s.messages, plan, instanceId).Failed? <==> MeetsSharedId(s.rows, s.messages, plan, instanceId)
  {
    forall n ensures |Tickets.Numbered(s.rows, Composite(instanceId, Decimal(n)))| <= 1 {
      InvNumbers(s, instanceId, n);
    }
    FailsIff(s.rows, s.messages, plan, instanceId);
  }

  /** No two tickets of an instance share a number, so `at_most_one` on the number index
      never errs. */
  lemma {:induction false} NumbersAreUnique(events: seq<Event>, instanceId: Id, number: nat)
    requires Possible(START, events)
    ensures |Tickets.Numbered(Play(START, events).rows, Composite(instanceId, Decimal(number)))| <= 1
  {
    ReachedKeepsInv(events);
    InvNumbers(Play(START, events), instanceId, number);
  }

  lemma {:induction false} InvNumbers(s: State, instanceId: Id, number: nat)
    requires Inv(s)
    ensures |Tickets.Numbered(s.rows, Composite(instanceId, Decimal(number)))| <= 1
  {
    assert OneNumber(s, instanceId, number);
    NumberKeyIsFilter(s.rows, instanceId, number);
    var hits := Tickets.Numbered(s.rows, Composite(instanceId, Decimal(number)));
    if hits != {} {
      var id :| id in hits;
      assert HasNumber(s, id, instanceId, number);
      forall other | other in hits ensures other == id {
        assert HasNumber(s, other, instanceId, number);
      }
      assert hits == {id};
    }
  }

  /** A mail that was claimed and has neither a worker nor a message. */
  ghost predicate Lost(s: State, mail: MailId) {
    mail in s.processed && (forall task :: !Holds(s, task, mail)) && (forall id :: !StoredFor(s, id, mail))
  }

  /** The price of claiming first: once the worker that claimed a mail stops before storing
      its message, no later delivery ever stores one. */
  lemma {:induction false} StoppedIsLost(s: State, task: nat, mail: MailId, later: seq<Event>)
    requires Inv(s) && Holds(s, task, mail) && Possible(Next(s, Stop(task)), later)
    ensures Lost(Play(Next(s, Stop(task)), later), mail)
  {
    assert OneMail(s, mail);
    var s' := Next(s, Stop(task));
    forall other ensures !Holds(s', other, mail) {
      if Holds(s', other, mail) { HeldBefore(s, Stop(task), mail, other); }
    }
    forall id ensures !StoredFor(s', id, mail) {
      if StoredFor(s', id, mail) { StoredBefore(s, Stop(task), mail, id); }
    }
    LostForGood(s', later, mail);
  }

  lemma {:induction false} LostForGood(s: State, events: seq<Event>, mail: MailId)
    requires Possible(s, events) && Lost(s, mail)
    ensures Lost(Play(s, events), mail)
    decreases |events|
  {
    if events != [] {
      var s' := Next(s, events[0]);
      ProcessedGrows(s, events[0]);
      forall task ensures !Holds(s', task, mail) {
        if Holds(s', task, mail) { HeldBefore(s, events[0], mail, task); }
      }
      forall id ensures !StoredFor(s', id, mail) {
        if StoredFor(s', id, mail) { StoredBefore(s, events[0], mail, id); }
      }
      LostForGood(s', events[1..], mail);
    }
  }
}
