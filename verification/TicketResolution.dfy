/** Which ticket an inbound message joins (api/src/inbound/pipeline.rs): the plan's candidates
    walked against the tables, the first that verifies deciding. */
module TicketResolution {
  import opened Prelude
  import opened Tickets
  import opened Resolution
  import SubjectTags

  /** The provider's own message id, the idempotency key. */
  type MailId = string

  /** A stored message; `source` is the mail an inbound one was stored for. */
  datatype MessageRow = MessageRow(ticketId: Id, source: Option<MailId>, sender: Option<string>,
                                   to: seq<string>, cc: seq<string>, inReplyTo: Option<string>,
                                   references: Option<string>, rfcMessageId: Option<string>)

  datatype Plan = Plan(replyTags: seq<ReplyTag>, messageIds: seq<string>, subjectNumber: Option<nat>)

  /** `build_resolution_plan`. */
  method BuildPlan(recipients: seq<string>, inReplyTo: Option<string>, references: Option<string>, subject: string)
    returns (plan: Plan)
    ensures plan == PlanOf(recipients, inReplyTo, references, subject)
  {
    var replyTags := ExtractReplyTags(recipients);
    var messageIds := CandidateMessageIds(inReplyTo, references);
    var tag := SubjectTags.ParseSubjectTag(subject);
    plan := Plan(replyTags, messageIds, if tag.Some? then Some(tag.value.1) else None);
  }

  function PlanOf(recipients: seq<string>, inReplyTo: Option<string>, references: Option<string>,
                  subject: string): Plan {
    var tag := SubjectTags.Parse(subject);
    Plan(Tags(recipients), Firsts(Collected(inReplyTo, references)), if tag.Some? then Some(tag.value.1) else None)
  }

  /** `Failed` is the integrity error of `at_most_one`. */
  datatype Lookup = Found(id: Id) | Unmatched | CrossTenant | Failed

  /** A verified candidate is final, whichever instance its ticket belongs to. */
  function Decide(rows: Rows, id: Id, instanceId: Id): Lookup
    requires id in rows
  {
    if rows[id].instanceId != instanceId then CrossTenant else Found(id)
  }

  predicate Verifies(rows: Rows, tag: ReplyTag) {
    tag.ticketId in rows && rows[tag.ticketId].replyToken == tag.replyToken
  }

  function FromTags(rows: Rows, tags: seq<ReplyTag>, instanceId: Id): Option<Lookup> {
    if tags == [] then None
    else if Verifies(rows, tags[0]) then Some(Decide(rows, tags[0].ticketId, instanceId))
    else FromTags(rows, tags[1..], instanceId)
  }

  type Messages = map<Id, MessageRow>

  /** The messages `rfc_message_id-index` holds under an id. */
  function Carrying(messages: Messages, rfcMessageId: string): set<Id> {
    set id | id in messages && messages[id].rfcMessageId == Some(rfcMessageId)
  }

  /** The ticket a message id leads to, if it leads anywhere. */
  ghost function Led(rows: Rows, messages: Messages, rfcMessageId: string, instanceId: Id): Option<Lookup> {
    var hits := Carrying(messages, rfcMessageId);
    if |hits| > 1 then Some(Failed)
    else if hits == {} then None
    else
      var id :| id in hits;
      if messages[id].ticketId in rows then Some(Decide(rows, messages[id].ticketId, instanceId)) else None
  }

  ghost function FromMessageIds(rows: Rows, messages: Messages, ids: seq<string>, instanceId: Id): Option<Lookup> {
    if ids == [] then None
    else if Led(rows, messages, ids[0], instanceId).Some? then Led(rows, messages, ids[0], instanceId)
    else FromMessageIds(rows, messages, ids[1..], instanceId)
  }

  ghost function FromSubject(rows: Rows, number: Option<nat>, instanceId: Id): Lookup {
    if number.None? then Unmatched
    else
      var hits := Tickets.Numbered(rows, Composite(instanceId, Decimal(number.value)));
      if |hits| > 1 then Failed
      else if hits == {} then Unmatched
      else
        var id :| id in hits;
        Found(id)
  }

  ghost function Resolved(rows: Rows, messages: Messages, plan: Plan, instanceId: Id): Lookup {
    match FromTags(rows, plan.replyTags, instanceId)
    case Some(r) => r
    case None =>
      match FromMessageIds(rows, messages, plan.messageIds, instanceId)
      case Some(r) => r
      case None => FromSubject(rows, plan.subjectNumber, instanceId)
  }

  /** `resolve_ticket`: three walks, each returning at its first verified candidate. The token
      comparison is the equality that `ConstantTimeEq` decides. */
  method ResolveTicket(rows: Rows, messages: Messages, plan: Plan, instanceId: Id) returns (r: Lookup)
    ensures r == Resolved(rows, messages, plan, instanceId)
  {
    var tags := plan.replyTags;
    for i := 0 to |tags|
      invariant FromTags(rows, tags[i..], instanceId) == FromTags(rows, tags, instanceId)
    {
      assert tags[i..][1..] == tags[i + 1..];
      if tags[i].ticketId !in rows { continue; }
      var ticket := rows[tags[i].ticketId];
      if ticket.replyToken != tags[i].replyToken { continue; }
      if ticket.instanceId != instanceId { return CrossTenant; }
      return Found(tags[i].ticketId);
    }
    var walked := WalkMessageIds(rows, messages, plan.messageIds, instanceId);
    if walked.Some? { return walked.value; }
    if plan.subjectNumber.Some? {
      var index := map id | id in rows :: rows[id].instanceNumber;
      var key := Composite(instanceId, Decimal(plan.subjectNumber.value));
      var hit := QueryUnique(index, key);
      assert Hits(index, key) == Tickets.Numbered(rows, key);
      match hit {
        case Integrity => return Failed;
        case AtMost1(id) =>
          if id.Some? { OnlyHit(Hits(index, key), id.value); }
          return if id.Some? then Found(id.value) else Unmatched;
      }
    }
    r := Unmatched;
  }

  method WalkMessageIds(rows: Rows, messages: Messages, ids: seq<string>, instanceId: Id) returns (r: Option<Lookup>)
    ensures r == FromMessageIds(rows, messages, ids, instanceId)
  {
    for i := 0 to |ids|
      invariant FromMessageIds(rows, messages, ids[i..], instanceId) == FromMessageIds(rows, messages, ids, instanceId)
    {
      assert ids[i..][1..] == ids[i + 1..] && ids[i..][0] == ids[i];
      var led := Follow(rows, messages, ids[i], instanceId);
      if led.Some? { return led; }
    }
    r := None;
  }

  /** `get_ticket_id_by_rfc_message_id`, and the ticket row behind it. */
  method Follow(rows: Rows, messages: Messages, rfcMessageId: string, instanceId: Id) returns (r: Option<Lookup>)
    ensures r == Led(rows, messages, rfcMessageId, instanceId)
  {
    var index := map id | id in messages && messages[id].rfcMessageId.Some? :: messages[id].rfcMessageId.value;
    var hit := QueryUnique(index, rfcMessageId);
    assert Hits(index, rfcMessageId) == Carrying(messages, rfcMessageId);
    if hit.Integrity? { return Some(Failed); }
    if hit.id.None? { return None; }
    OnlyHit(Carrying(messages, rfcMessageId), hit.id.value);
    var ticketId := messages[hit.id.value].ticketId;
    if ticketId !in rows { return None; }
    if rows[ticketId].instanceId != instanceId { return Some(CrossTenant); }
    r := Some(Found(ticketId));
  }

  lemma {:induction false} OnlyHit(hits: set<Id>, id: Id)
    requires hits == {id}
    ensures |hits| == 1 && forall other :: other in hits ==> other == id
  {}

  // ---------------------------------------------------------------- what the walk guarantees

  /** Whatever path found it, a ticket that is found belongs to the instance the mail was
      routed to. The subject path checks nothing: its key can only be carried by tickets of
      that instance. */
  lemma {:induction false} Confined(rows: Rows, messages: Messages, plan: Plan, instanceId: Id)
    requires AllConsistent(rows) && Resolved(rows, messages, plan, instanceId).Found?
    ensures var id := Resolved(rows, messages, plan, instanceId).id; id in rows && rows[id].instanceId == instanceId
  {
    TagsConfined(rows, plan.replyTags, instanceId);
    MessageIdsConfined(rows, messages, plan.messageIds, instanceId);
    if plan.subjectNumber.Some? {
      NumberKeyIsFilter(rows, instanceId, plan.subjectNumber.value);
    }
  }

  lemma {:induction false} TagsConfined(rows: Rows, tags: seq<ReplyTag>, instanceId: Id)
    ensures var r := FromTags(rows, tags, instanceId);
            r.Some? && r.value.Found? ==> r.value.id in rows && rows[r.value.id].instanceId == instanceId
  {
    if tags != [] {
      TagsConfined(rows, tags[1..], instanceId);
    }
  }

  lemma {:induction false} MessageIdsConfined(rows: Rows, messages: Messages, ids: seq<string>, instanceId: Id)
    ensures var r := FromMessageIds(rows, messages, ids, instanceId);
            r.Some? && r.value.Found? ==> r.value.id in rows && rows[r.value.id].instanceId == instanceId
  {
    if ids != [] {
      MessageIdsConfined(rows, messages, ids[1..], instanceId);
    }
  }

  /** The first reply tag that verifies decides, against every later tag, every message id and
      the subject: a ticket of another instance rejects the message. */
  lemma {:induction false} FirstTagDecides(rows: Rows, messages: Messages, plan: Plan, instanceId: Id, k: nat)
    requires k < |plan.replyTags| && Verifies(rows, plan.replyTags[k])
    requires forall j :: 0 <= j < k ==> !Verifies(rows, plan.replyTags[j])
    ensures Resolved(rows, messages, plan, instanceId) == Decide(rows, plan.replyTags[k].ticketId, instanceId)
  {
    TagAt(rows, plan.replyTags, instanceId, k);
  }

  lemma {:induction false} TagAt(rows: Rows, tags: seq<ReplyTag>, instanceId: Id, k: nat)
    requires k < |tags| && Verifies(rows, tags[k]) && forall j :: 0 <= j < k ==> !Verifies(rows, tags[j])
    ensures FromTags(rows, tags, instanceId) == Some(Decide(rows, tags[k].ticketId, instanceId))
  {
    if k > 0 {
      assert forall j :: 0 <= j < k - 1 ==> tags[1..][j] == tags[j + 1];
      TagAt(rows, tags[1..], instanceId, k - 1);
    }
  }

  /** Without a verified tag, the first message id that leads anywhere decides. */
  lemma {:induction false} FirstMessageIdDecides(rows: Rows, messages: Messages, plan: Plan, instanceId: Id, k: nat)
    requires forall j :: 0 <= j < |plan.replyTags| ==> !Verifies(rows, plan.replyTags[j])
    requires k < |plan.messageIds| && Led(rows, messages, plan.messageIds[k], instanceId).Some?
    requires forall j :: 0 <= j < k ==> Led(rows, messages, plan.messageIds[j], instanceId).None?
    ensures Resolved(rows, messages, plan, instanceId) == Led(rows, messages, plan.messageIds[k], instanceId).value
  {
    NoTag(rows, plan.replyTags, instanceId);
    MessageIdAt(rows, messages, plan.messageIds, instanceId, k);
  }

  lemma {:induction false} MessageIdAt(rows: Rows, messages: Messages, ids: seq<string>, instanceId: Id, k: nat)
    requires k < |ids| && Led(rows, messages, ids[k], instanceId).Some?
    requires forall j :: 0 <= j < k ==> Led(rows, messages, ids[j], instanceId).None?
    ensures FromMessageIds(rows, messages, ids, instanceId) == Led(rows, messages, ids[k], instanceId)
  {
    if k > 0 {
      assert Led(rows, messages, ids[0], instanceId).None?;
      assert forall j :: 0 <= j < k - 1 ==> ids[1..][j] == ids[j + 1];
      MessageIdAt(rows, messages, ids[1..], instanceId, k - 1);
    }
  }

  lemma {:induction false} NoTag(rows: Rows, tags: seq<ReplyTag>, instanceId: Id)
    requires forall j :: 0 <= j < |tags| ==> !Verifies(rows, tags[j])
    ensures FromTags(rows, tags, instanceId).None?
  {
    if tags != [] {
      assert forall j :: 0 <= j < |tags| - 1 ==> tags[1..][j] == tags[j + 1];
      NoTag(rows, tags[1..], instanceId);
    }
  }

  /** The walk errs exactly when no reply tag verifies and the first message id that leads
      anywhere is carried by two messages, given that no two tickets share a number. */
  lemma {:induction false} FailsIff(rows: Rows, messages: Messages, plan: Plan, instanceId: Id)
    requires forall n :: |Tickets.Numbered(rows, Composite(instanceId, Decimal(n)))| <= 1
    ensures Resolved(rows, messages, plan, instanceId).Failed? <==> MeetsSharedId(rows, messages, plan, instanceId)
  {
    assert FromSubject(rows, plan.subjectNumber, instanceId) != Failed;
    if Resolved(rows, messages, plan, instanceId).Failed? {
      TagsDecided(rows, plan.replyTags, instanceId);
      var k := FirstLead(rows, messages, plan.messageIds, instanceId);
    }
    if MeetsSharedId(rows, messages, plan, instanceId) {
      var k :| SharedAt(rows, messages, plan.messageIds, instanceId, k);
      FirstMessageIdDecides(rows, messages, plan, instanceId, k);
    }
  }

  /** The k-th message id is carried by two messages, and none before it leads anywhere. */
  ghost predicate SharedAt(rows: Rows, messages: Messages, ids: seq<string>, instanceId: Id, k: nat) {
    && k < |ids| && |Carrying(messages, ids[k])| > 1
    && forall j :: 0 <= j < k ==> Led(rows, messages, ids[j], instanceId).None?
  }

  ghost predicate MeetsSharedId(rows: Rows, messages: Messages, plan: Plan, instanceId: Id) {
    && (forall j :: 0 <= j < |plan.replyTags| ==> !Verifies(rows, plan.replyTags[j]))
    && exists k :: SharedAt(rows, messages, plan.messageIds, instanceId, k)
  }

  /** Tags decide unless none verifies, and never with an error. */
  lemma {:induction false} TagsDecided(rows: Rows, tags: seq<ReplyTag>, instanceId: Id)
    ensures FromTags(rows, tags, instanceId) != Some(Failed)
    ensures FromTags(rows, tags, instanceId).None? <==> forall j :: 0 <= j < |tags| ==> !Verifies(rows, tags[j])
  {
    if tags != [] {
      TagsDecided(rows, tags[1..], instanceId);
      assert forall j :: 1 <= j < |tags| ==> tags[j] == tags[1..][j - 1];
    }
  }

  /** Where the message ids decided. */
  lemma {:induction false} FirstLead(rows: Rows, messages: Messages, ids: seq<string>, instanceId: Id) returns (k: nat)
    requires FromMessageIds(rows, messages, ids, instanceId).Some?
    ensures k < |ids| && Led(rows, messages, ids[k], instanceId) == FromMessageIds(rows, messages, ids, instanceId)
    ensures forall j :: 0 <= j < k ==> Led(rows, messages, ids[j], instanceId).None?
    ensures Led(rows, messages, ids[k], instanceId) == Some(Failed) ==> SharedAt(rows, messages, ids, instanceId, k)
  {
    if Led(rows, messages, ids[0], instanceId).Some? {
      k := 0;
    } else {
      var k' := FirstLead(rows, messages, ids[1..], instanceId);
      k := k' + 1;
      assert ids[1..][k'] == ids[k];
      assert forall j :: 1 <= j < k ==> ids[j] == ids[1..][j - 1];
    }
  }

  // ---------------------------------------------------------------- the walk, await by await

  /** Where a walk stands between two reads of the store. */
  datatype Walk =
    | Searching(plan: Plan)
    | Following(messageId: Id, rest: Plan)
    | Fetching(ticketId: Id, bySubject: bool, rest: Plan)
    | Ended(lookup: Lookup)

  const NOTHING_LEFT := Plan([], [], None)

  /** The index query a walk makes next gets this answer from these tables. */
  predicate Answers(rows: Rows, messages: Messages, instanceId: Id, w: Walk, answer: Unique) {
    if !w.Searching? || w.plan.replyTags != [] then true
    else if w.plan.messageIds != [] then IsUnique(answer, Carrying(messages, w.plan.messageIds[0]))
    else if w.plan.subjectNumber.Some? then
      IsUnique(answer, Tickets.Numbered(rows, Composite(instanceId, Decimal(w.plan.subjectNumber.value))))
    else true
  }

  /** One read of the store and what the walk makes of it. The reads of one walk may see
      different tables. */
  function Await(rows: Rows, messages: Messages, instanceId: Id, w: Walk, answer: Unique): Walk
    requires !w.Ended?
  {
    match w
    case Searching(plan) =>
      if plan.replyTags != [] then
        if Verifies(rows, plan.replyTags[0]) then Ended(Decide(rows, plan.replyTags[0].ticketId, instanceId))
        else Searching(plan.(replyTags := plan.replyTags[1..]))
      else if plan.messageIds != [] then
        var rest := plan.(messageIds := plan.messageIds[1..]);
        if answer.Integrity? then Ended(Failed)
        else if answer.id.None? then Searching(rest)
        else Following(answer.id.value, rest)
      else if plan.subjectNumber.None? then Ended(Unmatched)
      else if answer.Integrity? then Ended(Failed)
      else if answer.id.None? then Ended(Unmatched)
      else Fetching(answer.id.value, true, NOTHING_LEFT)
    case Following(messageId, rest) =>
      if messageId in messages then Fetching(messages[messageId].ticketId, false, rest) else Searching(rest)
    case Fetching(ticketId, bySubject, rest) =>
      if ticketId !in rows then Searching(rest)
      else if bySubject then Ended(Found(ticketId))
      else Ended(Decide(rows, ticketId, instanceId))
  }

  /** The ticket a walk holds on to was seen in the instance it is for: always once found, and
      before the last read on the subject path, which checks nothing. */
  predicate Confines(rows: Rows, instanceId: Id, w: Walk) {
    match w
    case Ended(Found(id)) => id in rows && rows[id].instanceId == instanceId
    case Fetching(id, true, _) => id in rows && rows[id].instanceId == instanceId
    case _ => true
  }

  lemma {:induction false} AwaitConfines(rows: Rows, messages: Messages, instanceId: Id, w: Walk, answer: Unique)
    requires AllConsistent(rows) && !w.Ended? && Confines(rows, instanceId, w)
    requires Answers(rows, messages, instanceId, w, answer)
    ensures Confines(rows, instanceId, Await(rows, messages, instanceId, w, answer))
  {
    if w.Searching? && w.plan.replyTags == [] && w.plan.messageIds == [] && w.plan.subjectNumber.Some? {
      NumberKeyIsFilter(rows, instanceId, w.plan.subjectNumber.value);
    }
  }
}
