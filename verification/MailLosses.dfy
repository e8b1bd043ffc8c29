/** Mail that the pipeline claims and then loses (api/src/inbound/pipeline.rs), on tables reached
    from empty ones: a recipient listed twice, and a reply to a shared message id. */
module MailLosses {
  import opened Prelude
  import opened Tickets
  import opened Routing
  import opened Resolution
  import opened Intake
  import opened TicketResolution
  import opened Pipeline
  import opened PipelineRuns

  /** The table of one instance with one exact address. */
  function OneAddress(instanceId: Id, address: string): Env {
    var row := InboundAddress(address, Exact, instanceId, 0);
    Env(map[address := row], map[instanceId := Instance(false, true)], map[instanceId := [row]])
  }

  /** A mail to some addresses, without subject, tag or references. */
  function PlainMail(sender: string, to: seq<string>, messageId: Option<string>, inReplyTo: Option<string>): Mail {
    Mail(false, Some(sender), to, [], "", messageId, inReplyTo, None, 0)
  }

  /** A lower-case address that `classify_for_storage` lets in, without a tag. */
  predicate PlainParts(local: string, domain: string) {
    && local != "" && domain != "" && '@' !in local && '+' !in local && '*' !in local && '*' !in domain
    && !IsWhitespace(local[0]) && !IsWhitespace(domain[|domain| - 1])
    && Lower(local) == local && Lower(domain) == domain
  }

  /** An instance that has the one address, and a sender that routes nowhere. */
  predicate Setting(env: Env, instanceId: Id, local: string, domain: string, sender: string) {
    && PlainParts(local, domain) && env == OneAddress(instanceId, local + "@" + domain)
    && ResolveInstanceId(env.table, [sender]).None?
  }

  lemma {:induction false} SettingIsValid(env: Env, instanceId: Id, local: string, domain: string, sender: string)
    requires Setting(env, instanceId, local, domain, sender)
    ensures ValidEnv(env)
  {
    PlainAddress(local, domain);
    PlusIsStored(local, domain);
  }

  lemma {:induction false} AddressRoutes(env: Env, instanceId: Id, local: string, domain: string, sender: string,
                                         to: seq<string>)
    requires Setting(env, instanceId, local, domain, sender)
    requires to != [] && forall i :: 0 <= i < |to| ==> to[i] == local + "@" + domain
    ensures ResolveInstanceId(env.table, to) == Some(instanceId)
  {
    PlainAddress(local, domain);
    ResolveFindsFirst(to, env.table.Keys);
    assert Routes(to[0], env.table.Keys);
  }

  /** A mail to the one address alone is let through. */
  lemma {:induction false} MailAccepted(env: Env, instanceId: Id, local: string, domain: string, sender: string,
                                        to: seq<string>, messageId: Option<string>, inReplyTo: Option<string>)
    requires Setting(env, instanceId, local, domain, sender)
    requires to != [] && forall i :: 0 <= i < |to| ==> to[i] == local + "@" + domain
    ensures Screen(env, Some(PlainMail(sender, to, messageId, inReplyTo)))
            == Accepted(instanceId, NormalizeRecipient(sender).address)
  {
    AddressRoutes(env, instanceId, local, domain, sender, to);
    assert to + [] == to;
  }

  lemma {:induction false} NoTags(to: seq<string>)
    requires forall i :: 0 <= i < |to| ==> TagOf(to[i]).None?
    ensures Tags(to) == []
  {
    if to != [] {
      NoTags(to[..|to| - 1]);
    }
  }

  /** What such a mail leaves the walk to try: the parent it names, if any. */
  lemma {:induction false} MailPlan(local: string, domain: string, to: seq<string>, inReplyTo: Option<string>)
    requires PlainParts(local, domain) && forall i :: 0 <= i < |to| ==> to[i] == local + "@" + domain
    requires inReplyTo.Some? ==> Blankless(inReplyTo.value)
    ensures PlanOf(to + [], inReplyTo, None, "") == Plan([], if inReplyTo.Some? then [inReplyTo.value] else [], None)
  {
    PlainAddress(local, domain);
    NoTags(to);
    assert to + [] == to;
    if inReplyTo.Some? {
      TrimOfTrimmed(inReplyTo.value);
      assert Collected(inReplyTo, None) == [inReplyTo.value];
      FirstsSpec([inReplyTo.value]);
    }
  }

  lemma {:induction false} NothingLeftIsUnmatched(rows: Rows, messages: Messages, instanceId: Id)
    ensures Resolved(rows, messages, NOTHING_LEFT, instanceId) == Unmatched
  {}

  // ---------------------------------------------------------------- a repeated recipient

  /** Opening for a mail with a repeated address leaves the ticket and stores nothing. */
  lemma {:induction false} RepeatedActs(env: Env, s: State, source: MailId, mail: Mail, instanceId: Id, sender: string,
                                        minted: Minted)
    requires instanceId in env.listing && minted.ticketId !in s.rows
    requires |mail.to| == 2 && mail.to[0] == mail.to[1]
    requires Distinct(Stripped(env.listing[instanceId], mail.to + mail.cc, sender))
    ensures var (s', r) := Act(env, s, source, mail, instanceId, sender, minted, Unmatched);
            && r == Errored && s'.processed == s.processed && s'.messages == s.messages
            && s'.rows.Keys == s.rows.Keys + {minted.ticketId}
  {
    assert !Distinct(mail.to);
  }

  /** On empty tables already: a mail that lists an instance's address twice in `To` is claimed
      and let through, opens its ticket, and then errs with nothing stored. */
  lemma {:induction false} RepeatedAddressIsLost(env: Env, instanceId: Id, local: string, domain: string, sender: string,
                                                 source: MailId, minted: Minted)
    requires Setting(env, instanceId, local, domain, sender)
    ensures var mail := PlainMail(sender, [local + "@" + domain, local + "@" + domain], None, None);
            && ValidEnv(env) && Screen(env, Some(mail)).Accepted?
            && var (s, r) := Process(env, START, source, Some(mail), minted);
            r == Errored && source in s.processed && s.messages == map[] && s.rows.Keys == {minted.ticketId}
  {
    var address, from := local + "@" + domain, NormalizeRecipient(sender).address;
    var mail := PlainMail(sender, [address, address], None, None);
    SettingIsValid(env, instanceId, local, domain, sender);
    MailAccepted(env, instanceId, local, domain, sender, mail.to, None, None);
    MailPlan(local, domain, mail.to, None);
    NothingLeftIsUnmatched(map[], map[], instanceId);
    assert Matched(START, mail, instanceId) == Unmatched;
    StrippedSpec(env.listing[instanceId], mail.to + mail.cc, from);
    RepeatedActs(env, Routed(START, source, instanceId), source, mail, instanceId, from, minted);
  }

  // ---------------------------------------------------------------- a message id that two messages share

  /** What a delivery that opened a ticket leaves. */
  ghost predicate Opens(s: State, s': State, source: MailId, mail: Mail, minted: Minted) {
    && s'.tasks == s.tasks && s'.processed == s.processed + {source}
    && s'.rows - {minted.ticketId} == s.rows && minted.messageRowId in s'.messages
    && s'.messages - {minted.messageRowId} == s.messages
    && s'.messages[minted.messageRowId].rfcMessageId == mail.messageId
    && s'.messages[minted.messageRowId].source == Some(source)
  }

  /** An accepted mail that matches nothing is stored on a new ticket. */
  lemma {:induction false} UnmatchedIsStored(env: Env, s: State, source: MailId, mail: Mail, minted: Minted)
    requires AllConsistent(s.rows) && source !in s.processed && Screen(env, Some(mail)).Accepted?
    requires Matched(s, mail, Screen(env, Some(mail)).instanceId) == Unmatched
    requires minted.ticketId !in s.rows && minted.messageRowId !in s.messages
    requires Distinct(mail.to) && Distinct(mail.cc)
    ensures var (s', r) := Process(env, s, source, Some(mail), minted);
            r.Delivered? && Opens(s, s', source, mail, minted)
  {
    var screened := Screen(env, Some(mail));
    DeliveredIff(env, s, source, mail, minted);
    UnmatchedActs(env, Routed(s, source, screened.instanceId), source, mail, screened.instanceId, screened.sender, minted);
  }

  lemma {:induction false} UnmatchedActs(env: Env, s: State, source: MailId, mail: Mail, instanceId: Id, sender: string,
                                         minted: Minted)
    requires instanceId in env.listing && Act(env, s, source, mail, instanceId, sender, minted, Unmatched).1.Delivered?
    ensures var s' := Act(env, s, source, mail, instanceId, sender, minted, Unmatched).0;
            && s'.tasks == s.tasks && s'.processed == s.processed
            && s'.rows - {minted.ticketId} == s.rows && minted.messageRowId in s'.messages
            && s'.messages - {minted.messageRowId} == s.messages
            && s'.messages[minted.messageRowId].rfcMessageId == mail.messageId
            && s'.messages[minted.messageRowId].source == Some(source)
  {
    ActDelivers(env, s, source, mail, instanceId, sender, minted, Unmatched);
    ActKeepsClaims(env, s, source, mail, instanceId, sender, minted, Unmatched);
  }

  /** A plain mail is stored under the message id it brings, whatever the tables hold. */
  lemma {:induction false} CarrierIsStored(env: Env, s: State, instanceId: Id, local: string, domain: string, sender: string,
                                           source: MailId, minted: Minted, mid: string)
    requires Setting(env, instanceId, local, domain, sender) && AllConsistent(s.rows) && source !in s.processed
    requires minted.ticketId !in s.rows && minted.messageRowId !in s.messages
    ensures var mail := PlainMail(sender, [local + "@" + domain], Some(mid), None);
            && Screen(env, Some(mail)).Accepted?
            && var (s', r) := Process(env, s, source, Some(mail), minted);
            r.Delivered? && Opens(s, s', source, mail, minted)
  {
    var mail := PlainMail(sender, [local + "@" + domain], Some(mid), None);
    MailAccepted(env, instanceId, local, domain, sender, mail.to, Some(mid), None);
    MailPlan(local, domain, mail.to, None);
    NothingLeftIsUnmatched(s.rows, s.messages, instanceId);
    UnmatchedIsStored(env, s, source, mail, minted);
  }

  /** A reply that names nothing but a message id two messages carry meets it first. */
  lemma {:induction false} SharedFirst(s: State, mid: string, instanceId: Id, id: Id, other: Id)
    requires id != other && {id, other} <= Carrying(s.messages, mid)
    ensures MeetsSharedId(s.rows, s.messages, Plan([], [mid], None), instanceId)
  {
    var rest := Carrying(s.messages, mid) - {id, other};
    assert Carrying(s.messages, mid) == {id, other} + rest;
    assert |{id, other} + rest| == |{id, other}| + |rest| && |{id, other}| == 2;
    assert SharedAt(s.rows, s.messages, [mid], instanceId, 0);
  }

  /** An accepted mail whose walk errs is claimed, and nothing else happens. */
  lemma {:induction false} FailedMatchErrs(env: Env, s: State, source: MailId, mail: Mail, minted: Minted)
    requires AllConsistent(s.rows) && source !in s.processed && Screen(env, Some(mail)).Accepted?
    requires Matched(s, mail, Screen(env, Some(mail)).instanceId) == Failed
    ensures Process(env, s, source, Some(mail), minted)
            == (Routed(s, source, Screen(env, Some(mail)).instanceId), Errored)
  {}

  lemma {:induction false} ReplyMatches(s: State, instanceId: Id, local: string, domain: string, sender: string,
                                        mid: string, id: Id, other: Id)
    requires PlainParts(local, domain) && Inv(s) && Blankless(mid)
    requires id != other && {id, other} <= Carrying(s.messages, mid)
    ensures Matched(s, PlainMail(sender, [local + "@" + domain], None, Some(mid)), instanceId) == Failed
  {
    MailPlan(local, domain, [local + "@" + domain], Some(mid));
    SharedFirst(s, mid, instanceId, id, other);
    FailsIffSharedId(s, Plan([], [mid], None), instanceId);
  }

  /** The reply to a message id that two messages carry is let through, claimed, and errs. */
  lemma {:induction false} ReplyErrs(env: Env, s: State, instanceId: Id, local: string, domain: string, sender: string,
                                     source: MailId, minted: Minted, mid: string, id: Id, other: Id)
    requires Setting(env, instanceId, local, domain, sender) && Inv(s) && source !in s.processed && Blankless(mid)
    requires id != other && {id, other} <= Carrying(s.messages, mid)
    ensures var mail := PlainMail(sender, [local + "@" + domain], None, Some(mid));
            && Screen(env, Some(mail)).Accepted?
            && Process(env, s, source, Some(mail), minted) == (Routed(s, source, instanceId), Errored)
  {
    var mail := PlainMail(sender, [local + "@" + domain], None, Some(mid));
    MailAccepted(env, instanceId, local, domain, sender, mail.to, None, Some(mid));
    ReplyMatches(s, instanceId, local, domain, sender, mid, id, other);
    FailedMatchErrs(env, s, source, mail, minted);
  }

  /** One such delivery, from any reachable state with nobody at work. */
  lemma {:induction false} CarrierStep(env: Env, s: State, instanceId: Id, local: string, domain: string, sender: string,
                                       source: MailId, minted: Minted, mid: string)
    returns (events: seq<Event>, after: State)
    requires Setting(env, instanceId, local, domain, sender) && Inv(s) && s.tasks == map[] && source !in s.processed
    requires minted.ticketId !in s.rows && minted.messageRowId !in s.messages
    ensures after == Process(env, s, source, Some(PlainMail(sender, [local + "@" + domain], Some(mid), None)), minted).0
    ensures Process(env, s, source, Some(PlainMail(sender, [local + "@" + domain], Some(mid), None)), minted).1.Delivered?
    ensures Leads(s, events, after) && Inv(after)
    ensures Opens(s, after, source, PlainMail(sender, [local + "@" + domain], Some(mid), None), minted)
  {
    var mail := PlainMail(sender, [local + "@" + domain], Some(mid), None);
    CarrierIsStored(env, s, instanceId, local, domain, sender, source, minted, mid);
    events := ProcessIsRun(env, s, source, Some(mail), minted, 0);
    after := Process(env, s, source, Some(mail), minted).0;
    RunKeepsInv(s, events);
  }

  /** What the two messages of two such deliveries carry. */
  lemma {:induction false} BothCarry(s: State, one: State, two: State, first: MailId, second: MailId, mail: Mail,
                                     a: Minted, b: Minted, mid: string)
    requires Opens(s, one, first, mail, a) && Opens(one, two, second, mail, b) && mail.messageId == Some(mid)
    requires a.messageRowId != b.messageRowId
    ensures {a.messageRowId, b.messageRowId} <= Carrying(two.messages, mid)
    ensures two.processed == s.processed + {first, second} && two.tasks == s.tasks
  {
    assert a.messageRowId in two.messages - {b.messageRowId};
  }

  /** A mail with a message id of its own, delivered on a new ticket. */
  ghost predicate Carried(env: Env, s: State, s': State, source: MailId, mail: Mail, minted: Minted) {
    && AllConsistent(s.rows) && Screen(env, Some(mail)).Accepted?
    && Process(env, s, source, Some(mail), minted).0 == s'
    && Process(env, s, source, Some(mail), minted).1.Delivered?
  }

  /** Two such deliveries, one after the other. */
  lemma {:induction false} CarriersRun(env: Env, s: State, instanceId: Id, local: string, domain: string, sender: string,
                                       first: MailId, second: MailId, a: Minted, b: Minted, mid: string)
    returns (events: seq<Event>, one: State, two: State)
    requires Setting(env, instanceId, local, domain, sender) && Inv(s) && s.tasks == map[]
    requires first != second && first !in s.processed && second !in s.processed
    requires a.ticketId != b.ticketId && a.messageRowId != b.messageRowId
    requires a.ticketId !in s.rows && b.ticketId !in s.rows && a.messageRowId !in s.messages && b.messageRowId !in s.messages
    ensures var mail := PlainMail(sender, [local + "@" + domain], Some(mid), None);
            Carried(env, s, one, first, mail, a) && Carried(env, one, two, second, mail, b)
    ensures Leads(s, events, two) && Inv(two)
    ensures two.processed == s.processed + {first, second} && two.tasks == map[]
    ensures {a.messageRowId, b.messageRowId} <= Carrying(two.messages, mid)
  {
    var mail := PlainMail(sender, [local + "@" + domain], Some(mid), None);
    MailAccepted(env, instanceId, local, domain, sender, mail.to, Some(mid), None);
    var e1, e2;
    e1, one := CarrierStep(env, s, instanceId, local, domain, sender, first, a, mid);
    StillFresh(s, one, first, mail, a, b);
    e2, two := CarrierStep(env, one, instanceId, local, domain, sender, second, b, mid);
    Then(s, e1, one, e2, two);
    BothCarry(s, one, two, first, second, mail, a, b, mid);
    events := e1 + e2;
  }

  lemma {:induction false} StillFresh(s: State, s': State, source: MailId, mail: Mail, a: Minted, b: Minted)
    requires Opens(s, s', source, mail, a) && a.ticketId != b.ticketId && a.messageRowId != b.messageRowId
    requires b.ticketId !in s.rows && b.messageRowId !in s.messages
    ensures b.ticketId !in s'.rows && b.messageRowId !in s'.messages
  {
    assert b.ticketId in s'.rows ==> b.ticketId in s'.rows - {a.ticketId};
    assert b.messageRowId in s'.messages ==> b.messageRowId in s'.messages - {a.messageRowId};
  }

  lemma {:induction false} ReplyRun(env: Env, s: State, instanceId: Id, local: string, domain: string, sender: string,
                                    source: MailId, minted: Minted, mid: string, id: Id, other: Id)
    returns (reply: seq<Event>, after: State)
    requires Setting(env, instanceId, local, domain, sender) && Inv(s) && s.tasks == map[] && source !in s.processed
    requires Blankless(mid) && id != other && {id, other} <= Carrying(s.messages, mid)
    ensures var mail := PlainMail(sender, [local + "@" + domain], None, Some(mid));
            && Screen(env, Some(mail)).Accepted?
            && Process(env, s, source, Some(mail), minted) == (after, Errored)
            && source in after.processed && after.messages == s.messages
    ensures Leads(s, reply, after)
    ensures forall later :: Possible(after, later) ==> Lost(Play(after, later), source)
  {
    ReplyErrs(env, s, instanceId, local, domain, sender, source, minted, mid, id, other);
    after := Routed(s, source, instanceId);
    SharedFirst(s, mid, instanceId, id, other);
    reply := SharedIdLosesMail(s, 0, source, instanceId, Plan([], [mid], None));
  }

  /** In every reachable state with nobody at work: two mails to an instance that bring the same
      message id are let through and stored; a reply that names it is let through, claimed, and
      errs; and whatever happens later, it is never stored. */
  lemma {:induction false} SharedIdLosesReply(env: Env, s: State, instanceId: Id, local: string, domain: string,
                                              sender: string, first: MailId, second: MailId, third: MailId,
                                              a: Minted, b: Minted, c: Minted, mid: string)
    returns (stored: seq<Event>, one: State, two: State, reply: seq<Event>, after: State)
    requires Setting(env, instanceId, local, domain, sender) && Blankless(mid) && Inv(s) && s.tasks == map[]
    requires first != second && third != first && third != second
    requires first !in s.processed && second !in s.processed && third !in s.processed
    requires a.ticketId != b.ticketId && a.messageRowId != b.messageRowId
    requires a.ticketId !in s.rows && b.ticketId !in s.rows && a.messageRowId !in s.messages && b.messageRowId !in s.messages
    ensures Leads(s, stored, two) && AllConsistent(two.rows)
    ensures var mail := PlainMail(sender, [local + "@" + domain], Some(mid), None);
            Carried(env, s, one, first, mail, a) && Carried(env, one, two, second, mail, b)
    ensures var mail := PlainMail(sender, [local + "@" + domain], None, Some(mid));
            && Screen(env, Some(mail)).Accepted?
            && Process(env, two, third, Some(mail), c) == (after, Errored)
            && third in after.processed && after.messages == two.messages
    ensures Leads(two, reply, after)
    ensures forall later :: Possible(after, later) ==> Lost(Play(after, later), third)
  {
    stored, one, two := CarriersRun(env, s, instanceId, local, domain, sender, first, second, a, b, mid);
    reply, after := ReplyRun(env, two, instanceId, local, domain, sender, third, c, mid, a.messageRowId, b.messageRowId);
  }

  /** So it happens from empty tables: the events are a run of the machine that ends with the reply
      claimed and lost. */
  lemma {:induction false} SharedIdRun(env: Env, instanceId: Id, local: string, domain: string, sender: string,
                                       first: MailId, second: MailId, third: MailId, a: Minted, b: Minted, c: Minted,
                                       mid: string)
    returns (events: seq<Event>, after: State)
    requires Setting(env, instanceId, local, domain, sender) && Blankless(mid)
    requires first != second && third != first && third != second
    requires a.ticketId != b.ticketId && a.messageRowId != b.messageRowId
    ensures ValidEnv(env) && Leads(START, events, after)
    ensures forall later :: Possible(after, later) ==> Lost(Play(after, later), third)
  {
    SettingIsValid(env, instanceId, local, domain, sender);
    StartHolds();
    var s := START;
    var stored, one, two, reply, last :=
      SharedIdLosesReply(env, s, instanceId, local, domain, sender, first, second, third, a, b, c, mid);
    Then(s, stored, two, reply, last);
    events, after := stored + reply, last;
  }
}
