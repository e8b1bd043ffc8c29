/** Which ticket a delivered mail ends up on, said of the mail itself: its recipients, its thread
    headers and its subject (api/src/inbound/resolution.rs, api/src/inbound/pipeline.rs). */
module ReplyMatching {
  import opened Prelude
  import opened Tickets
  import opened Routing
  import opened Resolution
  import opened Intake
  import opened TicketResolution
  import opened Pipeline
  import SubjectTags

  /** A mail that nobody claimed yet and that is let through to an instance. */
  ghost predicate LetIn(env: Env, s: State, source: MailId, mail: Mail, instanceId: Id, sender: string) {
    && AllConsistent(s.rows) && source !in s.processed
    && instanceId in env.instances && instanceId in env.listing && Screen(env, Some(mail)) == Accepted(instanceId, sender)
  }

  /** The id of the message row is free, and neither `To` nor `Cc` repeats an address. */
  predicate CanStore(s: State, mail: Mail, minted: Minted) {
    minted.messageRowId !in s.messages && Distinct(mail.to) && Distinct(mail.cc)
  }

  /** The mail is stored on this ticket, which existed, if it can be stored at all. */
  ghost predicate Joins(env: Env, s: State, source: MailId, mail: Mail, minted: Minted, instanceId: Id, sender: string,
                        ticketId: Id)
    requires AllConsistent(s.rows)
  {
    var (s', r) := Process(env, s, source, Some(mail), minted);
    if CanStore(s, mail, minted) then
      && r.Delivered? && r.ticketId == ticketId && !r.isNew
      && WellStored(s, s', r, source, mail, instanceId, sender) && WellJoined(s, s', r, mail, sender, minted.now)
    else r == Errored && s'.messages == s.messages
  }

  /** The mail is dropped as one for another instance's ticket. */
  ghost predicate Foreign(env: Env, s: State, source: MailId, mail: Mail, minted: Minted)
    requires AllConsistent(s.rows)
  {
    var (s', r) := Process(env, s, source, Some(mail), minted);
    r == Dropped(ForeignTicket) && s'.messages == s.messages && s'.rows == s.rows
  }

  /** The mail ends in an error that stores nothing and touches no ticket. */
  ghost predicate Stuck(env: Env, s: State, source: MailId, mail: Mail, minted: Minted)
    requires AllConsistent(s.rows)
  {
    var (s', r) := Process(env, s, source, Some(mail), minted);
    r == Errored && s'.messages == s.messages && s'.rows == s.rows
  }

  /** The mail opens a ticket of its own, if it can be stored at all. */
  ghost predicate OpensOwn(env: Env, s: State, source: MailId, mail: Mail, minted: Minted, instanceId: Id, sender: string)
    requires AllConsistent(s.rows) && instanceId in env.listing
  {
    var (s', r) := Process(env, s, source, Some(mail), minted);
    if CanStore(s, mail, minted) && minted.ticketId !in s.rows then
      && r.Delivered? && r.isNew
      && WellStored(s, s', r, source, mail, instanceId, sender)
      && WellOpened(env, s, s', r, mail, instanceId, sender, minted)
    else r == Errored && s'.messages == s.messages
  }

  lemma {:induction false} MatchedJoins(env: Env, s: State, source: MailId, mail: Mail, minted: Minted, instanceId: Id,
                                        sender: string, ticketId: Id)
    requires LetIn(env, s, source, mail, instanceId, sender) && Matched(s, mail, instanceId) == Found(ticketId)
    ensures Joins(env, s, source, mail, minted, instanceId, sender, ticketId)
  {
    DeliveredIff(env, s, source, mail, minted);
    if Process(env, s, source, Some(mail), minted).1.Delivered? {
      ProcessDelivers(env, s, source, mail, minted);
    }
  }

  lemma {:induction false} UnmatchedOpens(env: Env, s: State, source: MailId, mail: Mail, minted: Minted, instanceId: Id,
                                          sender: string)
    requires LetIn(env, s, source, mail, instanceId, sender) && Matched(s, mail, instanceId) == Unmatched
    ensures OpensOwn(env, s, source, mail, minted, instanceId, sender)
  {
    DeliveredIff(env, s, source, mail, minted);
    if Process(env, s, source, Some(mail), minted).1.Delivered? {
      ProcessDelivers(env, s, source, mail, minted);
    }
  }

  lemma {:induction false} ProcessActs(env: Env, s: State, source: MailId, mail: Mail, minted: Minted, instanceId: Id,
                                       sender: string)
    requires LetIn(env, s, source, mail, instanceId, sender)
    ensures FitsInstance(s, instanceId, Matched(s, mail, instanceId))
    ensures Process(env, s, source, Some(mail), minted)
            == Act(env, Routed(s, source, instanceId), source, mail, instanceId, sender, minted, Matched(s, mail, instanceId))
  {
    LookupConfined(s, mail, instanceId);
  }

  /** The walk was stopped, by another instance's ticket or by a shared id. */
  lemma {:induction false} StoppedLeavesAll(env: Env, s: State, source: MailId, mail: Mail, minted: Minted, instanceId: Id,
                                            sender: string, lookup: Lookup)
    requires LetIn(env, s, source, mail, instanceId, sender) && lookup == Matched(s, mail, instanceId)
    requires lookup == CrossTenant || lookup == Failed
    ensures lookup == CrossTenant ==> Foreign(env, s, source, mail, minted)
    ensures lookup == Failed ==> Stuck(env, s, source, mail, minted)
  {
    ProcessActs(env, s, source, mail, minted, instanceId, sender);
    ActStops(env, Routed(s, source, instanceId), source, mail, instanceId, sender, minted, lookup);
  }

  lemma {:induction false} ActStops(env: Env, s: State, source: MailId, mail: Mail, instanceId: Id, sender: string,
                                    minted: Minted, lookup: Lookup)
    requires instanceId in env.listing && (lookup == CrossTenant || lookup == Failed)
    ensures Act(env, s, source, mail, instanceId, sender, minted, lookup)
            == (s, if lookup == CrossTenant then Dropped(ForeignTicket) else Errored)
  {}

  // ---------------------------------------------------------------- by a reply tag

  /** The recipient carries a tag that names a ticket and holds that ticket's token. */
  predicate TagVerifies(rows: Rows, raw: string) {
    var tag := TagOf(raw);
    tag.Some? && tag.value.ticketId in rows && rows[tag.value.ticketId].replyToken == tag.value.replyToken
  }

  lemma {:induction false} FromTagsSnoc(rows: Rows, tags: seq<ReplyTag>, tag: ReplyTag, instanceId: Id)
    ensures FromTags(rows, tags + [tag], instanceId)
            == if FromTags(rows, tags, instanceId).Some? then FromTags(rows, tags, instanceId)
               else if Verifies(rows, tag) then Some(Decide(rows, tag.ticketId, instanceId)) else None
  {
    if tags == [] {
      assert tags + [tag] == [tag] && [tag][1..] == [];
    } else {
      assert (tags + [tag])[1..] == tags[1..] + [tag];
      FromTagsSnoc(rows, tags[1..], tag, instanceId);
    }
  }

  /** One more recipient changes what the tags lead to exactly when none before it verified. */
  lemma {:induction false} TagsNext(rows: Rows, recipients: seq<string>, instanceId: Id)
    requires recipients != []
    ensures var front, last := recipients[..|recipients| - 1], recipients[|recipients| - 1];
            var before := FromTags(rows, Tags(front), instanceId);
            FromTags(rows, Tags(recipients), instanceId)
            == if before.Some? then before
               else if TagVerifies(rows, last) then Some(Decide(rows, TagOf(last).value.ticketId, instanceId)) else None
  {
    var front, last := recipients[..|recipients| - 1], recipients[|recipients| - 1];
    if TagOf(last).Some? {
      FromTagsSnoc(rows, Tags(front), TagOf(last).value, instanceId);
      TagsDecided(rows, Tags(front), instanceId);
    }
  }

  lemma {:induction false} NoTagLeads(rows: Rows, recipients: seq<string>, instanceId: Id)
    requires forall j :: 0 <= j < |recipients| ==> !TagVerifies(rows, recipients[j])
    ensures FromTags(rows, Tags(recipients), instanceId) == None
  {
    if recipients != [] {
      NoTagLeads(rows, recipients[..|recipients| - 1], instanceId);
      TagsNext(rows, recipients, instanceId);
    }
  }

  lemma {:induction false} FirstTagLeads(rows: Rows, recipients: seq<string>, instanceId: Id, k: nat)
    requires k < |recipients| && TagVerifies(rows, recipients[k])
    requires forall j :: 0 <= j < k ==> !TagVerifies(rows, recipients[j])
    ensures FromTags(rows, Tags(recipients), instanceId)
            == Some(Decide(rows, TagOf(recipients[k]).value.ticketId, instanceId))
  {
    var upTo := recipients[..k + 1];
    assert upTo[..|upTo| - 1] == recipients[..k] && upTo[|upTo| - 1] == recipients[k];
    NoTagLeads(rows, recipients[..k], instanceId);
    TagsNext(rows, upTo, instanceId);
    TagsStay(rows, recipients, instanceId, k + 1);
  }

  lemma {:induction false} TagsStay(rows: Rows, recipients: seq<string>, instanceId: Id, n: nat)
    requires n <= |recipients| && FromTags(rows, Tags(recipients[..n]), instanceId).Some?
    ensures FromTags(rows, Tags(recipients), instanceId) == FromTags(rows, Tags(recipients[..n]), instanceId)
  {
    if n == |recipients| {
      assert recipients[..n] == recipients;
    } else {
      var front := recipients[..|recipients| - 1];
      assert front[..n] == recipients[..n];
      TagsStay(rows, front, instanceId, n);
      TagsNext(rows, recipients, instanceId);
    }
  }

  /** The first recipient whose tag names a ticket with its token decides, whatever the other
      recipients, the headers and the subject say: the mail joins that ticket, or is dropped if it
      is another instance's. */
  lemma {:induction false} TaggedMailJoins(env: Env, s: State, source: MailId, mail: Mail, minted: Minted, instanceId: Id,
                                           sender: string, k: nat)
    requires LetIn(env, s, source, mail, instanceId, sender)
    requires k < |mail.to + mail.cc| && TagVerifies(s.rows, (mail.to + mail.cc)[k])
    requires forall j :: 0 <= j < k ==> !TagVerifies(s.rows, (mail.to + mail.cc)[j])
    ensures var ticketId := TagOf((mail.to + mail.cc)[k]).value.ticketId;
            if s.rows[ticketId].instanceId == instanceId
            then Joins(env, s, source, mail, minted, instanceId, sender, ticketId)
            else Foreign(env, s, source, mail, minted)
  {
    var recipients := mail.to + mail.cc;
    FirstTagLeads(s.rows, recipients, instanceId, k);
    var ticketId := TagOf(recipients[k]).value.ticketId;
    if s.rows[ticketId].instanceId == instanceId {
      MatchedJoins(env, s, source, mail, minted, instanceId, sender, ticketId);
    } else {
      StoppedLeavesAll(env, s, source, mail, minted, instanceId, sender, CrossTenant);
    }
  }

  /** The Reply-To an instance with these addresses sends for a ticket, from an address without a `+`. */
  predicate IsReplyTo(addresses: seq<InboundAddress>, ticketId: Id, token: string, raw: string) {
    var primary := PrimaryInboundAddress(addresses);
    && primary.Some? && SplitOnce(primary.value, '@').Some?
    && var (local, domain) := SplitOnce(primary.value, '@').value;
    '+' !in local && raw == local + "+t" + ticketId + "." + token + "@" + domain
  }

  /** A reply comes back to its ticket: a mail let through to an instance and addressed to the
      Reply-To that instance sends for a ticket of its own, with that ticket's token, joins the
      ticket, unless an earlier recipient carries the tag and token of some ticket; all this if the
      sending address has no `+`. */
  lemma {:induction false} ReplyJoinsItsTicket(env: Env, s: State, source: MailId, mail: Mail, minted: Minted,
                                               instanceId: Id, sender: string, ticketId: Id, k: nat)
    requires LetIn(env, s, source, mail, instanceId, sender) && ValidEnv(env) && env.listing[instanceId] != []
    requires ticketId in s.rows && s.rows[ticketId].instanceId == instanceId
    requires ticketId != "" && s.rows[ticketId].replyToken != ""
    requires Alphanumeric(ticketId) && Alphanumeric(s.rows[ticketId].replyToken)
    requires k < |mail.to + mail.cc|
    requires IsReplyTo(env.listing[instanceId], ticketId, s.rows[ticketId].replyToken, (mail.to + mail.cc)[k])
    requires forall j :: 0 <= j < k ==> !TagVerifies(s.rows, (mail.to + mail.cc)[j])
    ensures Joins(env, s, source, mail, minted, instanceId, sender, ticketId)
  {
    ReplyVerifies(env, s.rows, instanceId, ticketId, (mail.to + mail.cc)[k]);
    TaggedMailJoins(env, s, source, mail, minted, instanceId, sender, k);
  }

  lemma {:induction false} ReplyVerifies(env: Env, rows: Rows, instanceId: Id, ticketId: Id, raw: string)
    requires ValidEnv(env) && instanceId in env.instances && instanceId in env.listing && env.listing[instanceId] != []
    requires ticketId in rows && ticketId != "" && rows[ticketId].replyToken != ""
    requires Alphanumeric(ticketId) && Alphanumeric(rows[ticketId].replyToken)
    requires IsReplyTo(env.listing[instanceId], ticketId, rows[ticketId].replyToken, raw)
    ensures TagVerifies(rows, raw) && TagOf(raw).value.ticketId == ticketId
  {
    ListedAreStored(env, instanceId);
    ReplyCarriesTag(env.listing[instanceId], ticketId, rows[ticketId].replyToken, raw);
  }

  lemma {:induction false} ListedAreStored(env: Env, instanceId: Id)
    requires ValidEnv(env) && instanceId in env.instances
    ensures instanceId in env.listing && forall a :: a in env.listing[instanceId] ==> Routing.Stored(a)
  {}

  lemma {:induction false} ReplyCarriesTag(addresses: seq<InboundAddress>, ticketId: Id, token: string, raw: string)
    requires addresses != [] && forall a :: a in addresses ==> Routing.Stored(a)
    requires ticketId != "" && token != "" && Alphanumeric(ticketId) && Alphanumeric(token)
    requires IsReplyTo(addresses, ticketId, token, raw)
    ensures TagOf(raw) == Some(ReplyTag(ticketId, token))
  {
    SenderIsOwn(addresses);
    ReplyToReadsBackIff(PrimaryInboundAddress(addresses).value, ticketId, token);
  }

  // ---------------------------------------------------------------- by a message id

  /** Some stored message carries the id. */
  ghost predicate Known(s: State, rfcMessageId: string) {
    exists m :: m in s.messages && s.messages[m].rfcMessageId == Some(rfcMessageId)
  }

  /** The one id `In-Reply-To` names. */
  function Parent(mail: Mail): Option<string> {
    if mail.inReplyTo.Some? && Trim(mail.inReplyTo.value) != "" then Some(Trim(mail.inReplyTo.value)) else None
  }

  /** The ids `References` lists, oldest first. */
  function Ancestry(mail: Mail): seq<string> { if mail.references.Some? then Words(mail.references.value) else [] }

  /** The parent if it is known; else the newest known reference. */
  ghost predicate FirstKnownId(s: State, mail: Mail, id: string) {
    && Known(s, id)
    && if Parent(mail).Some? && Known(s, Parent(mail).value) then id == Parent(mail).value
       else exists k :: 0 <= k < |Ancestry(mail)| && Ancestry(mail)[k] == id
                        && forall j :: k < j < |Ancestry(mail)| ==> !Known(s, Ancestry(mail)[j])
  }

  ghost predicate NoKnownId(s: State, mail: Mail) {
    && (Parent(mail).Some? ==> !Known(s, Parent(mail).value))
    && forall j :: 0 <= j < |Ancestry(mail)| ==> !Known(s, Ancestry(mail)[j])
  }

  lemma {:induction false} FromMessageIdsSnoc(rows: Rows, messages: Messages, ids: seq<string>, id: string, instanceId: Id)
    ensures FromMessageIds(rows, messages, ids + [id], instanceId)
            == if FromMessageIds(rows, messages, ids, instanceId).Some? then FromMessageIds(rows, messages, ids, instanceId)
               else Led(rows, messages, id, instanceId)
  {
    if ids == [] {
      assert ids + [id] == [id] && [id][1..] == [];
    } else {
      assert (ids + [id])[1..] == ids[1..] + [id] && (ids + [id])[0] == ids[0];
      FromMessageIdsSnoc(rows, messages, ids[1..], id, instanceId);
    }
  }

  lemma {:induction false} NoneLeads(rows: Rows, messages: Messages, ids: seq<string>, instanceId: Id)
    ensures FromMessageIds(rows, messages, ids, instanceId) == None
            <==> forall j :: 0 <= j < |ids| ==> Led(rows, messages, ids[j], instanceId) == None
  {
    if ids != [] {
      NoneLeads(rows, messages, ids[1..], instanceId);
      assert forall j :: 1 <= j < |ids| ==> ids[j] == ids[1..][j - 1];
    }
  }

  /** Asking again for an id that led nowhere changes nothing. */
  lemma {:induction false} FirstsLeadTheSame(rows: Rows, messages: Messages, ids: seq<string>, instanceId: Id)
    ensures FromMessageIds(rows, messages, Firsts(ids), instanceId) == FromMessageIds(rows, messages, ids, instanceId)
  {
    if ids != [] {
      var front, last := ids[..|ids| - 1], ids[|ids| - 1];
      assert ids == front + [last];
      FirstsLeadTheSame(rows, messages, front, instanceId);
      FromMessageIdsSnoc(rows, messages, front, last, instanceId);
      FromMessageIdsSnoc(rows, messages, Firsts(front), last, instanceId);
      NoneLeads(rows, messages, Firsts(front), instanceId);
    }
  }

  /** An id leads somewhere only if it is known. */
  lemma {:induction false} UnknownLeadsNowhere(s: State, id: string, instanceId: Id)
    requires !Known(s, id)
    ensures Led(s.rows, s.messages, id, instanceId) == None
  {
    assert Carrying(s.messages, id) == {};
  }

  lemma {:induction false} NoKnownLeads(s: State, mail: Mail, instanceId: Id)
    requires NoKnownId(s, mail)
    ensures FromMessageIds(s.rows, s.messages, Firsts(Collected(mail.inReplyTo, mail.references)), instanceId) == None
  {
    var ids := Collected(mail.inReplyTo, mail.references);
    FirstsLeadTheSame(s.rows, s.messages, ids, instanceId);
    forall j | 0 <= j < |ids|
      ensures Led(s.rows, s.messages, ids[j], instanceId) == None
    {
      CollectedAt(mail, j);
      UnknownLeadsNowhere(s, ids[j], instanceId);
    }
    NoneLeads(s.rows, s.messages, ids, instanceId);
  }

  /** The candidates in the order they are tried: the parent, then the references backwards. */
  lemma {:induction false} CollectedAt(mail: Mail, j: nat)
    requires j < |Collected(mail.inReplyTo, mail.references)|
    ensures var ids, first := Collected(mail.inReplyTo, mail.references), if Parent(mail).Some? then 1 else 0;
            && |ids| == first + |Ancestry(mail)|
            && (if j < first then ids[j] == Parent(mail).value
                else 0 <= |ids| - 1 - j < |Ancestry(mail)| && ids[j] == Ancestry(mail)[|ids| - 1 - j])
  {}

  lemma {:induction false} FirstKnownLeads(s: State, mail: Mail, instanceId: Id, id: string)
    requires FirstKnownId(s, mail, id) && Led(s.rows, s.messages, id, instanceId).Some?
    ensures FromMessageIds(s.rows, s.messages, Firsts(Collected(mail.inReplyTo, mail.references)), instanceId)
            == Led(s.rows, s.messages, id, instanceId)
  {
    var ids := Collected(mail.inReplyTo, mail.references);
    FirstsLeadTheSame(s.rows, s.messages, ids, instanceId);
    var at := PlaceOfFirstKnown(s, mail, id);
    forall j | 0 <= j < at
      ensures Led(s.rows, s.messages, ids[j], instanceId) == None
    {
      UnknownLeadsNowhere(s, ids[j], instanceId);
    }
    MessageIdAt(s.rows, s.messages, ids, instanceId, at);
  }

  lemma {:induction false} PlaceOfFirstKnown(s: State, mail: Mail, id: string) returns (at: nat)
    requires FirstKnownId(s, mail, id)
    ensures var ids := Collected(mail.inReplyTo, mail.references);
            at < |ids| && ids[at] == id && forall j :: 0 <= j < at ==> !Known(s, ids[j])
  {
    var ids := Collected(mail.inReplyTo, mail.references);
    if Parent(mail).Some? && Known(s, Parent(mail).value) {
      at := 0;
      CollectedAt(mail, 0);
    } else {
      var k :| 0 <= k < |Ancestry(mail)| && Ancestry(mail)[k] == id
               && forall j :: k < j < |Ancestry(mail)| ==> !Known(s, Ancestry(mail)[j]);
      at := |ids| - 1 - k;
      forall j | 0 <= j <= at
        ensures if j < at then !Known(s, ids[j]) else ids[j] == id
      {
        CollectedAt(mail, j);
      }
    }
  }

  /** A second message carries the id. */
  ghost predicate SharedWith(s: State, rfcMessageId: string, m: Id) {
    exists other :: other in s.messages && other != m && s.messages[other].rfcMessageId == Some(rfcMessageId)
  }

  /** What a known id leads to. */
  lemma {:induction false} KnownLeads(s: State, id: string, instanceId: Id, m: Id)
    requires m in s.messages && s.messages[m].rfcMessageId == Some(id) && s.messages[m].ticketId in s.rows
    ensures Led(s.rows, s.messages, id, instanceId)
            == Some(if SharedWith(s, id, m) then Failed else Decide(s.rows, s.messages[m].ticketId, instanceId))
  {
    var hits := Carrying(s.messages, id);
    if other :| other in s.messages && other != m && s.messages[other].rfcMessageId == Some(id) {
      TwoIn(hits, m, other);
    } else {
      assert hits == {m};
    }
  }

  lemma {:induction false} TwoIn(hits: set<Id>, a: Id, b: Id)
    requires a in hits && b in hits && a != b
    ensures |hits| > 1
  {
    assert |hits - {a}| >= 1 by { assert b in hits - {a}; }
  }

  /** Without a verified tag, the first known id of the thread headers decides: the mail joins the
      ticket of the message that carries it, or is dropped if that is another instance's, and errs
      if a second message carries the id. */
  lemma {:induction false} ThreadedMailJoins(env: Env, s: State, source: MailId, mail: Mail, minted: Minted,
                                             instanceId: Id, sender: string, id: string, m: Id)
    requires LetIn(env, s, source, mail, instanceId, sender)
    requires forall j :: 0 <= j < |mail.to + mail.cc| ==> !TagVerifies(s.rows, (mail.to + mail.cc)[j])
    requires FirstKnownId(s, mail, id)
    requires m in s.messages && s.messages[m].rfcMessageId == Some(id) && s.messages[m].ticketId in s.rows
    ensures if SharedWith(s, id, m) then Stuck(env, s, source, mail, minted)
            else if s.rows[s.messages[m].ticketId].instanceId == instanceId
            then Joins(env, s, source, mail, minted, instanceId, sender, s.messages[m].ticketId)
            else Foreign(env, s, source, mail, minted)
  {
    var lookup := if SharedWith(s, id, m) then Failed else Decide(s.rows, s.messages[m].ticketId, instanceId);
    ThreadMatches(s, mail, instanceId, id, m);
    if lookup.Found? {
      MatchedJoins(env, s, source, mail, minted, instanceId, sender, s.messages[m].ticketId);
    } else {
      StoppedLeavesAll(env, s, source, mail, minted, instanceId, sender, lookup);
    }
  }

  lemma {:induction false} ThreadMatches(s: State, mail: Mail, instanceId: Id, id: string, m: Id)
    requires forall j :: 0 <= j < |mail.to + mail.cc| ==> !TagVerifies(s.rows, (mail.to + mail.cc)[j])
    requires FirstKnownId(s, mail, id)
    requires m in s.messages && s.messages[m].rfcMessageId == Some(id) && s.messages[m].ticketId in s.rows
    ensures Matched(s, mail, instanceId)
            == if SharedWith(s, id, m) then Failed else Decide(s.rows, s.messages[m].ticketId, instanceId)
  {
    NoTagLeads(s.rows, mail.to + mail.cc, instanceId);
    KnownLeads(s, id, instanceId, m);
    FirstKnownLeads(s, mail, instanceId, id);
  }

  // ---------------------------------------------------------------- by the subject, or not at all

  /** When no tag verifies and no id is known, the tag of a ticket of the instance in the subject,
      behind any text that holds no readable tag, takes the mail to that ticket. */
  lemma {:induction false} SubjectMailJoins(env: Env, s: State, source: MailId, mail: Mail, minted: Minted, instanceId: Id,
                                            sender: string, prefix: string, slug: string, suffix: string, ticketId: Id)
    requires LetIn(env, s, source, mail, instanceId, sender) && Inv(s)
    requires forall j :: 0 <= j < |mail.to + mail.cc| ==> !TagVerifies(s.rows, (mail.to + mail.cc)[j])
    requires NoKnownId(s, mail)
    requires ticketId in s.rows && s.rows[ticketId].instanceId == instanceId && s.rows[ticketId].number <= SubjectTags.U64_MAX
    requires SubjectTags.Taggable(slug) && SubjectTags.Parse(prefix) == None
    requires mail.subject == prefix + ("[#" + slug + "-" + Decimal(s.rows[ticketId].number) + "]") + suffix
    ensures Joins(env, s, source, mail, minted, instanceId, sender, ticketId)
  {
    var number := s.rows[ticketId].number;
    NoTagLeads(s.rows, mail.to + mail.cc, instanceId);
    NoKnownLeads(s, mail, instanceId);
    SubjectTags.TagBehindPrefix(prefix, slug, number, suffix);
    NumberLeads(s, instanceId, ticketId);
    MatchedJoins(env, s, source, mail, minted, instanceId, sender, ticketId);
  }

  /** A number names at most one ticket of an instance. */
  lemma {:induction false} NumberLeads(s: State, instanceId: Id, ticketId: Id)
    requires Inv(s) && ticketId in s.rows && s.rows[ticketId].instanceId == instanceId
    ensures FromSubject(s.rows, Some(s.rows[ticketId].number), instanceId) == Found(ticketId)
  {
    var number := s.rows[ticketId].number;
    var hits := Tickets.Numbered(s.rows, Composite(instanceId, Decimal(number)));
    InvNumbers(s, instanceId, number);
    NumberKeyIsFilter(s.rows, instanceId, number);
    assert ticketId in hits;
    forall other | other in hits ensures other == ticketId {
      if other != ticketId { TwoIn(hits, ticketId, other); }
    }
  }

  /** A mail of which nothing leads anywhere opens a ticket: no tag verifies, no id is known, and the
      subject holds no tag, or one whose number no ticket of the instance has. */
  lemma {:induction false} NewMailOpens(env: Env, s: State, source: MailId, mail: Mail, minted: Minted, instanceId: Id,
                                        sender: string)
    requires LetIn(env, s, source, mail, instanceId, sender)
    requires forall j :: 0 <= j < |mail.to + mail.cc| ==> !TagVerifies(s.rows, (mail.to + mail.cc)[j])
    requires NoKnownId(s, mail)
    requires var tag := SubjectTags.Parse(mail.subject);
             tag.Some? ==> forall id :: id in s.rows && s.rows[id].instanceId == instanceId ==> s.rows[id].number != tag.value.1
    ensures OpensOwn(env, s, source, mail, minted, instanceId, sender)
  {
    NoTagLeads(s.rows, mail.to + mail.cc, instanceId);
    NoKnownLeads(s, mail, instanceId);
    var tag := SubjectTags.Parse(mail.subject);
    if tag.Some? {
      NumberKeyIsFilter(s.rows, instanceId, tag.value.1);
      assert Tickets.Numbered(s.rows, Composite(instanceId, Decimal(tag.value.1))) == {};
    }
    UnmatchedOpens(env, s, source, mail, minted, instanceId, sender);
  }
}
