/** What an inbound message says about the ticket it belongs to: reply tags, message ids
    (api/src/inbound/resolution.rs), and the headers that carry them out
    (api/src/outbound.rs; section 3.6.4 of RFC 5322). */
module Resolution {
  import opened Prelude
  import opened Routing

  datatype ReplyTag = ReplyTag(ticketId: Id, replyToken: string)

  /** `t`, then the ticket id and the token, parted at the first `.`. */
  function ParseReplyTag(tag: string): (r: Option<ReplyTag>)
    ensures r.Some? ==> tag == TagText(r.value.ticketId, r.value.replyToken)
  {
    if tag == "" || tag[0] != 't' then None
    else
      match SplitOnce(tag[1..], '.')
      case None => None
      case Some((ticketId, replyToken)) =>
        if ticketId == "" || replyToken == "" then None else Some(ReplyTag(ticketId, replyToken))
  }

  function TagText(ticketId: Id, replyToken: string): string { "t" + ticketId + "." + replyToken }

  /** A tag is read exactly if it is written, and as what is written. */
  lemma {:induction false} ReplyTagIff(tag: string, ticketId: Id, replyToken: string)
    ensures ParseReplyTag(tag) == Some(ReplyTag(ticketId, replyToken))
            <==> tag == "t" + ticketId + "." + replyToken && ticketId != "" && '.' !in ticketId && replyToken != ""
  {
    if tag == TagText(ticketId, replyToken) && ticketId != "" && '.' !in ticketId && replyToken != "" {
      TagTextParses(ticketId, replyToken);
    }
  }

  /** What nanoid draws from. */
  predicate Alphanumeric(s: string) {
    forall i :: 0 <= i < |s| ==> IsDigit(s[i]) || 'A' <= s[i] <= 'Z' || 'a' <= s[i] <= 'z'
  }

  lemma {:induction false} TagTextParses(ticketId: Id, replyToken: string)
    requires ticketId != "" && replyToken != "" && '.' !in ticketId
    ensures ParseReplyTag(TagText(ticketId, replyToken)) == Some(ReplyTag(ticketId, replyToken))
  {
    var tag := TagText(ticketId, replyToken);
    assert tag[1..] == ticketId + ['.'] + replyToken;
    SplitOnceAt(ticketId, '.', replyToken);
  }

  // ---------------------------------------------------------------- Reply-To and back

  /** Text between the first `+` of the local part and the first `@` is the tag. */
  lemma {:induction false} TaggedAddress(base: string, tag: string, domain: string)
    requires '@' !in base && '+' !in base && '@' !in tag && Lower(base) == base && Lower(domain) == domain
    ensures NormalizeRecipient(base + "+" + tag + "@" + domain) == Normalized(base + "@" + domain, Some(tag), Some(domain))
  {
    SplitOnceAt(base + "+" + tag, '@', domain);
    SplitOnceAt(base, '+', tag);
  }

  lemma {:induction false} TagIsClean(ticketId: Id, replyToken: string)
    requires Alphanumeric(ticketId) && Alphanumeric(replyToken)
    ensures '@' !in TagText(ticketId, replyToken) && '+' !in TagText(ticketId, replyToken) && '.' !in ticketId
  {}

  lemma {:induction false} ReplyText(sender: string, ticketId: Id, replyToken: string)
    requires SplitOnce(sender, '@').Some?
    ensures var (local, domain) := SplitOnce(sender, '@').value;
            ReplyToAddress(sender, ticketId, replyToken) == Some(local + "+" + TagText(ticketId, replyToken) + "@" + domain)
  {
    var (local, domain) := SplitOnce(sender, '@').value;
    Regroup(local, ticketId + "." + replyToken, "@" + domain);
    assert local + "+t" + ticketId + "." + replyToken == local + "+" + TagText(ticketId, replyToken);
  }

  /** A Reply-To reads back as the sending address, this ticket and this token, with their
      case, exactly when the sending address has no `+` of its own. */
  lemma {:induction false} ReplyToReadsBackIff(sender: string, ticketId: Id, replyToken: string)
    requires Lower(sender) == sender && SplitOnce(sender, '@').Some?
    requires ticketId != "" && replyToken != "" && Alphanumeric(ticketId) && Alphanumeric(replyToken)
    ensures var (local, domain) := SplitOnce(sender, '@').value;
            var n := NormalizeRecipient(ReplyToAddress(sender, ticketId, replyToken).value);
            && (n.address == sender <==> '+' !in local)
            && (n.tag.Some? && ParseReplyTag(n.tag.value) == Some(ReplyTag(ticketId, replyToken)) <==> '+' !in local)
            && n.domain == Some(domain)
  {
    var (local, domain) := SplitOnce(sender, '@').value;
    LowerParts(local, domain);
    ReplyText(sender, ticketId, replyToken);
    TagTextParses(ticketId, replyToken);
    TagIsClean(ticketId, replyToken);
    var body := TagText(ticketId, replyToken);
    match SplitOnce(local, '+') {
      case None => TaggedAddress(local, body, domain);
      case Some((base, rest)) =>
        PartOf(base, rest, '@');
        LowerHead(base, rest);
        PlusReply(base, rest, body, domain);
        DirtyTag(rest, body);
    }
  }

  lemma {:induction false} PlusReply(base: string, rest: string, body: string, domain: string)
    requires '@' !in base && '@' !in rest && '+' !in base && '@' !in body
    requires Lower(base) == base && Lower(domain) == domain
    ensures NormalizeRecipient(base + "+" + rest + "+" + body + "@" + domain)
            == Normalized(base + "@" + domain, Some(rest + "+" + body), Some(domain))
    ensures |base + "@" + domain| < |base + "+" + rest + "@" + domain|
  {
    var tag := rest + "+" + body;
    TaggedAddress(base, tag, domain);
    assert base + "+" + rest + "+" + body == base + "+" + tag;
  }

  lemma {:induction false} PartOf(base: string, rest: string, c: char)
    requires c !in base + "+" + rest
    ensures c !in base && c !in rest
  {
    var s := base + "+" + rest;
    assert forall i :: 0 <= i < |base| ==> s[i] == base[i];
    assert forall i :: 0 <= i < |rest| ==> s[|base| + 1 + i] == rest[i];
  }

  /** A tag with a `+` is none of ours. */
  lemma {:induction false} DirtyTag(rest: string, body: string)
    requires '+' !in body
    ensures ParseReplyTag(rest + "+" + body).Some? ==>
              var tag := ParseReplyTag(rest + "+" + body).value; TagText(tag.ticketId, tag.replyToken) != body
  {
    assert (rest + "+" + body)[|rest|] == '+';
  }

  /** The Reply-To of an instance with stored addresses routes back to it and yields exactly this
      ticket and token if and only if its sender has no `+`; a sender made up for a wildcard
      never has one. */
  lemma {:induction false} ReplyToComesHome(addresses: seq<InboundAddress>, ticketId: Id, replyToken: string)
    requires addresses != [] && forall a :: a in addresses ==> Stored(a)
    requires ticketId != "" && replyToken != "" && Alphanumeric(ticketId) && Alphanumeric(replyToken)
    ensures PrimaryInboundAddress(addresses).Some?
    ensures var sender := PrimaryInboundAddress(addresses).value;
            && SplitOnce(sender, '@').Some?
            && (Earliest(addresses, Exact).None? ==> '+' !in SplitOnce(sender, '@').value.0)
            && var reply := ReplyToAddress(sender, ticketId, replyToken).value;
            Resolve([reply], Keys(addresses)).Some? && Tags([reply]) == [ReplyTag(ticketId, replyToken)]
            <==> '+' !in SplitOnce(sender, '@').value.0
  {
    SenderIsOwn(addresses);
    var sender := PrimaryInboundAddress(addresses).value;
    ReplyToReadsBackIff(sender, ticketId, replyToken);
    var reply := ReplyToAddress(sender, ticketId, replyToken).value;
    OneTag(reply);
    if '+' !in SplitOnce(sender, '@').value.0 {
      SenderNormal(sender);
      OwnIffRoutes(addresses, reply);
    }
  }

  lemma {:induction false} OneTag(raw: string)
    ensures Tags([raw]) == if TagOf(raw).Some? then [TagOf(raw).value] else []
  {
    assert [raw][..0] == [];
  }

  /** Nothing is ever routed to a stored address with a `+`. */
  lemma {:induction false} PlusNeverCovers(a: InboundAddress, candidate: string)
    requires Stored(a) && a.kind.Exact?
    requires SplitOnce(a.address, '@').Some? && '+' in SplitOnce(a.address, '@').value.0
    ensures !Covers(a, NormalizeRecipient(candidate)) && Resolve([candidate], {a.address}).None?
  {
    NormalizedParts(candidate);
    PlusIsNotNormal(a.address, NormalizeRecipient(candidate));
    OneRowResolves(a, candidate);
  }

  /** A single stored row is hit exactly by what it covers. */
  lemma {:induction false} OneRowResolves(a: InboundAddress, candidate: string)
    requires Stored(a)
    ensures Resolve([candidate], {a.address}).Some? <==> Covers(a, NormalizeRecipient(candidate))
  {
    CoversIffKey(a, candidate);
    ResolveFindsFirst([candidate], {a.address});
    assert [candidate][0] == candidate;
  }

  lemma {:induction false} PlusIsNotNormal(address: string, n: Normalized)
    requires Parted(n) && SplitOnce(address, '@').Some? && '+' in SplitOnce(address, '@').value.0
    ensures address != n.address
  {}

  lemma {:induction false} SenderNormal(sender: string)
    requires Lower(sender) == sender && SplitOnce(sender, '@').Some?
    requires '+' !in SplitOnce(sender, '@').value.0
    ensures NormalizeRecipient(sender).address == sender
    ensures NormalizeRecipient(sender).domain == Some(SplitOnce(sender, '@').value.1)
  {
    var (local, domain) := SplitOnce(sender, '@').value;
    LowerParts(local, domain);
    PlainAddress(local, domain);
  }

  /** An instance whose one address has a `+` sends a Reply-To that never comes home. */
  lemma {:induction false} PlusSenderIsLost(row: InboundAddress, ticketId: Id, replyToken: string)
    requires Stored(row) && row.kind.Exact?
    requires SplitOnce(row.address, '@').Some? && '+' in SplitOnce(row.address, '@').value.0
    requires ticketId != "" && replyToken != "" && Alphanumeric(ticketId) && Alphanumeric(replyToken)
    ensures PrimaryInboundAddress([row]) == Some(row.address)
    ensures Resolve([ReplyToAddress(row.address, ticketId, replyToken).value], Keys([row])) == None
  {
    EarliestIsLeast([row], Exact);
    assert row in [row];
    StoredShape(row);
    ReplyToReadsBackIff(row.address, ticketId, replyToken);
    OwnIffRoutes([row], ReplyToAddress(row.address, ticketId, replyToken).value);
  }

  /** And `classify_for_storage` lets such an address in: it asks nothing about `+`. */
  lemma {:induction false} PlusIsStored(local: string, domain: string)
    requires local != "" && domain != "" && '@' !in local && '*' !in local && '*' !in domain
    requires !IsWhitespace(local[0]) && !IsWhitespace(domain[|domain| - 1])
    requires Lower(local + "@" + domain) == local + "@" + domain
    ensures ClassifyForStorage(local + "@" + domain) == Some((local + "@" + domain, Exact))
  {
    var address := local + "@" + domain;
    assert address[0] == local[0] && address[|address| - 1] == domain[|domain| - 1];
    TrimOfTrimmed(address);
    SplitOnceAt(local, '@', domain);
  }

  // ---------------------------------------------------------------- tags of a message

  function TagOf(raw: string): Option<ReplyTag> {
    match NormalizeRecipient(raw).tag
    case Some(tag) => ParseReplyTag(tag)
    case None => None
  }

  /** The tags of the recipients, each once, by first occurrence. */
  function Tags(recipients: seq<string>): seq<ReplyTag> {
    if recipients == [] then []
    else
      var before := Tags(recipients[..|recipients| - 1]);
      match TagOf(recipients[|recipients| - 1])
      case Some(tag) => if tag in before then before else before + [tag]
      case None => before
  }

  method ExtractReplyTags(recipients: seq<string>) returns (out: seq<ReplyTag>)
    ensures out == Tags(recipients)
  {
    out := [];
    for i := 0 to |recipients|
      invariant out == Tags(recipients[..i])
    {
      assert recipients[..i + 1][..i] == recipients[..i];
      var n := NormalizeRecipient(recipients[i]);
      if n.tag.None? { continue; }
      var tag := ParseReplyTag(n.tag.value);
      if tag.None? { continue; }
      if tag.value !in out { out := out + [tag.value]; }
    }
    assert recipients[..|recipients|] == recipients;
  }

  lemma {:induction false} TagsSpec(recipients: seq<string>)
    ensures Distinct(Tags(recipients))
    ensures forall tag :: tag in Tags(recipients) <==> exists raw :: raw in recipients && TagOf(raw) == Some(tag)
  {
    TagsDistinct(recipients);
    forall tag | tag in Tags(recipients)
      ensures exists raw :: raw in recipients && TagOf(raw) == Some(tag)
    {
      var raw := TagSource(recipients, tag);
    }
    forall raw | raw in recipients && TagOf(raw).Some?
      ensures TagOf(raw).value in Tags(recipients)
    {
      TagKept(recipients, raw);
    }
  }

  lemma {:induction false} TagsDistinct(recipients: seq<string>)
    ensures Distinct(Tags(recipients))
  {
    if recipients != [] {
      TagsDistinct(recipients[..|recipients| - 1]);
    }
  }

  lemma {:induction false} TagSource(recipients: seq<string>, tag: ReplyTag) returns (raw: string)
    requires tag in Tags(recipients)
    ensures raw in recipients && TagOf(raw) == Some(tag)
  {
    var front := recipients[..|recipients| - 1];
    if tag in Tags(front) {
      raw := TagSource(front, tag);
    } else {
      raw := recipients[|recipients| - 1];
    }
  }

  lemma {:induction false} TagKept(recipients: seq<string>, raw: string)
    requires raw in recipients && TagOf(raw).Some?
    ensures TagOf(raw).value in Tags(recipients)
  {
    var i :| 0 <= i < |recipients| && recipients[i] == raw;
    TagKeptAt(recipients, i, raw, TagOf(raw).value);
  }

  lemma {:induction false} TagKeptAt(recipients: seq<string>, i: nat, raw: string, tag: ReplyTag)
    requires i < |recipients| && recipients[i] == raw && TagOf(raw) == Some(tag)
    ensures tag in Tags(recipients)
  {
    if i == |recipients| - 1 {
      LastTagKept(recipients, raw, tag);
    } else {
      TagKeptAt(recipients[..|recipients| - 1], i, raw, tag);
      FrontTagKept(recipients, tag);
    }
  }

  lemma {:induction false} LastTagKept(recipients: seq<string>, raw: string, tag: ReplyTag)
    requires recipients != [] && recipients[|recipients| - 1] == raw && TagOf(raw) == Some(tag)
    ensures tag in Tags(recipients)
  {}

  lemma {:induction false} FrontTagKept(recipients: seq<string>, tag: ReplyTag)
    requires recipients != [] && tag in Tags(recipients[..|recipients| - 1])
    ensures tag in Tags(recipients)
  {}

  /** `constant_time_eq` is equality. */
  method ConstantTimeEq(a: seq<bv8>, b: seq<bv8>) returns (eq: bool)
    ensures eq <==> a == b
  {
    if |a| != |b| { return false; }
    var diff: bv8 := 0;
    for i := 0 to |a|
      invariant diff == 0 <==> a[..i] == b[..i]
    {
      assert a[..i + 1] == a[..i] + [a[i]] && b[..i + 1] == b[..i] + [b[i]];
      AnyBit(diff, a[i], b[i]);
      diff := diff | (a[i] ^ b[i]);
    }
    assert a[..|a|] == a && b[..|b|] == b;
    eq := diff == 0;
  }

  lemma {:induction false} AnyBit(diff: bv8, x: bv8, y: bv8)
    ensures diff | (x ^ y) == 0 <==> diff == 0 && x == y
  {}

  // ---------------------------------------------------------------- message ids

  /** `split_whitespace`: the maximal runs of other characters. */
  function Words(s: string): seq<string> {
    if s == [] then []
    else if IsWhitespace(s[|s| - 1]) then Words(s[..|s| - 1])
    else
      var n := WordStart(s);
      Words(s[..n]) + [s[n..]]
  }

  /** Where the last run of non-blanks starts. */
  function WordStart(s: string): (n: nat)
    ensures n <= |s|
    ensures s != [] && !IsWhitespace(s[|s| - 1]) ==> n < |s|
    ensures forall i :: n <= i < |s| ==> !IsWhitespace(s[i])
    ensures n > 0 ==> IsWhitespace(s[n - 1])
  {
    if s == [] || IsWhitespace(s[|s| - 1]) then |s| else WordStart(s[..|s| - 1])
  }

  predicate Blankless(s: string) { s != "" && forall i :: 0 <= i < |s| ==> !IsWhitespace(s[i]) }

  /** A word put behind a blank is the last word. */
  lemma {:induction false} WordsAppend(s: string, id: string)
    requires Blankless(id)
    ensures Words(s + " " + id) == Words(s) + [id]
  {
    var t := s + " " + id;
    assert t[|t| - 1] == id[|id| - 1];
    WordStartAt(s + " ", id);
    assert t[..|s| + 1] == s + " " && t[|s| + 1..] == id;
    assert (s + " ")[..|s|] == s;
  }

  /** Words are what any blanks part: a blank at the end changes nothing, a word behind a blank is
      one more word. */
  lemma {:induction false} WordsBehindBlank(s: string, blank: char, id: string)
    requires IsWhitespace(blank) && Blankless(id)
    ensures Words(s + [blank]) == Words(s)
    ensures Words(s + [blank] + id) == Words(s) + [id]
  {
    var t := s + [blank] + id;
    assert t[|t| - 1] == id[|id| - 1];
    WordStartAt(s + [blank], id);
    assert t[..|s| + 1] == s + [blank] && t[|s| + 1..] == id;
    assert (s + [blank])[..|s|] == s;
  }

  lemma {:induction false} WordStartAt(s: string, id: string)
    requires s != [] ==> IsWhitespace(s[|s| - 1])
    requires forall i :: 0 <= i < |id| ==> !IsWhitespace(id[i])
    ensures WordStart(s + id) == |s|
  {
    if id != [] {
      assert (s + id)[..|s + id| - 1] == s + id[..|id| - 1];
      WordStartAt(s, id[..|id| - 1]);
    } else {
      assert s + id == s;
    }
  }

  lemma {:induction false} OneWord(id: string)
    requires Blankless(id)
    ensures Words(id) == [id]
  {
    WordStartAt("", id);
    assert "" + id == id && id[..0] == "" && id[0..] == id;
  }

  lemma {:induction false} BlankHasNoWords(s: string)
    requires forall i :: 0 <= i < |s| ==> IsWhitespace(s[i])
    ensures Words(s) == []
  {
    if s != [] {
      BlankHasNoWords(s[..|s| - 1]);
    }
  }

  /** Each element once, by first occurrence. */
  function Firsts(s: seq<string>): seq<string> {
    if s == [] then []
    else
      var before := Firsts(s[..|s| - 1]);
      if s[|s| - 1] in before then before else before + [s[|s| - 1]]
  }

  lemma {:induction false} FirstsSpec(s: seq<string>)
    ensures forall x :: x in Firsts(s) <==> x in s
    ensures Distinct(Firsts(s))
    ensures Distinct(s) ==> Firsts(s) == s
  {
    if s != [] {
      var front := s[..|s| - 1];
      FirstsSpec(front);
      assert s == front + [s[|s| - 1]];
    }
  }

  function Reversed(s: seq<string>): (r: seq<string>)
    ensures |r| == |s| && forall i :: 0 <= i < |s| ==> r[i] == s[|s| - 1 - i]
  {
    seq(|s|, i requires 0 <= i < |s| => s[|s| - 1 - i])
  }

  /** What `candidate_message_ids` collects, before each id is kept once. */
  function Collected(inReplyTo: Option<string>, references: Option<string>): seq<string> {
    (if inReplyTo.Some? && Trim(inReplyTo.value) != "" then [Trim(inReplyTo.value)] else [])
    + if references.Some? then Reversed(Words(references.value)) else []
  }

  method CandidateMessageIds(inReplyTo: Option<string>, references: Option<string>) returns (out: seq<string>)
    ensures out == Firsts(Collected(inReplyTo, references))
  {
    out := [];
    if inReplyTo.Some? {
      var parent := Trim(inReplyTo.value);
      if parent != "" {
        out := [parent];
        assert [parent][..0] == [];
      }
    }
    if references.Some? {
      WordsAreTrimmed(references.value);
      out := Ancestors(out, Words(references.value));
    }
  }

  predicate AllTrimmed(ids: seq<string>) {
    forall i :: 0 <= i < |ids| ==> IsTrimmed(ids[i])
  }

  predicate IsTrimmed(id: string) { id != "" && Trim(id) == id }

  lemma {:induction false} TrimmedAt(ids: seq<string>, i: nat)
    requires AllTrimmed(ids) && i < |ids|
    ensures ids[i] != "" && Trim(ids[i]) == ids[i]
  {
    assert IsTrimmed(ids[i]);
  }

  /** The loop over the references, from the last to the first. */
  method Ancestors(head: seq<string>, ids: seq<string>) returns (out: seq<string>)
    requires Firsts(head) == head && AllTrimmed(ids)
    ensures out == Firsts(head + Reversed(ids))
  {
    ghost var all := Reversed(ids);
    out := head;
    assert head + all[..0] == head;
    for i := 0 to |ids|
      invariant out == Firsts(head + all[..i])
    {
      FirstsNext(head, all, i);
      TrimmedAt(ids, |ids| - 1 - i);
      var id := Trim(ids[|ids| - 1 - i]);
      assert id == all[i];
      if id != "" && id !in out { out := out + [id]; }
    }
    assert all[..|ids|] == all;
  }

  lemma {:induction false} FirstsNext(head: seq<string>, all: seq<string>, i: nat)
    requires i < |all|
    ensures Firsts(head + all[..i + 1])
            == var before := Firsts(head + all[..i]); if all[i] in before then before else before + [all[i]]
  {
    var s := head + all[..i + 1];
    assert s[..|s| - 1] == head + all[..i] && s[|s| - 1] == all[i];
  }

  lemma {:induction false} WordsAreTrimmed(s: string)
    ensures AllTrimmed(Words(s))
  {
    if s != [] {
      if IsWhitespace(s[|s| - 1]) {
        WordsAreTrimmed(s[..|s| - 1]);
      } else {
        var n := WordStart(s);
        WordsAreTrimmed(s[..n]);
        TrimOfTrimmed(s[n..]);
      }
    }
  }

  // ---------------------------------------------------------------- threading

  /** The threading fields of a message row, oldest first in a list. */
  datatype Message = Message(rfcMessageId: Option<string>, references: Option<string>)

  datatype Threading = Threading(inReplyTo: Option<string>, references: Option<string>)

  /** The last message that was sent under a message id. */
  function LastSent(messages: seq<Message>): (r: Option<Message>)
    ensures r.Some? ==> r.value in messages && r.value.rfcMessageId.Some?
  {
    if messages == [] then None
    else
      var last := messages[|messages| - 1];
      if last.rfcMessageId.Some? then Some(last) else LastSent(messages[..|messages| - 1])
  }

  predicate IsLastSent(messages: seq<Message>, i: nat) {
    && i < |messages| && messages[i].rfcMessageId.Some?
    && forall j :: i < j < |messages| ==> messages[j].rfcMessageId.None?
  }

  /** It is a message with an id behind which no message has one. */
  lemma {:induction false} LastSentIs(messages: seq<Message>, i: nat)
    ensures LastSent(messages).None? <==> forall j :: 0 <= j < |messages| ==> messages[j].rfcMessageId.None?
    ensures IsLastSent(messages, i) ==> LastSent(messages) == Some(messages[i])
  {
    if messages != [] {
      LastSentIs(messages[..|messages| - 1], i);
    }
  }

  function ThreadingFor(messages: seq<Message>): Threading {
    match LastSent(messages)
    case None => Threading(None, None)
    case Some(last) =>
      var rid := last.rfcMessageId.value;
      var references :=
        if last.references.Some? && Trim(last.references.value) != "" then last.references.value + " " + rid else rid;
      Threading(Some(rid), Some(references))
  }

  lemma {:induction false} ReversedSnoc(words: seq<string>, rid: string)
    ensures Reversed(words + [rid]) == [rid] + Reversed(words)
  {}

  /** The parent's id heads the references read backwards, and counts once. */
  lemma {:induction false} ParentFirst(rid: string, references: string, words: seq<string>)
    requires Blankless(rid) && Words(references) == words + [rid]
    ensures Firsts(Collected(Some(rid), Some(references))) == Firsts([rid] + Reversed(words))
  {
    TrimOfTrimmed(rid);
    ReversedSnoc(words, rid);
    FirstsOfTwice(rid, Reversed(words));
  }

  /** Read back, the headers of a new message give the last sent message first, then its own
      references from the newest to the oldest, each once. */
  lemma {:induction false} ThreadingReadsBack(messages: seq<Message>)
    requires LastSent(messages).Some? && Blankless(LastSent(messages).value.rfcMessageId.value)
    ensures var last := LastSent(messages).value;
            var threading := ThreadingFor(messages);
            && threading.inReplyTo == last.rfcMessageId && threading.references.Some?
            && Words(threading.references.value) == Words(last.references.GetOr("")) + [last.rfcMessageId.value]
            && Firsts(Collected(threading.inReplyTo, threading.references))
               == Firsts([last.rfcMessageId.value] + Reversed(Words(last.references.GetOr(""))))
  {
    var last := LastSent(messages).value;
    ReferencesWords(messages);
    ParentFirst(last.rfcMessageId.value, ThreadingFor(messages).references.value, Words(last.references.GetOr("")));
  }

  /** The words of the references are those of the last sent message, and its id. */
  lemma {:induction false} ReferencesWords(messages: seq<Message>)
    requires LastSent(messages).Some? && Blankless(LastSent(messages).value.rfcMessageId.value)
    ensures var last := LastSent(messages).value;
            ThreadingFor(messages).references.Some?
            && Words(ThreadingFor(messages).references.value)
               == Words(last.references.GetOr("")) + [last.rfcMessageId.value]
  {
    var last := LastSent(messages).value;
    var rid, earlier := last.rfcMessageId.value, last.references.GetOr("");
    if Trim(earlier) == "" {
      BlankIffTrimsAway(earlier);
      BlankHasNoWords(earlier);
      OneWord(rid);
    } else {
      WordsAppend(earlier, rid);
    }
  }

  lemma {:induction false} BlankIffTrimsAway(s: string)
    requires Trim(s) == ""
    ensures forall i :: 0 <= i < |s| ==> IsWhitespace(s[i])
  {
    TrimSpec(s);
  }

  /** A second occurrence at the front changes nothing. */
  lemma {:induction false} FirstsOfTwice(x: string, tail: seq<string>)
    ensures Firsts([x] + ([x] + tail)) == Firsts([x] + tail)
    decreases |tail|
  {
    var s, t := [x] + ([x] + tail), [x] + tail;
    if tail == [] {
      assert s == [x, x] && t == [x] && s[..1] == [x] && [x][..0] == [];
      assert Firsts([x]) == [x];
    } else {
      FirstsOfTwice(x, tail[..|tail| - 1]);
      assert s[..|s| - 1] == [x] + ([x] + tail[..|tail| - 1]);
      assert t[..|t| - 1] == [x] + tail[..|tail| - 1];
    }
  }

  /** The message ids of the sent messages of a thread, oldest first. */
  function SentIds(messages: seq<Message>): seq<string> {
    if messages == [] then []
    else
      var last := messages[|messages| - 1];
      SentIds(messages[..|messages| - 1]) + if last.rfcMessageId.Some? then [last.rfcMessageId.value] else []
  }

  /** Every sent message carries the references computed from the messages before it; notes
      and failed sends may stand anywhere between. */
  predicate BuiltByThreading(messages: seq<Message>) {
    forall i :: 0 <= i < |messages| && messages[i].rfcMessageId.Some? ==>
      && Blankless(messages[i].rfcMessageId.value)
      && messages[i].references == ThreadingFor(messages[..i]).references
  }

  lemma {:induction false} ChainReferences(messages: seq<Message>)
    requires BuiltByThreading(messages)
    ensures ThreadingFor(messages).references.None? ==> SentIds(messages) == []
    ensures ThreadingFor(messages).references.Some? ==> Words(ThreadingFor(messages).references.value) == SentIds(messages)
  {
    if messages != [] {
      var front, last := messages[..|messages| - 1], messages[|messages| - 1];
      assert forall i :: 0 <= i < |front| ==> front[..i] == messages[..i];
      ChainReferences(front);
      if last.rfcMessageId.Some? {
        ReferencesWords(messages);
        BlankHasNoWords("");
      }
    }
  }

  /** A thread built only by `threading_for` reads back as its exact reverse. */
  lemma {:induction false} ChainReadsBack(messages: seq<Message>)
    requires BuiltByThreading(messages) && LastSent(messages).Some?
    ensures var threading := ThreadingFor(messages);
            var candidates := Firsts(Collected(threading.inReplyTo, threading.references));
            && candidates == Firsts(Reversed(SentIds(messages)))
            && (Distinct(SentIds(messages)) ==> candidates == Reversed(SentIds(messages)))
  {
    var last := LastSent(messages).value;
    ReferencesWords(messages);
    ChainReferences(messages);
    var words := Words(last.references.GetOr(""));
    ParentFirst(last.rfcMessageId.value, ThreadingFor(messages).references.value, words);
    ReversedSnoc(words, last.rfcMessageId.value);
    if Distinct(SentIds(messages)) { ReversedDistinct(SentIds(messages)); }
    FirstsSpec(Reversed(SentIds(messages)));
  }

  lemma {:induction false} ReversedDistinct(s: seq<string>)
    requires Distinct(s)
    ensures Distinct(Reversed(s))
  {}
}
