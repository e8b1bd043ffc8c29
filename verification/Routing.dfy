/** Which instance an address belongs to (api/src/inbound/routing.rs), and the addresses an
    instance sends from and keeps its own mail away from (api/src/outbound.rs,
    api/src/inbound/pipeline.rs). */
module Routing {
  import opened Prelude

  datatype AddressKind = Exact | Wildcard

  datatype InboundAddress = InboundAddress(address: string, kind: AddressKind, instanceId: Id, createdAt: nat)

  datatype Normalized = Normalized(address: string, tag: Option<string>, domain: Option<string>)

  /** Lower case, with the `+tag` taken off the local part; the tag keeps its case. */
  function NormalizeRecipient(raw: string): Normalized {
    match SplitOnce(raw, '@')
    case Some((local, domain)) =>
      var domainLower := Lower(domain);
      (match SplitOnce(local, '+')
       case Some((base, tag)) => Normalized(Lower(base) + "@" + domainLower, Some(tag), Some(domainLower))
       case None => Normalized(Lower(local) + "@" + domainLower, None, Some(domainLower)))
    case None => Normalized(Lower(raw), None, None)
  }

  function WildcardFor(domain: string): string { "*@" + domain }

  /** The exact address, then the wildcard of its domain. */
  function LookupKeys(raw: string): seq<string> {
    var n := NormalizeRecipient(raw);
    [n.address] + if n.domain.Some? then [WildcardFor(n.domain.value)] else []
  }

  /** `resolve`: the first known key over the recipients in order. */
  function Resolve(recipients: seq<string>, known: set<string>): Option<string> {
    if recipients == [] then None
    else
      match FirstKnown(LookupKeys(recipients[0]), known)
      case Some(key) => Some(key)
      case None => Resolve(recipients[1..], known)
  }

  function FirstKnown(keys: seq<string>, known: set<string>): Option<string> {
    if keys == [] then None
    else if keys[0] in known then Some(keys[0])
    else FirstKnown(keys[1..], known)
  }

  /** A miss means that no key of any recipient is known; a hit is a known key of a recipient
      before which all others miss. */
  lemma {:induction false} ResolveFindsFirst(recipients: seq<string>, known: set<string>)
    ensures Resolve(recipients, known).None?
            <==> forall i :: 0 <= i < |recipients| ==> !Routes(recipients[i], known)
    ensures Resolve(recipients, known).Some? ==>
              exists i :: 0 <= i < |recipients| && Routes(recipients[i], known)
                          && (forall j :: 0 <= j < i ==> !Routes(recipients[j], known))
                          && Resolve(recipients, known) == BestKey(recipients[i], known)
  {
    if recipients != [] {
      var rest := recipients[1..];
      ResolveFindsFirst(rest, known);
      FirstKnownIsBest(recipients[0], known);
      if Routes(recipients[0], known) {
        assert Resolve(recipients, known) == BestKey(recipients[0], known);
      } else {
        assert Resolve(recipients, known) == Resolve(rest, known);
        assert forall i :: 1 <= i < |recipients| ==> recipients[i] == rest[i - 1];
        if Resolve(rest, known).Some? {
          var i :| 0 <= i < |rest| && Routes(rest[i], known)
                   && (forall j :: 0 <= j < i ==> !Routes(rest[j], known))
                   && Resolve(rest, known) == BestKey(rest[i], known);
          assert Routes(recipients[i + 1], known);
        }
      }
    }
  }

  /** Some key of the address is known. */
  predicate Routes(raw: string, known: set<string>) {
    var n := NormalizeRecipient(raw);
    n.address in known || (n.domain.Some? && WildcardFor(n.domain.value) in known)
  }

  /** The exact address before the wildcard. */
  function BestKey(raw: string, known: set<string>): Option<string> {
    var n := NormalizeRecipient(raw);
    if n.address in known then Some(n.address)
    else if n.domain.Some? && WildcardFor(n.domain.value) in known then Some(WildcardFor(n.domain.value))
    else None
  }

  lemma {:induction false} FirstKnownIsBest(raw: string, known: set<string>)
    ensures FirstKnown(LookupKeys(raw), known) == BestKey(raw, known)
    ensures Routes(raw, known) <==> BestKey(raw, known).Some?
  {
    var n := NormalizeRecipient(raw);
    match n.domain {
      case Some(domain) => FirstOfTwo(n.address, WildcardFor(domain), known);
      case None => assert FirstKnown([n.address][1..], known) == None;
    }
  }

  lemma {:induction false} FirstOfTwo(a: string, b: string, known: set<string>)
    ensures FirstKnown([a] + [b], known) == if a in known then Some(a) else if b in known then Some(b) else None
  {
    var keys := [a] + [b];
    assert keys[0] == a && keys[1..] == [b];
    assert FirstKnown([b], known) == if b in known then Some(b) else FirstKnown([], known) by {
      assert [b][0] == b && [b][1..] == [];
    }
  }

  /** Lower case throughout but for the tag, which is what stands between the first `+` of the
      local part and the first `@`. */
  lemma {:induction false} NormalizeSpec(base: string, tag: string, domain: string)
    requires '@' !in base && '@' !in tag && '+' !in base
    ensures NormalizeRecipient(base) == Normalized(Lower(base), None, None)
    ensures NormalizeRecipient(base + "@" + domain)
            == Normalized(Lower(base) + "@" + Lower(domain), None, Some(Lower(domain)))
    ensures NormalizeRecipient(base + "+" + tag + "@" + domain)
            == Normalized(Lower(base) + "@" + Lower(domain), Some(tag), Some(Lower(domain)))
  {
    SplitOnceAt(base, '@', domain);
    SplitOnceAt(base + "+" + tag, '@', domain);
    SplitOnceAt(base, '+', tag);
  }

  /** `classify_for_storage`; `None` is a rejection. */
  function ClassifyForStorage(raw: string): Option<(string, AddressKind)> {
    var lower := Lower(Trim(raw));
    match SplitOnce(lower, '@')
    case None => None
    case Some((local, domain)) =>
      if domain == "" then None
      else if local == "*" then Some((lower, Wildcard))
      else if '*' in local || '*' in domain then None
      else if local == "" then None
      else Some((lower, Exact))
  }

  /** What is let in: trimmed and in lower case, a wildcard for a domain, or an address with both
      parts and no star. */
  lemma {:induction false} ClassifySpec(raw: string, local: string, domain: string)
    ensures '@' !in raw ==> ClassifyForStorage(raw) == None
    ensures Lower(Trim(raw)) == local + "@" + domain && '@' !in local ==>
              ClassifyForStorage(raw) ==
                if local == "*" && domain != "" then Some((local + "@" + domain, Wildcard))
                else if local != "" && domain != "" && '*' !in local && '*' !in domain
                then Some((local + "@" + domain, Exact))
                else None
  {
    if '@' !in raw {
      TrimSpec(raw);
      LowerKeeps(Trim(raw), '@');
    }
    if '@' !in local {
      SplitOnceAt(local, '@', domain);
    }
  }

  /** A row as `classify_for_storage` lets it in. */
  predicate Stored(a: InboundAddress) {
    ClassifyForStorage(a.address) == Some((a.address, a.kind))
  }

  lemma {:induction false} LowerKeepsBlanks(s: string)
    ensures forall i :: 0 <= i < |s| ==> (IsWhitespace(Lower(s)[i]) <==> IsWhitespace(s[i]))
  {}

  /** What classification returns it would let in again unchanged: every row that comes from
      it is stored. */
  lemma {:induction false} ClassifiedIsStored(raw: string, instanceId: Id, createdAt: nat)
    requires ClassifyForStorage(raw).Some?
    ensures var (address, kind) := ClassifyForStorage(raw).value; Stored(InboundAddress(address, kind, instanceId, createdAt))
  {
    var t := Trim(raw);
    TrimSpec(raw);
    LowerKeepsBlanks(t);
    LowerTwice(t);
    TrimOfTrimmed(Lower(t));
  }

  /** The shape of a stored row. */
  lemma {:induction false} StoredShape(a: InboundAddress)
    requires Stored(a)
    ensures Lower(a.address) == a.address
    ensures SplitOnce(a.address, '@').Some?
    ensures var (local, domain) := SplitOnce(a.address, '@').value;
            && Lower(local) == local && Lower(domain) == domain && domain != ""
            && (a.kind.Wildcard? <==> local == "*")
            && (a.kind.Exact? ==> local != "" && '*' !in a.address)
  {
    LowerTwice(Trim(a.address));
    var (local, domain) := SplitOnce(a.address, '@').value;
    LowerConcat(local + "@", domain);
    LowerConcat(local, "@");
    LowerParts(local, domain);
  }

  lemma {:induction false} LowerParts(local: string, domain: string)
    requires Lower(local + "@" + domain) == local + "@" + domain
    ensures Lower(local) == local && Lower(domain) == domain
  {
    var s := local + "@" + domain;
    assert forall i :: 0 <= i < |local| ==> s[i] == local[i];
    assert forall i :: 0 <= i < |domain| ==> s[|local| + 1 + i] == domain[i];
  }

  // ---------------------------------------------------------------- an instance's own addresses

  /** `strip_prefix`. */
  function StripPrefix(s: string, prefix: string): Option<string> {
    if prefix <= s then Some(s[|prefix|..]) else None
  }

  predicate Covers(a: InboundAddress, n: Normalized) {
    match a.kind
    case Exact => a.address == n.address
    case Wildcard => StripPrefix(a.address, "*@") == n.domain
  }

  /** `is_own_address`, and the `is_own` closure of `strip_own_addresses`. */
  predicate IsOwnAddress(addresses: seq<InboundAddress>, candidate: string) {
    var n := NormalizeRecipient(candidate);
    exists a :: a in addresses && Covers(a, n)
  }

  function Keys(addresses: seq<InboundAddress>): set<string> {
    set a | a in addresses :: a.address
  }

  predicate IsKeyOf(key: string, n: Normalized) {
    key == n.address || (n.domain.Some? && key == WildcardFor(n.domain.value))
  }

  /** One stored row covers an address exactly when the row's key is one of the address's. */
  lemma {:induction false} CoversIffKey(a: InboundAddress, candidate: string)
    requires Stored(a)
    ensures Covers(a, NormalizeRecipient(candidate)) <==> IsKeyOf(a.address, NormalizeRecipient(candidate))
  {
    NormalizedParts(candidate);
    match a.kind {
      case Exact => ExactCovers(a, NormalizeRecipient(candidate));
      case Wildcard =>
        var domain := WildcardDomain(a);
        WildcardCovers(domain, NormalizeRecipient(candidate));
    }
  }

  lemma {:induction false} ExactCovers(a: InboundAddress, n: Normalized)
    requires Stored(a) && a.kind.Exact?
    ensures a.address == n.address <==> IsKeyOf(a.address, n)
  {
    StoredShape(a);
    assert n.domain.Some? ==> WildcardFor(n.domain.value)[0] == '*';
  }

  lemma {:induction false} WildcardCovers(domain: string, n: Normalized)
    requires Parted(n)
    ensures Some(domain) == n.domain <==> IsKeyOf(WildcardFor(domain), n)
  {
    assert WildcardFor(domain)[1] == '@';
    if n.domain.Some? {
      assert WildcardFor(domain)[2..] == domain && WildcardFor(n.domain.value)[2..] == n.domain.value;
      if WildcardFor(domain) == n.address {
        SplitOnceAt("*", '@', domain);
        assert "*" + ['@'] + domain == WildcardFor(domain);
      }
    }
  }

  lemma {:induction false} WildcardDomain(a: InboundAddress) returns (domain: string)
    requires Stored(a) && a.kind.Wildcard?
    ensures a.address == WildcardFor(domain) && StripPrefix(a.address, "*@") == Some(domain)
    ensures Lower(domain) == domain && domain != ""
  {
    StoredShape(a);
    domain := SplitOnce(a.address, '@').value.1;
    assert a.address == WildcardFor(domain) && a.address[2..] == domain;
  }

  /** The domain is what follows the first `@` of the address, if there is one. */
  predicate Parted(n: Normalized) {
    match SplitOnce(n.address, '@')
    case Some((base, domain)) => n.domain == Some(domain) && '+' !in base
    case None => n.domain.None?
  }

  /** A normalized address splits back into its base and its domain. */
  lemma {:induction false} NormalizedParts(raw: string)
    ensures Parted(NormalizeRecipient(raw))
  {
    match SplitOnce(raw, '@') {
      case Some((local, domain)) =>
        var base := if SplitOnce(local, '+').Some? then SplitOnce(local, '+').value.0 else local;
        LowerKeeps(base, '@');
        LowerKeeps(base, '+');
        SplitOnceAt(Lower(base), '@', Lower(domain));
      case None =>
        LowerKeeps(raw, '@');
    }
  }

  /** Being one of an instance's own addresses, being dropped by its filters, and being hit by
      `resolve` over its rows are one and the same. */
  lemma {:induction false} OwnIffRoutes(addresses: seq<InboundAddress>, candidate: string)
    requires forall a :: a in addresses ==> Stored(a)
    ensures IsOwnAddress(addresses, candidate) <==> Routes(candidate, Keys(addresses))
    ensures IsOwnAddress(addresses, candidate) <==> Resolve([candidate], Keys(addresses)).Some?
  {
    forall a | a in addresses
      ensures Covers(a, NormalizeRecipient(candidate)) <==> IsKeyOf(a.address, NormalizeRecipient(candidate))
    {
      CoversIffKey(a, candidate);
    }
    ResolveFindsFirst([candidate], Keys(addresses));
    assert [candidate][0] == candidate;
  }

  // ---------------------------------------------------------------- the address table

  /** `inbound_address` rows by their key; every row came through `classify_for_storage`. */
  type AddressTable = map<string, InboundAddress>

  ghost predicate ValidTable(table: AddressTable) {
    forall key :: key in table ==> table[key].address == key && Stored(table[key])
  }

  /** `resolve_instance_id`. */
  function ResolveInstanceId(table: AddressTable, recipients: seq<string>): Option<Id> {
    match Resolve(recipients, table.Keys)
    case Some(key) => if key in table then Some(table[key].instanceId) else None
    case None => None
  }

  /** The key a recipient is routed by: its exact address if that is a row, else the wildcard of its
      domain if that is. */
  predicate RoutedBy(table: AddressTable, raw: string, key: string) {
    var n := NormalizeRecipient(raw);
    key in table && (key == n.address || (n.address !in table && n.domain.Some? && key == "*@" + n.domain.value))
  }

  /** The first recipient that is routed by a row decides, and for the instance of that row. */
  lemma {:induction false} FirstRoutedDecides(table: AddressTable, recipients: seq<string>, k: nat, key: string)
    requires k < |recipients| && RoutedBy(table, recipients[k], key)
    requires forall j :: 0 <= j < k ==> forall other :: !RoutedBy(table, recipients[j], other)
    ensures ResolveInstanceId(table, recipients) == Some(table[key].instanceId)
  {
    ResolveFindsFirst(recipients, table.Keys);
    forall j | 0 <= j < k
      ensures !Routes(recipients[j], table.Keys)
    {
      NotRouted(table, recipients[j]);
    }
    assert Routes(recipients[k], table.Keys);
    assert BestKey(recipients[k], table.Keys) == Some(key);
  }

  lemma {:induction false} NotRouted(table: AddressTable, raw: string)
    requires forall key :: !RoutedBy(table, raw, key)
    ensures !Routes(raw, table.Keys)
  {
    var n := NormalizeRecipient(raw);
    assert !RoutedBy(table, raw, n.address);
    assert n.domain.Some? ==> !RoutedBy(table, raw, "*@" + n.domain.value);
  }

  lemma {:induction false} NobodyRouted(table: AddressTable, recipients: seq<string>)
    requires forall raw, key :: raw in recipients ==> !RoutedBy(table, raw, key)
    ensures ResolveInstanceId(table, recipients) == None
  {
    ResolveFindsFirst(recipients, table.Keys);
    forall j | 0 <= j < |recipients|
      ensures !Routes(recipients[j], table.Keys)
    {
      assert recipients[j] in recipients;
      NotRouted(table, recipients[j]);
    }
  }

  /** The loops of `resolve_instance_id`: the keys of each recipient in turn. */
  method FindInstance(table: AddressTable, recipients: seq<string>) returns (r: Option<Id>)
    ensures r == ResolveInstanceId(table, recipients)
  {
    ghost var known := table.Keys;
    for i := 0 to |recipients|
      invariant Resolve(recipients[i..], known) == Resolve(recipients, known)
    {
      assert recipients[i..][0] == recipients[i] && recipients[i..][1..] == recipients[i + 1..];
      var keys := LookupKeys(recipients[i]);
      for j := 0 to |keys|
        invariant FirstKnown(keys[j..], known) == FirstKnown(keys, known)
      {
        assert keys[j..][0] == keys[j] && keys[j..][1..] == keys[j + 1..];
        if keys[j] in table { return Some(table[keys[j]].instanceId); }
      }
    }
    r := None;
  }

  /** The rows of one instance, in whatever order the listing returns them. */
  ghost predicate RowsOf(table: AddressTable, instanceId: Id, addresses: seq<InboundAddress>) {
    forall a :: a in addresses <==> a.address in table && table[a.address] == a && a.instanceId == instanceId
  }

  /** An address belongs to an instance's own exactly when a key of it names a row of that
      instance; so no address outside the instance's own routes to the instance. */
  lemma {:induction false} NoSelfMail(table: AddressTable, instanceId: Id, addresses: seq<InboundAddress>,
                                      candidate: string)
    requires ValidTable(table) && RowsOf(table, instanceId, addresses)
    ensures IsOwnAddress(addresses, candidate)
            <==> exists key :: key in table && IsKeyOf(key, NormalizeRecipient(candidate)) && table[key].instanceId == instanceId
    ensures !IsOwnAddress(addresses, candidate) ==> ResolveInstanceId(table, [candidate]) != Some(instanceId)
  {
    forall a | a in addresses
      ensures Covers(a, NormalizeRecipient(candidate)) <==> IsKeyOf(a.address, NormalizeRecipient(candidate))
    {
      CoversIffKey(a, candidate);
    }
    if key :| key in table && IsKeyOf(key, NormalizeRecipient(candidate)) && table[key].instanceId == instanceId {
      assert table[key] in addresses;
    }
    ResolveFindsFirst([candidate], table.Keys);
  }

  /** `build_outbound`'s `To` and `Cc`. */
  function Deliverable(addresses: seq<InboundAddress>, emails: seq<string>): seq<string> {
    if emails == [] then []
    else (if IsOwnAddress(addresses, emails[0]) then [] else [emails[0]]) + Deliverable(addresses, emails[1..])
  }

  /** No recipient that is kept routes back to the instance; every other one is kept. */
  lemma {:induction false} DeliverableNeverReturns(table: AddressTable, instanceId: Id, addresses: seq<InboundAddress>,
                                                   emails: seq<string>, email: string)
    requires ValidTable(table) && RowsOf(table, instanceId, addresses)
    ensures email in Deliverable(addresses, emails) <==> email in emails && !IsOwnAddress(addresses, email)
    ensures email in Deliverable(addresses, emails) ==> ResolveInstanceId(table, [email]) != Some(instanceId)
  {
    if emails != [] {
      DeliverableNeverReturns(table, instanceId, addresses, emails[1..], email);
      assert email in emails <==> email == emails[0] || email in emails[1..];
    }
    NoSelfMail(table, instanceId, addresses, email);
  }

  /** The kept recipients stay in their order. */
  lemma {:induction false} DeliverableInOrder(addresses: seq<InboundAddress>, emails: seq<string>, email: string)
    ensures Deliverable(addresses, emails + [email])
            == Deliverable(addresses, emails) + if IsOwnAddress(addresses, email) then [] else [email]
  {
    if emails == [] {
      assert emails + [email] == [email] && [email][1..] == [];
    } else {
      assert (emails + [email])[0] == emails[0] && (emails + [email])[1..] == emails[1..] + [email];
      DeliverableInOrder(addresses, emails[1..], email);
    }
  }

  // ---------------------------------------------------------------- the copies of a new ticket

  /** What one address adds to the copies so far. */
  function StripStep(addresses: seq<InboundAddress>, out: seq<string>, raw: string, sender: string): seq<string> {
    var address := NormalizeRecipient(raw).address;
    if address == sender || IsOwnAddress(addresses, raw) || address in out then out else out + [address]
  }

  function Stripped(addresses: seq<InboundAddress>, raws: seq<string>, sender: string): seq<string> {
    if raws == [] then []
    else StripStep(addresses, Stripped(addresses, raws[..|raws| - 1], sender), raws[|raws| - 1], sender)
  }

  lemma {:induction false} StrippedNext(addresses: seq<InboundAddress>, raws: seq<string>, sender: string, i: nat)
    requires i < |raws|
    ensures Stripped(addresses, raws[..i + 1], sender)
            == StripStep(addresses, Stripped(addresses, raws[..i], sender), raws[i], sender)
  {
    assert raws[..i + 1][..i] == raws[..i];
  }

  method StripOwnAddresses(addresses: seq<InboundAddress>, to: seq<string>, cc: seq<string>, sender: string)
    returns (out: seq<string>)
    ensures out == Stripped(addresses, to + cc, sender)
  {
    var raws := to + cc;
    out := [];
    for i := 0 to |raws|
      invariant out == Stripped(addresses, raws[..i], sender)
    {
      StrippedNext(addresses, raws, sender, i);
      var address := NormalizeRecipient(raws[i]).address;
      var own := Owns(addresses, raws[i]);
      if address == sender || own || address in out { continue; }
      out := out + [address];
    }
    assert raws[..|raws|] == raws;
  }

  method Owns(addresses: seq<InboundAddress>, candidate: string) returns (own: bool)
    ensures own <==> IsOwnAddress(addresses, candidate)
  {
    var n := NormalizeRecipient(candidate);
    for i := 0 to |addresses|
      invariant forall j :: 0 <= j < i ==> !Covers(addresses[j], n)
    {
      if Covers(addresses[i], n) { return true; }
    }
    own := false;
  }

  lemma {:induction false} NormalizeTwice(raw: string)
    ensures var n := NormalizeRecipient(raw);
            NormalizeRecipient(n.address) == Normalized(n.address, None, n.domain)
  {
    match SplitOnce(raw, '@') {
      case Some((local, domain)) =>
        var base := if SplitOnce(local, '+').Some? then SplitOnce(local, '+').value.0 else local;
        NormalizedParts(raw);
        LowerKeeps(base, '@');
        LowerKeeps(base, '+');
        SplitOnceAt(Lower(base), '@', Lower(domain));
        LowerTwice(base);
        LowerTwice(domain);
      case None =>
        LowerKeeps(raw, '@');
        LowerTwice(raw);
    }
  }

  /** The copies are distinct, without the sender, none of them one of our own, and nothing
      else of the addressees is missing. */
  lemma {:induction false} StrippedSpec(addresses: seq<InboundAddress>, raws: seq<string>, sender: string)
    ensures var out := Stripped(addresses, raws, sender);
            && Distinct(out)
            && sender !in out
            && (forall x :: x in out <==>
                  x != sender && !IsOwnAddress(addresses, x) && exists raw :: raw in raws && NormalizeRecipient(raw).address == x)
  {
    if raws != [] {
      var front, raw := raws[..|raws| - 1], raws[|raws| - 1];
      StrippedSpec(addresses, front, sender);
      NormalizeTwice(raw);
      assert IsOwnAddress(addresses, NormalizeRecipient(raw).address) <==> IsOwnAddress(addresses, raw);
      assert forall r :: r in raws <==> r == raw || r in front;
    }
  }

  // ---------------------------------------------------------------- the sending address

  /** Earlier created first, then by address. */
  predicate Before(a: InboundAddress, b: InboundAddress) {
    a.createdAt < b.createdAt || (a.createdAt == b.createdAt && AtMost(a.address, b.address))
  }

  /** The least row of a kind, the first of equals. */
  function Earliest(addresses: seq<InboundAddress>, kind: AddressKind): Option<InboundAddress> {
    if addresses == [] then None
    else
      var best := Earliest(addresses[..|addresses| - 1], kind);
      var a := addresses[|addresses| - 1];
      if a.kind != kind || (best.Some? && Before(best.value, a)) then best else Some(a)
  }

  lemma {:induction false} EarliestIsLeast(addresses: seq<InboundAddress>, kind: AddressKind)
    ensures var best := Earliest(addresses, kind);
            && (best.None? <==> forall a :: a in addresses ==> a.kind != kind)
            && (best.Some? ==> best.value in addresses && best.value.kind == kind
                               && forall a :: a in addresses && a.kind == kind ==> Before(best.value, a))
  {
    if addresses != [] {
      var front, last := addresses[..|addresses| - 1], addresses[|addresses| - 1];
      EarliestIsLeast(front, kind);
      assert forall a :: a in addresses <==> a in front || a == last;
      AtMostTotal(last.address, last.address);
      var best := Earliest(front, kind);
      if last.kind == kind && best.Some? && !Before(best.value, last) {
        AtMostTotal(best.value.address, last.address);
        forall a | a in front && a.kind == kind
          ensures Before(last, a)
        {
          if last.createdAt == best.value.createdAt == a.createdAt {
            AtMostTransitive(last.address, best.value.address, a.address);
          }
        }
      }
    }
  }

  /** The row of a kind that was created before every other of its kind, or at the same time and
      under no greater address, is the one chosen. */
  predicate ComesFirst(addresses: seq<InboundAddress>, row: InboundAddress) {
    && row in addresses
    && forall a :: a in addresses && a.kind == row.kind ==>
         row.createdAt < a.createdAt || (row.createdAt == a.createdAt && AtMost(row.address, a.address))
  }

  lemma {:induction false} EarliestIff(addresses: seq<InboundAddress>, row: InboundAddress)
    requires ComesFirst(addresses, row)
    ensures Earliest(addresses, row.kind).Some? && Earliest(addresses, row.kind).value.address == row.address
    ensures Earliest(addresses, row.kind).value.createdAt == row.createdAt
  {
    EarliestIsLeast(addresses, row.kind);
    AtMostAntisymmetric(Earliest(addresses, row.kind).value.address, row.address);
  }

  const SUPPORT := "support"

  function PrimaryInboundAddress(addresses: seq<InboundAddress>): Option<string> {
    match Earliest(addresses, Exact)
    case Some(exact) => Some(exact.address)
    case None =>
      match Earliest(addresses, Wildcard)
      case None => None
      case Some(wildcard) =>
        match StripPrefix(wildcard.address, "*@")
        case None => None
        case Some(domain) => Some(SUPPORT + "@" + domain)
  }

  predicate AllWildcards(addresses: seq<InboundAddress>) { forall a :: a in addresses ==> a.kind.Wildcard? }

  /** The sending address is the earliest exact address; without any, `support` at the domain of the
      earliest wildcard; without any row there is none. */
  lemma {:induction false} SenderIsEarliest(addresses: seq<InboundAddress>, row: InboundAddress, domain: string)
    ensures addresses == [] ==> PrimaryInboundAddress(addresses) == None
    ensures ComesFirst(addresses, row) && row.kind.Exact? ==> PrimaryInboundAddress(addresses) == Some(row.address)
    ensures ComesFirst(addresses, row) && row.address == "*@" + domain && AllWildcards(addresses) ==>
              PrimaryInboundAddress(addresses) == Some("support@" + domain)
  {
    EarliestIsLeast(addresses, Exact);
    if ComesFirst(addresses, row) {
      EarliestIff(addresses, row);
      assert ("*@" + domain)[2..] == domain;
      assert SUPPORT + "@" + domain == "support@" + domain;
    }
  }

  /** Some row always comes first of its kind, so the three cases are all there are. */
  lemma {:induction false} SomeRowComesFirst(addresses: seq<InboundAddress>, kind: AddressKind) returns (row: InboundAddress)
    requires exists a :: a in addresses && a.kind == kind
    ensures row.kind == kind && ComesFirst(addresses, row)
  {
    EarliestIsLeast(addresses, kind);
    row := Earliest(addresses, kind).value;
  }

  /** The sending address depends on which rows there are, not on their order. */
  lemma {:induction false} SenderIgnoresOrder(a: seq<InboundAddress>, b: seq<InboundAddress>)
    requires forall row :: row in a <==> row in b
    ensures PrimaryInboundAddress(a) == PrimaryInboundAddress(b)
  {
    EarliestSame(a, b, Exact);
    EarliestSame(a, b, Wildcard);
  }

  lemma {:induction false} EarliestSame(a: seq<InboundAddress>, b: seq<InboundAddress>, kind: AddressKind)
    requires forall row :: row in a <==> row in b
    ensures Earliest(a, kind).Some? <==> Earliest(b, kind).Some?
    ensures Earliest(a, kind).Some? ==> Earliest(a, kind).value.address == Earliest(b, kind).value.address
  {
    EarliestIsLeast(a, kind);
    EarliestIsLeast(b, kind);
    if Earliest(a, kind).Some? {
      AtMostAntisymmetric(Earliest(a, kind).value.address, Earliest(b, kind).value.address);
    }
  }

  /** The row the sending address is taken from. */
  lemma {:induction false} SenderRow(addresses: seq<InboundAddress>) returns (row: InboundAddress)
    requires addresses != [] && forall a :: a in addresses ==> Stored(a)
    ensures row in addresses
    ensures row.kind.Exact? ==> PrimaryInboundAddress(addresses) == Some(row.address)
    ensures row.kind.Wildcard? ==>
              && Earliest(addresses, Exact).None?
              && StripPrefix(row.address, "*@").Some?
              && PrimaryInboundAddress(addresses) == Some(SUPPORT + "@" + StripPrefix(row.address, "*@").value)
    ensures Earliest(addresses, Exact).None? ==> row.kind.Wildcard?
  {
    EarliestIsLeast(addresses, Exact);
    EarliestIsLeast(addresses, Wildcard);
    assert addresses[0].kind == Exact || addresses[0].kind == Wildcard;
    match Earliest(addresses, Exact) {
      case Some(exact) => row := exact;
      case None =>
        row := Earliest(addresses, Wildcard).value;
        WildcardSender(row);
    }
  }

  /** An instance with a stored address has a sender. Without a `+` before the `@`, which a
      sender made up for a wildcard never has, it is one of the instance's own addresses. */
  lemma {:induction false} SenderIsOwn(addresses: seq<InboundAddress>)
    requires addresses != [] && forall a :: a in addresses ==> Stored(a)
    ensures PrimaryInboundAddress(addresses).Some?
    ensures var sender := PrimaryInboundAddress(addresses).value;
            && Lower(sender) == sender && SplitOnce(sender, '@').Some?
            && (Earliest(addresses, Exact).None? ==> '+' !in SplitOnce(sender, '@').value.0)
            && ('+' !in SplitOnce(sender, '@').value.0 ==> IsOwnAddress(addresses, sender))
  {
    var row := SenderRow(addresses);
    assert Stored(row);
    match row.kind {
      case Exact => ExactSender(row);
      case Wildcard => WildcardSender(row);
    }
  }

  lemma {:induction false} ExactSender(a: InboundAddress)
    requires Stored(a) && a.kind.Exact?
    ensures Lower(a.address) == a.address && SplitOnce(a.address, '@').Some?
    ensures var (local, domain) := SplitOnce(a.address, '@').value;
            && ('+' !in local <==> Covers(a, NormalizeRecipient(a.address)))
            && NormalizeRecipient(a.address).domain == Some(domain)
  {
    StoredShape(a);
    var (local, domain) := SplitOnce(a.address, '@').value;
    match SplitOnce(local, '+') {
      case Some((base, tag)) =>
        LowerHead(base, tag);
        assert |base + "@" + domain| < |a.address|;
      case None =>
    }
  }

  lemma {:induction false} LowerHead(base: string, tag: string)
    requires Lower(base + "+" + tag) == base + "+" + tag
    ensures Lower(base) == base
  {
    var s := base + "+" + tag;
    assert forall i :: 0 <= i < |base| ==> s[i] == base[i];
  }

  lemma {:induction false} WildcardSender(a: InboundAddress)
    requires Stored(a) && a.kind.Wildcard?
    ensures StripPrefix(a.address, "*@").Some?
    ensures var domain := StripPrefix(a.address, "*@").value;
            var sender := SUPPORT + "@" + domain;
            && Lower(sender) == sender && SplitOnce(sender, '@') == Some(("support", domain))
            && NormalizeRecipient(sender).domain == Some(domain)
            && Covers(a, NormalizeRecipient(sender))
  {
    var domain := WildcardDomain(a);
    SupportIsPlain();
    PlainAddress(SUPPORT, domain);
  }

  lemma {:induction false} SupportIsPlain()
    ensures Lower(SUPPORT) == SUPPORT && '@' !in SUPPORT && '+' !in SUPPORT
  {}

  /** A lower-case address without a tag is its own normal form. */
  lemma {:induction false} PlainAddress(local: string, domain: string)
    requires '@' !in local && '+' !in local && Lower(local) == local && Lower(domain) == domain
    ensures var address := local + "@" + domain;
            && SplitOnce(address, '@') == Some((local, domain))
            && NormalizeRecipient(address) == Normalized(address, None, Some(domain))
            && Lower(address) == address
  {
    SplitOnceAt(local, '@', domain);
    LowerConcat(local, "@");
    LowerConcat(local + "@", domain);
  }

  /** `reply_to_address`. */
  function ReplyToAddress(sender: string, ticketId: Id, replyToken: string): Option<string> {
    match SplitOnce(sender, '@')
    case None => None
    case Some((local, domain)) => Some(local + "+t" + ticketId + "." + replyToken + "@" + domain)
  }
}
