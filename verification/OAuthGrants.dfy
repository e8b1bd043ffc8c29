/** OAuth grants: opaque token pairs over one row, rotated by compare-and-swap, with reuse
    detection and an absolute lifetime (api/src/oauth.rs, api/src/oauth_http.rs,
    api/src/dynamodb.rs). Rotation follows section 6 of RFC 6749. */
module OAuthGrants {
  import opened Prelude

  /** SHA-256 as an injective, opaque operation. */
  datatype Digest = Sha256(preimage: string)

  const ACCESS_TOKEN_LIFETIME_S: nat := 3_600
  const REFRESH_TOKEN_LIFETIME_S: nat := 2_592_000
  const GRANT_ABSOLUTE_LIFETIME_S: nat := 7_776_000
  const LAST_USED_REFRESH_SECS: nat := 300
  const ACCESS_TOKEN_PREFIX := "mtoa_"
  const REFRESH_TOKEN_PREFIX := "mtor_"

  /** What a grant is for; fixed when it is issued. */
  datatype Terms = Terms(userId: Id, clientId: string, clientName: string, redirectUri: string,
                         resource: string, scope: string)

  datatype Grant = Grant(
    terms: Terms, accessHash: Digest, accessExpiresAt: nat, refreshHash: Digest, refreshExpiresAt: nat,
    expiresAt: nat, createdAt: nat, lastUsedAt: Option<nat>)

  // ---------------------------------------------------------------- tokens

  function Token(prefix: string, id: Id, secret: string): string {
    prefix + id + "." + secret
  }

  /** `strip_prefix`, then the first `.`; both halves must be there. */
  function ParseToken(token: string, prefix: string): Option<(Id, string)> {
    if !(prefix <= token) then None
    else
      match SplitOnce(token[|prefix|..], '.')
      case None => None
      case Some((id, secret)) => if id == "" || secret == "" then None else Some((id, secret))
  }

  /** The token is of the kind of the prefix and names this grant. */
  ghost predicate Names(token: string, prefix: string, id: Id) {
    id != "" && '.' !in id && exists secret :: secret != "" && token == prefix + id + "." + secret
  }

  /** A token parses exactly when it names a grant, and then gives that grant. */
  lemma {:induction false} ParsesIffNames(token: string, prefix: string, id: Id)
    ensures Names(token, prefix, id) <==> ParseToken(token, prefix).Some? && ParseToken(token, prefix).value.0 == id
  {
    if Names(token, prefix, id) {
      var secret :| secret != "" && token == prefix + id + "." + secret;
      TokenRest(prefix, id, secret, token);
      SplitOnceAt(id, '.', secret);
    }
    if ParseToken(token, prefix).Some? {
      var (a, secret) := ParseToken(token, prefix).value;
      assert token[|prefix|..] == a + ['.'] + secret;
      assert token == prefix + a + "." + secret;
    }
  }

  lemma {:induction false} NamedByParse(token: string, prefix: string)
    ensures var parsed := ParseToken(token, prefix);
            && (parsed.Some? ==> Names(token, prefix, parsed.value.0))
            && forall id :: Names(token, prefix, id) ==> parsed.Some? && parsed.value.0 == id
  {
    forall id ensures Names(token, prefix, id) <==> ParseToken(token, prefix).Some? && ParseToken(token, prefix).value.0 == id {
      ParsesIffNames(token, prefix, id);
    }
  }

  lemma {:induction false} TokenRest(prefix: string, id: Id, secret: string, token: string)
    requires token == prefix + id + "." + secret
    ensures prefix <= token && token[|prefix|..] == id + ['.'] + secret
  {
    assert token == prefix + (id + ['.'] + secret);
  }

  /** Minted tokens parse back, and neither kind passes for the other. */
  lemma {:induction false} MintedTokensParse(id: Id, secret: string)
    requires id != "" && '.' !in id && secret != ""
    ensures ParseToken(Token(ACCESS_TOKEN_PREFIX, id, secret), ACCESS_TOKEN_PREFIX) == Some((id, secret))
    ensures ParseToken(Token(REFRESH_TOKEN_PREFIX, id, secret), REFRESH_TOKEN_PREFIX) == Some((id, secret))
    ensures ParseToken(Token(ACCESS_TOKEN_PREFIX, id, secret), REFRESH_TOKEN_PREFIX) == None
    ensures ParseToken(Token(REFRESH_TOKEN_PREFIX, id, secret), ACCESS_TOKEN_PREFIX) == None
  {
    var a, b := Token(ACCESS_TOKEN_PREFIX, id, secret), Token(REFRESH_TOKEN_PREFIX, id, secret);
    assert a[5..] == id + "." + secret && b[5..] == id + "." + secret;
    SplitOnceAt(id, '.', secret);
    assert a[3] == 'a' && b[3] == 'r' && ACCESS_TOKEN_PREFIX[3] == 'a' && REFRESH_TOKEN_PREFIX[3] == 'r';
  }

  /** Different secrets make different tokens, for ids without a point. */
  lemma {:induction false} TokensDiffer(prefix: string, a: Id, s: string, b: Id, t: string)
    requires '.' !in a && '.' !in b && Token(prefix, a, s) == Token(prefix, b, t)
    ensures a == b && s == t
  {
    var x := Token(prefix, a, s);
    assert x[|prefix|..] == a + "." + s && x[|prefix|..] == b + "." + t;
    FirstSplitUnique(a, s, b, t, '.');
  }

  function Min(a: nat, b: nat): nat { if a <= b then a else b }

  function MintGrant(id: Id, terms: Terms, accessSecret: string, refreshSecret: string, now: nat): Grant {
    var expiresAt := now + GRANT_ABSOLUTE_LIFETIME_S;
    Grant(terms,
          Sha256(Token(ACCESS_TOKEN_PREFIX, id, accessSecret)), now + ACCESS_TOKEN_LIFETIME_S,
          Sha256(Token(REFRESH_TOKEN_PREFIX, id, refreshSecret)), Min(now + REFRESH_TOKEN_LIFETIME_S, expiresAt),
          expiresAt, now, None)
  }

  /** The arguments of a rotating update. */
  datatype Rotation = Rotation(
    expected: Digest, accessHash: Digest, accessExpiresAt: nat, refreshHash: Digest, refreshExpiresAt: nat)

  function RotateGrant(id: Id, grant: Grant, accessSecret: string, refreshSecret: string, now: nat): Rotation {
    Rotation(grant.refreshHash,
             Sha256(Token(ACCESS_TOKEN_PREFIX, id, accessSecret)), now + ACCESS_TOKEN_LIFETIME_S,
             Sha256(Token(REFRESH_TOKEN_PREFIX, id, refreshSecret)), Min(now + REFRESH_TOKEN_LIFETIME_S, grant.expiresAt))
  }

  // ---------------------------------------------------------------- the table

  type Grants = map<Id, Grant>

  datatype Op =
    | Create(id: Id, grant: Grant)
    | Rotate(id: Id, rotation: Rotation)
    | Touch(id: Id, now: nat)
    | Delete(id: Id)

  predicate Holds(g: Grants, op: Op) {
    match op
    case Create(id, _) => id !in g
    case Rotate(id, rotation) => id in g && g[id].refreshHash == rotation.expected
    case Touch(id, _) => id in g
    case Delete(_) => true
  }

  /** One conditional write: nothing happens when its condition fails. */
  function Exec(g: Grants, op: Op): Grants {
    if !Holds(g, op) then g
    else
      match op
      case Create(id, grant) => g[id := grant]
      case Rotate(id, n) =>
        g[id := g[id].(accessHash := n.accessHash, accessExpiresAt := n.accessExpiresAt,
                       refreshHash := n.refreshHash, refreshExpiresAt := n.refreshExpiresAt)]
      case Touch(id, now) => g[id := g[id].(lastUsedAt := Some(now))]
      case Delete(id) => g - {id}
  }

  // ---------------------------------------------------------------- the endpoints' decisions

  datatype UserCheck = Active | Gone | Unavailable

  datatype RefreshError =
    | MalformedToken | UnknownToken | AlreadyUsed | Expired | WrongClient | WrongResource | UserGone | ServerError

  /** Kill the grant, try to rotate it, or only answer with an error. */
  datatype Decision = Reject(error: RefreshError) | Kill | TryRotate

  /** One refresh request with what the handler draws while serving it. */
  datatype Request = Request(
    token: string, clientId: string, resource: Option<string>, user: UserCheck, now: nat,
    accessSecret: string, refreshSecret: string)

  function GrantIdOf(token: string): Option<Id> {
    match ParseToken(token, REFRESH_TOKEN_PREFIX)
    case None => None
    case Some((id, _)) => Some(id)
  }

  lemma {:induction false} MintedTokenNames(id: Id, secret: string)
    requires id != "" && '.' !in id && secret != ""
    ensures GrantIdOf(Token(REFRESH_TOKEN_PREFIX, id, secret)) == Some(id)
  {
    MintedTokensParse(id, secret);
  }

  /** The checks of the refresh endpoint, in order, on the row it read. */
  function Decide(q: Request, row: Option<Grant>): Decision {
    if row.None? then Reject(UnknownToken)
    else
      var g := row.value;
      if Sha256(q.token) != g.refreshHash then Kill
      else if q.now >= g.refreshExpiresAt || q.now >= g.expiresAt then Reject(Expired)
      else if g.terms.clientId != q.clientId then Reject(WrongClient)
      else if q.resource.Some? && q.resource.value != g.terms.resource then Reject(WrongResource)
      else if q.user == Gone then Reject(UserGone)
      else if q.user == Unavailable then Reject(ServerError)
      else TryRotate
  }

  function Lookup(g: Grants, id: Id): Option<Grant> {
    if id in g then Some(g[id]) else None
  }

  /** The write a refresh makes, from the table it read; `None` when it makes none. */
  function RefreshWrite(read: Grants, q: Request): Option<Op> {
    match GrantIdOf(q.token)
    case None => None
    case Some(id) =>
      match Decide(q, Lookup(read, id))
      case Reject(_) => None
      case Kill => Some(Delete(id))
      case TryRotate => Some(Rotate(id, RotateGrant(id, read[id], q.accessSecret, q.refreshSecret, q.now)))
  }

  /** Whether an access token opens a resource, on the row that was read. */
  predicate AccessAccepted(read: Grants, token: string, resource: string, now: nat) {
    match ParseToken(token, ACCESS_TOKEN_PREFIX)
    case None => false
    case Some((id, _)) =>
      && id in read && Sha256(token) == read[id].accessHash
      && now < read[id].accessExpiresAt && now < read[id].expiresAt && read[id].terms.resource == resource
  }

  function UseWrite(read: Grants, token: string, resource: string, now: nat, clock: nat): Option<Op> {
    if !AccessAccepted(read, token, resource, now) then None
    else
      var id := ParseToken(token, ACCESS_TOKEN_PREFIX).value.0;
      var last := read[id].lastUsedAt;
      if last.None? || now > last.value + LAST_USED_REFRESH_SECS then Some(Touch(id, clock)) else None
  }

  // ---------------------------------------------------------------- when a token is good

  /** The refresh request is good on this grant: the row is there and holds the hash of the token,
      both windows are open, the client and the resource are the grant's, the user is active. */
  predicate Refreshable(g: Grants, q: Request, id: Id) {
    && id in g && g[id].refreshHash == Sha256(q.token)
    && q.now < g[id].refreshExpiresAt && q.now < g[id].expiresAt
    && g[id].terms.clientId == q.clientId
    && (q.resource.None? || q.resource.value == g[id].terms.resource)
    && q.user == Active
  }

  lemma {:induction false} RotatesIffRefreshable(g: Grants, q: Request, id: Id)
    requires Names(q.token, REFRESH_TOKEN_PREFIX, id)
    ensures Refreshable(g, q, id) <==> RefreshWrite(g, q).Some? && RefreshWrite(g, q).value.Rotate?
    ensures RefreshWrite(g, q) == Some(Delete(id)) <==> id in g && g[id].refreshHash != Sha256(q.token)
  {
    ParsesIffNames(q.token, REFRESH_TOKEN_PREFIX, id);
  }

  /** The access token is good for the resource on this grant: the row is there and holds its hash,
      neither the token nor the grant has expired, and the resource is the grant's. */
  predicate Opens(g: Grants, token: string, id: Id, resource: string, now: nat) {
    && id in g && g[id].accessHash == Sha256(token)
    && now < g[id].accessExpiresAt && now < g[id].expiresAt
    && g[id].terms.resource == resource
  }

  lemma {:induction false} AcceptedIffOpens(g: Grants, token: string, id: Id, resource: string, now: nat)
    requires Names(token, ACCESS_TOKEN_PREFIX, id)
    ensures AccessAccepted(g, token, resource, now) <==> Opens(g, token, id, resource, now)
  {
    ParsesIffNames(token, ACCESS_TOKEN_PREFIX, id);
  }

  /** The last use was never recorded or more than five minutes ago. */
  predicate TouchDue(grant: Grant, now: nat) { grant.lastUsedAt.None? || now > grant.lastUsedAt.value + 300 }

  // ---------------------------------------------------------------- the handler

  datatype Reply = Tokens(access: string, refresh: string, scope: string) | Error(error: RefreshError)

  datatype AccessError =
    | Malformed | NoGrant | Invalid | TokenExpired | GrantExpired | OtherResource | NoUser | Transient

  /** The touch of the last use: done, skipped because mutations are disabled, or failing. */
  datatype TouchCheck = Touched | ReadOnly | Failing

  datatype Access = Granted(grantId: Id, userId: Id) | Denied(reason: AccessError)

  /** What a refresh on this grant answers and leaves behind. Tokens: they are the new pair, held
      by the row with its new windows, and nothing else changed. A token that is not the current
      one: the grant is gone. Any other error: its reason holds, those before it do not, and
      nothing changed. */
  ghost predicate RefreshOutcome(g: Grants, q: Request, id: Id, g': Grants, reply: Reply) {
    match reply
    case Tokens(access, refresh, scope) =>
      && Refreshable(g, q, id)
      && access == "mtoa_" + id + "." + q.accessSecret && refresh == "mtor_" + id + "." + q.refreshSecret
      && scope == g[id].terms.scope
      && g' == g[id := g[id].(
           accessHash := Sha256(access), accessExpiresAt := q.now + 3_600, refreshHash := Sha256(refresh),
           refreshExpiresAt := if q.now + 2_592_000 <= g[id].expiresAt then q.now + 2_592_000 else g[id].expiresAt)]
    case Error(AlreadyUsed) => id in g && g[id].refreshHash != Sha256(q.token) && g' == g - {id}
    case Error(UnknownToken) => id !in g && g' == g
    case Error(error) => g' == g && id in g && g[id].refreshHash == Sha256(q.token) && RefusedFor(g[id], q, error)
  }

  /** The reason holds, and none that is checked before it. */
  predicate RefusedFor(grant: Grant, q: Request, error: RefreshError) {
    var inTime := q.now < grant.refreshExpiresAt && q.now < grant.expiresAt;
    var itsClient := inTime && q.clientId == grant.terms.clientId;
    var itsResource := itsClient && (q.resource.None? || q.resource.value == grant.terms.resource);
    match error
    case Expired => !inTime
    case WrongClient => inTime && !itsClient
    case WrongResource => itsClient && !itsResource
    case UserGone => itsResource && q.user == Gone
    case ServerError => itsResource && q.user == Unavailable
    case _ => false
  }

  lemma {:induction false} OutcomeIsWrite(g: Grants, q: Request, id: Id, g': Grants, reply: Reply)
    requires Names(q.token, REFRESH_TOKEN_PREFIX, id) && RefreshOutcome(g, q, id, g', reply)
    ensures g' == match RefreshWrite(g, q) case None => g case Some(op) => Exec(g, op)
    ensures reply.Tokens? <==> Refreshable(g, q, id)
  {
    ParsesIffNames(q.token, REFRESH_TOKEN_PREFIX, id);
  }

  class GrantTable {
    var grants: Grants

    constructor ()
      ensures grants == map[]
    {
      grants := map[];
    }

    method CreateOauthGrant(id: Id, grant: Grant) returns (ok: bool)
      modifies this
      ensures grants == Exec(old(grants), Create(id, grant)) && ok == Holds(old(grants), Create(id, grant))
      ensures ok <==> id !in old(grants)
      ensures grants == if ok then old(grants)[id := grant] else old(grants)
    {
      ok := id !in grants;
      if ok { grants := grants[id := grant]; }
    }

    method RotateOauthGrant(id: Id, n: Rotation) returns (ok: bool)
      modifies this
      ensures grants == Exec(old(grants), Rotate(id, n)) && ok == Holds(old(grants), Rotate(id, n))
      ensures ok <==> id in old(grants) && old(grants)[id].refreshHash == n.expected
      ensures grants == if !ok then old(grants) else old(grants)[id := old(grants)[id].(
                          accessHash := n.accessHash, accessExpiresAt := n.accessExpiresAt,
                          refreshHash := n.refreshHash, refreshExpiresAt := n.refreshExpiresAt)]
    {
      ok := id in grants && grants[id].refreshHash == n.expected;
      if ok {
        grants := grants[id := grants[id].(
          accessHash := n.accessHash, accessExpiresAt := n.accessExpiresAt,
          refreshHash := n.refreshHash, refreshExpiresAt := n.refreshExpiresAt)];
      }
    }

    method DeleteOauthGrant(id: Id)
      modifies this
      ensures grants == Exec(old(grants), Delete(id)) && grants == old(grants) - {id}
    {
      grants := grants - {id};
    }

    /** `token_refresh` behind the parsing of the token: the checks on the row, and its one write. */
    method RefreshOn(id: Id, q: Request) returns (reply: Reply)
      modifies this
      ensures RefreshOutcome(old(grants), q, id, grants, reply)
    {
      if id !in grants { return Error(UnknownToken); }
      var grant := grants[id];
      if Sha256(q.token) != grant.refreshHash {
        DeleteOauthGrant(id);
        return Error(AlreadyUsed);
      }
      if q.now >= grant.refreshExpiresAt || q.now >= grant.expiresAt { return Error(Expired); }
      if grant.terms.clientId != q.clientId { return Error(WrongClient); }
      if q.resource.Some? && q.resource.value != grant.terms.resource { return Error(WrongResource); }
      match q.user {
        case Active =>
        case Gone => return Error(UserGone);
        case Unavailable => return Error(ServerError);
      }
      var rotated := RotateOauthGrant(id, RotateGrant(id, grant, q.accessSecret, q.refreshSecret, q.now));
      if !rotated { return Error(AlreadyUsed); }
      reply := Tokens(Token(ACCESS_TOKEN_PREFIX, id, q.accessSecret),
                      Token(REFRESH_TOKEN_PREFIX, id, q.refreshSecret), grant.terms.scope);
    }

    /** `token_refresh` served with nobody else writing between its read and its write: it
        answers with tokens exactly for a token that names a grant on which it is refreshable, and
        its one write is the one `RefreshWrite` names. */
    method TokenRefresh(q: Request) returns (reply: Reply)
      modifies this
      ensures reply.Tokens? <==> exists id :: Names(q.token, REFRESH_TOKEN_PREFIX, id) && Refreshable(old(grants), q, id)
      ensures forall id :: Names(q.token, REFRESH_TOKEN_PREFIX, id) ==> RefreshOutcome(old(grants), q, id, grants, reply)
      ensures (forall id :: !Names(q.token, REFRESH_TOKEN_PREFIX, id)) ==>
                reply == Error(MalformedToken) && grants == old(grants)
      ensures grants == match RefreshWrite(old(grants), q) case None => old(grants) case Some(op) => Exec(old(grants), op)
    {
      var parsed := ParseToken(q.token, REFRESH_TOKEN_PREFIX);
      NamedByParse(q.token, REFRESH_TOKEN_PREFIX);
      if parsed.None? { return Error(MalformedToken); }
      reply := RefreshOn(parsed.value.0, q);
      OutcomeIsWrite(old(grants), q, parsed.value.0, grants, reply);
    }

    method TouchOauthGrant(id: Id, clock: nat) returns (ok: bool)
      modifies this
      ensures grants == Exec(old(grants), Touch(id, clock)) && ok == Holds(old(grants), Touch(id, clock))
    {
      ok := id in grants;
      if ok { grants := grants[id := grants[id].(lastUsedAt := Some(clock))]; }
    }

    /** `verify_access_token` with nobody else writing meanwhile: it lets a token through exactly
        when it is accepted on the row read, the touch, if one is due, does not fail and the
        user can be fetched, and then in the name of the grant's user; its one write is the one
        `UseWrite` names, unless that write fails. */
    method VerifyAccessToken(token: string, resource: string, now: nat, clock: nat, touch: TouchCheck, user: UserCheck)
      returns (r: Access)
      modifies this
      ensures var due := UseWrite(old(grants), token, resource, now, clock);
              && grants == (if due.Some? && touch.Touched? then Exec(old(grants), due.value) else old(grants))
              && (r.Granted? <==>
                    AccessAccepted(old(grants), token, resource, now) && user.Active? && (due.Some? ==> !touch.Failing?))
      ensures r.Granted? ==> r.grantId in old(grants) && r.userId == old(grants)[r.grantId].terms.userId
      ensures r.Granted? ==> Sha256(token) == old(grants)[r.grantId].accessHash
      ensures r.Granted? <==> user.Active? && exists id ::
                && Names(token, ACCESS_TOKEN_PREFIX, id) && Opens(old(grants), token, id, resource, now)
                && (TouchDue(old(grants)[id], now) ==> !touch.Failing?)
      ensures forall id :: Names(token, ACCESS_TOKEN_PREFIX, id) ==>
                && (r.Granted? ==> id in old(grants) && r == Granted(id, old(grants)[id].terms.userId))
                && grants ==
                   if Opens(old(grants), token, id, resource, now) && TouchDue(old(grants)[id], now) && touch.Touched?
                   then old(grants)[id := old(grants)[id].(lastUsedAt := Some(clock))] else old(grants)
      ensures (forall id :: !Names(token, ACCESS_TOKEN_PREFIX, id)) ==> r == Denied(Malformed) && grants == old(grants)
    {
      var parsed := ParseToken(token, ACCESS_TOKEN_PREFIX);
      NamedByParse(token, ACCESS_TOKEN_PREFIX);
      if parsed.None? { return Denied(Malformed); }
      var id := parsed.value.0;
      if id !in grants { return Denied(NoGrant); }
      var grant := grants[id];
      if Sha256(token) != grant.accessHash { return Denied(Invalid); }
      if now >= grant.accessExpiresAt { return Denied(TokenExpired); }
      if now >= grant.expiresAt { return Denied(GrantExpired); }
      if grant.terms.resource != resource { return Denied(OtherResource); }
      if grant.lastUsedAt.None? || now > grant.lastUsedAt.value + LAST_USED_REFRESH_SECS {
        match touch {
          case Touched => var _ := TouchOauthGrant(id, clock);
          case ReadOnly =>
          case Failing => return Denied(Transient);
        }
      }
      match user {
        case Active => r := Granted(id, grant.terms.userId);
        case Gone => r := Denied(NoUser);
        case Unavailable => r := Denied(Transient);
      }
    }
  }
}
