/** Whole runs over the grant table: any clients issue, refresh, use and revoke, each
    reading the row in one state and writing in another. */
module OAuthRuns {
  import opened Prelude
  import opened OAuthGrants

  datatype Call =
    | Issue(id: Id, terms: Terms, accessSecret: string, refreshSecret: string, now: nat)
    | Refresh(readAt: nat, request: Request)
    | Use(readAt: nat, token: string, resource: string, now: nat, clock: nat)
    | Revoke(id: Id)
  {
    /** The secrets this call drew, if it drew any. */
    function RefreshSecret(): Option<string> {
      if Issue? then Some(refreshSecret) else if Refresh? then Some(request.refreshSecret) else None
    }

    function AccessSecret(): Option<string> {
      if Issue? then Some(accessSecret) else if Refresh? then Some(request.accessSecret) else None
    }

    /** When it drew them. */
    function DrawnAt(): nat {
      if Issue? then now else if Refresh? then request.now else 0
    }
  }

  datatype Run = Run(states: seq<Grants>, calls: seq<Call>)

  predicate Shaped(r: Run) { |r.states| == |r.calls| + 1 }

  function WriteOf(r: Run, i: nat): Option<Op>
    requires Shaped(r) && i < |r.calls| && ReadsEarlier(r, i)
  {
    match r.calls[i]
    case Issue(id, terms, a, s, now) => Some(Create(id, MintGrant(id, terms, a, s, now)))
    case Refresh(readAt, q) => RefreshWrite(r.states[readAt], q)
    case Use(readAt, token, resource, now, clock) => UseWrite(r.states[readAt], token, resource, now, clock)
    case Revoke(id) => Some(Delete(id))
  }

  /** Reads come first; an issued id contains no point and was never used before. */
  predicate ReadsEarlier(r: Run, i: nat)
    requires Shaped(r) && i < |r.calls|
  {
    match r.calls[i]
    case Issue(id, _, _, _, _) => id != "" && '.' !in id && forall m :: 0 <= m <= i ==> id !in r.states[m]
    case Refresh(readAt, _) => readAt <= i
    case Use(readAt, _, _, _, _) => readAt <= i
    case Revoke(_) => true
  }

  predicate StepOk(r: Run, i: nat)
    requires Shaped(r) && i < |r.calls|
  {
    && ReadsEarlier(r, i)
    && r.states[i + 1] == match WriteOf(r, i) case None => r.states[i] case Some(op) => Exec(r.states[i], op)
  }

  /** No secret is drawn twice. */
  predicate FreshSecrets(r: Run) {
    forall i, j :: 0 <= i < j < |r.calls| && r.calls[i].RefreshSecret().Some? ==>
      && r.calls[i].RefreshSecret() != r.calls[j].RefreshSecret()
      && r.calls[i].AccessSecret() != r.calls[j].AccessSecret()
  }

  predicate IsRun(r: Run) {
    && Shaped(r) && r.states[0] == map[]
    && (forall i :: 0 <= i < |r.calls| ==> StepOk(r, i))
    && FreshSecrets(r)
  }

  /** The grant a refresh request names. */
  function GrantOf(c: Call): Option<Id> {
    if c.Refresh? then GrantIdOf(c.request.token) else None
  }

  /** A refresh that read `read` and wrote in `now` rotated its grant. */
  predicate Rotates(read: Grants, now: Grants, q: Request) {
    match RefreshWrite(read, q)
    case Some(Rotate(id, n)) => id in now && now[id].refreshHash == n.expected
    case _ => false
  }

  /** Step `i` exchanged a refresh token for a new pair. */
  predicate Exchanged(r: Run, i: nat)
    requires Shaped(r) && i < |r.calls|
  {
    var c := r.calls[i];
    c.Refresh? && c.readAt <= i && Rotates(r.states[c.readAt], r.states[i], c.request)
  }

  predicate ExchangedOn(r: Run, i: nat, id: Id)
    requires Shaped(r) && i < |r.calls|
  {
    Exchanged(r, i) && GrantOf(r.calls[i]) == Some(id)
  }

  /** The row carries the pair call `m` drew, with the hour of its access token. */
  predicate PairFrom(r: Run, m: nat, id: Id, g: Grant)
    requires m < |r.calls|
  {
    && r.calls[m].RefreshSecret().Some?
    && g.refreshHash == Sha256(Token(REFRESH_TOKEN_PREFIX, id, r.calls[m].RefreshSecret().value))
    && g.accessHash == Sha256(Token(ACCESS_TOKEN_PREFIX, id, r.calls[m].AccessSecret().value))
    && g.accessExpiresAt == r.calls[m].DrawnAt() + 3_600
  }

  /** The refresh token of a pair drawn at `at` lives thirty days, but not past the grant. */
  function WindowFrom(at: nat, expiresAt: nat): nat {
    if at + 2_592_000 <= expiresAt then at + 2_592_000 else expiresAt
  }

  // ---------------------------------------------------------------- one step

  predicate SameWindows(g: Grant, g': Grant) {
    g'.refreshExpiresAt == g.refreshExpiresAt && g'.accessExpiresAt == g.accessExpiresAt
  }

  /** What one step can do to a grant that is there before and after it. */
  lemma {:induction false} StepOnGrant(r: Run, i: nat, id: Id)
    requires IsRun(r) && i < |r.calls|
    requires id in r.states[i] && id in r.states[i + 1]
    ensures var g, g' := r.states[i][id], r.states[i + 1][id];
            && g'.terms == g.terms && g'.expiresAt == g.expiresAt && g'.createdAt == g.createdAt
            && if ExchangedOn(r, i, id)
               then PairFrom(r, i, id, g') && g.refreshHash == Sha256(r.calls[i].request.token)
                    && r.calls[i].readAt <= i && id in r.states[r.calls[i].readAt]
                    && g'.refreshExpiresAt
                       == WindowFrom(r.calls[i].DrawnAt(), r.states[r.calls[i].readAt][id].expiresAt)
               else g'.refreshHash == g.refreshHash && g'.accessHash == g.accessHash && SameWindows(g, g')
  {
    assert StepOk(r, i);
  }

  /** A grant appears only by being issued, under an id no earlier state had. */
  lemma {:induction false} StepIssues(r: Run, i: nat, id: Id)
    requires IsRun(r) && i < |r.calls| && id !in r.states[i] && id in r.states[i + 1]
    ensures r.calls[i].Issue? && r.calls[i].id == id && '.' !in id
    ensures forall m :: 0 <= m <= i ==> id !in r.states[m]
    ensures var c, g := r.calls[i], r.states[i + 1][id];
            && PairFrom(r, i, id, g) && g == MintGrant(id, c.terms, c.accessSecret, c.refreshSecret, c.now)
            && g.terms == c.terms && g.createdAt == c.now && g.expiresAt == c.now + 7_776_000 && g.lastUsedAt == None
            && g.refreshExpiresAt == WindowFrom(c.now, g.expiresAt)
  {
    assert StepOk(r, i);
  }

  // ---------------------------------------------------------------- whole runs

  /** A grant that is gone, by revocation or by reuse, never comes back. */
  lemma {:induction false} NeverBack(r: Run, j: nat, m: nat, k: nat, id: Id)
    requires IsRun(r) && j <= m <= k < |r.states|
    requires id in r.states[j] && id !in r.states[m]
    ensures id !in r.states[k]
  {
    if m < k {
      NeverBack(r, j, m, k - 1, id);
      if id in r.states[k] {
        StepIssues(r, k - 1, id);
      }
    }
  }

  /** Between any two states that hold it, a grant keeps its user, client, redirect,
      resource, scope, creation time and absolute expiry. */
  lemma {:induction false} TermsNeverChange(r: Run, j: nat, k: nat, id: Id)
    requires IsRun(r) && j <= k < |r.states| && id in r.states[j] && id in r.states[k]
    ensures var g, g' := r.states[j][id], r.states[k][id];
            g'.terms == g.terms && g'.createdAt == g.createdAt && g'.expiresAt == g.expiresAt
  {
    if j < k {
      if id !in r.states[k - 1] {
        NeverBack(r, j, k - 1, k, id);
      }
      TermsNeverChange(r, j, k - 1, id);
      StepOnGrant(r, k - 1, id);
    }
  }

  /** In every state the refresh window ends within the absolute lifetime, counted from
      the grant's creation however often it was rotated. */
  lemma {:induction false} LifetimeCapped(r: Run, k: nat, id: Id)
    requires IsRun(r) && k < |r.states| && id in r.states[k]
    ensures var g := r.states[k][id];
            g.refreshExpiresAt <= g.expiresAt == g.createdAt + GRANT_ABSOLUTE_LIFETIME_S
  {
    if id in r.states[k - 1] {
      LifetimeCapped(r, k - 1, id);
      StepOnGrant(r, k - 1, id);
      if ExchangedOn(r, k - 1, id) {
        TermsNeverChange(r, r.calls[k - 1].readAt, k - 1, id);
      }
    } else {
      StepIssues(r, k - 1, id);
    }
  }

  /** A grant was issued by one earlier call, which gave it its terms, its creation time and
      ninety days. */
  lemma {:induction false} BornAt(r: Run, k: nat, id: Id) returns (m: nat)
    requires IsRun(r) && k < |r.states| && id in r.states[k]
    ensures m < k && r.calls[m].Issue? && r.calls[m].id == id
    ensures var c, g := r.calls[m], r.states[k][id];
            g.terms == c.terms && g.createdAt == c.now && g.expiresAt == c.now + 7_776_000
  {
    assert k > 0;
    if id in r.states[k - 1] {
      m := BornAt(r, k - 1, id);
      StepOnGrant(r, k - 1, id);
    } else {
      m := k - 1;
      StepIssues(r, m, id);
    }
  }

  /** Call `m` drew the pair the grant has in state `k`: the issuing call or an exchange on the
      grant, with no exchange since. */
  ghost predicate Origin(r: Run, k: nat, id: Id, m: nat)
    requires IsRun(r) && k < |r.states| && id in r.states[k]
  {
    && m < k && PairFrom(r, m, id, r.states[k][id])
    && '.' !in id && id in r.states[m + 1]
    && ((r.calls[m].Issue? && r.calls[m].id == id) || ExchangedOn(r, m, id))
    && forall i :: m < i < k ==> !ExchangedOn(r, i, id)
  }

  /** In every state the current pair was drawn, together, by one earlier call, and nothing between
      that call and now exchanged on the grant. */
  lemma {:induction false} PairOrigin(r: Run, k: nat, id: Id) returns (m: nat)
    requires IsRun(r) && k < |r.states| && id in r.states[k]
    ensures Origin(r, k, id, m)
  {
    assert k > 0;
    if id !in r.states[k - 1] {
      m := k - 1;
      StepIssues(r, m, id);
    } else {
      var before := PairOrigin(r, k - 1, id);
      m := if ExchangedOn(r, k - 1, id) then k - 1 else before;
      OriginStep(r, k - 1, id, before);
    }
  }

  lemma {:induction false} OriginStep(r: Run, k: nat, id: Id, m: nat)
    requires IsRun(r) && k < |r.calls| && id in r.states[k] && id in r.states[k + 1] && Origin(r, k, id, m)
    ensures Origin(r, k + 1, id, if ExchangedOn(r, k, id) then k else m)
  {
    StepOnGrant(r, k, id);
    if ExchangedOn(r, k, id) {
      OriginMoves(r, k, id);
    } else {
      OriginStays(r, k, id, m);
    }
  }

  lemma {:induction false} OriginMoves(r: Run, k: nat, id: Id)
    requires IsRun(r) && k < |r.calls| && id in r.states[k + 1] && ExchangedOn(r, k, id) && '.' !in id
    requires PairFrom(r, k, id, r.states[k + 1][id])
    ensures Origin(r, k + 1, id, k)
  {}

  lemma {:induction false} OriginStays(r: Run, k: nat, id: Id, m: nat)
    requires IsRun(r) && k < |r.calls| && id in r.states[k] && id in r.states[k + 1] && Origin(r, k, id, m)
    requires !ExchangedOn(r, k, id) && PairFrom(r, m, id, r.states[k + 1][id])
    ensures Origin(r, k + 1, id, m)
  {
    forall i | m < i < k + 1
      ensures !ExchangedOn(r, i, id)
    {
      assert i < k || i == k;
    }
  }

  /** The windows of the current pair count from the moment it was drawn: an hour for the access
      token, thirty days for the refresh token, cut off at ninety days from the creation. */
  lemma {:induction false} PairWindows(r: Run, k: nat, id: Id, m: nat)
    requires IsRun(r) && k < |r.states| && id in r.states[k] && Origin(r, k, id, m)
    ensures var g, at := r.states[k][id], r.calls[m].DrawnAt();
            g.accessExpiresAt == at + 3_600 && g.refreshExpiresAt == WindowFrom(at, g.expiresAt)
  {
    if k == m + 1 {
      WindowOpens(r, m, id);
    } else {
      if id !in r.states[k - 1] {
        NeverBack(r, m + 1, k - 1, k, id);
      }
      assert !ExchangedOn(r, k - 1, id);
      StepOnGrant(r, k - 1, id);
      PairWindows(r, k - 1, id, m);
    }
  }

  lemma {:induction false} WindowOpens(r: Run, m: nat, id: Id)
    requires IsRun(r) && m < |r.calls| && id in r.states[m + 1]
    requires (r.calls[m].Issue? && r.calls[m].id == id) || ExchangedOn(r, m, id)
    ensures r.states[m + 1][id].refreshExpiresAt == WindowFrom(r.calls[m].DrawnAt(), r.states[m + 1][id].expiresAt)
  {
    if ExchangedOn(r, m, id) {
      ExchangeFinds(r, m);
      StepOnGrant(r, m, id);
      TermsNeverChange(r, r.calls[m].readAt, m, id);
    } else {
      assert StepOk(r, m);
      StepIssues(r, m, id);
    }
  }

  /** While nothing exchanges on it, a grant's pair stays. */
  lemma {:induction false} PairKept(r: Run, j: nat, k: nat, id: Id)
    requires IsRun(r) && j <= k < |r.states| && id in r.states[j] && id in r.states[k]
    requires forall i :: j <= i < k ==> !ExchangedOn(r, i, id)
    ensures r.states[k][id].refreshHash == r.states[j][id].refreshHash
    ensures r.states[k][id].accessHash == r.states[j][id].accessHash
    ensures SameWindows(r.states[j][id], r.states[k][id])
  {
    if j < k {
      if id !in r.states[k - 1] {
        NeverBack(r, j, k - 1, k, id);
      }
      PairKept(r, j, k - 1, id);
      assert !ExchangedOn(r, k - 1, id);
      StepOnGrant(r, k - 1, id);
    }
  }

  /** Once something exchanged on a grant, neither half of an earlier pair is current again. */
  lemma {:induction false} PairNeverReturns(r: Run, j: nat, i: nat, k: nat, id: Id)
    requires IsRun(r) && j <= i < k < |r.states| && id in r.states[j] && id in r.states[k]
    requires ExchangedOn(r, i, id)
    ensures r.states[k][id].refreshHash != r.states[j][id].refreshHash
    ensures r.states[k][id].accessHash != r.states[j][id].accessHash
  {
    var m := PairOrigin(r, j, id);
    var n := PairOrigin(r, k, id);
    assert m < n;
    var a, b := r.calls[m], r.calls[n];
    if r.states[k][id].refreshHash == r.states[j][id].refreshHash {
      TokensDiffer(REFRESH_TOKEN_PREFIX, id, a.RefreshSecret().value, id, b.RefreshSecret().value);
    }
    if r.states[k][id].accessHash == r.states[j][id].accessHash {
      TokensDiffer(ACCESS_TOKEN_PREFIX, id, a.AccessSecret().value, id, b.AccessSecret().value);
    }
  }

  /** An exchange finds its grant, holding the hash of the token it was sent. */
  lemma {:induction false} ExchangeFinds(r: Run, i: nat)
    requires IsRun(r) && i < |r.calls| && Exchanged(r, i)
    ensures GrantOf(r.calls[i]).Some?
    ensures var id := GrantOf(r.calls[i]).value;
            && id in r.states[i] && id in r.states[i + 1]
            && r.states[i][id].refreshHash == Sha256(r.calls[i].request.token)
            && r.calls[i].readAt <= i && id in r.states[r.calls[i].readAt]
            && r.states[r.calls[i].readAt][id].refreshHash == Sha256(r.calls[i].request.token)
  {
    assert StepOk(r, i);
  }

  /** A refresh exchanges its token exactly when it was good on the row it read and that row still
      holds its hash. */
  lemma {:induction false} ExchangedIff(r: Run, i: nat, id: Id)
    requires IsRun(r) && i < |r.calls| && r.calls[i].Refresh?
    requires Names(r.calls[i].request.token, REFRESH_TOKEN_PREFIX, id)
    ensures r.calls[i].readAt <= i
    ensures var q, read, t := r.calls[i].request, r.states[r.calls[i].readAt], r.states[i];
            && (Exchanged(r, i) <==>
                  && id in read && read[id].refreshHash == Sha256(q.token)
                  && q.now < read[id].refreshExpiresAt && q.now < read[id].expiresAt
                  && q.clientId == read[id].terms.clientId
                  && (q.resource.None? || q.resource.value == read[id].terms.resource)
                  && q.user == Active
                  && id in t && t[id].refreshHash == Sha256(q.token))
            && (Exchanged(r, i) ==> r.states[i + 1] == t[id := t[id].(
                  accessHash := Sha256("mtoa_" + id + "." + q.accessSecret), accessExpiresAt := q.now + 3_600,
                  refreshHash := Sha256("mtor_" + id + "." + q.refreshSecret),
                  refreshExpiresAt := WindowFrom(q.now, read[id].expiresAt))])
  {
    assert StepOk(r, i);
    RotatesIffRefreshable(r.states[r.calls[i].readAt], r.calls[i].request, id);
    ParsesIffNames(r.calls[i].request.token, REFRESH_TOKEN_PREFIX, id);
  }

  lemma {:induction false} ExchangedNames(r: Run, i: nat) returns (id: Id)
    requires IsRun(r) && i < |r.calls| && Exchanged(r, i)
    ensures Names(r.calls[i].request.token, REFRESH_TOKEN_PREFIX, id) && ExchangedOn(r, i, id)
  {
    ExchangeFinds(r, i);
    id := GrantOf(r.calls[i]).value;
    ParsesIffNames(r.calls[i].request.token, REFRESH_TOKEN_PREFIX, id);
  }

  /** No refresh token is exchanged thirty days or more after it was drawn, nor ninety days or more
      after its grant was created. */
  lemma {:induction false} ExchangedInTime(r: Run, i: nat) returns (id: Id, issued: nat, drawn: nat)
    requires IsRun(r) && i < |r.calls| && Exchanged(r, i)
    ensures issued < i && r.calls[issued].Issue? && r.calls[issued].id == id
    ensures r.calls[i].request.now < r.calls[issued].now + 7_776_000
    ensures drawn < i && r.calls[drawn].RefreshSecret().Some?
    ensures r.calls[i].request.token == "mtor_" + id + "." + r.calls[drawn].RefreshSecret().value
    ensures r.calls[i].request.now < r.calls[drawn].DrawnAt() + 2_592_000
  {
    id := ExchangedNames(r, i);
    ExchangedIff(r, i, id);
    var a := r.calls[i].readAt;
    issued := BornAt(r, a, id);
    drawn := PairOrigin(r, a, id);
    PairWindows(r, a, id, drawn);
  }

  /** Each refresh token is exchanged at most once, over every interleaving. */
  lemma {:induction false} ExchangedOnce(r: Run, i: nat, j: nat)
    requires IsRun(r) && i < j < |r.calls| && Exchanged(r, i) && Exchanged(r, j)
    ensures r.calls[i].request.token != r.calls[j].request.token
  {
    ExchangeFinds(r, i);
    ExchangeFinds(r, j);
    if r.calls[i].request.token == r.calls[j].request.token {
      PairNeverReturns(r, i, i, j, GrantOf(r.calls[i]).value);
    }
  }

  /** A refresh that decided to rotate succeeds exactly when its grant is still there and
      no other refresh exchanged on it since the read. */
  lemma {:induction false} RotationWinsIff(r: Run, i: nat)
    requires IsRun(r) && i < |r.calls| && r.calls[i].Refresh? && GrantOf(r.calls[i]).Some?
    requires StepOk(r, i) && WriteOf(r, i).Some? && WriteOf(r, i).value.Rotate?
    ensures r.calls[i].readAt <= i
    ensures var id := GrantOf(r.calls[i]).value;
            Exchanged(r, i) <==>
              id in r.states[i] && forall m :: r.calls[i].readAt <= m < i ==> !ExchangedOn(r, m, id)
  {
    var id, a := GrantOf(r.calls[i]).value, r.calls[i].readAt;
    assert id in r.states[a];
    if Exchanged(r, i) {
      ExchangeFinds(r, i);
      forall m | a <= m < i
        ensures !ExchangedOn(r, m, id)
      {
        if ExchangedOn(r, m, id) {
          PairNeverReturns(r, a, m, i, id);
        }
      }
    }
    if id in r.states[i] && forall m :: a <= m < i ==> !ExchangedOn(r, m, id) {
      PairKept(r, a, i, id);
    }
  }

  /** The write of step `j` is the removal of the grant, and after it the grant is gone. */
  predicate Kills(r: Run, j: nat, id: Id)
    requires IsRun(r) && j < |r.calls|
  {
    assert StepOk(r, j);
    WriteOf(r, j) == Some(Delete(id)) && id !in r.states[j + 1]
  }

  /** Reuse detection is exact. For a refresh token that was handed out, a request that
      reads the grant kills it if and only if the token had been exchanged before the read. */
  lemma {:induction false} KillsIffReused(r: Run, m: nat, j: nat, id: Id)
    requires IsRun(r) && m < j < |r.calls| && r.calls[j].Refresh?
    requires (r.calls[m].Issue? && r.calls[m].id == id) || ExchangedOn(r, m, id)
    requires r.calls[j].request.token == Token(REFRESH_TOKEN_PREFIX, id, r.calls[m].RefreshSecret().value)
    requires r.calls[m].RefreshSecret().value != ""
    requires m < r.calls[j].readAt <= j && id in r.states[r.calls[j].readAt]
    ensures GrantOf(r.calls[j]) == Some(id)
    ensures Kills(r, j, id) <==>
              exists i :: m < i < r.calls[j].readAt && ExchangedWith(r, i, r.calls[j].request.token)
  {
    HandedOut(r, m, r.calls[j].readAt, id);
    MintedTokenNames(id, r.calls[m].RefreshSecret().value);
    MovedIffReused(r, m, r.calls[j].readAt, id, r.calls[j].request.token);
    KillsIffMoved(r, j, id);
  }

  lemma {:induction false} KillsIffMoved(r: Run, j: nat, id: Id)
    requires IsRun(r) && j < |r.calls| && r.calls[j].Refresh? && GrantOf(r.calls[j]) == Some(id)
    requires r.calls[j].readAt <= j && id in r.states[r.calls[j].readAt]
    ensures Kills(r, j, id) <==> r.states[r.calls[j].readAt][id].refreshHash != Sha256(r.calls[j].request.token)
  {
    assert StepOk(r, j);
    ParsesIffNames(r.calls[j].request.token, REFRESH_TOKEN_PREFIX, id);
    RotatesIffRefreshable(r.states[r.calls[j].readAt], r.calls[j].request, id);
  }

  lemma {:induction false} MovedIffReused(r: Run, m: nat, a: nat, id: Id, token: string)
    requires IsRun(r) && m < a < |r.states| && id in r.states[a]
    requires id in r.states[m + 1] && r.states[m + 1][id].refreshHash == Sha256(token) && GrantIdOf(token) == Some(id)
    ensures r.states[a][id].refreshHash != Sha256(token) <==> exists i :: m < i < a && ExchangedWith(r, i, token)
  {
    if i :| m < i < a && ExchangedWith(r, i, token) {
      ReusedThenMoved(r, m + 1, i, a, id, token);
    } else if r.states[a][id].refreshHash != Sha256(token) {
      var i := FirstExchangeAfter(r, m + 1, a, id);
      assert ExchangedWith(r, i, token);
    }
  }

  lemma {:induction false} ReusedThenMoved(r: Run, j: nat, i: nat, a: nat, id: Id, token: string)
    requires IsRun(r) && j <= i < a < |r.states| && id in r.states[j] && id in r.states[a]
    requires r.states[j][id].refreshHash == Sha256(token) && GrantIdOf(token) == Some(id)
    requires ExchangedWith(r, i, token)
    ensures r.states[a][id].refreshHash != Sha256(token)
  {
    assert ExchangedOn(r, i, id);
    PairNeverReturns(r, j, i, a, id);
  }

  predicate ExchangedWith(r: Run, i: nat, token: string)
    requires Shaped(r) && i < |r.calls|
  {
    Exchanged(r, i) && r.calls[i].request.token == token
  }

  /** Right after it is handed out, a pair is the grant's current one. */
  lemma {:induction false} HandedOut(r: Run, m: nat, a: nat, id: Id)
    requires IsRun(r) && m < a < |r.states| && id in r.states[a]
    requires (r.calls[m].Issue? && r.calls[m].id == id) || ExchangedOn(r, m, id)
    ensures id in r.states[m + 1] && PairFrom(r, m, id, r.states[m + 1][id]) && '.' !in id && id != ""
  {
    assert StepOk(r, m);
    if ExchangedOn(r, m, id) {
      ExchangeFinds(r, m);
      StepOnGrant(r, m, id);
      var n := PairOrigin(r, m, id);
      ParsedIdNonempty(r.calls[m].request.token);
    }
  }

  lemma {:induction false} ParsedIdNonempty(token: string)
    ensures GrantIdOf(token).Some? ==> GrantIdOf(token).value != ""
  {}

  /** If the hash moved, the exchange that first moved it was sent the old token. */
  lemma {:induction false} FirstExchangeAfter(r: Run, j: nat, k: nat, id: Id) returns (i: nat)
    requires IsRun(r) && j <= k < |r.states| && id in r.states[j] && id in r.states[k]
    requires r.states[k][id].refreshHash != r.states[j][id].refreshHash
    ensures j <= i < k && ExchangedOn(r, i, id)
    ensures Sha256(r.calls[i].request.token) == r.states[j][id].refreshHash
  {
    if id !in r.states[k - 1] {
      NeverBack(r, j, k - 1, k, id);
    }
    if r.states[k - 1][id].refreshHash != r.states[j][id].refreshHash {
      i := FirstExchangeAfter(r, j, k - 1, id);
    } else {
      i := k - 1;
      StepOnGrant(r, i, id);
    }
  }

  /** A killed grant is gone from the killing step on, in every later state. */
  lemma {:induction false} KilledForGood(r: Run, j: nat, k: nat)
    requires IsRun(r) && j < k < |r.states| && r.calls[j].Refresh? && GrantOf(r.calls[j]).Some?
    requires StepOk(r, j) && WriteOf(r, j) == Some(Delete(GrantOf(r.calls[j]).value))
    ensures GrantOf(r.calls[j]).value !in r.states[k]
  {
    var id, a := GrantOf(r.calls[j]).value, r.calls[j].readAt;
    assert id in r.states[a];
    NeverBack(r, a, j + 1, k, id);
  }

  /** An access token that was handed out stops working an hour after it was drawn, at the next
      exchange on its grant, and at the absolute lifetime. */
  lemma {:induction false} AccessEndsAtRotation(r: Run, m: nat, a: nat, id: Id, resource: string, now: nat)
    requires IsRun(r) && m < a < |r.states| && r.calls[m].AccessSecret().Some?
    requires (r.calls[m].Issue? && r.calls[m].id == id) || ExchangedOn(r, m, id)
    requires Opens(r.states[a], Token(ACCESS_TOKEN_PREFIX, id, r.calls[m].AccessSecret().value), id, resource, now)
    ensures forall i :: m < i < a ==> !ExchangedOn(r, i, id)
    ensures now < r.calls[m].DrawnAt() + 3_600
    ensures now < r.states[a][id].createdAt + 7_776_000 && r.states[a][id].terms.resource == resource
  {
    HandedOut(r, m, a, id);
    LifetimeCapped(r, a, id);
    SameAccessNoExchange(r, m + 1, a, id);
    PairKept(r, m + 1, a, id);
  }

  lemma {:induction false} SameAccessNoExchange(r: Run, j: nat, a: nat, id: Id)
    requires IsRun(r) && j <= a < |r.states| && id in r.states[j] && id in r.states[a]
    requires r.states[a][id].accessHash == r.states[j][id].accessHash
    ensures forall i :: j <= i < a ==> !ExchangedOn(r, i, id)
  {
    forall i | j <= i < a
      ensures !ExchangedOn(r, i, id)
    {
      if ExchangedOn(r, i, id) {
        PairNeverReturns(r, j, i, a, id);
      }
    }
  }
}
