/** What one transaction may do to the code, access and refresh buckets. */
module TokenEffects {
  import opened Options
  import opened TokenStore
  import opened TokenRuns

  ghost predicate SessionKept(cfg: Config, before: Session, after: Session, clientId: string) {
    after == before || after == StampSession(cfg, before, clientId)
  }

  /** Once revoked, always revoked; nothing else that matters changes. */
  ghost predicate RefreshRecordKept(cfg: Config, r: RefreshRecord, r': RefreshRecord) {
    && r'.clientId == r.clientId && r'.scope == r.scope && r'.expiresAt == r.expiresAt
    && r'.rotationResponse == r.rotationResponse
    && SessionKept(cfg, r.session, r'.session, r.clientId)
    && (Truthy(r.revokedAt) ==> Truthy(r'.revokedAt))
  }

  ghost predicate RevokedBy(r: RefreshRecord, r': RefreshRecord, k: Ticks) {
    r'.revokedAt == r.revokedAt || r'.revokedAt == Some(k.t1)
  }

  /** Nothing is minted, and a record disappears only when it is due. */
  ghost predicate RefreshKept(cfg: Config, before: map<string, RefreshRecord>, after: map<string, RefreshRecord>,
                              k: Ticks)
  {
    && (forall t :: t in after ==>
          t in before && RefreshRecordKept(cfg, before[t], after[t]) && RevokedBy(before[t], after[t], k))
    && (forall t :: t in before && t !in after ==> !KeepRefresh(before[t], k.t5, GraceMs(cfg)))
  }

  ghost predicate AccessKept(cfg: Config, before: map<string, AccessRecord>, after: map<string, AccessRecord>) {
    forall t :: t in after ==>
      && t in before
      && after[t].clientId == before[t].clientId && after[t].scope == before[t].scope
      && SessionKept(cfg, before[t].session, after[t].session, before[t].clientId)
      && (Truthy(before[t].revokedAt) ==> Truthy(after[t].revokedAt))
  }

  /** Stamping binds a session to the client and its integration, if it has one, and leaves the
      other metadata and everything else alone; a stamp for another client overwrites it. */
  lemma StampBindsTheClient(cfg: Config, session: Session, clientId: string, other: string)
    ensures var stamped := StampSession(cfg, session, clientId);
            && stamped.(broker := session.broker) == session
            && "clientId" in stamped.broker && stamped.broker["clientId"] == clientId
            && ("integration" in stamped.broker <==> IntegrationOf(cfg, clientId) != "")
            && ("integration" in stamped.broker ==> stamped.broker["integration"] == IntegrationOf(cfg, clientId))
            && forall key :: key != "clientId" && key != "integration" ==>
                 Lookup(stamped.broker, key) == Lookup(session.broker, key)
    ensures StampSession(cfg, StampSession(cfg, session, other), clientId) == StampSession(cfg, session, clientId)
  {
    assert "clientId"[0] != "integration"[0];
    assert StampSession(cfg, StampSession(cfg, session, other), clientId).broker
      == StampSession(cfg, session, clientId).broker;
  }

  lemma PruneKeepsRefresh(cfg: Config, s: Store, now: int, k: Ticks)
    requires now <= k.t5
    ensures RefreshKept(cfg, s.refresh, Prune(cfg, s, now).refresh, k)
  {
  }

  lemma PruneKeepsAccess(cfg: Config, s: Store, now: int)
    ensures AccessKept(cfg, s.access, Prune(cfg, s, now).access)
  {
  }

  lemma RevokeTokenKeepsRefresh(cfg: Config, s: Store, token: string, k: Ticks)
    requires Ordered(k)
    ensures RefreshKept(cfg, s.refresh, RevokeToken(cfg, s, token, k.t0, k.t1).store.refresh, k)
  {
    PruneKeepsRefresh(cfg, s, k.t0, k);
  }

  lemma RevokeUserKeepsRefresh(cfg: Config, s: Store, userId: string, tenantId: string, k: Ticks)
    requires Ordered(k)
    ensures RefreshKept(cfg, s.refresh, RevokeUser(cfg, s, userId, tenantId, k.t0, k.t1).store.refresh, k)
  {
    PruneKeepsRefresh(cfg, s, k.t0, k);
  }

  /** Minting a code prunes the refresh bucket once, completing a handoff possibly twice. */
  lemma MintingACodeKeepsRefresh(cfg: Config, s: Store, op: Op, k: Ticks)
    requires Ordered(k) && (op.BeginAuthorization? || op.CompleteSsoAuthorization?)
    ensures RefreshKept(cfg, s.refresh, Apply(cfg, s, op, k).store.refresh, k)
  {
    hide PruneAt, SealSession, StampSession, RefreshKept;
    PruneKeepsRefresh(cfg, s, k.t0, k);
    if op.CompleteSsoAuthorization? { PruningTwiceKeepsRefresh(cfg, s, k); }
  }

  lemma PruningTwiceKeepsRefresh(cfg: Config, s: Store, k: Ticks)
    requires Ordered(k)
    ensures RefreshKept(cfg, s.refresh, Prune(cfg, Prune(cfg, s, k.t0), k.t2).refresh, k)
  {
    PruneKeepsRefresh(cfg, s, k.t0, k);
    PruneKeepsRefresh(cfg, Prune(cfg, s, k.t0), k.t2, k);
  }

  lemma NothingKeepsRefresh(cfg: Config, refresh: map<string, RefreshRecord>, k: Ticks)
    ensures RefreshKept(cfg, refresh, refresh, k)
  {
  }

  lemma PruningKeepsRefresh(cfg: Config, s: Store, op: Op, k: Ticks)
    requires Ordered(k)
    requires !op.ExchangeMint? && !op.RefreshAccessToken? && !op.RevokeOne? && !op.RevokeAllForUser?
    ensures RefreshKept(cfg, s.refresh, Apply(cfg, s, op, k).store.refresh, k)
  {
    hide PruneAt, RefreshKept, OpenAccess, StampAccess, CheckCode, PerSourceLimit, ActiveHandoffs, ActiveHandoffsFrom;
    if op.BeginAuthorization? || op.CompleteSsoAuthorization? {
      MintingACodeKeepsRefresh(cfg, s, op, k);
    } else {
      PruneKeepsRefresh(cfg, s, k.t0, k);
      NothingKeepsRefresh(cfg, s.refresh, k);
    }
  }

  lemma OthersKeepRefresh(cfg: Config, s: Store, op: Op, k: Ticks)
    requires Ordered(k) && !op.ExchangeMint? && !op.RefreshAccessToken?
    ensures RefreshKept(cfg, s.refresh, Apply(cfg, s, op, k).store.refresh, k)
  {
    match op
    case RevokeOne(token) => RevokeTokenKeepsRefresh(cfg, s, token, k);
    case RevokeAllForUser(userId, tenantId) => RevokeUserKeepsRefresh(cfg, s, userId, tenantId, k);
    case _ => PruningKeepsRefresh(cfg, s, op, k);
  }

  lemma ReadKeepsAccess(cfg: Config, s: Store, token: string, now: int)
    ensures AccessKept(cfg, s.access, ReadAccess(cfg, s, token, now).store.access)
  {
    PruneKeepsAccess(cfg, s, now);
  }

  lemma RevocationKeepsAccess(cfg: Config, s: Store, op: Op, k: Ticks)
    requires op.RevokeOne? || op.RevokeAllForUser?
    ensures AccessKept(cfg, s.access, Apply(cfg, s, op, k).store.access)
  {
    PruneKeepsAccess(cfg, s, k.t0);
  }

  lemma OthersKeepAccess(cfg: Config, s: Store, op: Op, k: Ticks)
    requires Ordered(k) && !op.ExchangeMint? && !op.RefreshAccessToken?
    ensures AccessKept(cfg, s.access, Apply(cfg, s, op, k).store.access)
  {
    hide SealSession, StampSession, OpenSession, CheckCode, PerSourceLimit, ActiveHandoffs, ActiveHandoffsFrom;
    if op.ReadAccessToken? {
      ReadKeepsAccess(cfg, s, op.token, k.t0);
    } else if op.RevokeOne? || op.RevokeAllForUser? {
      RevocationKeepsAccess(cfg, s, op, k);
    } else {
      AccessShrinks(cfg, s, op, k);
    }
  }

  /** An exchange mint prunes and adds one pair. */
  lemma MintAddsOnePair(cfg: Config, s: Store, op: Op, k: Ticks)
    requires Ordered(k) && op.ExchangeMint?
    ensures var after := Apply(cfg, s, op, k).store; var d := op.drawn;
            var sealed := SealSession(cfg, StampSession(cfg, op.session, op.clientId), d.nonce);
            && d.access in after.access && d.refresh in after.refresh
            && PairMinted(cfg, after.access[d.access], after.refresh[d.refresh], op.clientId, op.scope, sealed)
            && AccessKept(cfg, s.access, after.access - {d.access})
            && RefreshKept(cfg, s.refresh - {d.refresh}, after.refresh - {d.refresh}, k)
  {
  }

  ghost predicate PairMinted(cfg: Config, a: AccessRecord, r: RefreshRecord, clientId: string, scope: string,
                             sealed: Session)
  {
    && a.clientId == r.clientId == clientId && a.scope == r.scope == scope
    && a.session == r.session == sealed
    && a.revokedAt == None && r.revokedAt == None && r.rotationResponse == None
  }

  /** A refresh either mints nothing, or rotates: it needs a stored, unrevoked token of the
      same client, marks it revoked with its answer cached, and adds one pair. */
  ghost predicate Rotates(cfg: Config, s: Store, op: Op, k: Ticks, o: Outcome)
    requires op.RefreshAccessToken?
  {
    var d := op.drawn; var after := o.store;
    && WillRotate(cfg, s, op, k)
    && var r := StampRefresh(cfg, s.refresh[op.token]);
    var tokens := PairResponse(cfg, d, r.scope);
    var plain := OpenSession(cfg, r.session);
    && o.response == Tokens(tokens)
    && op.token in after.refresh && d.access in after.access && d.refresh in after.refresh
    && after.refresh[op.token] == r.(revokedAt := Some(k.t1), rotationResponse := Some(tokens))
    && PairMinted(cfg, after.access[d.access], after.refresh[d.refresh], op.clientId, r.scope,
                  SealSession(cfg, StampSession(cfg, plain.value, op.clientId), d.nonce))
    && AccessKept(cfg, s.access, after.access - {d.access})
    && RefreshKept(cfg, s.refresh - {op.token}, after.refresh - {d.refresh, op.token}, k)
  }

  /** A refresh that mints nothing answers, if at all, from the cache of the stored token. */
  ghost predicate MintsNothing(cfg: Config, s: Store, op: Op, k: Ticks, o: Outcome)
    requires op.RefreshAccessToken?
  {
    && (o.response.Tokens? ==>
          op.token in s.refresh && s.refresh[op.token].rotationResponse == Some(o.response.tokens))
    && AccessKept(cfg, s.access, o.store.access)
    && RefreshKept(cfg, s.refresh, o.store.refresh, k)
  }

  /** The branch of the refresh transaction that rotates. */
  ghost predicate WillRotate(cfg: Config, s: Store, op: Op, k: Ticks)
    requires op.RefreshAccessToken?
  {
    && IsConfigured(cfg, op.clientId)
    && op.token in s.refresh
    && KeepRefresh(s.refresh[op.token], k.t0, GraceMs(cfg))
    && s.refresh[op.token].clientId == op.clientId
    && !Truthy(s.refresh[op.token].revokedAt)
    && OpenSession(cfg, StampRefresh(cfg, s.refresh[op.token]).session).Some?
  }

  lemma RotationMintsOnePair(cfg: Config, s: Store, op: Op, k: Ticks)
    requires Ordered(k) && op.RefreshAccessToken? && WillRotate(cfg, s, op, k)
    requires op.drawn.refresh !in s.refresh
    ensures Rotates(cfg, s, op, k, Apply(cfg, s, op, k))
  {
    PruneKeepsRefresh(cfg, s, k.t0, k);
    PruneKeepsAccess(cfg, s, k.t0);
  }

  lemma OtherRefreshMintsNothing(cfg: Config, s: Store, op: Op, k: Ticks)
    requires Ordered(k) && op.RefreshAccessToken? && !WillRotate(cfg, s, op, k)
    requires op.drawn.refresh !in s.refresh
    ensures MintsNothing(cfg, s, op, k, Apply(cfg, s, op, k))
    ensures op.drawn.refresh !in Apply(cfg, s, op, k).store.refresh
  {
    PruneKeepsRefresh(cfg, s, k.t0, k);
    PruneKeepsAccess(cfg, s, k.t0);
    var after, p := Apply(cfg, s, op, k).store, Prune(cfg, s, k.t0);
    assert after == s || after == p
        || (op.token in p.refresh
            && after == p.(refresh := p.refresh[op.token := StampRefresh(cfg, p.refresh[op.token])]));
  }
}
