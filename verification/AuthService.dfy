/**
 The authorization service as the source writes it: every operation loads the store,
 mutates the loaded buckets step by step and saves them, or raises and saves nothing.
 Each method is proved to do exactly what the transaction functions of TokenStore say.
*/
module AuthService {
  import opened Options
  import opened TokenStore

  /** The buckets as one transaction holds them between load and save. */
  class LoadedState {
    var codes: map<string, CodeRecord>
    var access: map<string, AccessRecord>
    var refresh: map<string, RefreshRecord>
    var grants: map<string, GrantRecord>
    var handoffs: map<string, HandoffRecord>

    function Snapshot(): Store
      reads this
    {
      Store(codes, access, refresh, grants, handoffs)
    }

    constructor (s: Store)
      ensures Snapshot() == s
    {
      codes, access, refresh, grants, handoffs := s.codes, s.access, s.refresh, s.grants, s.handoffs;
    }

    method PruneExpired(now: int, grace: int)
      modifies this
      ensures Snapshot() == PruneAt(old(Snapshot()), now, grace)
    {
      PruneCodes(now);
      PruneAccessTokens(now);
      PruneRefreshTokens(now, grace);
      PruneGrantBucket(now);
      PruneHandoffs(now);
    }

    method PruneCodes(now: int)
      modifies this`codes
      ensures codes == PruneAt(old(Snapshot()), now, 0).codes
    {
      var left := codes.Keys;
      while left != {}
        invariant codes == map c | c in old(codes) && (c in left || KeepCode(old(codes)[c], now)) :: old(codes)[c]
        invariant left <= old(codes).Keys
      {
        var c :| c in left;
        left := left - {c};
        if codes[c].expiresAt <= now {
          codes := codes - {c};
        }
      }
    }

    method PruneAccessTokens(now: int)
      modifies this`access
      ensures access == PruneAt(old(Snapshot()), now, 0).access
    {
      var left := access.Keys;
      while left != {}
        invariant access == map t | t in old(access) && (t in left || KeepAccess(old(access)[t], now)) :: old(access)[t]
        invariant left <= old(access).Keys
      {
        var t :| t in left;
        left := left - {t};
        if access[t].expiresAt <= now || Truthy(access[t].revokedAt) {
          access := access - {t};
        }
      }
    }

    method PruneGrantBucket(now: int)
      modifies this`grants
      ensures grants == PruneGrants(old(Snapshot()), now).grants
    {
      var left := grants.Keys;
      while left != {}
        invariant grants == map g | g in old(grants) && (g in left || KeepGrant(old(grants)[g], now)) :: old(grants)[g]
        invariant left <= old(grants).Keys
      {
        var g :| g in left;
        left := left - {g};
        if grants[g].expiresAt <= now {
          grants := grants - {g};
        }
      }
    }

    method PruneRefreshTokens(now: int, grace: int)
      modifies this`refresh
      ensures refresh == PruneAt(old(Snapshot()), now, grace).refresh
    {
      var left := refresh.Keys;
      while left != {}
        invariant refresh == map t | t in old(refresh) && (t in left || KeepRefresh(old(refresh)[t], now, grace)) ::
            old(refresh)[t]
        invariant left <= old(refresh).Keys
      {
        var t :| t in left;
        left := left - {t};
        var r := refresh[t];
        if Truthy(r.revokedAt) && now - r.revokedAt.value > grace {
          refresh := refresh - {t};
          continue;
        }
        if r.expiresAt != 0 && r.expiresAt <= now {
          refresh := refresh - {t};
        }
      }
    }

    method PruneHandoffs(now: int)
      modifies this`handoffs
      ensures handoffs == PruneAt(old(Snapshot()), now, 0).handoffs
    {
      var left := handoffs.Keys;
      while left != {}
        invariant handoffs == map h | h in old(handoffs) && (h in left || KeepHandoff(old(handoffs)[h], now)) ::
            old(handoffs)[h]
        invariant left <= old(handoffs).Keys
      {
        var h :| h in left;
        left := left - {h};
        if handoffs[h].purgeAt <= now {
          handoffs := handoffs - {h};
        }
      }
    }

    method RevokeOwnedAccess(userId: string, tenantId: string, now: int)
      modifies this`access
      ensures access == RevokeUserIn(old(Snapshot()), userId, tenantId, now).access
    {
      ghost var done := RevokeUserIn(Snapshot(), userId, tenantId, now).access;
      var left := access.Keys;
      while left != {}
        invariant left <= access.Keys == old(access).Keys
        invariant forall t :: t in access ==> access[t] == if t in left then old(access)[t] else done[t]
      {
        var t :| t in left;
        left := left - {t};
        var session := access[t].session;
        if session.userId == userId && session.tenantId == tenantId {
          access := access[t := access[t].(revokedAt := Some(now))];
        }
      }
    }

    method RevokeOwnedRefresh(userId: string, tenantId: string, now: int)
      modifies this`refresh
      ensures refresh == RevokeUserIn(old(Snapshot()), userId, tenantId, now).refresh
    {
      ghost var done := RevokeUserIn(Snapshot(), userId, tenantId, now).refresh;
      var left := refresh.Keys;
      while left != {}
        invariant left <= refresh.Keys == old(refresh).Keys
        invariant forall t :: t in refresh ==> refresh[t] == if t in left then old(refresh)[t] else done[t]
      {
        var t :| t in left;
        left := left - {t};
        var session := refresh[t].session;
        if session.userId == userId && session.tenantId == tenantId {
          refresh := refresh[t := refresh[t].(revokedAt := Some(now))];
        }
      }
    }

    method ExpireOwnedGrants(userId: string, tenantId: string)
      modifies this`grants
      ensures grants == RevokeUserIn(old(Snapshot()), userId, tenantId, 0).grants
    {
      ghost var done := RevokeUserIn(Snapshot(), userId, tenantId, 0).grants;
      var left := grants.Keys;
      while left != {}
        invariant left <= grants.Keys == old(grants).Keys
        invariant forall g :: g in grants ==> grants[g] == if g in left then old(grants)[g] else done[g]
      {
        var g :| g in left;
        left := left - {g};
        if grants[g].userId == userId && grants[g].tenantId == tenantId {
          grants := grants[g := grants[g].(expiresAt := 0)];
        }
      }
    }

    /** Mint an access and a refresh token into the open transaction. */
    method WriteTokenPair(cfg: Config, session: Session, scope: string, clientId: string, drawn: Draw,
                          t1: int, t2: int, t3: int, t4: int)
      returns (tokens: TokenResponse)
      modifies this`access, this`refresh
      ensures Snapshot() == WritePair(cfg, old(Snapshot()), session, scope, clientId, drawn, t1, t2, t3, t4)
      ensures tokens == PairResponse(cfg, drawn, scope)
      ensures access.Keys == old(access).Keys + {tokens.accessToken}
      ensures refresh.Keys == old(refresh).Keys + {tokens.refreshToken}
      ensures forall t :: t in old(access) && t != tokens.accessToken ==> access[t] == old(access)[t]
      ensures forall t :: t in old(refresh) && t != tokens.refreshToken ==> refresh[t] == old(refresh)[t]
    {
      var accessExpiresAt := t1 + cfg.tokenTtlSeconds * 1000;
      var integration := IntegrationOf(cfg, clientId);
      var stamped := StampSession(cfg, session, clientId);
      var sealed := SealSession(cfg, stamped, drawn.nonce);
      access := access[drawn.access := AccessRecord(clientId, scope, integration, sealed, t2, accessExpiresAt, None)];
      refresh := refresh[drawn.refresh :=
        RefreshRecord(clientId, scope, integration, sealed, t3, t4 + cfg.refreshTtlSeconds * 1000, None, None)];
      tokens := TokenResponse(drawn.access, cfg.tokenTtlSeconds, drawn.refresh, scope);
    }

    /** Store a fresh authorization code inside the open transaction. */
    method MintAuthorizationCode(cfg: Config, code: string, terms: CodeTerms, session: Session, nonce: nat,
                                 pruneAt: int, now: int)
      modifies this
      ensures Snapshot() == MintCode(cfg, old(Snapshot()), code, terms, session, nonce, pruneAt, now)
    {
      PruneExpired(pruneAt, GraceMs(cfg));
      var sealed := SealSession(cfg, session, nonce);
      codes := codes[code := CodeRecord(
        terms.clientId, terms.redirectUri, terms.scope, terms.codeChallenge, MethodOrS256(terms.codeChallengeMethod),
        sealed, now + cfg.authCodeTtlSeconds * 1000)];
    }
  }

  /** Minting a pair does not read the refresh bucket, so a record written before and again
      after it might as well be written after it only. */
  lemma WritingCommutes(cfg: Config, s: Store, token: string, first: RefreshRecord, last: RefreshRecord,
                        session: Session, scope: string, clientId: string, drawn: Draw,
                        t1: int, t2: int, t3: int, t4: int)
    ensures var a := WritePair(cfg, s.(refresh := s.refresh[token := first]), session, scope, clientId, drawn,
                               t1, t2, t3, t4);
            var b := WritePair(cfg, s, session, scope, clientId, drawn, t1, t2, t3, t4);
            a.(refresh := a.refresh[token := last]) == b.(refresh := b.refresh[token := last])
  {
    hide SealSession, StampSession;
  }

  class AuthService {
    const config: Config
    var file: Store  // what the store file holds

    constructor (config: Config)
      ensures this.config == config && file == EmptyStore
    {
      this.config := config;
      file := EmptyStore;
    }

    method PruneNow(k: Ticks)
      modifies this
      ensures file == Apply(config, old(file), BackgroundPrune, k).store
    {
      var state := new LoadedState(file);
      state.PruneExpired(k.t0, GraceMs(config));
      file := state.Snapshot();
    }

    method BeginAuthorizationFromSession(terms: CodeTerms, session: Session, code: string, nonce: nat, k: Ticks)
      returns (r: Response)
      modifies this
      ensures Outcome(file, r) == Apply(config, old(file), BeginAuthorization(terms, session, code, nonce), k)
    {
      var stamped := StampSession(config, session, terms.clientId);
      var state := new LoadedState(file);
      state.MintAuthorizationCode(config, code, terms, stamped, nonce, k.t0, k.t1);
      file := state.Snapshot();
      r := Code(code);
    }

    method BeginSsoAuthorizationFlow(request: SsoRequest, handoff: string, requestedAt: int, k: Ticks)
      returns (r: Response)
      modifies this
      ensures Outcome(file, r) == Apply(config, old(file), BeginSsoAuthorization(request, handoff, requestedAt), k)
    {
      var expiresAt := requestedAt + config.ssoPendingTtlSeconds * 1000;
      var purgeAt := expiresAt + config.ssoReplayRetentionSeconds * 1000;
      var state := new LoadedState(file);
      state.PruneExpired(k.t0, GraceMs(config));
      var limit := PerSourceLimit(config);
      var now := k.t1;
      var fromSource := ActiveHandoffsFrom(state.Snapshot(), request.initiatorKey, now);
      if |fromSource| >= limit {
        return SsoCapacity;  // raised: nothing is saved
      }
      var active := ActiveHandoffs(state.Snapshot(), now);
      if |active| >= MAX_PENDING_SSO_STATES {
        return SsoCapacity;
      }
      var filed := request.(codeChallengeMethod := MethodOrS256(request.codeChallengeMethod));
      state.handoffs := state.handoffs[handoff := HandoffRecord(filed, now, expiresAt, None, purgeAt)];
      file := state.Snapshot();
      r := Handoff(handoff);
    }

    method InspectPendingSsoState(handoff: string, k: Ticks) returns (r: Response)
      ensures Outcome(file, r) == Apply(config, file, InspectHandoff(handoff), k)
    {
      if handoff !in file.handoffs {
        return Observed(Invalid, None);
      }
      var record := file.handoffs[handoff];
      if Truthy(record.usedAt) {
        return Observed(Replayed, Some(record));
      }
      r := Observed(if k.t0 > record.expiresAt then Expired else Active, Some(record));
    }

    method CompleteSso(handoff: string, session: Session, code: string, nonce: nat, k: Ticks) returns (r: Response)
      modifies this
      ensures Outcome(file, r) == Apply(config, old(file), CompleteSsoAuthorization(handoff, session, code, nonce), k)
    {
      var state := new LoadedState(file);
      state.PruneExpired(k.t0, GraceMs(config));
      var record := Lookup(state.handoffs, handoff);
      var status := Classify(record, k.t1);
      if status != Active {
        file := state.Snapshot();
        return Observed(status, record);
      }
      var stamped := StampSession(config, session, record.value.request.clientId);
      state.MintAuthorizationCode(config, code, HandoffTerms(record.value), stamped, nonce, k.t2, k.t3);
      var used := record.value.(usedAt := Some(k.t4));
      if handoff in state.handoffs {  // the record may have been pruned away and be detached
        state.handoffs := state.handoffs[handoff := used];
      }
      file := state.Snapshot();
      r := Valid(Some(code), used);
    }

    method ConsumePendingSsoState(handoff: string, k: Ticks) returns (r: Response)
      modifies this
      ensures Outcome(file, r) == Apply(config, old(file), ConsumePendingHandoff(handoff), k)
    {
      var state := new LoadedState(file);
      state.PruneExpired(k.t0, GraceMs(config));
      if handoff !in state.handoffs {
        r := Observed(Invalid, None);
      } else {
        var record := state.handoffs[handoff];
        if Truthy(record.usedAt) {
          r := Observed(Replayed, Some(record));
        } else if k.t1 > record.expiresAt {
          r := Observed(Expired, Some(record));
        } else {
          record := record.(usedAt := Some(k.t2));
          state.handoffs := state.handoffs[handoff := record];
          r := Valid(None, record);
        }
      }
      file := state.Snapshot();
    }

    method ConsumeAuthorizationCode(code: string, clientId: string, redirectUri: string, verifier: string, k: Ticks)
      returns (r: Response)
      modifies this
      ensures Outcome(file, r) == Apply(config, old(file), ExchangeConsume(code, clientId, redirectUri, verifier), k)
    {
      if !IsConfigured(config, clientId) {
        return Failed(InvalidClient);
      }
      var state := new LoadedState(file);
      state.PruneExpired(k.t0, GraceMs(config));
      if code !in state.codes {
        r := Failed(CodeNotFound);
      } else {
        var record := state.codes[code];
        state.codes := state.codes - {code};
        if record.clientId != clientId || record.redirectUri != redirectUri {
          r := Failed(BindingMismatch);
        } else if record.codeChallenge == "" || verifier == "" {
          r := Failed(VerifierRequired);
        } else if MethodOrS256(record.codeChallengeMethod) != "S256" {
          r := Failed(OnlyS256);
        } else if config.sha256Base64Url(verifier) != record.codeChallenge {
          r := Failed(PkceFailed);
        } else {
          var plain := OpenSession(config, record.session);
          r := if plain.None? then Failed(SessionGone) else Consumed(plain.value, record.scope);
        }
      }
      file := state.Snapshot();
    }

    method CreateTokenPair(session: Session, scope: string, clientId: string, drawn: Draw, k: Ticks)
      returns (r: Response)
      modifies this
      ensures Outcome(file, r) == Apply(config, old(file), ExchangeMint(session, scope, clientId, drawn), k)
    {
      var state := new LoadedState(file);
      state.PruneExpired(k.t0, GraceMs(config));
      var tokens := state.WriteTokenPair(config, session, scope, clientId, drawn, k.t1, k.t2, k.t3, k.t4);
      file := state.Snapshot();
      r := Tokens(tokens);
    }

    method RefreshTokenPair(clientId: string, token: string, drawn: Draw, k: Ticks) returns (r: Response)
      modifies this
      ensures Outcome(file, r) == Apply(config, old(file), RefreshAccessToken(clientId, token, drawn), k)
    {
      hide PruneAt, WritePair, PairResponse, StampRefresh, OpenSession;
      if !IsConfigured(config, clientId) {
        return Failed(InvalidClient);
      }
      var grace := config.refreshGraceSeconds * 1000;
      var state := new LoadedState(file);
      state.PruneExpired(k.t0, grace);
      if token !in state.refresh || state.refresh[token].clientId != clientId {
        r := Failed(RefreshNotFound);
      } else {
        var record := StampRefresh(config, state.refresh[token]);
        state.refresh := state.refresh[token := record];
        var plain := OpenSession(config, record.session);
        if plain.None? {
          r := Failed(SessionGone);
        } else if Truthy(record.revokedAt) {
          r := Failed(RefreshNotFound);
          if k.t1 - record.revokedAt.value <= grace {
            var cached := record.rotationResponse;
            if cached.Some? && cached.value.refreshToken != "" {
              r := Tokens(cached.value);
            }
          }
        } else {
          ghost var stamped := state.Snapshot();
          record := record.(revokedAt := Some(k.t1));
          state.refresh := state.refresh[token := record];
          var tokens := state.WriteTokenPair(config, plain.value, record.scope, clientId, drawn, k.t2, k.t3, k.t4,
                                             k.t5);
          WritingCommutes(config, stamped, token, record, record.(rotationResponse := Some(tokens)),
                          plain.value, record.scope, clientId, drawn, k.t2, k.t3, k.t4, k.t5);
          record := record.(rotationResponse := Some(tokens));
          state.refresh := state.refresh[token := record];
          r := Tokens(tokens);
        }
      }
      file := state.Snapshot();
    }

    method ReadToken(token: string, k: Ticks) returns (r: Response)
      modifies this
      ensures Outcome(file, r) == Apply(config, old(file), ReadAccessToken(token), k)
    {
      var state := new LoadedState(file);
      state.PruneExpired(k.t0, GraceMs(config));
      var found: Option<AccessRecord> := None;
      if token in state.access && IsConfigured(config, state.access[token].clientId) {
        var record := StampAccess(config, state.access[token]);
        state.access := state.access[token := record];
        found := Some(record);
      }
      file := state.Snapshot();
      r := Access(if found.None? then None else OpenAccess(config, found.value));
    }

    method RevokeOneToken(token: string, k: Ticks) returns (r: Response)
      modifies this
      ensures Outcome(file, r) == Apply(config, old(file), RevokeOne(token), k)
    {
      var state := new LoadedState(file);
      state.PruneExpired(k.t0, GraceMs(config));
      r := Flag(false);
      if token in state.access {
        state.access := state.access[token := state.access[token].(revokedAt := Some(k.t1))];
        state.access := state.access - {token};
        r := Flag(true);
      } else if token in state.refresh {
        state.refresh := state.refresh[token := state.refresh[token].(revokedAt := Some(k.t1))];
        r := Flag(true);
      }
      file := state.Snapshot();
    }

    method RevokeTokensForUser(userId: string, tenantId: string, k: Ticks)
      modifies this
      ensures file == Apply(config, old(file), RevokeAllForUser(userId, tenantId), k).store
    {
      var state := new LoadedState(file);
      state.PruneExpired(k.t0, GraceMs(config));
      state.RevokeOwnedAccess(userId, tenantId, k.t1);
      state.RevokeOwnedRefresh(userId, tenantId, k.t1);
      state.ExpireOwnedGrants(userId, tenantId);
      file := state.Snapshot();
    }

    /** Counts come from a pruned copy that is never saved. */
    method Statistics(k: Ticks) returns (r: Response)
      ensures Outcome(file, r) == Apply(config, file, GetStats, k)
    {
      var state := new LoadedState(file);
      state.PruneExpired(k.t0, GraceMs(config));
      r := Counts(|state.codes|, |state.access|, |state.refresh|, |state.grants|);
    }
  }
}
