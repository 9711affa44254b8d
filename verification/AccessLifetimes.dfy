/**
 What an access token is good for, from the step that mints it on: exactly until when it reads,
 and what its bearer is told.
*/
module AccessLifetimes {
  import opened Options
  import opened FieldCrypto
  import opened TokenStore
  import opened TokenRuns
  import opened TokenEffects
  import opened Provenance

  // ---------------------------------------------------------------- minting

  /** The step mints access token `t`: the second half of an exchange, or a rotation. */
  ghost predicate MintsAccess(cfg: Config, y: System, st: Step, t: string)
    requires Enabled(y, st)
  {
    || (st.Mint? && t == st.drawn.access)
    || (st.Lone? && st.op.RefreshAccessToken? && t == st.op.drawn.access
        && OutcomeOf(cfg, y, st).response.Tokens? && OutcomeOf(cfg, y, st).response.tokens.accessToken == t)
  }

  /** The reading its lifetime is counted from. */
  function AccessMintedAt(st: Step): int
    requires st.Mint? || st.Lone?
  {
    if st.Mint? then st.k.t1 else st.k.t2
  }

  function MintingClient(y: System, st: Step): string
    requires Enabled(y, st) && (st.Mint? || (st.Lone? && st.op.RefreshAccessToken?))
  {
    if st.Mint? then y.exchanges[st.tid].clientId else st.op.clientId
  }

  /** What a mint files, apart from the session. */
  ghost predicate FiledAccess(cfg: Config, a: AccessRecord, clientId: string, at: int, later: int) {
    && a.clientId == clientId && a.integration == IntegrationOf(cfg, clientId)
    && a.expiresAt == at + cfg.tokenTtlSeconds * 1000 && a.revokedAt == None
    && at <= a.createdAt <= later
  }

  lemma MintFilesAccess(cfg: Config, s: Store, op: Op, k: Ticks)
    requires Ordered(k) && op.ExchangeMint?
    ensures var after := Apply(cfg, s, op, k).store.access;
            op.drawn.access in after && FiledAccess(cfg, after[op.drawn.access], op.clientId, k.t1, k.t5)
  {
  }

  lemma RotationFilesAccess(cfg: Config, s: Store, op: Op, k: Ticks)
    requires Ordered(k) && op.RefreshAccessToken? && WillRotate(cfg, s, op, k)
    ensures var after := Apply(cfg, s, op, k).store.access;
            op.drawn.access in after && FiledAccess(cfg, after[op.drawn.access], op.clientId, k.t2, k.t5)
  {
    hide SealSession, StampSession;
  }

  /** An answer that names the drawn access token comes of a rotation, not of the cache. */
  lemma MintingRefreshRotates(cfg: Config, run: seq<System>, steps: seq<Step>, i: nat)
    requires IsRun(cfg, run, steps) && i < |steps| && steps[i].Lone? && steps[i].op.RefreshAccessToken?
    requires var r := OutcomeOf(cfg, run[i], steps[i]).response;
             r.Tokens? && r.tokens.accessToken == steps[i].op.drawn.access
    ensures WillRotate(cfg, run[i].store, steps[i].op, steps[i].k)
  {
    hide Apply;
    var y, op, k := run[i], steps[i].op, steps[i].k;
    NamesIssuedInRun(cfg, run, steps, i);
    CachedNamesIssuedInRun(cfg, run, steps, i);
    assert {op.drawn.access, op.drawn.refresh} <= Draws(op);
    if !WillRotate(cfg, y.store, op, k) {
      OtherRefreshMintsNothing(cfg, y.store, op, k);
    }
  }

  /** Every cached answer names tokens drawn before. */
  ghost predicate CachedNamesIssued(refresh: map<string, RefreshRecord>, issued: set<string>) {
    forall t :: t in refresh && refresh[t].rotationResponse.Some? ==>
      refresh[t].rotationResponse.value.accessToken in issued
  }

  lemma KeptCachedNames(cfg: Config, before: map<string, RefreshRecord>, after: map<string, RefreshRecord>, k: Ticks,
                        issued: set<string>, issued': set<string>)
    requires RefreshKept(cfg, before, after, k) && CachedNamesIssued(before, issued) && issued <= issued'
    ensures CachedNamesIssued(after, issued')
  {
  }

  lemma MintKeepsCachedNames(cfg: Config, s: Store, op: Op, k: Ticks, issued: set<string>)
    requires Ordered(k) && op.ExchangeMint? && CachedNamesIssued(s.refresh, issued)
    ensures CachedNamesIssued(Apply(cfg, s, op, k).store.refresh, issued + Draws(op))
  {
    hide Apply;
    MintAddsOnePair(cfg, s, op, k);
    var after, d := Apply(cfg, s, op, k).store.refresh, op.drawn;
    KeptCachedNames(cfg, s.refresh - {d.refresh}, after - {d.refresh}, k, issued, issued + Draws(op));
    assert forall t :: t in after && t != d.refresh ==> t in after - {d.refresh};
  }

  lemma RefreshKeepsCachedNames(cfg: Config, s: Store, op: Op, k: Ticks, issued: set<string>)
    requires Ordered(k) && op.RefreshAccessToken? && CachedNamesIssued(s.refresh, issued)
    requires op.drawn.refresh !in s.refresh
    ensures CachedNamesIssued(Apply(cfg, s, op, k).store.refresh, issued + Draws(op))
  {
    hide Apply;
    var after, d := Apply(cfg, s, op, k).store.refresh, op.drawn;
    if WillRotate(cfg, s, op, k) {
      RotationMintsOnePair(cfg, s, op, k);
      KeptCachedNames(cfg, s.refresh - {op.token}, after - {d.refresh, op.token}, k, issued, issued + Draws(op));
      assert forall t :: t in after && t != d.refresh && t != op.token ==> t in after - {d.refresh, op.token};
    } else {
      OtherRefreshMintsNothing(cfg, s, op, k);
      KeptCachedNames(cfg, s.refresh, after, k, issued, issued + Draws(op));
    }
  }

  lemma StepKeepsCachedNames(cfg: Config, y: System, st: Step)
    requires NamesIssued(y) && Enabled(y, st) && CachedNamesIssued(y.store.refresh, y.issued)
    ensures CachedNamesIssued(Next(cfg, y, st).store.refresh, Next(cfg, y, st).issued)
  {
    hide Apply, CachedNamesIssued;
    if !st.Look? {
      var op := OpOf(y, st);
      if op.ExchangeMint? {
        MintKeepsCachedNames(cfg, y.store, op, st.k, y.issued);
      } else if op.RefreshAccessToken? {
        assert {op.drawn.access, op.drawn.refresh} <= Draws(op);
        RefreshKeepsCachedNames(cfg, y.store, op, st.k, y.issued);
      } else {
        OthersKeepRefresh(cfg, y.store, op, st.k);
        KeptCachedNames(cfg, y.store.refresh, Apply(cfg, y.store, op, st.k).store.refresh, st.k, y.issued,
                        y.issued + Draws(op));
      }
    }
  }

  lemma {:induction false} CachedNamesIssuedInRun(cfg: Config, run: seq<System>, steps: seq<Step>, i: nat)
    requires IsRun(cfg, run, steps) && i < |run|
    ensures CachedNamesIssued(run[i].store.refresh, run[i].issued)
  {
    hide Next, Enabled;
    if i > 0 {
      CachedNamesIssuedInRun(cfg, run, steps, i - 1);
      NamesIssuedInRun(cfg, run, steps, i - 1);
      StepKeepsCachedNames(cfg, run[i - 1], steps[i - 1]);
    }
  }

  lemma MintStepFilesAccess(cfg: Config, run: seq<System>, steps: seq<Step>, i: nat, t: string)
    requires IsRun(cfg, run, steps) && i < |steps| && MintsAccess(cfg, run[i], steps[i], t)
    ensures var after := run[i + 1].store.access;
            && t in after && t in run[i + 1].issued
            && FiledAccess(cfg, after[t], MintingClient(run[i], steps[i]), AccessMintedAt(steps[i]), steps[i].k.t5)
  {
    hide Apply;
    var op, k := OpOf(run[i], steps[i]), steps[i].k;
    assert t in Draws(op);
    if steps[i].Mint? {
      MintFilesAccess(cfg, run[i].store, op, k);
    } else {
      MintingRefreshRotates(cfg, run, steps, i);
      RotationFilesAccess(cfg, run[i].store, op, k);
    }
  }

  // ---------------------------------------------------------------- keeping

  ghost predicate SameAccess(cfg: Config, a: AccessRecord, b: AccessRecord) {
    && b.clientId == a.clientId && b.scope == a.scope && b.expiresAt == a.expiresAt
    && SessionKept(cfg, a.session, b.session, a.clientId)
  }

  /** Whatever is stored under the token still has its expiry. */
  ghost predicate AccessFixed(cfg: Config, y: System, t: string, a: AccessRecord) {
    t in y.issued && (t in y.store.access ==> SameAccess(cfg, a, y.store.access[t]))
  }

  /** It is there until then, unrevoked. */
  ghost predicate AccessLives(cfg: Config, y: System, t: string, a: AccessRecord) {
    && AccessFixed(cfg, y, t, a)
    && (t in y.store.access ==> !Truthy(y.store.access[t].revokedAt))
    && (y.clock < a.expiresAt ==> t in y.store.access)
  }

  ghost predicate AccessRecordKept(cfg: Config, before: map<string, AccessRecord>, after: map<string, AccessRecord>,
                                   t: string)
  {
    t in after ==> t in before && SameAccess(cfg, before[t], after[t])
  }

  ghost predicate AccessUntouched(before: map<string, AccessRecord>, after: map<string, AccessRecord>, t: string,
                                  now: int)
  {
    && (t in after ==> t in before && after[t].revokedAt == before[t].revokedAt)
    && (t in before && now < before[t].expiresAt && !Truthy(before[t].revokedAt) ==> t in after)
  }

  lemma PruneKeepsAccessOf(cfg: Config, s: Store, now: int, t: string)
    ensures var p := Prune(cfg, s, now).access;
            && AccessRecordKept(cfg, s.access, p, t) && AccessUntouched(s.access, p, t, now)
            && (t in p ==> p[t] == s.access[t])
  {
  }

  lemma MintKeepsOtherAccess(cfg: Config, s: Store, op: Op, k: Ticks, t: string)
    requires Ordered(k) && op.ExchangeMint? && t != op.drawn.access
    ensures var after := Apply(cfg, s, op, k).store.access;
            AccessRecordKept(cfg, s.access, after, t) && AccessUntouched(s.access, after, t, k.t5)
  {
    hide SealSession, StampSession, PruneAt, SameAccess;
    PruneKeepsAccessOf(cfg, s, k.t0, t);
  }

  lemma RefreshKeepsOtherAccess(cfg: Config, s: Store, op: Op, k: Ticks, t: string)
    requires Ordered(k) && op.RefreshAccessToken? && t != op.drawn.access
    ensures var after := Apply(cfg, s, op, k).store.access;
            AccessRecordKept(cfg, s.access, after, t) && AccessUntouched(s.access, after, t, k.t5)
  {
    hide SealSession, StampSession, OpenSession, PruneAt, SameAccess, KeepRefresh, Replay;
    PruneKeepsAccessOf(cfg, s, k.t0, t);
    assert AccessRecordKept(cfg, s.access, s.access, t) by { NothingKeepsAccess(cfg, s.access, t); }
  }

  lemma NothingKeepsAccess(cfg: Config, access: map<string, AccessRecord>, t: string)
    ensures AccessRecordKept(cfg, access, access, t)
  {
  }

  lemma ReadKeepsAccessOf(cfg: Config, s: Store, token: string, now: int, t: string)
    ensures var after := ReadAccess(cfg, s, token, now).store.access;
            AccessRecordKept(cfg, s.access, after, t) && AccessUntouched(s.access, after, t, now)
  {
    hide OpenSession, PruneAt, StampSession;
    PruneKeepsAccessOf(cfg, s, now, t);
  }

  lemma RevokeOneKeepsOthers(cfg: Config, s: Store, token: string, k: Ticks, t: string)
    requires Ordered(k)
    ensures var after := RevokeToken(cfg, s, token, k.t0, k.t1).store.access;
            AccessRecordKept(cfg, s.access, after, t) && (t != token ==> AccessUntouched(s.access, after, t, k.t5))
  {
    hide PruneAt, SameAccess;
    PruneKeepsAccessOf(cfg, s, k.t0, t);
  }

  lemma RevokeUserKeepsOthers(cfg: Config, s: Store, op: Op, k: Ticks, t: string)
    requires Ordered(k) && op.RevokeAllForUser?
    ensures var after := Apply(cfg, s, op, k).store.access;
            && AccessRecordKept(cfg, s.access, after, t)
            && (t in s.access
                && !(s.access[t].session.userId == op.userId && s.access[t].session.tenantId == op.tenantId)
                ==> AccessUntouched(s.access, after, t, k.t5))
  {
    PruneKeepsAccessOf(cfg, s, k.t0, t);
  }

  lemma OthersKeepAccessOf(cfg: Config, s: Store, op: Op, k: Ticks, t: string)
    requires Ordered(k) && !op.ExchangeMint? && !op.RefreshAccessToken? && !op.ReadAccessToken?
    requires !op.RevokeOne? && !op.RevokeAllForUser?
    ensures var after := Apply(cfg, s, op, k).store.access;
            AccessRecordKept(cfg, s.access, after, t) && AccessUntouched(s.access, after, t, k.t5)
  {
    hide SealSession, StampSession, OpenSession, CheckCode, PruneAt, PerSourceLimit, ActiveHandoffs, ActiveHandoffsFrom;
    NothingKeepsAccess(cfg, s.access, t);
    PruneKeepsAccessOf(cfg, s, k.t0, t);
    PruneKeepsAccessOf(cfg, Prune(cfg, s, k.t0), k.t2, t);
  }

  lemma ReadStepKeepsAccessOf(cfg: Config, s: Store, op: Op, k: Ticks, t: string)
    requires Ordered(k) && op.ReadAccessToken?
    ensures var after := Apply(cfg, s, op, k).store.access;
            AccessRecordKept(cfg, s.access, after, t) && AccessUntouched(s.access, after, t, k.t5)
  {
    hide ReadAccess, SameAccess;
    ReadKeepsAccessOf(cfg, s, op.token, k.t0, t);
  }

  lemma RevokeOneStepKeepsOthers(cfg: Config, s: Store, op: Op, k: Ticks, t: string)
    requires Ordered(k) && op.RevokeOne?
    ensures var after := Apply(cfg, s, op, k).store.access;
            AccessRecordKept(cfg, s.access, after, t) && (t != op.token ==> AccessUntouched(s.access, after, t, k.t5))
  {
    hide RevokeToken, SameAccess;
    RevokeOneKeepsOthers(cfg, s, op.token, k, t);
  }

  /** The step revokes this token, or everything of this user. */
  predicate RevokesAccess(st: Step, t: string, session: Session) {
    st.Lone? && (st.op == RevokeOne(t) || st.op == RevokeAllForUser(session.userId, session.tenantId))
  }

  lemma TransactionKeepsAccess(cfg: Config, s: Store, op: Op, k: Ticks, t: string)
    requires Ordered(k) && t !in Draws(op)
    ensures var after := Apply(cfg, s, op, k).store.access;
            && AccessRecordKept(cfg, s.access, after, t)
            && (op != RevokeOne(t)
                && !(t in s.access && op == RevokeAllForUser(s.access[t].session.userId, s.access[t].session.tenantId))
                ==> AccessUntouched(s.access, after, t, k.t5))
  {
    hide Apply, SameAccess;
    if op.ExchangeMint? {
      MintKeepsOtherAccess(cfg, s, op, k, t);
    } else if op.RefreshAccessToken? {
      RefreshKeepsOtherAccess(cfg, s, op, k, t);
    } else if op.ReadAccessToken? {
      ReadStepKeepsAccessOf(cfg, s, op, k, t);
    } else if op.RevokeOne? {
      RevokeOneStepKeepsOthers(cfg, s, op, k, t);
    } else if op.RevokeAllForUser? {
      RevokeUserKeepsOthers(cfg, s, op, k, t);
      assert t !in s.access ==> t !in Apply(cfg, s, op, k).store.access;
    } else {
      OthersKeepAccessOf(cfg, s, op, k, t);
    }
  }

  lemma StepKeepsAccess(cfg: Config, y: System, st: Step, t: string, a: AccessRecord)
    requires Enabled(y, st)
    ensures AccessFixed(cfg, y, t, a) ==> AccessFixed(cfg, Next(cfg, y, st), t, a)
    ensures AccessLives(cfg, y, t, a) && !RevokesAccess(st, t, a.session) ==> AccessLives(cfg, Next(cfg, y, st), t, a)
  {
    hide Apply;
    if AccessFixed(cfg, y, t, a) && !st.Look? {
      var op := OpOf(y, st);
      TransactionKeepsAccess(cfg, y.store, op, st.k, t);
      if t in y.store.access && t in Next(cfg, y, st).store.access {
        SameAccessTwice(cfg, a, y.store.access[t], Next(cfg, y, st).store.access[t]);
      }
    }
  }

  lemma SameAccessTwice(cfg: Config, a: AccessRecord, b: AccessRecord, c: AccessRecord)
    requires SameAccess(cfg, a, b) && SameAccess(cfg, b, c)
    ensures SameAccess(cfg, a, c)
    ensures c.session.userId == a.session.userId && c.session.tenantId == a.session.tenantId
  {
    StampBindsTheClient(cfg, a.session, a.clientId, a.clientId);
  }

  lemma {:induction false} AccessStaysFixed(cfg: Config, run: seq<System>, steps: seq<Step>, i: nat, j: nat, t: string,
                                            a: AccessRecord)
    requires IsRun(cfg, run, steps) && i <= j < |run| && AccessFixed(cfg, run[i], t, a)
    ensures AccessFixed(cfg, run[j], t, a)
  {
    hide Next, Enabled;
    if i < j {
      AccessStaysFixed(cfg, run, steps, i, j - 1, t, a);
      StepKeepsAccess(cfg, run[j - 1], steps[j - 1], t, a);
    }
  }

  lemma {:induction false} AccessLivesOn(cfg: Config, run: seq<System>, steps: seq<Step>, i: nat, j: nat, t: string,
                                         a: AccessRecord)
    requires IsRun(cfg, run, steps) && i <= j < |run| && AccessLives(cfg, run[i], t, a)
    requires forall m :: i <= m < j ==> !RevokesAccess(steps[m], t, a.session)
    ensures AccessLives(cfg, run[j], t, a)
  {
    hide Next, Enabled;
    if i < j {
      AccessLivesOn(cfg, run, steps, i, j - 1, t, a);
      StepKeepsAccess(cfg, run[j - 1], steps[j - 1], t, a);
    }
  }

  // ---------------------------------------------------------------- what a bearer is told

  lemma ExpiredAccessIsUnreadable(cfg: Config, s: Store, t: string, now: int)
    requires t in s.access ==> s.access[t].expiresAt <= now
    ensures ReadAccess(cfg, s, t, now).response == Access(None)
  {
  }

  /** Main result. No access token reads as anything once it is as old as its lifetime. */
  lemma ExpiredTokenReadsAsNothing(cfg: Config, run: seq<System>, steps: seq<Step>, i: nat, j: nat, t: string)
    requires IsRun(cfg, run, steps) && i < j < |steps|
    requires MintsAccess(cfg, run[i], steps[i], t) && steps[j].Lone? && steps[j].op == ReadAccessToken(t)
    requires steps[j].k.t0 >= AccessMintedAt(steps[i]) + cfg.tokenTtlSeconds * 1000
    ensures OutcomeOf(cfg, run[j], steps[j]).response == Access(None)
  {
    hide Next, SameAccess, ReadAccess;
    MintStepFilesAccess(cfg, run, steps, i, t);
    var a := run[i + 1].store.access[t];
    AccessFixedAtMint(cfg, run[i + 1], t);
    AccessStaysFixed(cfg, run, steps, i + 1, j, t, a);
    if t in run[j].store.access { FixedKeepsExpiry(cfg, run[j], t, a); }
    ExpiredAccessIsUnreadable(cfg, run[j].store, t, steps[j].k.t0);
  }

  lemma AccessFixedAtMint(cfg: Config, y: System, t: string)
    requires t in y.store.access && t in y.issued
    ensures AccessFixed(cfg, y, t, y.store.access[t])
  {
  }

  lemma FixedKeepsExpiry(cfg: Config, y: System, t: string, a: AccessRecord)
    requires AccessFixed(cfg, y, t, a) && t in y.store.access
    ensures y.store.access[t].expiresAt == a.expiresAt
  {
  }

  /** What a read of a live record tells: the client, scope and session it was minted with. */
  ghost predicate TellsAccess(cfg: Config, r: AccessRecord, clientId: string, scope: string, session: Session) {
    && r.clientId == clientId && r.scope == scope && SameIdentity(r.session, session)
    && r.integration == IntegrationOf(cfg, clientId)
    && "clientId" in r.session.broker && r.session.broker["clientId"] == clientId
  }

  lemma LiveAccessReads(cfg: Config, s: Store, t: string, now: int, a: AccessRecord, origin: Session)
    requires t in s.access && SameAccess(cfg, a, s.access[t]) && !Truthy(s.access[t].revokedAt) && now < a.expiresAt
    requires IsConfigured(cfg, a.clientId) && Carries(cfg, a.session, origin) && Clean(origin)
    ensures var r := ReadAccess(cfg, s, t, now).response;
            r.Access? && r.access.Some? && TellsAccess(cfg, r.access.value, a.clientId, a.scope, origin)
  {
    hide OpenSession, StampSession, Carries, SameIdentity;
    var stored := s.access[t];
    KeptCarries(cfg, a.session, stored.session, a.clientId, origin);
    var stamped := StampSession(cfg, stored.session, a.clientId);
    KeptCarries(cfg, stored.session, stamped, a.clientId, origin);
    CleanSessionsOpen(cfg, stamped, origin);
    StampBindsTheClient(cfg, stored.session, a.clientId, a.clientId);
    OpeningKeepsBroker(cfg, stamped);
  }

  lemma OpeningKeepsBroker(cfg: Config, session: Session)
    requires OpenSession(cfg, session).Some?
    ensures OpenSession(cfg, session).value.broker == session.broker
  {
  }

  /** Tokens are only ever minted for configured clients. */
  ghost predicate ExchangesConfigured(cfg: Config, x: map<nat, Exchange>) {
    forall tid :: tid in x ==> IsConfigured(cfg, x[tid].clientId)
  }

  lemma ConsumersAreConfigured(cfg: Config, s: Store, op: Op, k: Ticks)
    requires op.ExchangeConsume? && Apply(cfg, s, op, k).response.Consumed?
    ensures IsConfigured(cfg, op.clientId)
  {
  }

  lemma {:induction false} ExchangesConfiguredInRun(cfg: Config, run: seq<System>, steps: seq<Step>, i: nat)
    requires IsRun(cfg, run, steps) && i < |run|
    ensures ExchangesConfigured(cfg, run[i].exchanges)
  {
    hide Apply;
    if i > 0 {
      ExchangesConfiguredInRun(cfg, run, steps, i - 1);
      var y, st := run[i - 1], steps[i - 1];
      if st.Consume? && OutcomeOf(cfg, y, st).response.Consumed? {
        ConsumersAreConfigured(cfg, y.store, OpOf(y, st), st.k);
      }
    }
  }

  lemma MinterIsConfigured(cfg: Config, run: seq<System>, steps: seq<Step>, i: nat, t: string)
    requires IsRun(cfg, run, steps) && i < |steps| && MintsAccess(cfg, run[i], steps[i], t)
    ensures IsConfigured(cfg, MintingClient(run[i], steps[i]))
  {
    hide Apply;
    if steps[i].Mint? {
      ExchangesConfiguredInRun(cfg, run, steps, i);
    } else {
      MintingRefreshRotates(cfg, run, steps, i);
    }
  }

  /** The step revokes the access token `t` as stored in `s`. */
  predicate RevokesStored(st: Step, s: Store, t: string) {
    t in s.access && RevokesAccess(st, t, s.access[t].session)
  }

  /** Main result. An access token minted at step `i` for a code whose session did not look sealed,
      and read at step `j` with neither its own revocation nor one of its user in between, reads as
      its code's client, scope and session if and only if it is younger than its lifetime. */
  lemma AccessIsReadExactly(cfg: Config, run: seq<System>, steps: seq<Step>, i: nat, j: nat, t: string)
    requires CorrectCipher(cfg.cipher) && IsRun(cfg, run, steps) && i < j < |steps|
    requires MintsAccess(cfg, run[i], steps[i], t) && steps[j].Lone? && steps[j].op == ReadAccessToken(t)
    requires forall m :: i < m < j ==> !RevokesStored(steps[m], run[i + 1].store, t)
    ensures t in run[i + 1].tokens.codeOf && run[i + 1].tokens.codeOf[t] in run[i + 1].codes.origins
    ensures var o := run[i + 1].codes.origins[run[i + 1].tokens.codeOf[t]];
            var r := OutcomeOf(cfg, run[j], steps[j]).response;
            Clean(o.session) ==>
              if steps[j].k.t0 >= AccessMintedAt(steps[i]) + cfg.tokenTtlSeconds * 1000 then r == Access(None)
              else r.Access? && r.access.Some?
                   && TellsAccess(cfg, r.access.value, o.terms.clientId, o.terms.scope, o.session)
  {
    hide Next, SameAccess, ReadAccess, TellsAccess, Carries;
    MintStepFilesAccess(cfg, run, steps, i, t);
    MinterIsConfigured(cfg, run, steps, i, t);
    TokensCarryTheirCode(cfg, run, steps, i + 1, t);
    var a, o := run[i + 1].store.access[t], run[i + 1].codes.origins[run[i + 1].tokens.codeOf[t]];
    AccessFixedAtMint(cfg, run[i + 1], t);
    AccessLivesOn(cfg, run, steps, i + 1, j, t, a);
    if steps[j].k.t0 >= a.expiresAt {
      ExpiredTokenReadsAsNothing(cfg, run, steps, i, j, t);
    } else if Clean(o.session) {
      LiveAccessReads(cfg, run[j].store, t, steps[j].k.t0, a, o.session);
    }
  }
}
