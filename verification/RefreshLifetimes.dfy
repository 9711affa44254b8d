/**
 What a refresh token is good for, from the step that mints it on: exactly until when it rotates,
 and exactly until when its one answer is repeated.
*/
module RefreshLifetimes {
  import opened Options
  import opened FieldCrypto
  import opened TokenStore
  import opened TokenRuns
  import opened TokenEffects
  import opened Provenance
  import opened AccessLifetimes
  import opened RefreshAnswers

  // ---------------------------------------------------------------- minting

  /** The step mints refresh token `t`: the second half of an exchange, or a rotation. */
  ghost predicate MintsRefresh(cfg: Config, y: System, st: Step, t: string)
    requires Enabled(y, st)
  {
    || (st.Mint? && t == st.drawn.refresh)
    || (Rotated(cfg, y, st) && t == st.op.drawn.refresh)
  }

  /** The step is a refresh answered with the pair it drew. */
  ghost predicate Rotated(cfg: Config, y: System, st: Step)
    requires Enabled(y, st)
  {
    st.Lone? && st.op.RefreshAccessToken? && MintsAccess(cfg, y, st, st.op.drawn.access)
  }

  /** The reading its lifetime is counted from. */
  function RefreshMintedAt(st: Step): int
    requires st.Mint? || st.Lone?
  {
    if st.Mint? then st.k.t4 else st.k.t5
  }

  ghost predicate FiledRefresh(cfg: Config, r: RefreshRecord, clientId: string, at: int) {
    && r.clientId == clientId && r.integration == IntegrationOf(cfg, clientId)
    && r.expiresAt == at + cfg.refreshTtlSeconds * 1000 && r.revokedAt == None && r.rotationResponse == None
  }

  lemma MintFilesRefresh(cfg: Config, s: Store, op: Op, k: Ticks)
    requires Ordered(k) && op.ExchangeMint?
    ensures var after := Apply(cfg, s, op, k).store.refresh;
            op.drawn.refresh in after && FiledRefresh(cfg, after[op.drawn.refresh], op.clientId, k.t4)
  {
    hide SealSession, StampSession;
  }

  /** A rotation files the new token, and marks the old one with the time and the answer. */
  lemma RotationFilesRefresh(cfg: Config, s: Store, op: Op, k: Ticks)
    requires Ordered(k) && op.RefreshAccessToken? && WillRotate(cfg, s, op, k) && op.drawn.refresh != op.token
    ensures var o := Apply(cfg, s, op, k); var after := o.store.refresh;
            && op.drawn.refresh in after && FiledRefresh(cfg, after[op.drawn.refresh], op.clientId, k.t5)
            && op.token in after && o.response.Tokens? && after[op.token].rotationResponse == Some(o.response.tokens)
            && after[op.token].revokedAt == Some(k.t1) && after[op.token].clientId == op.clientId
            && after[op.token].expiresAt == s.refresh[op.token].expiresAt
            && OpenSession(cfg, after[op.token].session).Some?
            && o.response.tokens.refreshToken == op.drawn.refresh
  {
    hide SealSession, StampSession, OpenSession;
  }

  lemma MintStepFilesRefresh(cfg: Config, run: seq<System>, steps: seq<Step>, i: nat, t: string)
    requires IsRun(cfg, run, steps) && i < |steps| && MintsRefresh(cfg, run[i], steps[i], t)
    ensures var after := run[i + 1].store.refresh;
            && t in after && t in run[i + 1].issued
            && FiledRefresh(cfg, after[t], MintingClient(run[i], steps[i]), RefreshMintedAt(steps[i]))
            && IsConfigured(cfg, MintingClient(run[i], steps[i]))
  {
    hide Apply;
    var op, k := OpOf(run[i], steps[i]), steps[i].k;
    assert t in Draws(op);
    NamesIssuedInRun(cfg, run, steps, i);
    MinterIsConfigured(cfg, run, steps, i, op.drawn.access);
    if steps[i].Mint? {
      MintFilesRefresh(cfg, run[i].store, op, k);
    } else {
      MintingRefreshRotates(cfg, run, steps, i);
      RotationFilesRefresh(cfg, run[i].store, op, k);
    }
  }

  // ---------------------------------------------------------------- keeping

  ghost predicate SameRefresh(cfg: Config, a: RefreshRecord, b: RefreshRecord) {
    && b.clientId == a.clientId && b.scope == a.scope && b.expiresAt == a.expiresAt
    && SessionKept(cfg, a.session, b.session, a.clientId)
  }

  /** It is neither due by its expiry nor by a revocation longer ago than the grace. */
  predicate NotDue(cfg: Config, r: RefreshRecord, now: int) {
    && (r.expiresAt != 0 ==> now < r.expiresAt)
    && (Truthy(r.revokedAt) ==> now - r.revokedAt.value <= cfg.refreshGraceSeconds * 1000)
  }

  ghost predicate Marked(a: RefreshRecord, b: RefreshRecord) {
    b.revokedAt == a.revokedAt && b.rotationResponse == a.rotationResponse
  }

  ghost predicate RefreshFixed(cfg: Config, y: System, t: string, r: RefreshRecord) {
    t in y.issued && (t in y.store.refresh ==> SameRefresh(cfg, r, y.store.refresh[t]))
  }

  /** The record stays, with its marks, until it is due. */
  ghost predicate RefreshStays(cfg: Config, y: System, t: string, r: RefreshRecord) {
    && RefreshFixed(cfg, y, t, r)
    && (t in y.store.refresh ==> Marked(r, y.store.refresh[t]))
    && (NotDue(cfg, r, y.clock) ==> t in y.store.refresh)
  }

  ghost predicate RefreshOfKept(cfg: Config, before: map<string, RefreshRecord>, after: map<string, RefreshRecord>,
                                t: string)
  {
    t in after ==> t in before && SameRefresh(cfg, before[t], after[t])
  }

  ghost predicate RefreshUntouched(cfg: Config, before: map<string, RefreshRecord>, after: map<string, RefreshRecord>,
                                   t: string, now: int)
  {
    && (t in after ==> t in before && Marked(before[t], after[t]))
    && (t in before && NotDue(cfg, before[t], now) ==> t in after)
  }

  ghost predicate RefreshLeft(cfg: Config, before: map<string, RefreshRecord>, after: map<string, RefreshRecord>,
                              t: string, now: int)
  {
    RefreshOfKept(cfg, before, after, t) && RefreshUntouched(cfg, before, after, t, now)
  }

  lemma PruneLeavesRefresh(cfg: Config, s: Store, now: int, later: int, t: string)
    requires now <= later
    ensures var p := Prune(cfg, s, now).refresh;
            RefreshLeft(cfg, s.refresh, p, t, later) && (t in p ==> p[t] == s.refresh[t])
  {
  }

  lemma NothingLeavesRefresh(cfg: Config, refresh: map<string, RefreshRecord>, t: string, now: int)
    ensures RefreshLeft(cfg, refresh, refresh, t, now)
  {
  }

  lemma MintLeavesRefresh(cfg: Config, s: Store, op: Op, k: Ticks, t: string)
    requires Ordered(k) && op.ExchangeMint? && t != op.drawn.refresh
    ensures RefreshLeft(cfg, s.refresh, Apply(cfg, s, op, k).store.refresh, t, k.t5)
  {
    hide SealSession, StampSession, PruneAt, SameRefresh, NotDue;
    PruneLeavesRefresh(cfg, s, k.t0, k.t5, t);
  }

  /** The refresh would rotate `t`, or already has: it is asked for by its own client. */
  predicate PresentsRefresh(st: Step, t: string, clientId: string) {
    st.Lone? && st.op.RefreshAccessToken? && st.op.token == t && st.op.clientId == clientId
  }

  lemma RefreshLeavesOthers(cfg: Config, s: Store, op: Op, k: Ticks, t: string)
    requires Ordered(k) && op.RefreshAccessToken? && t != op.drawn.refresh
    requires op.token != t || (t in s.refresh && s.refresh[t].clientId != op.clientId) || t !in s.refresh
    ensures RefreshLeft(cfg, s.refresh, Apply(cfg, s, op, k).store.refresh, t, k.t5)
  {
    hide SealSession, StampSession, OpenSession, PruneAt, SameRefresh, NotDue, Replay, StampRefresh;
    PruneLeavesRefresh(cfg, s, k.t0, k.t5, t);
    NothingLeavesRefresh(cfg, s.refresh, t, k.t5);
  }

  lemma ReplayLeavesRefresh(cfg: Config, s: Store, op: Op, k: Ticks, t: string)
    requires Ordered(k) && op.RefreshAccessToken? && t != op.drawn.refresh && op.token == t
    requires t in s.refresh && Truthy(s.refresh[t].revokedAt)
    ensures RefreshLeft(cfg, s.refresh, Apply(cfg, s, op, k).store.refresh, t, k.t5)
  {
    hide SealSession, StampSession, OpenSession, PruneAt, NotDue, Replay, WritePair;
    PruneLeavesRefresh(cfg, s, k.t0, k.t5, t);
    NothingLeavesRefresh(cfg, s.refresh, t, k.t5);
  }

  lemma RevokeOneLeavesOthers(cfg: Config, s: Store, op: Op, k: Ticks, t: string)
    requires Ordered(k) && op.RevokeOne?
    ensures var after := Apply(cfg, s, op, k).store.refresh;
            RefreshOfKept(cfg, s.refresh, after, t) && (t != op.token ==> RefreshLeft(cfg, s.refresh, after, t, k.t5))
  {
    hide PruneAt, NotDue, SameRefresh;
    PruneLeavesRefresh(cfg, s, k.t0, k.t5, t);
    if t in Prune(cfg, s, k.t0).refresh { SameWithAnyStamp(cfg, Prune(cfg, s, k.t0).refresh[t], Some(k.t1)); }
  }

  lemma SameWithAnyStamp(cfg: Config, r: RefreshRecord, at: Option<int>)
    ensures SameRefresh(cfg, r, r.(revokedAt := at))
  {
  }

  lemma RevokeUserLeavesOthers(cfg: Config, s: Store, op: Op, k: Ticks, t: string)
    requires Ordered(k) && op.RevokeAllForUser?
    ensures var after := Apply(cfg, s, op, k).store.refresh;
            && RefreshOfKept(cfg, s.refresh, after, t)
            && (t in s.refresh
                && !(s.refresh[t].session.userId == op.userId && s.refresh[t].session.tenantId == op.tenantId)
                ==> RefreshLeft(cfg, s.refresh, after, t, k.t5))
  {
    hide NotDue;
    PruneLeavesRefresh(cfg, s, k.t0, k.t5, t);
  }

  lemma OthersLeaveRefresh(cfg: Config, s: Store, op: Op, k: Ticks, t: string)
    requires Ordered(k) && !op.ExchangeMint? && !op.RefreshAccessToken? && !op.RevokeOne? && !op.RevokeAllForUser?
    ensures RefreshLeft(cfg, s.refresh, Apply(cfg, s, op, k).store.refresh, t, k.t5)
  {
    hide SealSession, StampSession, OpenSession, CheckCode, PruneAt, PerSourceLimit, ActiveHandoffs, ActiveHandoffsFrom,
         SameRefresh, NotDue;
    NothingLeavesRefresh(cfg, s.refresh, t, k.t5);
    PruneLeavesRefresh(cfg, s, k.t0, k.t5, t);
    PruneLeavesRefresh(cfg, Prune(cfg, s, k.t0), k.t2, k.t5, t);
  }

  /** The step revokes this token, or everything of this user. */
  predicate RevokesRefresh(st: Step, t: string, session: Session) {
    st.Lone? && (st.op == RevokeOne(t) || st.op == RevokeAllForUser(session.userId, session.tenantId))
  }

  /** A transaction that neither revokes `t` nor rotates it leaves it alone. */
  lemma TransactionLeavesRefresh(cfg: Config, s: Store, op: Op, k: Ticks, t: string)
    requires Ordered(k) && t !in Draws(op) && t in s.refresh
    requires op != RevokeOne(t)
    requires op != RevokeAllForUser(s.refresh[t].session.userId, s.refresh[t].session.tenantId)
    requires op.RefreshAccessToken? && op.token == t && op.clientId == s.refresh[t].clientId ==>
               Truthy(s.refresh[t].revokedAt)
    ensures RefreshLeft(cfg, s.refresh, Apply(cfg, s, op, k).store.refresh, t, k.t5)
  {
    hide Apply, RefreshLeft;
    if op.ExchangeMint? {
      MintLeavesRefresh(cfg, s, op, k, t);
    } else if op.RefreshAccessToken? {
      if op.token == t && op.clientId == s.refresh[t].clientId {
        ReplayLeavesRefresh(cfg, s, op, k, t);
      } else {
        RefreshLeavesOthers(cfg, s, op, k, t);
      }
    } else if op.RevokeOne? {
      RevokeOneLeavesOthers(cfg, s, op, k, t);
    } else if op.RevokeAllForUser? {
      RevokeUserLeavesOthers(cfg, s, op, k, t);
    } else {
      OthersLeaveRefresh(cfg, s, op, k, t);
    }
  }

  lemma StepLeavesRefresh(cfg: Config, y: System, st: Step, t: string, r: RefreshRecord)
    requires NamesIssued(y) && Enabled(y, st) && RefreshStays(cfg, y, t, r) && !RevokesRefresh(st, t, r.session)
    requires Truthy(r.revokedAt) || !PresentsRefresh(st, t, r.clientId)
    ensures RefreshStays(cfg, Next(cfg, y, st), t, r)
  {
    hide Apply, RefreshLeft;
    if !st.Look? {
      var op := OpOf(y, st);
      if t in y.store.refresh {
        SameRefreshTwice(cfg, r, r, y.store.refresh[t]);
        TransactionLeavesRefresh(cfg, y.store, op, st.k, t);
        LeftStays(cfg, y.store.refresh, Apply(cfg, y.store, op, st.k).store.refresh, t, r, y.clock, st.k.t5);
      } else {
        RefreshNamesAreDrawn(cfg, y.store, op, st.k);
      }
    }
  }

  lemma LeftStays(cfg: Config, before: map<string, RefreshRecord>, after: map<string, RefreshRecord>, t: string,
                  r: RefreshRecord, now: int, later: int)
    requires now <= later && t in before && SameRefresh(cfg, r, before[t]) && Marked(r, before[t])
    requires RefreshLeft(cfg, before, after, t, later)
    ensures t in after ==> SameRefresh(cfg, r, after[t]) && Marked(r, after[t])
    ensures NotDue(cfg, r, later) ==> t in after
  {
    if t in after { SameRefreshTwice(cfg, r, before[t], after[t]); }
  }

  lemma SameRefreshTwice(cfg: Config, a: RefreshRecord, b: RefreshRecord, c: RefreshRecord)
    requires (a == b || SameRefresh(cfg, a, b)) && SameRefresh(cfg, b, c)
    ensures SameRefresh(cfg, a, c)
    ensures c.session.userId == a.session.userId && c.session.tenantId == a.session.tenantId
  {
    StampBindsTheClient(cfg, a.session, a.clientId, a.clientId);
  }

  lemma {:induction false} RefreshStaysOn(cfg: Config, run: seq<System>, steps: seq<Step>, i: nat, j: nat, t: string,
                                          r: RefreshRecord)
    requires IsRun(cfg, run, steps) && i <= j < |run| && RefreshStays(cfg, run[i], t, r)
    requires forall m :: i <= m < j ==>
               !RevokesRefresh(steps[m], t, r.session)
               && (Truthy(r.revokedAt) || !PresentsRefresh(steps[m], t, r.clientId))
    ensures RefreshStays(cfg, run[j], t, r)
  {
    hide Next, Enabled, RefreshStays;
    if i < j {
      RefreshStaysOn(cfg, run, steps, i, j - 1, t, r);
      NamesIssuedInRun(cfg, run, steps, j - 1);
      StepLeavesRefresh(cfg, run[j - 1], steps[j - 1], t, r);
    }
  }

  // ---------------------------------------------------------------- the expiry never changes

  lemma KeptIsSame(cfg: Config, before: map<string, RefreshRecord>, after: map<string, RefreshRecord>, k: Ticks,
                   t: string)
    requires RefreshKept(cfg, before, after, k)
    ensures RefreshOfKept(cfg, before, after, t)
  {
  }

  lemma RotationKeepsExpiry(cfg: Config, s: Store, op: Op, k: Ticks, t: string)
    requires Ordered(k) && op.RefreshAccessToken? && op.drawn.refresh !in s.refresh && t != op.drawn.refresh
    ensures RefreshOfKept(cfg, s.refresh, Apply(cfg, s, op, k).store.refresh, t)
  {
    hide Apply, SessionKept;
    var after := Apply(cfg, s, op, k).store.refresh;
    if WillRotate(cfg, s, op, k) {
      RotationMintsOnePair(cfg, s, op, k);
      if t == op.token {
        StampIsSame(cfg, s.refresh[t], after[t].revokedAt, after[t].rotationResponse);
      } else {
        KeptIsSame(cfg, s.refresh - {op.token}, after - {op.drawn.refresh, op.token}, k, t);
        assert t in after ==> t in after - {op.drawn.refresh, op.token};
      }
    } else {
      OtherRefreshMintsNothing(cfg, s, op, k);
      KeptIsSame(cfg, s.refresh, after, k, t);
    }
  }

  lemma StampIsSame(cfg: Config, r: RefreshRecord, at: Option<int>, answer: Option<TokenResponse>)
    ensures SameRefresh(cfg, r, StampRefresh(cfg, r).(revokedAt := at, rotationResponse := answer))
  {
  }

  lemma TransactionKeepsExpiry(cfg: Config, s: Store, op: Op, k: Ticks, t: string)
    requires Ordered(k) && t !in Draws(op) && Draws(op) !! s.refresh.Keys
    ensures RefreshOfKept(cfg, s.refresh, Apply(cfg, s, op, k).store.refresh, t)
  {
    hide Apply, RefreshOfKept;
    if op.ExchangeMint? {
      MintLeavesRefresh(cfg, s, op, k, t);
      LeftIsKept(cfg, s.refresh, Apply(cfg, s, op, k).store.refresh, t, k.t5);
    } else if op.RefreshAccessToken? {
      assert op.drawn.refresh in Draws(op);
      RotationKeepsExpiry(cfg, s, op, k, t);
    } else {
      OthersKeepRefresh(cfg, s, op, k);
      KeptIsSame(cfg, s.refresh, Apply(cfg, s, op, k).store.refresh, k, t);
    }
  }

  lemma LeftIsKept(cfg: Config, before: map<string, RefreshRecord>, after: map<string, RefreshRecord>, t: string,
                   now: int)
    requires RefreshLeft(cfg, before, after, t, now)
    ensures RefreshOfKept(cfg, before, after, t)
  {
  }

  lemma StepKeepsExpiry(cfg: Config, y: System, st: Step, t: string, r: RefreshRecord)
    requires NamesIssued(y) && Enabled(y, st) && RefreshFixed(cfg, y, t, r)
    ensures RefreshFixed(cfg, Next(cfg, y, st), t, r)
  {
    hide Apply, SameRefresh;
    if !st.Look? {
      var op := OpOf(y, st);
      TransactionKeepsExpiry(cfg, y.store, op, st.k, t);
      if t in Apply(cfg, y.store, op, st.k).store.refresh {
        SameRefreshTwice(cfg, r, y.store.refresh[t], Apply(cfg, y.store, op, st.k).store.refresh[t]);
      }
    }
  }

  lemma {:induction false} ExpiryIsKept(cfg: Config, run: seq<System>, steps: seq<Step>, i: nat, j: nat, t: string,
                                        r: RefreshRecord)
    requires IsRun(cfg, run, steps) && i <= j < |run| && RefreshFixed(cfg, run[i], t, r)
    ensures RefreshFixed(cfg, run[j], t, r)
  {
    hide Next, Enabled, RefreshFixed;
    if i < j {
      ExpiryIsKept(cfg, run, steps, i, j - 1, t, r);
      NamesIssuedInRun(cfg, run, steps, j - 1);
      StepKeepsExpiry(cfg, run[j - 1], steps[j - 1], t, r);
    }
  }

  lemma ExpiredRefreshIsRefused(cfg: Config, s: Store, op: Op, k: Ticks)
    requires op.RefreshAccessToken?
    requires op.token in s.refresh ==> s.refresh[op.token].expiresAt != 0 && s.refresh[op.token].expiresAt <= k.t0
    ensures Apply(cfg, s, op, k).response
         == Failed(if op.clientId in cfg.clients then RefreshNotFound else InvalidClient)
  {
  }

  lemma FixedAtMint(cfg: Config, y: System, t: string)
    requires t in y.store.refresh && t in y.issued
    ensures RefreshFixed(cfg, y, t, y.store.refresh[t]) && RefreshStays(cfg, y, t, y.store.refresh[t])
  {
  }

  lemma FixedKeepsItsExpiry(cfg: Config, y: System, t: string, r: RefreshRecord)
    requires RefreshFixed(cfg, y, t, r)
    ensures t in y.store.refresh ==> y.store.refresh[t].expiresAt == r.expiresAt
  {
  }

  /** Main result. No refresh token is answered with tokens, rotated before or not, once it is as old
      as its lifetime. */
  lemma ExpiredRefreshIsNeverAnswered(cfg: Config, run: seq<System>, steps: seq<Step>, i: nat, j: nat, t: string)
    requires IsRun(cfg, run, steps) && i < j < |steps| && MintsRefresh(cfg, run[i], steps[i], t)
    requires steps[j].Lone? && steps[j].op.RefreshAccessToken? && steps[j].op.token == t
    requires steps[j].k.t0 >= RefreshMintedAt(steps[i]) + cfg.refreshTtlSeconds * 1000
    ensures OutcomeOf(cfg, run[j], steps[j]).response
         == Failed(if steps[j].op.clientId in cfg.clients then RefreshNotFound else InvalidClient)
  {
    hide Apply, Next, RefreshFixed;
    MintStepFilesRefresh(cfg, run, steps, i, t);
    var r := run[i + 1].store.refresh[t];
    FixedAtMint(cfg, run[i + 1], t);
    ExpiryIsKept(cfg, run, steps, i + 1, j, t, r);
    FixedKeepsItsExpiry(cfg, run[j], t, r);
    ExpiredRefreshIsRefused(cfg, run[j].store, steps[j].op, steps[j].k);
  }

  // ---------------------------------------------------------------- the first refresh

  /** The step revokes the refresh token `t` as stored in `s`, or refreshes it for its own client. */
  predicate SpendsStored(st: Step, s: Store, t: string) {
    t in s.refresh
    && (RevokesRefresh(st, t, s.refresh[t].session) || PresentsRefresh(st, t, s.refresh[t].clientId))
  }

  lemma LiveRefreshAnswers(cfg: Config, s: Store, op: Op, k: Ticks, r: RefreshRecord, origin: Session)
    requires op.RefreshAccessToken? && Ordered(k) && r.revokedAt == None && r.expiresAt > 0
    requires op.token in s.refresh ==> SameRefresh(cfg, r, s.refresh[op.token]) && Marked(r, s.refresh[op.token])
    requires k.t0 < r.expiresAt ==> op.token in s.refresh
    requires Carries(cfg, r.session, origin) && Clean(origin)
    ensures Apply(cfg, s, op, k).response ==
              if op.clientId !in cfg.clients then Failed(InvalidClient)
              else if op.clientId != r.clientId || k.t0 >= r.expiresAt then Failed(RefreshNotFound)
              else Tokens(TokenResponse(op.drawn.access, cfg.tokenTtlSeconds, op.drawn.refresh, r.scope))
  {
    hide OpenSession, StampSession, SealSession, Carries, SameIdentity, WritePair;
    if op.token in s.refresh {
      var stored := s.refresh[op.token];
      KeptCarries(cfg, r.session, stored.session, r.clientId, origin);
      var stamped := StampSession(cfg, stored.session, r.clientId);
      KeptCarries(cfg, stored.session, stamped, r.clientId, origin);
      CleanSessionsOpen(cfg, stamped, origin);
    }
  }

  /** Main result. A refresh token minted at step `i` for a code whose session did not look sealed,
      and presented at step `j` for the first time by its own client, with neither its own
      revocation nor one of its user in between, rotates into the pair drawn if and only if it is
      younger than its lifetime; to another client it is not found. */
  lemma RefreshIsAnsweredExactly(cfg: Config, run: seq<System>, steps: seq<Step>, i: nat, j: nat, t: string)
    requires CorrectCipher(cfg.cipher) && IsRun(cfg, run, steps) && i < j < |steps|
    requires MintsRefresh(cfg, run[i], steps[i], t)
    requires steps[j].Lone? && steps[j].op.RefreshAccessToken? && steps[j].op.token == t
    requires forall m :: i < m < j ==> !SpendsStored(steps[m], run[i + 1].store, t)
    ensures t in run[i + 1].tokens.codeOf && run[i + 1].tokens.codeOf[t] in run[i + 1].codes.origins
    ensures var o := run[i + 1].codes.origins[run[i + 1].tokens.codeOf[t]]; var op := steps[j].op;
            Clean(o.session) ==>
              OutcomeOf(cfg, run[j], steps[j]).response ==
                if op.clientId !in cfg.clients then Failed(InvalidClient)
                else if op.clientId != o.terms.clientId
                        || steps[j].k.t0 >= RefreshMintedAt(steps[i]) + cfg.refreshTtlSeconds * 1000
                then Failed(RefreshNotFound)
                else Tokens(TokenResponse(op.drawn.access, cfg.tokenTtlSeconds, op.drawn.refresh, o.terms.scope))
  {
    hide Apply, Next, SameRefresh, Carries;
    MintStepFilesRefresh(cfg, run, steps, i, t);
    TokensCarryTheirCode(cfg, run, steps, i + 1, t);
    var r, o := run[i + 1].store.refresh[t], run[i + 1].codes.origins[run[i + 1].tokens.codeOf[t]];
    FixedAtMint(cfg, run[i + 1], t);
    RefreshStaysOn(cfg, run, steps, i + 1, j, t, r);
    if Clean(o.session) {
      LiveRefreshAnswers(cfg, run[j].store, steps[j].op, steps[j].k, r, o.session);
    }
  }

  // ---------------------------------------------------------------- the replay

  lemma RotatedRefreshAnswers(cfg: Config, s: Store, op: Op, k: Ticks, r: RefreshRecord)
    requires op.RefreshAccessToken? && Ordered(k) && Truthy(r.revokedAt) && r.expiresAt > 0
    requires r.rotationResponse.Some? && r.rotationResponse.value.refreshToken != ""
    requires OpenSession(cfg, r.session).Some?
    requires op.token in s.refresh ==> SameRefresh(cfg, r, s.refresh[op.token]) && Marked(r, s.refresh[op.token])
    requires NotDue(cfg, r, k.t0) ==> op.token in s.refresh
    ensures Apply(cfg, s, op, k).response ==
              if op.clientId !in cfg.clients then Failed(InvalidClient)
              else if op.clientId == r.clientId && k.t0 < r.expiresAt
                      && k.t1 - r.revokedAt.value <= cfg.refreshGraceSeconds * 1000
              then Tokens(r.rotationResponse.value)
              else Failed(RefreshNotFound)
  {
    hide OpenSession, StampSession, SealSession, WritePair;
    if op.token in s.refresh {
      var stored := s.refresh[op.token];
      OpeningIgnoresTheStamp(cfg, r.session, r.clientId);
      OpeningIgnoresTheStamp(cfg, stored.session, r.clientId);
    }
  }

  /** The step revokes the rotated token `t` as stored in `s`. */
  predicate RevokesRotated(st: Step, s: Store, t: string) {
    t in s.refresh && RevokesRefresh(st, t, s.refresh[t].session)
  }

  lemma RotationMarks(cfg: Config, run: seq<System>, steps: seq<Step>, i: nat)
    requires IsRun(cfg, run, steps) && i < |steps| && Rotated(cfg, run[i], steps[i])
    ensures var t := steps[i].op.token; var after := run[i + 1].store.refresh;
            var r := OutcomeOf(cfg, run[i], steps[i]).response;
            && t in run[i].store.refresh && t in after && t in run[i + 1].issued
            && r.Tokens? && after[t].rotationResponse == Some(r.tokens) && r.tokens.refreshToken != ""
            && after[t].revokedAt == Some(steps[i].k.t1) && after[t].clientId == steps[i].op.clientId
            && after[t].expiresAt == run[i].store.refresh[t].expiresAt
            && OpenSession(cfg, after[t].session).Some?
  {
    hide Apply, OpenSession;
    var op, k := steps[i].op, steps[i].k;
    NamesIssuedInRun(cfg, run, steps, i);
    assert {op.drawn.access, op.drawn.refresh} <= Draws(op);
    MintingRefreshRotates(cfg, run, steps, i);
    RotationFilesRefresh(cfg, run[i].store, op, k);
  }

  /** Every stored refresh token expires at some instant. */
  ghost predicate AllExpire(refresh: map<string, RefreshRecord>) {
    forall t :: t in refresh ==> refresh[t].expiresAt > 0
  }

  lemma StepKeepsAllExpiring(cfg: Config, y: System, st: Step)
    requires NamesIssued(y) && Enabled(y, st) && AllExpire(y.store.refresh)
    ensures AllExpire(Next(cfg, y, st).store.refresh)
  {
    hide Apply, SameRefresh;
    if !st.Look? {
      var op, k := OpOf(y, st), st.k;
      var after := Apply(cfg, y.store, op, k).store.refresh;
      forall t | t in after ensures after[t].expiresAt > 0 {
        if t in Draws(op) {
          DrawnRefreshExpires(cfg, y.store, op, k, t);
        } else {
          TransactionKeepsExpiry(cfg, y.store, op, k, t);
          SameKeepsExpiry(cfg, y.store.refresh[t], after[t]);
        }
      }
    }
  }

  lemma SameKeepsExpiry(cfg: Config, a: RefreshRecord, b: RefreshRecord)
    requires SameRefresh(cfg, a, b)
    ensures b.expiresAt == a.expiresAt
  {
  }

  lemma DrawnRefreshExpires(cfg: Config, s: Store, op: Op, k: Ticks, t: string)
    requires Ordered(k) && t in Draws(op) && Draws(op) !! s.refresh.Keys
    requires op.ExchangeMint? || op.RefreshAccessToken? ==> op.drawn.access != op.drawn.refresh
    requires t in Apply(cfg, s, op, k).store.refresh
    ensures Apply(cfg, s, op, k).store.refresh[t].expiresAt > 0
  {
    hide Apply, RefreshKept;
    if op.ExchangeMint? {
      DrawnRefreshIsTheRefresh(cfg, s, op, k, t);
      MintFilesRefresh(cfg, s, op, k);
    } else if op.RefreshAccessToken? {
      DrawnRefreshIsTheRefresh(cfg, s, op, k, t);
      if WillRotate(cfg, s, op, k) {
        RotationFilesRefresh(cfg, s, op, k);
      } else {
        OtherRefreshMintsNothing(cfg, s, op, k);
      }
    } else {
      OthersKeepRefresh(cfg, s, op, k);
      KeptIsSame(cfg, s.refresh, Apply(cfg, s, op, k).store.refresh, k, t);
    }
  }

  lemma DrawnRefreshIsTheRefresh(cfg: Config, s: Store, op: Op, k: Ticks, t: string)
    requires Ordered(k) && (op.ExchangeMint? || op.RefreshAccessToken?) && t in Draws(op) && Draws(op) !! s.refresh.Keys
    requires t in Apply(cfg, s, op, k).store.refresh
    ensures t == op.drawn.refresh
  {
    hide SealSession, StampSession, OpenSession, Replay;
    assert t !in s.refresh;
  }

  lemma {:induction false} AllExpireInRun(cfg: Config, run: seq<System>, steps: seq<Step>, i: nat)
    requires IsRun(cfg, run, steps) && i < |run|
    ensures AllExpire(run[i].store.refresh)
  {
    hide Next, Enabled;
    if i > 0 {
      AllExpireInRun(cfg, run, steps, i - 1);
      NamesIssuedInRun(cfg, run, steps, i - 1);
      StepKeepsAllExpiring(cfg, run[i - 1], steps[i - 1]);
    }
  }

  /** Main result. A refresh token rotated at step `i` and not revoked since is answered with that
      very response if and only if its own client asks within the grace of the rotation and before
      the token expires; otherwise it is not found. */
  lemma RotatedRefreshIsAnsweredExactly(cfg: Config, run: seq<System>, steps: seq<Step>, i: nat, j: nat)
    requires IsRun(cfg, run, steps) && i < j < |steps| && Rotated(cfg, run[i], steps[i])
    requires steps[j].Lone? && steps[j].op.RefreshAccessToken? && steps[j].op.token == steps[i].op.token
    requires forall m :: i < m < j ==> !RevokesRotated(steps[m], run[i + 1].store, steps[i].op.token)
    ensures steps[i].op.token in run[i].store.refresh
    ensures OutcomeOf(cfg, run[j], steps[j]).response ==
              if steps[j].op.clientId !in cfg.clients then Failed(InvalidClient)
              else if steps[j].op.clientId == steps[i].op.clientId
                      && steps[j].k.t0 < run[i].store.refresh[steps[i].op.token].expiresAt
                      && steps[j].k.t1 - steps[i].k.t1 <= cfg.refreshGraceSeconds * 1000
              then OutcomeOf(cfg, run[i], steps[i]).response
              else Failed(RefreshNotFound)
  {
    hide Apply, Next, SameRefresh, OpenSession;
    var t := steps[i].op.token;
    RotationMarks(cfg, run, steps, i);
    AllExpireInRun(cfg, run, steps, i);
    var r := run[i + 1].store.refresh[t];
    FixedAtMint(cfg, run[i + 1], t);
    RefreshStaysOn(cfg, run, steps, i + 1, j, t, r);
    RotatedRefreshAnswers(cfg, run[j].store, steps[j].op, steps[j].k, r);
  }
}
