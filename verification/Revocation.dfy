/** What a bulk revocation guarantees in every continuation of a run. */
module Revocation {
  import opened Options
  import opened TokenStore
  import opened TokenRuns
  import opened TokenEffects

  /** Issued before and useless from now on, whether or not a record is left. */
  ghost predicate DeadAccess(y: System, t: string) {
    t in y.issued && (t in y.store.access ==> Truthy(y.store.access[t].revokedAt))
  }

  ghost predicate DeadRefresh(y: System, t: string) {
    t in y.issued && (t in y.store.refresh ==> Truthy(y.store.refresh[t].revokedAt))
  }

  ghost predicate DeadGrant(y: System, g: string) {
    g in y.issued && (g in y.store.grants ==> y.store.grants[g].expiresAt <= 0)
  }

  // ---------------------------------------------------------------- dead stays dead

  lemma AccessStaysDead(cfg: Config, s: Store, op: Op, k: Ticks, t: string)
    requires Ordered(k) && t !in Draws(op)
    requires t in s.access ==> Truthy(s.access[t].revokedAt)
    ensures var after := Apply(cfg, s, op, k).store.access; t in after ==> Truthy(after[t].revokedAt)
  {
    hide SealSession, StampSession, OpenSession, CheckCode, PerSourceLimit, ActiveHandoffs, ActiveHandoffsFrom;
    if op.ExchangeMint? {
      assert t != op.drawn.access;
    } else if op.RefreshAccessToken? {
      assert t != op.drawn.access;
    } else {
      OthersKeepAccess(cfg, s, op, k);
    }
  }

  lemma RefreshStaysDead(cfg: Config, s: Store, op: Op, k: Ticks, t: string)
    requires Ordered(k) && t !in Draws(op)
    requires t in s.refresh ==> Truthy(s.refresh[t].revokedAt)
    ensures var after := Apply(cfg, s, op, k).store.refresh; t in after ==> Truthy(after[t].revokedAt)
  {
    hide SealSession, StampSession, OpenSession, CheckCode, PerSourceLimit, ActiveHandoffs, ActiveHandoffsFrom;
    if op.ExchangeMint? {
      assert t != op.drawn.refresh;
    } else if op.RefreshAccessToken? {
      assert t != op.drawn.refresh;
    } else {
      OthersKeepRefresh(cfg, s, op, k);
    }
  }

  lemma GrantStaysDead(cfg: Config, s: Store, op: Op, k: Ticks, g: string)
    requires g !in Draws(op)
    requires g in s.grants ==> s.grants[g].expiresAt <= 0
    ensures var after := Apply(cfg, s, op, k).store.grants; g in after ==> after[g].expiresAt <= 0
  {
    if op.CreateAssetGrant? {
      assert g != op.grant;
    } else if !op.RevokeAllForUser? {
      GrantsShrink(cfg, s, op, k);
    }
  }

  lemma StepKeepsDead(cfg: Config, y: System, st: Step, t: string)
    requires Enabled(y, st) && t in y.issued
    ensures t in Next(cfg, y, st).issued
    ensures DeadAccess(y, t) ==> DeadAccess(Next(cfg, y, st), t)
    ensures DeadRefresh(y, t) ==> DeadRefresh(Next(cfg, y, st), t)
    ensures DeadGrant(y, t) ==> DeadGrant(Next(cfg, y, st), t)
  {
    if !st.Look? {
      var op := OpOf(y, st);
      if DeadAccess(y, t) { AccessStaysDead(cfg, y.store, op, st.k, t); }
      if DeadRefresh(y, t) { RefreshStaysDead(cfg, y.store, op, st.k, t); }
      if DeadGrant(y, t) { GrantStaysDead(cfg, y.store, op, st.k, t); }
    }
  }

  lemma {:induction false} DeadInContinuation(cfg: Config, run: seq<System>, steps: seq<Step>, i: nat, j: nat,
                                              t: string)
    requires IsRun(cfg, run, steps) && i <= j < |run| && t in run[i].issued
    ensures t in run[j].issued
    ensures DeadAccess(run[i], t) ==> DeadAccess(run[j], t)
    ensures DeadRefresh(run[i], t) ==> DeadRefresh(run[j], t)
    ensures DeadGrant(run[i], t) ==> DeadGrant(run[j], t)
  {
    hide Next, Enabled, DeadAccess, DeadRefresh, DeadGrant;
    if i < j {
      DeadInContinuation(cfg, run, steps, i, j - 1, t);
      StepKeepsDead(cfg, run[j - 1], steps[j - 1], t);
    }
  }

  // ---------------------------------------------------------------- dead is useless

  lemma DeadAccessIsUnreadable(cfg: Config, s: Store, t: string, now: int)
    requires t in s.access ==> Truthy(s.access[t].revokedAt)
    ensures ReadAccess(cfg, s, t, now).response == Access(None)
  {
  }

  lemma DeadGrantIsNotFound(s: Store, g: string, now: int)
    requires 0 < now && (g in s.grants ==> s.grants[g].expiresAt <= 0)
    ensures LookupGrant(s, g, now).response == Grant(None)
  {
  }

  /** A dead refresh token is not rotated, so it stays without children. */
  lemma DeadRefreshMintsNothing(cfg: Config, y: System, st: Step, t: string)
    requires NamesIssued(y) && Enabled(y, st) && DeadRefresh(y, t)
    ensures Next(cfg, y, st).tokens.children[t] == y.tokens.children[t]
  {
    if !st.Look? {
      var op := OpOf(y, st);
      if op.RefreshAccessToken? && op.token == t {
        assert {op.drawn.access, op.drawn.refresh} <= Draws(op);
        assert !WillRotate(cfg, y.store, op, st.k);
        OtherRefreshMintsNothing(cfg, y.store, op, st.k);
      }
    }
  }

  lemma {:induction false} NoChildrenInContinuation(cfg: Config, run: seq<System>, steps: seq<Step>, i: nat, j: nat,
                                                    t: string)
    requires IsRun(cfg, run, steps) && i <= j < |run| && DeadRefresh(run[i], t)
    ensures run[j].tokens.children[t] == run[i].tokens.children[t]
  {
    hide Next, Enabled;
    if i < j {
      NoChildrenInContinuation(cfg, run, steps, i, j - 1, t);
      DeadInContinuation(cfg, run, steps, i, j - 1, t);
      NamesIssuedInRun(cfg, run, steps, j - 1);
      DeadRefreshMintsNothing(cfg, run[j - 1], steps[j - 1], t);
    }
  }

  // ---------------------------------------------------------------- bulk revocation

  predicate GrantOf(r: GrantRecord, userId: string, tenantId: string) {
    r.userId == userId && r.tenantId == tenantId
  }

  lemma RevocationKills(cfg: Config, s: Store, op: Op, k: Ticks)
    requires op.RevokeAllForUser? && Ordered(k)
    ensures var after := Apply(cfg, s, op, k).store;
            && (forall t :: t in s.access && Owns(s.access[t].session, op.userId, op.tenantId) && t in after.access ==>
                  Truthy(after.access[t].revokedAt))
            && (forall t :: t in s.refresh && Owns(s.refresh[t].session, op.userId, op.tenantId) ==>
                  t in after.refresh ==> Truthy(after.refresh[t].revokedAt))
            && (forall g :: g in s.grants && GrantOf(s.grants[g], op.userId, op.tenantId) && g in after.grants ==>
                  after.grants[g].expiresAt <= 0)
  {
  }

  lemma RevocationLeavesDead(cfg: Config, run: seq<System>, steps: seq<Step>, i: nat)
    requires IsRun(cfg, run, steps) && i < |steps| && steps[i].Lone? && steps[i].op.RevokeAllForUser?
    ensures var s, op := run[i].store, steps[i].op;
            && (forall t :: t in s.access && Owns(s.access[t].session, op.userId, op.tenantId) ==>
                    DeadAccess(run[i + 1], t))
            && (forall t :: t in s.refresh && Owns(s.refresh[t].session, op.userId, op.tenantId) ==>
                    DeadRefresh(run[i + 1], t))
            && (forall g :: g in s.grants && GrantOf(s.grants[g], op.userId, op.tenantId) ==> DeadGrant(run[i + 1], g))
  {
    NamesIssuedInRun(cfg, run, steps, i);
    RevocationKills(cfg, run[i].store, steps[i].op, steps[i].k);
  }

  ghost predicate RevokedAt(cfg: Config, run: seq<System>, steps: seq<Step>, i: nat, j: nat) {
    IsRun(cfg, run, steps) && i < j < |steps| && steps[i].Lone? && steps[i].op.RevokeAllForUser?
  }

  /** Main result. An access token of the user that was stored when a bulk revocation committed
      reads as nothing at every later step. */
  lemma RevokedAccessIsNeverReadAgain(cfg: Config, run: seq<System>, steps: seq<Step>, i: nat, j: nat, t: string)
    requires RevokedAt(cfg, run, steps, i, j)
    requires t in run[i].store.access && Owns(run[i].store.access[t].session, steps[i].op.userId, steps[i].op.tenantId)
    requires steps[j].Lone? && steps[j].op == ReadAccessToken(t)
    ensures OutcomeOf(cfg, run[j], steps[j]).response == Access(None)
  {
    RevocationLeavesDead(cfg, run, steps, i);
    DeadInContinuation(cfg, run, steps, i + 1, j, t);
    DeadAccessIsUnreadable(cfg, run[j].store, t, steps[j].k.t0);
  }

  /** Main result. No refresh token of the user that was stored when a bulk revocation committed
      is ever the source of a new pair, although a replay may still be answered from its cache. */
  lemma RevokedRefreshNeverMintsAgain(cfg: Config, run: seq<System>, steps: seq<Step>, i: nat, j: nat, t: string)
    requires RevokedAt(cfg, run, steps, i, j)
    requires t in run[i].store.refresh
    requires Owns(run[i].store.refresh[t].session, steps[i].op.userId, steps[i].op.tenantId)
    ensures run[j + 1].tokens.children[t] == run[i + 1].tokens.children[t]
  {
    RevocationLeavesDead(cfg, run, steps, i);
    NoChildrenInContinuation(cfg, run, steps, i + 1, j + 1, t);
  }

  /** Main result. No asset grant of the user that was stored when a bulk revocation committed
      is ever found again, so none verifies. */
  lemma RevokedGrantIsNeverFoundAgain(cfg: Config, run: seq<System>, steps: seq<Step>, i: nat, j: nat, g: string)
    requires RevokedAt(cfg, run, steps, i, j)
    requires g in run[i].store.grants && GrantOf(run[i].store.grants[g], steps[i].op.userId, steps[i].op.tenantId)
    requires steps[j].Lone? && steps[j].op == LookupAssetGrant(g)
    ensures OutcomeOf(cfg, run[j], steps[j]).response == Grant(None)
  {
    RevocationLeavesDead(cfg, run, steps, i);
    DeadInContinuation(cfg, run, steps, i + 1, j, g);
    DeadGrantIsNotFound(run[j].store, g, steps[j].k.t0);
  }
}
