/** Revoking one token (section 2 of RFC 7009): what is answered, and what it does for good. */
module SingleRevocation {
  import opened Options
  import opened TokenStore
  import opened TokenRuns
  import opened TokenEffects
  import opened Revocation
  import opened AccessLifetimes
  import opened RefreshLifetimes

  // ---------------------------------------------------------------- no name is both

  ghost predicate Disjoint(s: Store) {
    s.access.Keys !! s.refresh.Keys
  }

  lemma MintKeepsDisjoint(cfg: Config, s: Store, op: Op, k: Ticks)
    requires Ordered(k) && op.ExchangeMint? && Disjoint(s) && op.drawn.access != op.drawn.refresh
    requires op.drawn.access !in s.refresh && op.drawn.refresh !in s.access
    ensures Disjoint(Apply(cfg, s, op, k).store)
  {
    hide SealSession, StampSession;
  }

  lemma RefreshKeepsDisjoint(cfg: Config, s: Store, op: Op, k: Ticks)
    requires Ordered(k) && op.RefreshAccessToken? && Disjoint(s) && op.drawn.access != op.drawn.refresh
    requires op.drawn.access !in s.refresh && op.drawn.refresh !in s.access
    ensures Disjoint(Apply(cfg, s, op, k).store)
  {
    hide SealSession, StampSession, OpenSession, Replay, KeepRefresh, KeepAccess;
  }

  lemma OthersKeepDisjoint(cfg: Config, s: Store, op: Op, k: Ticks)
    requires Ordered(k) && !op.ExchangeMint? && !op.RefreshAccessToken? && Disjoint(s)
    ensures Disjoint(Apply(cfg, s, op, k).store)
  {
    hide Apply;
    OthersKeepAccess(cfg, s, op, k);
    OthersKeepRefresh(cfg, s, op, k);
  }

  lemma StepKeepsDisjoint(cfg: Config, y: System, st: Step)
    requires NamesIssued(y) && Enabled(y, st) && Disjoint(y.store)
    ensures Disjoint(Next(cfg, y, st).store)
  {
    hide Apply;
    if !st.Look? {
      var op := OpOf(y, st);
      assert op.ExchangeMint? || op.RefreshAccessToken? ==> {op.drawn.access, op.drawn.refresh} <= Draws(op);
      if op.ExchangeMint? {
        MintKeepsDisjoint(cfg, y.store, op, st.k);
      } else if op.RefreshAccessToken? {
        RefreshKeepsDisjoint(cfg, y.store, op, st.k);
      } else {
        OthersKeepDisjoint(cfg, y.store, op, st.k);
      }
    }
  }

  lemma {:induction false} DisjointInRun(cfg: Config, run: seq<System>, steps: seq<Step>, i: nat)
    requires IsRun(cfg, run, steps) && i < |run|
    ensures Disjoint(run[i].store)
  {
    hide Next, Enabled;
    if i > 0 {
      DisjointInRun(cfg, run, steps, i - 1);
      NamesIssuedInRun(cfg, run, steps, i - 1);
      StepKeepsDisjoint(cfg, run[i - 1], steps[i - 1]);
    }
  }

  // ---------------------------------------------------------------- what one revocation does

  /** The token is an access token that still reads, or a refresh token that is not due. */
  ghost predicate Revocable(cfg: Config, s: Store, t: string, now: int) {
    || (t in s.access && now < s.access[t].expiresAt && !Truthy(s.access[t].revokedAt))
    || (t in s.refresh && NotDue(cfg, s.refresh[t], now))
  }

  lemma RevocationDecides(cfg: Config, s: Store, t: string, k: Ticks)
    requires Ordered(k) && Disjoint(s)
    ensures var o := RevokeToken(cfg, s, t, k.t0, k.t1);
            && o.response == Flag(Revocable(cfg, s, t, k.t0))
            && (t !in o.store.access)
            && (Revocable(cfg, s, t, k.t0) ==> t in o.store.refresh ==> o.store.refresh[t].revokedAt == Some(k.t1))
            && (t in s.refresh && NotDue(cfg, s.refresh[t], k.t0) ==>
                  t in o.store.refresh && o.store.refresh[t] == s.refresh[t].(revokedAt := Some(k.t1)))
  {
  }

  lemma RevokedLeavesOthers(cfg: Config, s: Store, t: string, k: Ticks, u: string)
    requires Ordered(k) && u != t
    ensures var after := RevokeToken(cfg, s, t, k.t0, k.t1).store;
            && (u in after.access ==> u in s.access && after.access[u] == s.access[u])
            && (u in s.access && k.t0 < s.access[u].expiresAt && !Truthy(s.access[u].revokedAt) ==> u in after.access)
            && (u in after.refresh ==> u in s.refresh && after.refresh[u] == s.refresh[u])
            && (u in s.refresh && NotDue(cfg, s.refresh[u], k.t0) ==> u in after.refresh)
  {
  }

  /** Main result. Revoking a token answers true if and only if it is a stored token that is not
      due; no other token's record changes, or goes before it is due. */
  lemma RevocationAnswersExactly(cfg: Config, run: seq<System>, steps: seq<Step>, i: nat, t: string, u: string)
    requires IsRun(cfg, run, steps) && i < |steps| && steps[i].Lone? && steps[i].op == RevokeOne(t)
    ensures OutcomeOf(cfg, run[i], steps[i]).response == Flag(Revocable(cfg, run[i].store, t, steps[i].k.t0))
    ensures var s, after, now := run[i].store, run[i + 1].store, steps[i].k.t0;
            u != t ==>
              && (u in after.access ==> u in s.access && after.access[u] == s.access[u])
              && (u in s.access && now < s.access[u].expiresAt && !Truthy(s.access[u].revokedAt) ==> u in after.access)
              && (u in after.refresh ==> u in s.refresh && after.refresh[u] == s.refresh[u])
              && (u in s.refresh && NotDue(cfg, s.refresh[u], now) ==> u in after.refresh)
  {
    hide RevokeToken, Revocable, NotDue;
    DisjointInRun(cfg, run, steps, i);
    RevocationDecides(cfg, run[i].store, t, steps[i].k);
    if u != t { RevokedLeavesOthers(cfg, run[i].store, t, steps[i].k, u); }
  }

  lemma RevokedIsDead(cfg: Config, run: seq<System>, steps: seq<Step>, i: nat, t: string)
    requires IsRun(cfg, run, steps) && i < |steps| && steps[i].Lone? && steps[i].op == RevokeOne(t)
    requires OutcomeOf(cfg, run[i], steps[i]).response == Flag(true)
    ensures DeadAccess(run[i + 1], t) && DeadRefresh(run[i + 1], t)
  {
    hide RevokeToken;
    NamesIssuedInRun(cfg, run, steps, i);
    DisjointInRun(cfg, run, steps, i);
    RevocationDecides(cfg, run[i].store, t, steps[i].k);
  }

  /** Main result. Once a revocation is answered true, the token reads as nothing and is the source of
      no new pair in every continuation of the run. */
  lemma RevokedTokenIsDeadForGood(cfg: Config, run: seq<System>, steps: seq<Step>, i: nat, j: nat, t: string)
    requires IsRun(cfg, run, steps) && i < j < |steps| && steps[i].Lone? && steps[i].op == RevokeOne(t)
    requires OutcomeOf(cfg, run[i], steps[i]).response == Flag(true)
    ensures DeadAccess(run[j], t) && DeadRefresh(run[j], t)
    ensures steps[j].Lone? && steps[j].op == ReadAccessToken(t) ==>
              OutcomeOf(cfg, run[j], steps[j]).response == Access(None)
    ensures run[j + 1].tokens.children[t] == run[i + 1].tokens.children[t]
  {
    hide RevokeToken, ReadAccess, Next;
    RevokedIsDead(cfg, run, steps, i, t);
    DeadInContinuation(cfg, run, steps, i + 1, j, t);
    if steps[j].Lone? { DeadAccessIsUnreadable(cfg, run[j].store, t, steps[j].k.t0); }
    NoChildrenInContinuation(cfg, run, steps, i + 1, j + 1, t);
  }
}
