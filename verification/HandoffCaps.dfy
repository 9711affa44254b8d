/** The two caps on outstanding SSO handoffs hold in every reachable state. */
module HandoffCaps {
  import opened Options
  import opened TokenStore
  import opened TokenRuns
  import opened HandoffRuns

  ghost predicate CapsHold(cfg: Config, s: Store, now: int) {
    && |ActiveHandoffs(s, now)| <= MAX_PENDING_SSO_STATES
    && forall i :: |ActiveHandoffsFrom(s, i, now)| <= PerSourceLimit(cfg)
  }

  lemma SubsetIsNoLarger(a: set<string>, b: set<string>)
    requires a <= b
    ensures |a| <= |b|
  {
    assert b == a + (b - a);
  }

  /** Everything outstanding in `after` was already outstanding, for the same initiator. */
  ghost predicate NoneAdded(before: Store, now: int, after: Store, later: int) {
    forall h :: h in after.handoffs && IsActiveHandoff(after.handoffs[h], later) ==>
      && h in before.handoffs && IsActiveHandoff(before.handoffs[h], now)
      && before.handoffs[h].request.initiatorKey == after.handoffs[h].request.initiatorKey
  }

  lemma CapsSurvive(cfg: Config, before: Store, now: int, after: Store, later: int)
    requires CapsHold(cfg, before, now) && NoneAdded(before, now, after, later)
    ensures CapsHold(cfg, after, later)
  {
    SubsetIsNoLarger(ActiveHandoffs(after, later), ActiveHandoffs(before, now));
    forall i ensures |ActiveHandoffsFrom(after, i, later)| <= PerSourceLimit(cfg) {
      SubsetIsNoLarger(ActiveHandoffsFrom(after, i, later), ActiveHandoffsFrom(before, i, now));
    }
  }

  /** Filing one record adds at most one to the count of everyone and of its own initiator. */
  lemma FilingAddsOne(p: Store, now: int, h: string, r: HandoffRecord, later: int, i: string)
    requires now <= later
    ensures var q := p.(handoffs := p.handoffs[h := r]);
            && |ActiveHandoffs(q, later)| <= |ActiveHandoffs(p, now)| + 1
            && |ActiveHandoffsFrom(q, i, later)|
               <= |ActiveHandoffsFrom(p, i, now)| + if i == r.request.initiatorKey then 1 else 0
  {
    var q := p.(handoffs := p.handoffs[h := r]);
    SubsetIsNoLarger(ActiveHandoffs(q, later), ActiveHandoffs(p, now) + {h});
    SubsetIsNoLarger(ActiveHandoffsFrom(q, i, later),
                     ActiveHandoffsFrom(p, i, now) + if i == r.request.initiatorKey then {h} else {});
  }

  lemma BeginKeepsCaps(cfg: Config, s: Store, op: Op, k: Ticks, clock: int)
    requires Ordered(k) && clock <= k.t0 && op.BeginSsoAuthorization?
    requires CapsHold(cfg, s, clock)
    ensures CapsHold(cfg, Apply(cfg, s, op, k).store, k.t5)
  {
    var o, p := Apply(cfg, s, op, k), Prune(cfg, s, k.t0);
    CapsSurvive(cfg, s, clock, s, k.t5);
    CapsSurvive(cfg, s, clock, p, k.t1);
    if o.response.Handoff? {
      var r := NewHandoff(cfg, op.request, op.requestedAt, k.t1);
      FilingAddsOne(p, k.t1, op.handoff, r, k.t5, op.request.initiatorKey);
      forall i ensures |ActiveHandoffsFrom(o.store, i, k.t5)| <= PerSourceLimit(cfg) {
        FilingAddsOne(p, k.t1, op.handoff, r, k.t5, i);
      }
    }
  }

  lemma OthersAddNone(cfg: Config, s: Store, op: Op, k: Ticks, clock: int)
    requires Ordered(k) && clock <= k.t0 && !op.BeginSsoAuthorization?
    ensures NoneAdded(s, clock, Apply(cfg, s, op, k).store, k.t5)
  {
    if op.CompleteSsoAuthorization? || op.ConsumePendingHandoff? {
      ValidConsumes(cfg, s, op, k);
      var after := Apply(cfg, s, op, k).store.handoffs;
      forall h | h in after && IsActiveHandoff(after[h], k.t5) && Apply(cfg, s, op, k).response.Valid?
        ensures h in after - {op.handoff}
      {
      }
    } else {
      OthersFade(cfg, s, op, k);
    }
  }

  lemma StepKeepsCaps(cfg: Config, y: System, st: Step)
    requires Enabled(y, st) && CapsHold(cfg, y.store, y.clock)
    ensures CapsHold(cfg, Next(cfg, y, st).store, Next(cfg, y, st).clock)
  {
    if !st.Look? {
      var op := OpOf(y, st);
      if op.BeginSsoAuthorization? {
        BeginKeepsCaps(cfg, y.store, op, st.k, y.clock);
      } else {
        OthersAddNone(cfg, y.store, op, st.k, y.clock);
        CapsSurvive(cfg, y.store, y.clock, Apply(cfg, y.store, op, st.k).store, st.k.t5);
      }
    }
  }

  /** Main result. At every instant of every run at most 2000 handoffs are unused and unexpired,
      and at most the per-source limit, itself between 10 and 200, for any one initiator. */
  lemma {:induction false} CapsHoldInRun(cfg: Config, run: seq<System>, steps: seq<Step>, i: nat, now: int)
    requires IsRun(cfg, run, steps) && i < |run| && run[i].clock <= now
    ensures |ActiveHandoffs(run[i].store, now)| <= 2000
    ensures forall initiator :: |ActiveHandoffsFrom(run[i].store, initiator, now)| <= PerSourceLimit(cfg)
    ensures 10 <= PerSourceLimit(cfg) <= 200
  {
    hide Next, Enabled;
    if i > 0 {
      CapsHoldInRun(cfg, run, steps, i - 1, run[i - 1].clock);
      StepKeepsCaps(cfg, run[i - 1], steps[i - 1]);
    }
    CapsSurvive(cfg, run[i].store, run[i].clock, run[i].store, now);
  }

  /** No record is purged while it still counts, so pruning first does not change the counts. */
  lemma PruningLeavesTheCounts(cfg: Config, s: Store, now: int, later: int)
    requires now <= later && forall h :: h in s.handoffs ==> s.handoffs[h].expiresAt <= s.handoffs[h].purgeAt
    ensures ActiveHandoffs(Prune(cfg, s, now), later) == ActiveHandoffs(s, later)
    ensures forall initiator ::
        ActiveHandoffsFrom(Prune(cfg, s, now), initiator, later) == ActiveHandoffsFrom(s, initiator, later)
  {
  }

  ghost predicate AtCapacity(cfg: Config, s: Store, initiator: string, now: int) {
    |ActiveHandoffsFrom(s, initiator, now)| >= PerSourceLimit(cfg) || |ActiveHandoffs(s, now)| >= MAX_PENDING_SSO_STATES
  }

  lemma InitiationDecides(cfg: Config, s: Store, op: Op, k: Ticks)
    requires op.BeginSsoAuthorization? && Ordered(k)
    requires forall h :: h in s.handoffs ==> s.handoffs[h].expiresAt <= s.handoffs[h].purgeAt
    ensures var o := Apply(cfg, s, op, k);
            if AtCapacity(cfg, s, op.request.initiatorKey, k.t1) then o == Outcome(s, SsoCapacity)
            else o.response == Handoff(op.handoff) && op.handoff in o.store.handoffs
                 && o.store.handoffs[op.handoff].request.(codeChallengeMethod := op.request.codeChallengeMethod)
                   == op.request
  {
    hide PerSourceLimit, Prune;
    PruningLeavesTheCounts(cfg, s, k.t0, k.t1);
  }

  lemma StoredRecordsOutliveTheirExpiry(cfg: Config, run: seq<System>, steps: seq<Step>, i: nat)
    requires IsRun(cfg, run, steps) && i < |run|
    ensures forall h :: h in run[i].store.handoffs ==>
              run[i].store.handoffs[h].expiresAt <= run[i].store.handoffs[h].purgeAt
  {
    HandoffsTracedInRun(cfg, run, steps, i);
    WellFiledInRun(cfg, run, steps, i);
    forall h | h in run[i].store.handoffs
      ensures run[i].store.handoffs[h].expiresAt <= run[i].store.handoffs[h].purgeAt
    {
      assert SameFiling(run[i].store.handoffs[h], run[i].handoffs.filed[h]);
    }
  }

  /** Main result. An initiation is refused if and only if the store as it was before, with all
      its tombstones, holds as many outstanding handoffs of that source or of all sources as
      allowed; a refusal changes nothing, and an accepted handoff is active at every instant
      from then until its expiry. */
  lemma InitiationIsRefusedExactlyAtCapacity(cfg: Config, run: seq<System>, steps: seq<Step>, i: nat, now: int)
    requires IsRun(cfg, run, steps) && i < |steps|
    requires steps[i].Lone? && steps[i].op.BeginSsoAuthorization?
    ensures var op, k := steps[i].op, steps[i].k; var r := OutcomeOf(cfg, run[i], steps[i]).response;
            && (r == SsoCapacity <==> AtCapacity(cfg, run[i].store, op.request.initiatorKey, k.t1))
            && (r == SsoCapacity ==> run[i + 1].store == run[i].store)
            && (r != SsoCapacity ==>
                  StatusAt(run[i + 1], op.handoff, now) ==
                  if now <= op.requestedAt + cfg.ssoPendingTtlSeconds * 1000 then Active else Expired)
  {
    StoredRecordsOutliveTheirExpiry(cfg, run, steps, i);
    InitiationDecides(cfg, run[i].store, steps[i].op, steps[i].k);
    BeginFadesAndFiles(cfg, run[i].store, steps[i].op, steps[i].k);
  }

  /** Between its two bounds the per-source limit is what the ingress limiter lets one source
      through, on average, while one handoff is pending: no more, and less than one request short. */
  lemma PerSourceLimitFollowsTheIngressRate(cfg: Config)
    ensures var limit := PerSourceLimit(cfg);
            var product := cfg.rateMaxRequests * (cfg.ssoPendingTtlSeconds * 1000);
            && (limit < 200 ==> product < (limit + 1) * cfg.rateWindowMs)
            && (limit > 10 ==> limit * cfg.rateWindowMs <= product)
  {
    var product, w := cfg.rateMaxRequests * (cfg.ssoPendingTtlSeconds * 1000), cfg.rateWindowMs;
    QuotientBounds(product, w);
    if PerSourceLimit(cfg) < 200 { ProductGrows(product / w + 1, PerSourceLimit(cfg) + 1, w); }
    if PerSourceLimit(cfg) > 10 { ProductGrows(PerSourceLimit(cfg), product / w, w); }
  }

  lemma QuotientBounds(n: int, d: int)
    requires d > 0
    ensures n / d * d <= n < (n / d + 1) * d
  {
  }

  lemma ProductGrows(a: int, b: int, d: int)
    requires a <= b && d > 0
    ensures a * d <= b * d
  {
  }

  /** What the cap counts and what a callback may still complete differ at one instant only:
      an unused handoff can be completed but is no longer counted exactly when it expires. */
  lemma CompletableButUncountedOnlyAtExpiry(r: HandoffRecord, now: int)
    requires r.usedAt.None?
    ensures Classify(Some(r), now) == Active && !IsActiveHandoff(r, now) <==> now == r.expiresAt
  {
  }
}
