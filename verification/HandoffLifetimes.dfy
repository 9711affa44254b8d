/** What an SSO handoff is good for, from its initiation on: exactly which answer a callback gets. */
module HandoffLifetimes {
  import opened Options
  import opened TokenStore
  import opened TokenRuns
  import opened HandoffRuns

  /** The step files handoff `h`. */
  ghost predicate Begins(cfg: Config, y: System, st: Step, h: string)
    requires Enabled(y, st)
  {
    && st.Lone? && st.op.BeginSsoAuthorization? && st.op.handoff == h
    && OutcomeOf(cfg, y, st).response == Handoff(h)
  }

  function ExpiryAsked(cfg: Config, op: Op): int
    requires op.BeginSsoAuthorization?
  {
    op.requestedAt + cfg.ssoPendingTtlSeconds * 1000
  }

  function RetentionAsked(cfg: Config, op: Op): int
    requires op.BeginSsoAuthorization?
  {
    op.requestedAt + (cfg.ssoPendingTtlSeconds + cfg.ssoReplayRetentionSeconds) * 1000
  }

  /** The record holds what the initiation asked for, the challenge method defaulting to S256. */
  ghost predicate AsAsked(cfg: Config, r: HandoffRecord, op: Op)
    requires op.BeginSsoAuthorization?
  {
    var asked := op.request;
    && r.request.clientId == asked.clientId && r.request.redirectUri == asked.redirectUri
    && r.request.scope == asked.scope && r.request.codeChallenge == asked.codeChallenge
    && r.request.codeChallengeMethod == (if asked.codeChallengeMethod == "" then "S256" else asked.codeChallengeMethod)
    && r.request.canvaState == asked.canvaState && r.request.tenant == asked.tenant
    && r.request.correlationId == asked.correlationId && r.request.initiatorKey == asked.initiatorKey
    && r.expiresAt == ExpiryAsked(cfg, op) && r.purgeAt == RetentionAsked(cfg, op)
  }

  /** Main result. From the initiation on a handoff is remembered as it was asked for, with the
      lifetime and the retention configured. */
  lemma HandoffIsFiledAsAsked(cfg: Config, run: seq<System>, steps: seq<Step>, i: nat, j: nat, h: string)
    requires IsRun(cfg, run, steps) && i < j < |run| && i < |steps| && Begins(cfg, run[i], steps[i], h)
    ensures h in run[j].handoffs.filed && AsAsked(cfg, run[j].handoffs.filed[h], steps[i].op)
    ensures h in run[j].store.handoffs ==> AsAsked(cfg, run[j].store.handoffs[h], steps[i].op)
  {
    BeginFiles(cfg, run[i], steps[i], h);
    FilingsAreKept(cfg, run, steps, i + 1, j, h);
    HandoffsTracedInRun(cfg, run, steps, j);
  }

  lemma BeginFiles(cfg: Config, y: System, st: Step, h: string)
    requires Enabled(y, st) && Begins(cfg, y, st, h)
    ensures h in Next(cfg, y, st).handoffs.filed && AsAsked(cfg, Next(cfg, y, st).handoffs.filed[h], st.op)
  {
    hide Apply;
  }

  // ---------------------------------------------------------------- what a callback is answered

  /** The answer owed about a handoff with this history to a transaction that reads `pruned` first
      and `checked` next. */
  ghost predicate OwedStatus(cfg: Config, op: Op, validated: bool, pruned: int, checked: int, r: Response)
    requires op.BeginSsoAuthorization?
  {
    if pruned >= RetentionAsked(cfg, op) then r == Observed(Invalid, None)
    else if validated then r.Observed? && r.status == Replayed && r.record.Some? && AsAsked(cfg, r.record.value, op)
    else if checked > ExpiryAsked(cfg, op) then
      r.Observed? && r.status == Expired && r.record.Some? && AsAsked(cfg, r.record.value, op)
    else r.Valid? && AsAsked(cfg, r.validRecord, op)
  }

  lemma CompletionOwes(cfg: Config, s: Store, op: Op, k: Ticks, asked: Op, validated: bool)
    requires Ordered(k) && op.CompleteSsoAuthorization? && asked.BeginSsoAuthorization?
    requires op.handoff in s.handoffs ==>
               AsAsked(cfg, s.handoffs[op.handoff], asked) && (Truthy(s.handoffs[op.handoff].usedAt) <==> validated)
    requires k.t0 < RetentionAsked(cfg, asked) ==> op.handoff in s.handoffs
    ensures var r := Apply(cfg, s, op, k).response;
            && OwedStatus(cfg, asked, validated, k.t0, k.t1, r)
            && (r.Valid? ==> r.validCode == Some(op.code) && r.validRecord.usedAt == Some(k.t4))
  {
    hide SealSession, StampSession;
  }

  lemma ConsumptionOwes(cfg: Config, s: Store, op: Op, k: Ticks, asked: Op, validated: bool)
    requires Ordered(k) && op.ConsumePendingHandoff? && asked.BeginSsoAuthorization?
    requires op.handoff in s.handoffs ==>
               AsAsked(cfg, s.handoffs[op.handoff], asked) && (Truthy(s.handoffs[op.handoff].usedAt) <==> validated)
    requires k.t0 < RetentionAsked(cfg, asked) ==> op.handoff in s.handoffs
    ensures var r := Apply(cfg, s, op, k).response;
            && OwedStatus(cfg, asked, validated, k.t0, k.t1, r)
            && (r.Valid? ==> r.validCode == None && r.validRecord.usedAt == Some(k.t2))
  {
  }

  /** Main result. The transaction of a callback for a handoff begun at step `i` is answered by the
      handoff's age and whether it was answered "valid" before, and by nothing else: unless its
      retention is over or it was used, it completes with the drawn code up to and including the
      instant it expires. */
  lemma CallbackIsAnsweredExactly(cfg: Config, run: seq<System>, steps: seq<Step>, i: nat, j: nat, h: string)
    requires IsRun(cfg, run, steps) && i < j < |steps| && Begins(cfg, run[i], steps[i], h)
    requires !steps[j].Look?
    requires var op := OpOf(run[j], steps[j]);
             (op.CompleteSsoAuthorization? || op.ConsumePendingHandoff?) && op.handoff == h
    ensures var r := OutcomeOf(cfg, run[j], steps[j]).response; var k := steps[j].k;
            && OwedStatus(cfg, steps[i].op, h in run[j].handoffs.validations, k.t0, k.t1, r)
            && (r.Valid? ==>
                  if steps[j].Complete? then r.validCode == Some(steps[j].newCode) && r.validRecord.usedAt == Some(k.t4)
                  else r.validCode == None && r.validRecord.usedAt == Some(k.t2))
  {
    hide Apply, Next, AsAsked, OwedStatus;
    var op, s, k := OpOf(run[j], steps[j]), run[j].store, steps[j].k;
    HandoffIsFiledAsAsked(cfg, run, steps, i, j, h);
    HandoffsTracedInRun(cfg, run, steps, j);
    FiledRetention(cfg, run[j].handoffs.filed[h], steps[i].op);
    if op.CompleteSsoAuthorization? {
      CompletionOwes(cfg, s, op, k, steps[i].op, h in run[j].handoffs.validations);
    } else {
      ConsumptionOwes(cfg, s, op, k, steps[i].op, h in run[j].handoffs.validations);
    }
  }

  lemma FiledRetention(cfg: Config, r: HandoffRecord, op: Op)
    requires op.BeginSsoAuthorization? && AsAsked(cfg, r, op)
    ensures r.purgeAt == RetentionAsked(cfg, op)
  {
  }

  /** Main result. The unlocked look of a callback starts it, holding the record as asked for, if and
      only if the handoff is not yet used or purged in the snapshot and the reading is not past its
      expiry. */
  lemma LookStartsACallbackExactly(cfg: Config, run: seq<System>, steps: seq<Step>, i: nat, j: nat, h: string)
    requires IsRun(cfg, run, steps) && i < j < |steps| && Begins(cfg, run[i], steps[i], h)
    requires steps[j].Look? && steps[j].handoff == h
    ensures steps[j].tid in run[j + 1].callbacks
       <==> h in run[j].store.handoffs && h !in run[j].handoffs.validations
            && steps[j].seenAt <= ExpiryAsked(cfg, steps[i].op)
    ensures steps[j].tid in run[j + 1].callbacks ==>
              AsAsked(cfg, run[j + 1].callbacks[steps[j].tid].held, steps[i].op)
  {
    HandoffIsFiledAsAsked(cfg, run, steps, i, j, h);
    HandoffsTracedInRun(cfg, run, steps, j);
  }
}
