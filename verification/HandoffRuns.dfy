/** What every interleaving keeps about pending SSO handoffs. */
module HandoffRuns {
  import opened Options
  import opened TokenStore
  import opened TokenRuns

  // ---------------------------------------------------------------- what one transaction does to the bucket

  /** Records only disappear, and only once their retention is over. */
  ghost predicate Fades(before: map<string, HandoffRecord>, after: map<string, HandoffRecord>, now: int) {
    && Shrinks(after, before)
    && forall h :: h in before && h !in after ==> before[h].purgeAt <= now
  }

  lemma OthersFade(cfg: Config, s: Store, op: Op, k: Ticks)
    requires Ordered(k)
    requires !op.BeginSsoAuthorization? && !op.CompleteSsoAuthorization? && !op.ConsumePendingHandoff?
    ensures Fades(s.handoffs, Apply(cfg, s, op, k).store.handoffs, k.t5)
  {
    hide SealSession, StampSession, OpenSession, CheckCode, PerSourceLimit, ActiveHandoffs, ActiveHandoffsFrom;
  }

  /** A refused initiation changes nothing; an accepted one prunes and files one record. */
  lemma BeginFadesAndFiles(cfg: Config, s: Store, op: Op, k: Ticks)
    requires Ordered(k) && op.BeginSsoAuthorization?
    ensures var o := Apply(cfg, s, op, k);
            if o.response.Handoff?
            then o.store.handoffs
              == Prune(cfg, s, k.t0).handoffs[op.handoff := NewHandoff(cfg, op.request, op.requestedAt, k.t1)]
            else o.store == s
  {
  }

  /** A handoff is answered "valid" only if it is stored, unused and unexpired; it is then
      marked used, unless the nested prune has dropped it. */
  lemma ValidConsumes(cfg: Config, s: Store, op: Op, k: Ticks)
    requires Ordered(k) && (op.CompleteSsoAuthorization? || op.ConsumePendingHandoff?)
    ensures var o := Apply(cfg, s, op, k); var after := o.store.handoffs;
            if o.response.Valid? then
              && op.handoff in s.handoffs
              && !Truthy(s.handoffs[op.handoff].usedAt)
              && k.t1 <= s.handoffs[op.handoff].expiresAt
              && Fades(s.handoffs - {op.handoff}, after - {op.handoff}, k.t5)
              && (op.handoff in after ==>
                    exists t :: 0 < t && after[op.handoff] == s.handoffs[op.handoff].(usedAt := Some(t)))
              && (op.handoff !in after ==> s.handoffs[op.handoff].purgeAt <= k.t5)
            else Fades(s.handoffs, after, k.t5)
  {
    hide SealSession, StampSession, KeepCode, KeepAccess, KeepRefresh, KeepGrant;
    if op.CompleteSsoAuthorization? {
      var p := Prune(cfg, s, k.t0);
      var q := Prune(cfg, p, k.t2);
      assert Fades(s.handoffs, p.handoffs, k.t0) && Fades(p.handoffs, q.handoffs, k.t2);
    }
  }

  // ---------------------------------------------------------------- the invariant

  /** The record is the filed one, except possibly for having been used. */
  ghost predicate SameFiling(r: HandoffRecord, f: HandoffRecord) {
    r == f.(usedAt := r.usedAt)
  }

  ghost predicate Traced(handoffs: map<string, HandoffRecord>, l: HandoffLedger, clock: int) {
    && (forall h :: h in handoffs ==> h in l.filed && SameFiling(handoffs[h], l.filed[h]))
    && (forall h :: h in handoffs && h !in l.validations ==> handoffs[h].usedAt == None)
    && (forall h :: h in handoffs && h in l.validations ==> Truthy(handoffs[h].usedAt))
    && (forall h :: h in l.filed && h !in handoffs ==> l.filed[h].purgeAt <= clock)
    && (forall h :: h in l.validations ==> h in l.filed)
    && (forall h :: l.validations[h] <= 1)
  }

  lemma FadingKeepsTraced(before: map<string, HandoffRecord>, after: map<string, HandoffRecord>, l: HandoffLedger,
                          clock: int, now: int)
    requires Traced(before, l, clock) && clock <= now && Fades(before, after, now)
    ensures Traced(after, l, now)
  {
    forall h | h in l.filed && h !in after ensures l.filed[h].purgeAt <= now {
      if h in before { assert SameFiling(before[h], l.filed[h]); }
    }
  }

  lemma BeginKeepsTraced(cfg: Config, y: System, op: Op, k: Ticks)
    requires Ordered(k) && y.clock <= k.t0 && op.BeginSsoAuthorization? && op.handoff !in y.issued && NamesIssued(y)
    requires Traced(y.store.handoffs, y.handoffs, y.clock)
    ensures var o := Apply(cfg, y.store, op, k);
            Traced(o.store.handoffs, LogHandoffs(cfg, y.handoffs, op, k, o.response), k.t5)
  {
    var o := Apply(cfg, y.store, op, k);
    BeginFadesAndFiles(cfg, y.store, op, k);
    if o.response.Handoff? {
      var p := Prune(cfg, y.store, k.t0).handoffs;
      FadingKeepsTraced(y.store.handoffs, p, y.handoffs, y.clock, k.t5);
      assert op.handoff !in y.handoffs.filed;
    } else {
      FadingKeepsTraced(y.store.handoffs, y.store.handoffs, y.handoffs, y.clock, k.t5);
    }
  }

  lemma ValidKeepsTraced(cfg: Config, y: System, op: Op, k: Ticks)
    requires Ordered(k) && y.clock <= k.t0 && (op.CompleteSsoAuthorization? || op.ConsumePendingHandoff?)
    requires Traced(y.store.handoffs, y.handoffs, y.clock)
    ensures var o := Apply(cfg, y.store, op, k);
            Traced(o.store.handoffs, LogHandoffs(cfg, y.handoffs, op, k, o.response), k.t5)
  {
    var o := Apply(cfg, y.store, op, k);
    ValidConsumes(cfg, y.store, op, k);
    if !o.response.Valid? {
      FadingKeepsTraced(y.store.handoffs, o.store.handoffs, y.handoffs, y.clock, k.t5);
    } else {
      AnsweredKeepsTraced(y.store.handoffs, o.store.handoffs, y.handoffs, op.handoff, y.clock, k.t5);
    }
  }

  lemma AnsweredKeepsTraced(before: map<string, HandoffRecord>, after: map<string, HandoffRecord>, l: HandoffLedger,
                            handoff: string, clock: int, now: int)
    requires Traced(before, l, clock) && clock <= now
    requires handoff in before && !Truthy(before[handoff].usedAt)
    requires Fades(before - {handoff}, after - {handoff}, now)
    requires handoff in after ==> exists t :: 0 < t && after[handoff] == before[handoff].(usedAt := Some(t))
    requires handoff !in after ==> before[handoff].purgeAt <= now
    ensures Traced(after, l.(validations := l.validations + multiset{handoff}), now)
  {
    var l' := l.(validations := l.validations + multiset{handoff});
    assert handoff !in l.validations;
    assert SameFiling(before[handoff], l.filed[handoff]);
    forall h | h in after ensures h in l.filed && SameFiling(after[h], l.filed[h])
      ensures h in l'.validations ==> Truthy(after[h].usedAt)
      ensures h !in l'.validations ==> after[h].usedAt == None
    {
      if h != handoff { assert h in after - {handoff}; }
    }
    forall h | h in l.filed && h !in after ensures l.filed[h].purgeAt <= now {
      if h != handoff && h in before {
        assert h in before - {handoff} && h !in after - {handoff};
        assert SameFiling(before[h], l.filed[h]);
      }
    }
  }

  ghost predicate HandoffsTraced(y: System) {
    Traced(y.store.handoffs, y.handoffs, y.clock)
  }

  lemma StepKeepsHandoffsTraced(cfg: Config, y: System, st: Step)
    requires NamesIssued(y) && HandoffsTraced(y) && Enabled(y, st)
    ensures HandoffsTraced(Next(cfg, y, st))
  {
    if !st.Look? {
      var op := OpOf(y, st);
      if op.BeginSsoAuthorization? {
        assert op.handoff in Draws(op);
        BeginKeepsTraced(cfg, y, op, st.k);
      } else if op.CompleteSsoAuthorization? || op.ConsumePendingHandoff? {
        ValidKeepsTraced(cfg, y, op, st.k);
      } else {
        OthersFade(cfg, y.store, op, st.k);
        FadingKeepsTraced(y.store.handoffs, Apply(cfg, y.store, op, st.k).store.handoffs, y.handoffs, y.clock, st.k.t5);
      }
    }
  }

  lemma {:induction false} HandoffsTracedInRun(cfg: Config, run: seq<System>, steps: seq<Step>, i: nat)
    requires IsRun(cfg, run, steps) && i < |run|
    ensures HandoffsTraced(run[i])
  {
    hide Next, Enabled;
    if i > 0 {
      HandoffsTracedInRun(cfg, run, steps, i - 1);
      NamesIssuedInRun(cfg, run, steps, i - 1);
      StepKeepsHandoffsTraced(cfg, run[i - 1], steps[i - 1]);
    }
  }

  /** Main result. However callbacks, prunes and clock ticks interleave, no handoff is ever
      answered "valid" twice, and one that was answered is reported as replayed at every
      instant until its retention ends. */
  lemma HandoffIsValidatedAtMostOnce(cfg: Config, run: seq<System>, steps: seq<Step>, i: nat, h: string, now: int)
    requires IsRun(cfg, run, steps) && i < |run| && run[i].clock <= now
    ensures run[i].handoffs.validations[h] <= 1
    ensures h in run[i].handoffs.validations ==> h in run[i].handoffs.filed
    ensures h in run[i].handoffs.validations && now < run[i].handoffs.filed[h].purgeAt ==>
              Inspect(run[i].store, h, now).status == Replayed
  {
    HandoffsTracedInRun(cfg, run, steps, i);
  }

  // ---------------------------------------------------------------- status only moves forward

  function StatusIn(handoffs: map<string, HandoffRecord>, h: string, now: int): Status {
    Classify(Lookup(handoffs, h), now)
  }

  /** Active may become anything; replayed and expired may only become invalid. */
  predicate Forward(a: Status, b: Status) {
    a == b || a == Active || b == Invalid
  }

  lemma FadingMovesForward(before: map<string, HandoffRecord>, after: map<string, HandoffRecord>, h: string,
                           now: int, later: int)
    requires Fades(before, after, later) && now <= later
    ensures Forward(StatusIn(before, h, now), StatusIn(after, h, later))
  {
  }

  lemma TransactionMovesForward(cfg: Config, s: Store, op: Op, k: Ticks, h: string, now: int)
    requires Ordered(k) && now <= k.t0
    requires op.BeginSsoAuthorization? ==> h != op.handoff
    ensures Forward(StatusIn(s.handoffs, h, now), StatusIn(Apply(cfg, s, op, k).store.handoffs, h, k.t5))
  {
    var after := Apply(cfg, s, op, k).store.handoffs;
    if op.BeginSsoAuthorization? {
      BeginFadesAndFiles(cfg, s, op, k);
    } else if op.CompleteSsoAuthorization? || op.ConsumePendingHandoff? {
      ValidConsumes(cfg, s, op, k);
      if h == op.handoff {
      } else if Apply(cfg, s, op, k).response.Valid? {
        FadingMovesForward(s.handoffs - {op.handoff}, after - {op.handoff}, h, now, k.t5);
      }
    } else {
      OthersFade(cfg, s, op, k);
    }
  }

  function StatusAt(y: System, h: string, now: int): Status {
    StatusIn(y.store.handoffs, h, now)
  }

  lemma StepMovesForward(cfg: Config, y: System, st: Step, h: string, now: int)
    requires NamesIssued(y) && Enabled(y, st) && !st.Look?
    requires h in y.handoffs.filed && now <= st.k.t0
    ensures Forward(StatusAt(y, h, now), StatusAt(Next(cfg, y, st), h, st.k.t5))
    ensures h in Next(cfg, y, st).handoffs.filed
  {
    var op := OpOf(y, st);
    assert op.BeginSsoAuthorization? ==> op.handoff in Draws(op);
    TransactionMovesForward(cfg, y.store, op, st.k, h, now);
  }

  lemma {:induction false} ClockMovesForward(cfg: Config, run: seq<System>, steps: seq<Step>, i: nat, j: nat)
    requires IsRun(cfg, run, steps) && i <= j < |run|
    ensures run[i].clock <= run[j].clock
  {
    if i < j { ClockMovesForward(cfg, run, steps, i, j - 1); }
  }

  /** Two observations whose readings come in the order of the transactions between them. */
  lemma {:induction false} ForwardWhenReadInOrder(cfg: Config, run: seq<System>, steps: seq<Step>, h: string,
                                                  i: nat, now: int, j: nat, later: int)
    requires IsRun(cfg, run, steps) && i <= j < |run|
    requires h in run[i].handoffs.filed
    requires run[i].clock <= now <= later && run[j].clock <= later
    requires forall m :: i <= m < j && !steps[m].Look? ==> now <= steps[m].k.t0
    ensures Forward(StatusAt(run[i], h, now), StatusAt(run[j], h, later))
    decreases j - i
  {
    if i < j {
      var y, y' := run[i], run[i + 1];
      if steps[i].Look? {
        ForwardWhenReadInOrder(cfg, run, steps, h, i + 1, now, j, later);
      } else {
        NamesIssuedInRun(cfg, run, steps, i);
        StepMovesForward(cfg, y, steps[i], h, now);
        ClockMovesForward(cfg, run, steps, i + 1, j);
        TransactionsReadTheClock(cfg, run, steps, i + 1, j);
        ForwardWhenReadInOrder(cfg, run, steps, h, i + 1, y'.clock, j, later);
      }
    }
  }

  lemma TransactionsReadTheClock(cfg: Config, run: seq<System>, steps: seq<Step>, i: nat, j: nat)
    requires IsRun(cfg, run, steps) && i <= j < |run|
    ensures forall m :: i <= m < j && !steps[m].Look? ==> run[i].clock <= steps[m].k.t0
  {
    forall m | i <= m < j && !steps[m].Look? ensures run[i].clock <= steps[m].k.t0 {
      ClockMovesForward(cfg, run, steps, i, m);
      assert Enabled(run[m], steps[m]);
    }
  }

  lemma FilingsAreNeverRewritten(cfg: Config, y: System, st: Step, h: string)
    requires NamesIssued(y) && Enabled(y, st) && h in y.handoffs.filed
    ensures var after := Next(cfg, y, st).handoffs.filed; h in after && after[h] == y.handoffs.filed[h]
  {
    if !st.Look? {
      var op := OpOf(y, st);
      assert op.BeginSsoAuthorization? ==> op.handoff in Draws(op);
    }
  }

  lemma {:induction false} FilingsAreKept(cfg: Config, run: seq<System>, steps: seq<Step>, i: nat, j: nat, h: string)
    requires IsRun(cfg, run, steps) && i <= j < |run| && h in run[i].handoffs.filed
    ensures h in run[j].handoffs.filed && run[j].handoffs.filed[h] == run[i].handoffs.filed[h]
  {
    hide Next, Enabled;
    if i < j {
      FilingsAreKept(cfg, run, steps, i, j - 1, h);
      NamesIssuedInRun(cfg, run, steps, j - 1);
      FilingsAreNeverRewritten(cfg, run[j - 1], steps[j - 1], h);
    }
  }

  ghost predicate WellFiled(filed: map<string, HandoffRecord>) {
    forall h :: h in filed ==>
      filed[h].expiresAt <= filed[h].purgeAt && filed[h].request.codeChallengeMethod != ""
  }

  lemma StepKeepsWellFiled(cfg: Config, y: System, st: Step)
    requires Enabled(y, st) && WellFiled(y.handoffs.filed)
    ensures WellFiled(Next(cfg, y, st).handoffs.filed)
  {
    hide Apply;
  }

  lemma {:induction false} WellFiledInRun(cfg: Config, run: seq<System>, steps: seq<Step>, i: nat)
    requires IsRun(cfg, run, steps) && i < |run|
    ensures WellFiled(run[i].handoffs.filed)
  {
    hide Next, Enabled;
    if i > 0 {
      WellFiledInRun(cfg, run, steps, i - 1);
      StepKeepsWellFiled(cfg, run[i - 1], steps[i - 1]);
    }
  }

  /** What an inspection tells, from the history alone: a filed handoff is reported replayed if
      it was answered "valid" before and otherwise expired or active by its filed expiry, until
      its record is gone, which is not before its retention ends. */
  predicate TellsTheHistory(y: System, h: string, now: int)
    requires h in y.handoffs.filed
  {
    var status, filed := StatusAt(y, h, now), y.handoffs.filed[h];
    if h !in y.store.handoffs then status == Invalid && filed.purgeAt <= y.clock
    else if h in y.handoffs.validations then status == Replayed
    else if now > filed.expiresAt then status == Expired
    else status == Active
  }

  /** Main result. In every reachable state an inspection answers with the handoff's history,
      whatever it is asked and whenever it reads the clock; a handoff never filed is invalid. */
  lemma InspectionTellsTheHistory(cfg: Config, run: seq<System>, steps: seq<Step>, i: nat, h: string, now: int)
    requires IsRun(cfg, run, steps) && i < |run|
    ensures Inspect(run[i].store, h, now).status == StatusAt(run[i], h, now)
    ensures h in run[i].handoffs.filed ==> TellsTheHistory(run[i], h, now)
    ensures h !in run[i].handoffs.filed ==> StatusAt(run[i], h, now) == Invalid
  {
    HandoffsTracedInRun(cfg, run, steps, i);
  }

  /** Main result. Take two observations of a filed handoff in a run, the second not before the
      first: the store after `i` steps classified at `now`, the store after `j` steps at `later`.
      The status has moved backwards if and only if the first reading lay past the expiry, no
      callback had been answered by then, and one was before the second: an unlocked look may
      read the clock ahead of a transaction that commits after its snapshot. The only backward
      move is then from expired to replayed, and some transaction in between read the clock
      before `now`. */
  lemma StatusOnlyMovesForward(cfg: Config, run: seq<System>, steps: seq<Step>, h: string,
                               i: nat, now: int, j: nat, later: int)
    requires IsRun(cfg, run, steps) && i <= j < |run|
    requires h in run[i].handoffs.filed
    requires run[i].clock <= now <= later && run[j].clock <= later
    ensures var backwards := !Forward(StatusAt(run[i], h, now), StatusAt(run[j], h, later));
            && (backwards <==>
                  && now > run[i].handoffs.filed[h].expiresAt && h !in run[i].handoffs.validations
                  && h in run[j].handoffs.validations && h in run[j].store.handoffs)
            && (backwards ==> StatusAt(run[i], h, now) == Expired && StatusAt(run[j], h, later) == Replayed)
            && (backwards ==> exists m :: i <= m < j && !steps[m].Look? && steps[m].k.t0 < now)
  {
    InspectionTellsTheHistory(cfg, run, steps, i, h, run[i].clock);
    InspectionTellsTheHistory(cfg, run, steps, i, h, now);
    FilingsAreKept(cfg, run, steps, i, j, h);
    InspectionTellsTheHistory(cfg, run, steps, j, h, later);
    TransactionsReadTheClock(cfg, run, steps, i, j);
    ClockMovesForward(cfg, run, steps, i, j);
    ForwardWhenReadInOrder(cfg, run, steps, h, i, run[i].clock, j, later);
    if !Forward(StatusAt(run[i], h, now), StatusAt(run[j], h, later))
       && forall m :: i <= m < j && !steps[m].Look? ==> now <= steps[m].k.t0
    {
      ForwardWhenReadInOrder(cfg, run, steps, h, i, now, j, later);
    }
  }

  // ---------------------------------------------------------------- a look that reads ahead

  const LateRequest := SsoRequest("c", "r", "s", "x", "S256", "", "t", "", "k")

  /** One initiation at 1, a callback's look at 1, its completion at 2. */
  const LateInitiation := Lone(BeginSsoAuthorization(LateRequest, "h", 1), Ticks(1, 1, 1, 1, 1, 1))
  const LateLook := Look(0, "h", 1)
  const LateCompletion := Complete(0, Session("u", "", "t", "", map[]), "code", 0, Ticks(2, 2, 2, 2, 2, 2))

  predicate ShortLived(cfg: Config) {
    cfg.ssoPendingTtlSeconds == 1 && cfg.ssoReplayRetentionSeconds == 100
  }

  lemma LateInitiationFiles(cfg: Config) returns (y: System)
    requires ShortLived(cfg)
    ensures Enabled(Start, LateInitiation) && y == Next(cfg, Start, LateInitiation)
    ensures y.store.handoffs == map["h" := NewHandoff(cfg, LateRequest, 1, 1)]
    ensures y.callbacks == map[] && y.issued == {"h"} && y.clock == 1
  {
    assert Prune(cfg, EmptyStore, 1).handoffs == map[];
    assert ActiveHandoffs(Prune(cfg, EmptyStore, 1), 1) == {};
    assert ActiveHandoffsFrom(Prune(cfg, EmptyStore, 1), "k", 1) == {};
    y := Next(cfg, Start, LateInitiation);
  }

  lemma LateLookHolds(cfg: Config, y: System)
    requires y.store.handoffs == map["h" := NewHandoff(cfg, LateRequest, 1, 1)] && ShortLived(cfg)
    requires y.callbacks == map[] && y.issued == {"h"} && y.clock == 1
    ensures Enabled(y, LateLook)
    ensures Next(cfg, y, LateLook) == y.(callbacks := map[0 := Callback("h", NewHandoff(cfg, LateRequest, 1, 1))])
  {
    hide Apply;
  }

  lemma LateCompletionUses(cfg: Config, y: System)
    requires y.store.handoffs == map["h" := NewHandoff(cfg, LateRequest, 1, 1)] && ShortLived(cfg)
    requires y.callbacks == map[0 := Callback("h", NewHandoff(cfg, LateRequest, 1, 1))] && y.issued == {"h"}
    requires y.clock == 1
    ensures Enabled(y, LateCompletion) && Next(cfg, y, LateCompletion).clock == 2
    ensures "h" in Next(cfg, y, LateCompletion).store.handoffs
    ensures Next(cfg, y, LateCompletion).store.handoffs["h"] == NewHandoff(cfg, LateRequest, 1, 1).(usedAt := Some(2))
  {
    assert |"code"| != |"h"|;
  }

  /** With a lifetime of one second, a look at the store before the completion that reads 2000
      says expired, and one after it that reads 2000 as well says replayed. */
  lemma LookAheadSeesExpiredThenReplayed(cfg: Config) returns (run: seq<System>, steps: seq<Step>)
    requires ShortLived(cfg)
    ensures IsRun(cfg, run, steps) && |run| == 4 && run[3].clock <= 2000
    ensures StatusAt(run[2], "h", 2000) == Expired && StatusAt(run[3], "h", 2000) == Replayed
  {
    hide Enabled, Next;
    var y1 := LateInitiationFiles(cfg);
    LateLookHolds(cfg, y1);
    var y2 := Next(cfg, y1, LateLook);
    LateCompletionUses(cfg, y2);
    steps := [LateInitiation, LateLook, LateCompletion];
    run := [Start, y1, y2, Next(cfg, y2, LateCompletion)];
  }

  // ---------------------------------------------------------------- one code per handoff

  ghost predicate SsoTraced(o: map<string, Origin>, l: HandoffLedger) {
    && (forall c :: c in o && o[c].handoff.Some? ==>
          var h := o[c].handoff.value;
          h in l.validations && h in l.filed && o[c].terms == HandoffTerms(l.filed[h]))
    && (forall c, d :: c in o && d in o && o[c].handoff.Some? && o[c].handoff == o[d].handoff ==> c == d)
  }

  lemma FilingKeepsSsoTraced(o: map<string, Origin>, l: HandoffLedger, h: string, r: HandoffRecord)
    requires SsoTraced(o, l) && h !in l.filed
    ensures SsoTraced(o, l.(filed := l.filed[h := r]))
  {
  }

  lemma ConsumingKeepsSsoTraced(o: map<string, Origin>, l: HandoffLedger, h: string)
    requires SsoTraced(o, l)
    ensures SsoTraced(o, l.(validations := l.validations + multiset{h}))
  {
    assert forall g :: g in l.validations ==> g in l.validations + multiset{h};
  }

  lemma CompletingKeepsSsoTraced(o: map<string, Origin>, l: HandoffLedger, h: string, code: string, session: Session)
    requires SsoTraced(o, l) && code !in o && h in l.filed && h !in l.validations
    ensures SsoTraced(o[code := Origin(HandoffTerms(l.filed[h]), session, Some(h))],
                      l.(validations := l.validations + multiset{h}))
  {
    assert forall c :: c in o ==> o[c].handoff != Some(h);
    assert forall g :: g in l.validations ==> g in l.validations + multiset{h};
  }

  lemma PasswordCodeKeepsSsoTraced(o: map<string, Origin>, l: HandoffLedger, code: string, origin: Origin)
    requires SsoTraced(o, l) && code !in o && origin.handoff == None
    ensures SsoTraced(o[code := origin], l)
  {
  }

  lemma LoggingKeepsSsoTraced(cfg: Config, cl: CodeLedger, hl: HandoffLedger, op: Op, k: Ticks, r: Response)
    requires SsoTraced(cl.origins, hl)
    requires op.BeginSsoAuthorization? ==> op.handoff !in hl.filed
    requires op.CompleteSsoAuthorization? && r.Valid? ==> op.handoff in hl.filed && op.handoff !in hl.validations
    requires op.BeginAuthorization? || op.CompleteSsoAuthorization? ==> op.code !in cl.origins
    ensures SsoTraced(LogCodes(cl, hl.filed, op, r).origins, LogHandoffs(cfg, hl, op, k, r))
  {
    hide SsoTraced;
    var o := cl.origins;
    match op
    case BeginSsoAuthorization(request, h, at) => FilingKeepsSsoTraced(o, hl, h, NewHandoff(cfg, request, at, k.t1));
    case CompleteSsoAuthorization(h, session, code, _) =>
      if r.Valid? { CompletingKeepsSsoTraced(o, hl, h, code, session); }
    case ConsumePendingHandoff(h) => ConsumingKeepsSsoTraced(o, hl, h);
    case BeginAuthorization(terms, session, code, _) =>
      PasswordCodeKeepsSsoTraced(o, hl, code, Origin(terms, session, None));
    case _ =>
  }

  ghost predicate SsoCodesTraced(y: System) {
    SsoTraced(y.codes.origins, y.handoffs)
  }

  lemma StepKeepsSsoCodesTraced(cfg: Config, y: System, st: Step)
    requires NamesIssued(y) && HandoffsTraced(y) && SsoCodesTraced(y) && Enabled(y, st)
    ensures SsoCodesTraced(Next(cfg, y, st))
  {
    if !st.Look? {
      var op, o := OpOf(y, st), OutcomeOf(cfg, y, st);
      assert op.BeginSsoAuthorization? ==> op.handoff in Draws(op);
      assert op.BeginAuthorization? || op.CompleteSsoAuthorization? ==> op.code in Draws(op);
      if op.CompleteSsoAuthorization? {
        ValidConsumes(cfg, y.store, op, st.k);
      }
      LoggingKeepsSsoTraced(cfg, y.codes, y.handoffs, op, st.k, o.response);
    }
  }

  lemma {:induction false} SsoCodesTracedInRun(cfg: Config, run: seq<System>, steps: seq<Step>, i: nat)
    requires IsRun(cfg, run, steps) && i < |run|
    ensures SsoCodesTraced(run[i])
  {
    hide Next, Enabled;
    if i > 0 {
      SsoCodesTracedInRun(cfg, run, steps, i - 1);
      NamesIssuedInRun(cfg, run, steps, i - 1);
      HandoffsTracedInRun(cfg, run, steps, i - 1);
      StepKeepsSsoCodesTraced(cfg, run[i - 1], steps[i - 1]);
    }
  }

  /** Main result. Concurrent callbacks for one handoff mint at most one authorization code
      between them. What the stored code is bound to is shown in Provenance. */
  lemma HandoffMintsAtMostOneCode(cfg: Config, run: seq<System>, steps: seq<Step>, i: nat, c: string, d: string,
                                  h: string)
    requires IsRun(cfg, run, steps) && i < |run|
    requires c in run[i].codes.origins && run[i].codes.origins[c].handoff == Some(h)
    ensures h in run[i].handoffs.filed
    ensures d in run[i].codes.origins && run[i].codes.origins[d].handoff == Some(h) ==> c == d
  {
    SsoCodesTracedInRun(cfg, run, steps, i);
  }

  // ---------------------------------------------------------------- what a callback thread holds

  /** The record a callback looked up before it called upstream is still the filed one. */
  ghost predicate CallbacksTraced(y: System) {
    forall tid :: tid in y.callbacks ==>
      && y.callbacks[tid].handoff in y.handoffs.filed
      && SameFiling(y.callbacks[tid].held, y.handoffs.filed[y.callbacks[tid].handoff])
  }

  lemma StepKeepsCallbacksTraced(cfg: Config, y: System, st: Step)
    requires NamesIssued(y) && HandoffsTraced(y) && CallbacksTraced(y) && Enabled(y, st)
    ensures CallbacksTraced(Next(cfg, y, st))
  {
    forall tid | tid in Next(cfg, y, st).callbacks && tid in y.callbacks {
      FilingsAreNeverRewritten(cfg, y, st, y.callbacks[tid].handoff);
    }
  }

  lemma {:induction false} CallbacksTracedInRun(cfg: Config, run: seq<System>, steps: seq<Step>, i: nat)
    requires IsRun(cfg, run, steps) && i < |run|
    ensures CallbacksTraced(run[i])
  {
    hide Next, Enabled;
    if i > 0 {
      CallbacksTracedInRun(cfg, run, steps, i - 1);
      NamesIssuedInRun(cfg, run, steps, i - 1);
      HandoffsTracedInRun(cfg, run, steps, i - 1);
      StepKeepsCallbacksTraced(cfg, run[i - 1], steps[i - 1]);
    }
  }

  /** Main result. A completed callback redirects to the URI its code is bound to, although it
      read that URI in an unlocked look an arbitrary time before the completing transaction. */
  lemma CallbackRedirectsWhereItsCodeIsBound(cfg: Config, run: seq<System>, steps: seq<Step>, i: nat)
    requires IsRun(cfg, run, steps) && i < |steps| && steps[i].Complete?
    requires OutcomeOf(cfg, run[i], steps[i]).response.Valid?
    ensures var held := run[i].callbacks[steps[i].tid].held.request;
            && steps[i].newCode in run[i + 1].codes.origins
            && run[i + 1].codes.origins[steps[i].newCode].terms.redirectUri == held.redirectUri
            && run[i + 1].codes.origins[steps[i].newCode].terms.clientId == held.clientId
            && steps[i].newCode in run[i + 1].store.codes
            && run[i + 1].store.codes[steps[i].newCode].redirectUri == held.redirectUri
  {
    CallbacksTracedInRun(cfg, run, steps, i);
    HandoffsTracedInRun(cfg, run, steps, i);
    var y, st := run[i], steps[i];
    CompletionFilesTheCode(cfg, y.store, OpOf(y, st), st.k);
  }

  lemma CompletionFilesTheCode(cfg: Config, s: Store, op: Op, k: Ticks)
    requires op.CompleteSsoAuthorization? && Apply(cfg, s, op, k).response.Valid?
    ensures var o := Apply(cfg, s, op, k);
            && op.handoff in s.handoffs
            && op.code in o.store.codes
            && o.store.codes[op.code].redirectUri == s.handoffs[op.handoff].request.redirectUri
  {
  }
}
