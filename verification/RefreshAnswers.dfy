/**
 Refreshing is idempotent within the grace window: one refresh token mints at most one
 pair and every successful answer to it, in any interleaving, is the same answer.
*/
module RefreshAnswers {
  import opened Options
  import opened TokenStore
  import opened TokenRuns
  import opened TokenEffects
  import opened RefreshChains

  /** What the store still holds of a rotated token. */
  ghost predicate RotatedRecord(cfg: Config, r: RefreshRecord, n: Rotation) {
    && Truthy(r.revokedAt) && n.at <= r.revokedAt.value
    && r.rotationResponse == Some(n.response)
    && r.clientId == n.clientId && IsConfigured(cfg, n.clientId)
    && r.expiresAt == n.expiresAt
    && OpenSession(cfg, r.session).Some?
  }

  /** The cached answer may still be asked for. */
  ghost predicate InGrace(cfg: Config, n: Rotation, now: int) {
    now - n.at <= GraceMs(cfg) && now < n.expiresAt
  }

  ghost predicate RotationsRemembered(cfg: Config, refresh: map<string, RefreshRecord>,
                                      rotations: map<string, Rotation>, clock: int)
  {
    && (forall t :: t in refresh && t in rotations ==> RotatedRecord(cfg, refresh[t], rotations[t]))
    && (forall t :: t in refresh && t !in rotations ==> refresh[t].rotationResponse == None)
    && (forall t :: t in rotations && InGrace(cfg, rotations[t], clock) ==> t in refresh)
    && (forall t :: t in rotations ==> rotations[t].at <= clock && rotations[t].response.refreshToken != "")
  }

  ghost predicate AnswersAgree(l: TokenLedger) {
    && (forall t :: t in l.children <==> t in l.rotations)
    && (forall t :: l.children[t] <= 1)
    && (forall p :: p in l.answers ==> p.0 in l.rotations && p.1 == l.rotations[p.0].response)
    && l.rotations.Keys <= l.codeOf.Keys
  }

  lemma OpeningIgnoresTheStamp(cfg: Config, session: Session, clientId: string)
    ensures OpenSession(cfg, StampSession(cfg, session, clientId)).Some? == OpenSession(cfg, session).Some?
  {
  }

  lemma KeptStaysRemembered(cfg: Config, before: map<string, RefreshRecord>, after: map<string, RefreshRecord>,
                            rotations: map<string, Rotation>, clock: int, k: Ticks)
    requires Ordered(k) && clock <= k.t0
    requires RotationsRemembered(cfg, before, rotations, clock) && RefreshKept(cfg, before, after, k)
    ensures RotationsRemembered(cfg, after, rotations, k.t5)
  {
    forall t | t in after && t in rotations ensures RotatedRecord(cfg, after[t], rotations[t]) {
      assert RotatedRecord(cfg, before[t], rotations[t]) && RefreshRecordKept(cfg, before[t], after[t]);
      OpeningIgnoresTheStamp(cfg, before[t].session, before[t].clientId);
    }
    forall t | t in rotations && InGrace(cfg, rotations[t], k.t5) ensures t in after {
      assert InGrace(cfg, rotations[t], clock);
      assert RotatedRecord(cfg, before[t], rotations[t]);
    }
  }

  lemma RotationStaysRemembered(cfg: Config, s: Store, op: Op, k: Ticks, o: Outcome, rotations: map<string, Rotation>,
                                clock: int)
    requires Ordered(k) && clock <= k.t0 && op.RefreshAccessToken? && Rotates(cfg, s, op, k, o)
    requires RotationsRemembered(cfg, s.refresh, rotations, clock)
    requires op.drawn.refresh !in s.refresh && op.drawn.refresh !in rotations && op.drawn.refresh != ""
    ensures op.token !in rotations
    ensures var r := s.refresh[op.token];
            RotationsRemembered(cfg, o.store.refresh,
                                rotations[op.token := Rotation(k.t1, r.expiresAt, r.clientId, o.response.tokens)], k.t5)
  {
    var t, d, after := op.token, op.drawn.refresh, o.store.refresh;
    assert t !in rotations;
    RestStaysRemembered(cfg, s.refresh, t, rotations, clock);
    KeptStaysRemembered(cfg, s.refresh - {t}, after - {d, t}, rotations, clock, k);
    AddRotation(cfg, after, d, t, rotations,
                Rotation(k.t1, s.refresh[t].expiresAt, s.refresh[t].clientId, o.response.tokens), k.t5);
  }

  lemma RestStaysRemembered(cfg: Config, refresh: map<string, RefreshRecord>, t: string,
                            rotations: map<string, Rotation>, clock: int)
    requires RotationsRemembered(cfg, refresh, rotations, clock) && t !in rotations
    ensures RotationsRemembered(cfg, refresh - {t}, rotations, clock)
  {
  }

  lemma AddRotation(cfg: Config, after: map<string, RefreshRecord>, child: string, t: string,
                    rotations: map<string, Rotation>, n: Rotation, clock: int)
    requires RotationsRemembered(cfg, after - {child, t}, rotations, clock)
    requires child != t && child in after && child !in rotations && after[child].rotationResponse == None
    requires t in after && t !in rotations && RotatedRecord(cfg, after[t], n)
    requires n.at <= clock && n.response.refreshToken != ""
    ensures RotationsRemembered(cfg, after, rotations[t := n], clock)
  {
    var rest := after - {child, t};
    assert forall x :: x in after && x != child && x != t ==> x in rest;
  }

  lemma MintStaysRemembered(cfg: Config, s: Store, op: Op, k: Ticks, rotations: map<string, Rotation>, clock: int)
    requires Ordered(k) && clock <= k.t0 && op.ExchangeMint?
    requires RotationsRemembered(cfg, s.refresh, rotations, clock)
    requires op.drawn.refresh !in s.refresh && op.drawn.refresh !in rotations
    ensures RotationsRemembered(cfg, Apply(cfg, s, op, k).store.refresh, rotations, k.t5)
  {
    var d, after := op.drawn.refresh, Apply(cfg, s, op, k).store.refresh;
    MintAddsOnePair(cfg, s, op, k);
    assert s.refresh - {d} == s.refresh;
    KeptStaysRemembered(cfg, s.refresh, after - {d}, rotations, clock, k);
    assert forall x :: x in after && x != d ==> x in after - {d};
  }

  ghost predicate AnswerInvariant(cfg: Config, y: System) {
    RotationsRemembered(cfg, y.store.refresh, y.tokens.rotations, y.clock) && AnswersAgree(y.tokens)
  }

  lemma RefreshKeepsAnswers(cfg: Config, y: System, op: Op, k: Ticks)
    requires Ordered(k) && y.clock <= k.t0 && op.RefreshAccessToken? && AnswerInvariant(cfg, y)
    requires op.drawn.refresh !in y.store.refresh && op.drawn.refresh !in y.tokens.codeOf && op.drawn.refresh != ""
    requires y.store.refresh.Keys <= y.tokens.codeOf.Keys
    ensures var o := Apply(cfg, y.store, op, k); var l := LogTokens(y.tokens, "", y.store, op, k, o);
            RotationsRemembered(cfg, o.store.refresh, l.rotations, k.t5) && AnswersAgree(l)
  {
    if WillRotate(cfg, y.store, op, k) {
      RotationMintsOnePair(cfg, y.store, op, k);
      RotationStaysRemembered(cfg, y.store, op, k, Apply(cfg, y.store, op, k), y.tokens.rotations, y.clock);
      RotationKeepsAnswersAgreeing(y.tokens, op.token, y.store.refresh[op.token], op.drawn, k.t1,
                                   Apply(cfg, y.store, op, k).response.tokens);
    } else {
      OtherRefreshMintsNothing(cfg, y.store, op, k);
      KeptStaysRemembered(cfg, y.store.refresh, Apply(cfg, y.store, op, k).store.refresh, y.tokens.rotations, y.clock,
                          k);
      QuietAnswerAgrees(cfg, y, op, k, Apply(cfg, y.store, op, k));
    }
  }

  lemma RotationKeepsAnswersAgreeing(l: TokenLedger, token: string, r: RefreshRecord, drawn: Draw, at: int,
                                     tokens: TokenResponse)
    requires AnswersAgree(l) && token in l.codeOf && token !in l.rotations
    ensures AnswersAgree(LogRotation(l.(answers := l.answers + {(token, tokens)}), token, r, drawn, at, tokens))
  {
  }

  lemma QuietAnswerAgrees(cfg: Config, y: System, op: Op, k: Ticks, o: Outcome)
    requires op.RefreshAccessToken? && AnswerInvariant(cfg, y) && MintsNothing(cfg, y.store, op, k, o)
    requires op.drawn.refresh !in o.store.refresh
    ensures AnswersAgree(LogTokens(y.tokens, "", y.store, op, k, o))
  {
    if o.response.Tokens? {
      var t := op.token;
      assert t in y.tokens.rotations && RotatedRecord(cfg, y.store.refresh[t], y.tokens.rotations[t]);
    }
  }

  lemma OtherKeepsAnswers(cfg: Config, y: System, st: Step)
    requires Enabled(y, st) && !st.Look? && AnswerInvariant(cfg, y)
    requires !OpOf(y, st).ExchangeMint? && !OpOf(y, st).RefreshAccessToken?
    ensures AnswerInvariant(cfg, Next(cfg, y, st))
  {
    var op := OpOf(y, st);
    OthersKeepRefresh(cfg, y.store, op, st.k);
    KeptStaysRemembered(cfg, y.store.refresh, Apply(cfg, y.store, op, st.k).store.refresh, y.tokens.rotations, y.clock,
                        st.k);
  }

  lemma StepKeepsAnswers(cfg: Config, y: System, st: Step)
    requires NamesIssued(y) && Enabled(y, st) && AnswerInvariant(cfg, y) && y.store.refresh.Keys <= y.tokens.codeOf.Keys
    ensures AnswerInvariant(cfg, Next(cfg, y, st))
  {
    if !st.Look? {
      var op := OpOf(y, st);
      assert op.ExchangeMint? || op.RefreshAccessToken? ==> {op.drawn.access, op.drawn.refresh} <= Draws(op);
      if op.ExchangeMint? {
        MintStaysRemembered(cfg, y.store, op, st.k, y.tokens.rotations, y.clock);
      } else if op.RefreshAccessToken? {
        RefreshKeepsAnswers(cfg, y, op, st.k);
      } else {
        OtherKeepsAnswers(cfg, y, st);
      }
    }
  }

  lemma StoredTokensDescend(cfg: Config, run: seq<System>, steps: seq<Step>, i: nat)
    requires IsRun(cfg, run, steps) && i < |run|
    ensures run[i].store.refresh.Keys <= run[i].tokens.codeOf.Keys
  {
    ChainInvariantInRun(cfg, run, steps, i);
    forall t | t in run[i].store.refresh ensures t in run[i].tokens.codeOf {
      assert InItsChain(t, run[i].store.refresh[t], run[i].tokens);
    }
  }

  lemma {:induction false} AnswersInRun(cfg: Config, run: seq<System>, steps: seq<Step>, i: nat)
    requires IsRun(cfg, run, steps) && i < |run|
    ensures AnswerInvariant(cfg, run[i])
  {
    hide Next, Enabled;
    if i > 0 {
      AnswersInRun(cfg, run, steps, i - 1);
      NamesIssuedInRun(cfg, run, steps, i - 1);
      StoredTokensDescend(cfg, run, steps, i - 1);
      StepKeepsAnswers(cfg, run[i - 1], steps[i - 1]);
    }
  }

  /** Main result. In every interleaving a refresh token mints at most one pair, and all the
      successful answers it ever got are one and the same response. */
  lemma RefreshMintsOnceAndAnswersAlike(cfg: Config, run: seq<System>, steps: seq<Step>, i: nat, token: string,
                                        a: TokenResponse, b: TokenResponse)
    requires IsRun(cfg, run, steps) && i < |run|
    ensures run[i].tokens.children[token] <= 1
    ensures (token, a) in run[i].tokens.answers && (token, b) in run[i].tokens.answers ==> a == b
    ensures (token, a) in run[i].tokens.answers ==> token in run[i].tokens.children
  {
    AnswersInRun(cfg, run, steps, i);
    var l := run[i].tokens;
    assert (token, a) in l.answers ==> l.rotations[(token, a).0].response == a;
    assert (token, b) in l.answers ==> l.rotations[(token, b).0].response == b;
  }

  /** Main result. A replay by the same client that reads the clock within the grace of the
      rotation, or of a later revocation of the stored record, and prunes before the record's
      own expiry, gets the cached response. Pruning in between never turns it into a not-found. */
  lemma ReplayWithinGraceReturnsTheCachedResponse(cfg: Config, run: seq<System>, steps: seq<Step>, i: nat)
    requires IsRun(cfg, run, steps) && i < |steps|
    requires steps[i].Lone? && steps[i].op.RefreshAccessToken?
    requires var t := steps[i].op.token;
             && t in run[i].tokens.rotations
             && steps[i].op.clientId == run[i].tokens.rotations[t].clientId
             && steps[i].k.t0 < run[i].tokens.rotations[t].expiresAt
             && (|| steps[i].k.t1 - run[i].tokens.rotations[t].at <= GraceMs(cfg)
                 || (t in run[i].store.refresh && Truthy(run[i].store.refresh[t].revokedAt)
                     && steps[i].k.t1 - run[i].store.refresh[t].revokedAt.value <= GraceMs(cfg)))
    ensures OutcomeOf(cfg, run[i], steps[i]).response == Tokens(run[i].tokens.rotations[steps[i].op.token].response)
  {
    AnswersInRun(cfg, run, steps, i);
    CachedAnswer(cfg, run[i].store, steps[i].op, steps[i].k, run[i].tokens.rotations, run[i].clock);
  }

  lemma CachedAnswer(cfg: Config, s: Store, op: Op, k: Ticks, rotations: map<string, Rotation>, clock: int)
    requires Ordered(k) && clock <= k.t0 && op.RefreshAccessToken? && op.token in rotations
    requires RotationsRemembered(cfg, s.refresh, rotations, clock)
    requires op.clientId == rotations[op.token].clientId && k.t0 < rotations[op.token].expiresAt
    requires || k.t1 - rotations[op.token].at <= GraceMs(cfg)
             || (op.token in s.refresh && Truthy(s.refresh[op.token].revokedAt)
                 && k.t1 - s.refresh[op.token].revokedAt.value <= GraceMs(cfg))
    ensures Apply(cfg, s, op, k).response == Tokens(rotations[op.token].response)
  {
    var n := rotations[op.token];
    assert InGrace(cfg, n, clock) ==> op.token in s.refresh;
    var r := s.refresh[op.token];
    assert RotatedRecord(cfg, r, n);
    assert KeepRefresh(r, k.t0, GraceMs(cfg));
    OpeningIgnoresTheStamp(cfg, r.session, r.clientId);
  }
}
