/**
 What an authorization code is good for, from the step that mints it on: exactly which answer
 an exchange gets, and that a right one gets tokens.
*/
module CodeLifetimes {
  import opened Options
  import opened FieldCrypto
  import opened TokenStore
  import opened TokenRuns
  import opened HandoffRuns
  import opened Provenance

  // ---------------------------------------------------------------- minting

  /** The step mints code `c`: a password sign-in, or the completion of an SSO callback. */
  ghost predicate MintsCode(cfg: Config, y: System, st: Step, c: string)
    requires Enabled(y, st)
  {
    || (st.Lone? && st.op.BeginAuthorization? && c == st.op.code)
    || (st.Complete? && c == st.newCode && OutcomeOf(cfg, y, st).response.Valid?)
  }

  /** The reading its lifetime is counted from. */
  function MintedAt(st: Step): int
    requires st.Lone? || st.Complete?
  {
    if st.Complete? then st.k.t3 else st.k.t1
  }

  function MintedSession(st: Step): Session
    requires (st.Lone? && st.op.BeginAuthorization?) || st.Complete?
  {
    if st.Complete? then st.session else st.op.session
  }

  /** What a client must present: as asked for by the sign-in, or as filed with the handoff. */
  ghost function MintedTerms(y: System, st: Step): CodeTerms
    requires Enabled(y, st) && ((st.Lone? && st.op.BeginAuthorization?) || st.Complete?)
  {
    if st.Lone? then st.op.terms
    else
      var h := y.callbacks[st.tid].handoff;
      if h !in y.handoffs.filed then CodeTerms("", "", "", "", "")
      else
        var asked := y.handoffs.filed[h].request;
        CodeTerms(asked.clientId, asked.redirectUri, asked.scope, asked.codeChallenge, asked.codeChallengeMethod)
  }

  /** The record a mint files. */
  ghost predicate FiledCode(cfg: Config, r: CodeRecord, terms: CodeTerms, session: Session, nonce: nat, at: int) {
    && r.clientId == terms.clientId && r.redirectUri == terms.redirectUri && r.scope == terms.scope
    && r.codeChallenge == terms.codeChallenge
    && r.codeChallengeMethod == (if terms.codeChallengeMethod == "" then "S256" else terms.codeChallengeMethod)
    && r.expiresAt == at + cfg.authCodeTtlSeconds * 1000
    && r.session.userId == session.userId && r.session.tenantId == session.tenantId
    && r.session.sessionKey == SealField(cfg.cipher, session.sessionKey, nonce)
    && r.session.email == SealField(cfg.cipher, session.email, nonce + 1)
  }

  function MintNonce(st: Step): nat
    requires (st.Lone? && st.op.BeginAuthorization?) || st.Complete?
  {
    if st.Complete? then st.nonce else st.op.nonce
  }

  lemma MintFilesTheCode(cfg: Config, s: Store, op: Op, k: Ticks)
    requires op.BeginAuthorization? || op.CompleteSsoAuthorization?
    requires op.CompleteSsoAuthorization? ==> Apply(cfg, s, op, k).response.Valid?
    ensures op.CompleteSsoAuthorization? ==> op.handoff in s.handoffs
    ensures op.BeginAuthorization? ==> Apply(cfg, s, op, k).response == Code(op.code)
    ensures op.CompleteSsoAuthorization? ==> Apply(cfg, s, op, k).response.validCode == Some(op.code)
    ensures var after := Apply(cfg, s, op, k).store.codes;
            var terms := if op.BeginAuthorization? then op.terms else HandoffTerms(s.handoffs[op.handoff]);
            && op.code in after
            && FiledCode(cfg, after[op.code], terms, op.session, op.nonce,
                         if op.BeginAuthorization? then k.t1 else k.t3)
  {
  }

  lemma MintStepFilesTheCode(cfg: Config, y: System, st: Step, c: string)
    requires HandoffsTraced(y) && Enabled(y, st) && MintsCode(cfg, y, st, c)
    ensures var r := OutcomeOf(cfg, y, st).response; r == Code(c) || (r.Valid? && r.validCode == Some(c))
    ensures var after := Next(cfg, y, st).store.codes;
            && c in after && c in Next(cfg, y, st).issued
            && FiledCode(cfg, after[c], MintedTerms(y, st), MintedSession(st), MintNonce(st), MintedAt(st))
  {
    var op := OpOf(y, st);
    MintFilesTheCode(cfg, y.store, op, st.k);
    assert op.code in Draws(op);
    if st.Complete? { assert SameFiling(y.store.handoffs[op.handoff], y.handoffs.filed[op.handoff]); }
  }

  // ---------------------------------------------------------------- keeping

  /** Nothing but the record as filed is ever stored under the code. */
  ghost predicate CodeFixed(y: System, c: string, r: CodeRecord) {
    c in y.issued && (c in y.store.codes ==> y.store.codes[c] == r)
  }

  /** Nor is it gone before it expires. */
  ghost predicate CodeLives(y: System, c: string, r: CodeRecord) {
    CodeFixed(y, c, r) && (y.clock < r.expiresAt ==> c in y.store.codes)
  }

  ghost predicate KeepsCode(before: map<string, CodeRecord>, after: map<string, CodeRecord>, c: string, now: int) {
    && (c in after ==> c in before && after[c] == before[c])
    && (c in before && now < before[c].expiresAt ==> c in after)
  }

  lemma CodeMintsKeepCode(cfg: Config, s: Store, op: Op, k: Ticks, c: string)
    requires Ordered(k) && c !in Draws(op) && (op.BeginAuthorization? || op.CompleteSsoAuthorization?)
    ensures KeepsCode(s.codes, Apply(cfg, s, op, k).store.codes, c, k.t5)
  {
    hide SealSession, StampSession, KeepAccess, KeepRefresh, KeepGrant, KeepHandoff;
    assert c != op.code;
  }

  lemma OtherExchangesKeepCode(cfg: Config, s: Store, op: Op, k: Ticks, c: string)
    requires Ordered(k) && op.ExchangeConsume? && !(op.code == c && IsConfigured(cfg, op.clientId))
    ensures KeepsCode(s.codes, Apply(cfg, s, op, k).store.codes, c, k.t5)
  {
    hide CheckCode, KeepAccess, KeepRefresh, KeepGrant, KeepHandoff;
  }

  lemma TokenMintsKeepCode(cfg: Config, s: Store, op: Op, k: Ticks, c: string)
    requires Ordered(k) && (op.ExchangeMint? || op.RefreshAccessToken?)
    ensures KeepsCode(s.codes, Apply(cfg, s, op, k).store.codes, c, k.t5)
  {
    hide SealSession, StampSession, OpenSession, Replay, KeepAccess, KeepRefresh, KeepGrant, KeepHandoff;
  }

  lemma OthersKeepCode(cfg: Config, s: Store, op: Op, k: Ticks, c: string)
    requires Ordered(k) && !op.BeginAuthorization? && !op.CompleteSsoAuthorization? && !op.ExchangeConsume?
    requires !op.ExchangeMint? && !op.RefreshAccessToken?
    ensures KeepsCode(s.codes, Apply(cfg, s, op, k).store.codes, c, k.t5)
  {
    hide StampSession, OpenSession, PerSourceLimit, ActiveHandoffs, ActiveHandoffsFrom;
    hide KeepAccess, KeepRefresh, KeepGrant, KeepHandoff;
  }

  /** A configured client presents the code. */
  predicate Presents(cfg: Config, st: Step, c: string) {
    st.Consume? && st.code == c && IsConfigured(cfg, st.clientId)
  }

  lemma StepKeepsCode(cfg: Config, y: System, st: Step, c: string, r: CodeRecord)
    requires Enabled(y, st)
    ensures CodeFixed(y, c, r) ==> CodeFixed(Next(cfg, y, st), c, r)
    ensures CodeLives(y, c, r) && !Presents(cfg, st, c) ==> CodeLives(Next(cfg, y, st), c, r)
  {
    hide Apply;
    if CodeFixed(y, c, r) && !st.Look? {
      var op := OpOf(y, st);
      if op.BeginAuthorization? || op.CompleteSsoAuthorization? {
        CodeMintsKeepCode(cfg, y.store, op, st.k, c);
      } else if op.ExchangeConsume? {
        CodesShrink(cfg, y.store, op, st.k);
        if !Presents(cfg, st, c) { OtherExchangesKeepCode(cfg, y.store, op, st.k, c); }
      } else if op.ExchangeMint? || op.RefreshAccessToken? {
        TokenMintsKeepCode(cfg, y.store, op, st.k, c);
      } else {
        OthersKeepCode(cfg, y.store, op, st.k, c);
      }
    }
  }

  lemma {:induction false} CodeStaysFixed(cfg: Config, run: seq<System>, steps: seq<Step>, i: nat, j: nat, c: string,
                                          r: CodeRecord)
    requires IsRun(cfg, run, steps) && i <= j < |run| && CodeFixed(run[i], c, r)
    ensures CodeFixed(run[j], c, r)
  {
    hide Next, Enabled;
    if i < j {
      CodeStaysFixed(cfg, run, steps, i, j - 1, c, r);
      StepKeepsCode(cfg, run[j - 1], steps[j - 1], c, r);
    }
  }

  lemma {:induction false} CodeLivesOn(cfg: Config, run: seq<System>, steps: seq<Step>, i: nat, j: nat, c: string,
                                       r: CodeRecord)
    requires IsRun(cfg, run, steps) && i <= j < |run| && CodeLives(run[i], c, r)
    requires forall m :: i <= m < j ==> !Presents(cfg, steps[m], c)
    ensures CodeLives(run[j], c, r)
  {
    hide Next, Enabled;
    if i < j {
      CodeLivesOn(cfg, run, steps, i, j - 1, c, r);
      StepKeepsCode(cfg, run[j - 1], steps[j - 1], c, r);
    }
  }

  // ---------------------------------------------------------------- what an exchange answers

  /** The answer a client is owed for a code not presented before. */
  ghost predicate Owed(cfg: Config, terms: CodeTerms, session: Session, expired: bool, x: Redemption, r: Response) {
    if x.clientId !in cfg.clients then r == Failed(InvalidClient)
    else if expired then r == Failed(CodeNotFound)
    else if x.clientId != terms.clientId || x.redirectUri != terms.redirectUri then r == Failed(BindingMismatch)
    else if terms.codeChallenge == "" || x.verifier == "" then r == Failed(VerifierRequired)
    else if terms.codeChallengeMethod != "" && terms.codeChallengeMethod != "S256" then r == Failed(OnlyS256)
    else if cfg.sha256Base64Url(x.verifier) != terms.codeChallenge then r == Failed(PkceFailed)
    else if !Reopens(cfg.cipher, session.sessionKey) || !Reopens(cfg.cipher, session.email)
    then r == Failed(SessionGone)
    else r.Consumed? && r.scope == terms.scope && SameIdentity(r.session, session)
  }

  lemma SealedFieldReopensExactly(c: Cipher, v: string, nonce: nat)
    requires CorrectCipher(c)
    ensures OpenField(c, SealField(c, v, nonce)).Some? <==> Reopens(c, v)
    ensures !IsSealed(v) ==> OpenField(c, SealField(c, v, nonce)) == Some(v)
  {
    if v == "" {
      assert !IsSealed(v);
    } else {
      SealedReopensExactly(c, v, nonce);
      assert SealField(c, v, nonce) != "" by {
        if c.FernetCipher? && !IsSealed(v) { assert |SealField(c, v, nonce)| >= |ENC_PREFIX|; }
      }
      if !IsSealed(v) { FieldRoundTrip(c, v, nonce); }
    }
  }

  lemma FiledCodeIsAnswered(cfg: Config, s: Store, op: Op, k: Ticks, r: CodeRecord, terms: CodeTerms, session: Session,
                            nonce: nat, at: int)
    requires CorrectCipher(cfg.cipher) && op.ExchangeConsume? && FiledCode(cfg, r, terms, session, nonce, at)
    requires op.code in s.codes ==> s.codes[op.code] == r
    requires k.t0 < r.expiresAt ==> op.code in s.codes
    ensures Owed(cfg, terms, session, k.t0 >= at + cfg.authCodeTtlSeconds * 1000,
                 Redemption(op.clientId, op.redirectUri, op.verifier), Apply(cfg, s, op, k).response)
  {
    hide SealField, OpenField, Reopens;
    SealedFieldReopensExactly(cfg.cipher, session.sessionKey, nonce);
    SealedFieldReopensExactly(cfg.cipher, session.email, nonce + 1);
  }

  /** Main result. A code minted at step `i` and presented for the first time by a configured
      client at step `j` is answered by its age and what is presented alone: it is redeemed, for
      the scope and session it was minted with, if and only if it is not yet as old as its lifetime,
      client, redirect and verifier are right under S256, and its session opens. */
  lemma CodeIsAnsweredExactly(cfg: Config, run: seq<System>, steps: seq<Step>, i: nat, j: nat, c: string)
    requires CorrectCipher(cfg.cipher) && IsRun(cfg, run, steps) && i < j < |steps|
    requires MintsCode(cfg, run[i], steps[i], c) && steps[j].Consume? && steps[j].code == c
    requires forall m :: i < m < j ==> !Presents(cfg, steps[m], c)
    ensures var answer := OutcomeOf(cfg, run[i], steps[i]).response;
            answer == Code(c) || (answer.Valid? && answer.validCode == Some(c))
    ensures Owed(cfg, MintedTerms(run[i], steps[i]), MintedSession(steps[i]),
                 steps[j].k.t0 >= MintedAt(steps[i]) + cfg.authCodeTtlSeconds * 1000,
                 Redemption(steps[j].clientId, steps[j].redirectUri, steps[j].verifier),
                 OutcomeOf(cfg, run[j], steps[j]).response)
  {
    hide Apply, Next, FiledCode, Owed;
    HandoffsTracedInRun(cfg, run, steps, i);
    MintStepFilesTheCode(cfg, run[i], steps[i], c);
    var r := run[i + 1].store.codes[c];
    CodeLivesOn(cfg, run, steps, i + 1, j, c, r);
    FiledCodeIsAnswered(cfg, run[j].store, OpOf(run[j], steps[j]), steps[j].k, r, MintedTerms(run[i], steps[i]),
                        MintedSession(steps[i]), MintNonce(steps[i]), MintedAt(steps[i]));
  }

  /** Main result. Whatever was presented before, a code as old as its lifetime is not found. */
  lemma ExpiredCodeIsNotFound(cfg: Config, run: seq<System>, steps: seq<Step>, i: nat, j: nat, c: string)
    requires IsRun(cfg, run, steps) && i < j < |steps|
    requires MintsCode(cfg, run[i], steps[i], c) && Presents(cfg, steps[j], c)
    requires steps[j].k.t0 >= MintedAt(steps[i]) + cfg.authCodeTtlSeconds * 1000
    ensures OutcomeOf(cfg, run[j], steps[j]).response == Failed(CodeNotFound)
  {
    hide Apply, Next;
    HandoffsTracedInRun(cfg, run, steps, i);
    MintStepFilesTheCode(cfg, run[i], steps[i], c);
    CodeStaysFixed(cfg, run, steps, i + 1, j, c, run[i + 1].store.codes[c]);
    ExpiredIsNotFound(cfg, run[j].store, OpOf(run[j], steps[j]), steps[j].k);
  }

  lemma ExpiredIsNotFound(cfg: Config, s: Store, op: Op, k: Ticks)
    requires op.ExchangeConsume? && IsConfigured(cfg, op.clientId)
    requires op.code in s.codes ==> s.codes[op.code].expiresAt <= k.t0
    ensures Apply(cfg, s, op, k).response == Failed(CodeNotFound)
  {
    hide CheckCode;
  }

  // ---------------------------------------------------------------- the second half

  ghost predicate Holds(y: System, tid: nat, x: Exchange) {
    tid in y.exchanges && y.exchanges[tid] == x
  }

  lemma {:induction false} ExchangeWaits(cfg: Config, run: seq<System>, steps: seq<Step>, i: nat, j: nat, tid: nat,
                                         x: Exchange)
    requires IsRun(cfg, run, steps) && i <= j < |run| && Holds(run[i], tid, x)
    requires forall m :: i <= m < j ==> !(steps[m].Mint? && steps[m].tid == tid)
    ensures Holds(run[j], tid, x)
  {
    if i < j {
      ExchangeWaits(cfg, run, steps, i, j - 1, tid, x);
      StepKeepsExchange(cfg, run[j - 1], steps[j - 1], tid, x);
    }
  }

  lemma StepKeepsExchange(cfg: Config, y: System, st: Step, tid: nat, x: Exchange)
    requires Enabled(y, st) && Holds(y, tid, x) && !(st.Mint? && st.tid == tid)
    ensures Holds(Next(cfg, y, st), tid, x)
  {
    hide Apply;
  }

  lemma ConsumedIsHeld(cfg: Config, y: System, st: Step)
    requires Enabled(y, st) && st.Consume? && OutcomeOf(cfg, y, st).response.Consumed?
    ensures var r := OutcomeOf(cfg, y, st).response;
            Holds(Next(cfg, y, st), st.tid, Exchange(st.code, st.clientId, r.session, r.scope))
  {
    hide Apply;
  }

  /** Main result. Once a code is redeemed, the exchange's second transaction answers with the pair
      it draws, however much happens in between, for the redeemed scope and the configured lifetime. */
  lemma RedeemedCodeGetsTokens(cfg: Config, run: seq<System>, steps: seq<Step>, i: nat, j: nat)
    requires IsRun(cfg, run, steps) && i < j < |steps| && steps[i].Consume? && steps[j].Mint?
    requires OutcomeOf(cfg, run[i], steps[i]).response.Consumed? && steps[j].tid == steps[i].tid
    requires forall m :: i < m < j ==> !(steps[m].Mint? && steps[m].tid == steps[i].tid)
    ensures OutcomeOf(cfg, run[j], steps[j]).response
         == Tokens(TokenResponse(steps[j].drawn.access, cfg.tokenTtlSeconds, steps[j].drawn.refresh,
                                 OutcomeOf(cfg, run[i], steps[i]).response.scope))
  {
    var r := OutcomeOf(cfg, run[i], steps[i]).response;
    ConsumedIsHeld(cfg, run[i], steps[i]);
    var x := Exchange(steps[i].code, steps[i].clientId, r.session, r.scope);
    ExchangeWaits(cfg, run, steps, i + 1, j, steps[i].tid, x);
  }
}
