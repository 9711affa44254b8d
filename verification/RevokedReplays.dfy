/** What a replay of a revoked refresh token may still be answered: nothing that works. */
module RevokedReplays {
  import opened Options
  import opened FieldCrypto
  import opened TokenStore
  import opened TokenRuns
  import opened TokenEffects
  import opened Revocation
  import RefreshAnswers
  import Provenance

  /** The pair a rotation answered with descends from the same code as the rotated token. */
  ghost predicate ResponseDescends(l: TokenLedger, t: string)
    requires t in l.rotations
  {
    var tokens := l.rotations[t].response;
    && t in l.codeOf && tokens.accessToken in l.codeOf && tokens.refreshToken in l.codeOf
    && l.codeOf[tokens.accessToken] == l.codeOf[tokens.refreshToken] == l.codeOf[t]
  }

  ghost predicate ResponsesDescend(l: TokenLedger) {
    forall t :: t in l.rotations ==> ResponseDescends(l, t)
  }

  lemma PairKeepsResponses(l: TokenLedger, code: string, drawn: Draw)
    requires ResponsesDescend(l) && drawn.access !in l.codeOf && drawn.refresh !in l.codeOf
    ensures ResponsesDescend(LogPair(l, code, drawn))
  {
    forall t | t in l.rotations ensures ResponseDescends(LogPair(l, code, drawn), t) {
      assert ResponseDescends(l, t);
    }
  }

  lemma RotationKeepsResponses(l: TokenLedger, token: string, r: RefreshRecord, drawn: Draw, at: int,
                               tokens: TokenResponse)
    requires ResponsesDescend(l) && drawn.access !in l.codeOf && drawn.refresh !in l.codeOf && token in l.codeOf
    requires tokens.accessToken == drawn.access && tokens.refreshToken == drawn.refresh
    ensures ResponsesDescend(LogRotation(l, token, r, drawn, at, tokens))
  {
    var l' := LogRotation(l, token, r, drawn, at, tokens);
    PairKeepsResponses(l, l.codeOf[token], drawn);
    forall t | t in l'.rotations ensures ResponseDescends(l', t) {
      if t != token { assert ResponseDescends(LogPair(l, l.codeOf[token], drawn), t); }
    }
  }

  lemma AnsweringKeepsResponses(l: TokenLedger, answers: set<(string, TokenResponse)>)
    requires ResponsesDescend(l)
    ensures ResponsesDescend(l.(answers := answers))
  {
    forall t | t in l.rotations ensures ResponseDescends(l.(answers := answers), t) {
      assert ResponseDescends(l, t);
    }
  }

  lemma RefreshKeepsResponses(cfg: Config, s: Store, op: Op, k: Ticks, l: TokenLedger)
    requires Ordered(k) && op.RefreshAccessToken? && ResponsesDescend(l)
    requires op.drawn.access !in l.codeOf && op.drawn.refresh !in l.codeOf && op.drawn.refresh !in s.refresh
    ensures ResponsesDescend(LogTokens(l, "", s, op, k, Apply(cfg, s, op, k)))
  {
    hide Apply, ResponsesDescend;
    var o := Apply(cfg, s, op, k);
    if WillRotate(cfg, s, op, k) {
      RotationMintsOnePair(cfg, s, op, k);
      var answered := l.(answers := l.answers + {(op.token, o.response.tokens)});
      AnsweringKeepsResponses(l, answered.answers);
      if op.token in l.codeOf {
        RotationKeepsResponses(answered, op.token, s.refresh[op.token], op.drawn, k.t1, o.response.tokens);
      }
    } else {
      OtherRefreshMintsNothing(cfg, s, op, k);
      if o.response.Tokens? { AnsweringKeepsResponses(l, l.answers + {(op.token, o.response.tokens)}); }
    }
  }

  lemma StepKeepsResponses(cfg: Config, y: System, st: Step)
    requires NamesIssued(y) && Enabled(y, st) && ResponsesDescend(y.tokens)
    ensures ResponsesDescend(Next(cfg, y, st).tokens)
  {
    hide Apply, ResponsesDescend;
    if !st.Look? {
      var op := OpOf(y, st);
      assert op.ExchangeMint? || op.RefreshAccessToken? ==> {op.drawn.access, op.drawn.refresh} <= Draws(op);
      if op.ExchangeMint? {
        PairKeepsResponses(y.tokens, RedeemedCode(y, st), op.drawn);
      } else if op.RefreshAccessToken? {
        RefreshKeepsResponses(cfg, y.store, op, st.k, y.tokens);
      }
    }
  }

  lemma {:induction false} ResponsesDescendInRun(cfg: Config, run: seq<System>, steps: seq<Step>, i: nat)
    requires IsRun(cfg, run, steps) && i < |run|
    ensures ResponsesDescend(run[i].tokens)
  {
    hide Next, Enabled;
    if i > 0 {
      ResponsesDescendInRun(cfg, run, steps, i - 1);
      NamesIssuedInRun(cfg, run, steps, i - 1);
      StepKeepsResponses(cfg, run[i - 1], steps[i - 1]);
    }
  }

  // ---------------------------------------------------------------- what a dead token is answered

  lemma DeadIsNotRotatedAgain(cfg: Config, y: System, st: Step, t: string)
    requires NamesIssued(y) && Enabled(y, st) && DeadRefresh(y, t)
    ensures Lookup(Next(cfg, y, st).tokens.rotations, t) == Lookup(y.tokens.rotations, t)
  {
    hide Apply;
    if !st.Look? {
      var op := OpOf(y, st);
      if op.RefreshAccessToken? && op.token == t {
        assert {op.drawn.access, op.drawn.refresh} <= Draws(op);
        assert !WillRotate(cfg, y.store, op, st.k);
        OtherRefreshMintsNothing(cfg, y.store, op, st.k);
      }
    }
  }

  lemma {:induction false} RotationStaysInContinuation(cfg: Config, run: seq<System>, steps: seq<Step>, i: nat, j: nat,
                                                       t: string)
    requires IsRun(cfg, run, steps) && i <= j < |run| && DeadRefresh(run[i], t)
    ensures Lookup(run[j].tokens.rotations, t) == Lookup(run[i].tokens.rotations, t)
  {
    hide Next, Enabled;
    if i < j {
      RotationStaysInContinuation(cfg, run, steps, i, j - 1, t);
      DeadInContinuation(cfg, run, steps, i, j - 1, t);
      NamesIssuedInRun(cfg, run, steps, j - 1);
      DeadIsNotRotatedAgain(cfg, run[j - 1], steps[j - 1], t);
    }
  }

  /** A successful answer to a dead token is the one its rotation gave. */
  lemma DeadIsAnsweredFromItsRotation(cfg: Config, run: seq<System>, steps: seq<Step>, j: nat, t: string)
    requires IsRun(cfg, run, steps) && j < |steps| && DeadRefresh(run[j], t)
    requires steps[j].Lone? && steps[j].op.RefreshAccessToken? && steps[j].op.token == t
    requires OutcomeOf(cfg, run[j], steps[j]).response.Tokens?
    ensures t in run[j].tokens.rotations
    ensures OutcomeOf(cfg, run[j], steps[j]).response.tokens == run[j].tokens.rotations[t].response
  {
    var y, op, k := run[j], steps[j].op, steps[j].k;
    NamesIssuedInRun(cfg, run, steps, j);
    RefreshAnswers.AnswersInRun(cfg, run, steps, j);
    assert {op.drawn.access, op.drawn.refresh} <= Draws(op);
    OtherRefreshMintsNothing(cfg, y.store, op, k);
    assert t in y.tokens.rotations ==> RefreshAnswers.RotatedRecord(cfg, y.store.refresh[t], y.tokens.rotations[t]);
  }

  // ---------------------------------------------------------------- one code, one user

  lemma RevocationAddsNothing(cfg: Config, s: Store, op: Op, k: Ticks)
    requires op.RevokeAllForUser?
    ensures Apply(cfg, s, op, k).store.access.Keys <= s.access.Keys
    ensures Apply(cfg, s, op, k).store.refresh.Keys <= s.refresh.Keys
  {
  }

  /** The pair that replaced a revoked user's token is dead as well: what is left of it belongs to
      the same user and was revoked with it. */
  lemma ResponseDiesWithItsToken(cfg: Config, run: seq<System>, steps: seq<Step>, i: nat, t: string)
    requires CorrectCipher(cfg.cipher) && IsRun(cfg, run, steps) && i < |steps|
    requires steps[i].Lone? && steps[i].op.RevokeAllForUser? && t in run[i].tokens.rotations
    requires t in run[i].store.refresh
             && Owns(run[i].store.refresh[t].session, steps[i].op.userId, steps[i].op.tenantId)
    ensures DeadAccess(run[i + 1], run[i].tokens.rotations[t].response.accessToken)
    ensures DeadRefresh(run[i + 1], run[i].tokens.rotations[t].response.refreshToken)
  {
    hide Apply;
    var y, tokens := run[i], run[i].tokens.rotations[t].response;
    ResponsesDescendInRun(cfg, run, steps, i);
    assert ResponseDescends(y.tokens, t);
    NamesIssuedInRun(cfg, run, steps, i);
    Provenance.TokensCarryTheirCode(cfg, run, steps, i, t);
    Provenance.TokensCarryTheirCode(cfg, run, steps, i, tokens.accessToken);
    Provenance.TokensCarryTheirCode(cfg, run, steps, i, tokens.refreshToken);
    RevocationLeavesDead(cfg, run, steps, i);
    RevocationAddsNothing(cfg, y.store, steps[i].op, steps[i].k);
  }

  /** Main result. After a bulk revocation a replay of a refresh token of that user stored then may
      still be answered from the cache; but the access token of such an answer is revoked or
      gone, and its refresh token too, from then on. */
  lemma RevokedReplayAnswersDeadTokens(cfg: Config, run: seq<System>, steps: seq<Step>, i: nat, j: nat, t: string)
    requires CorrectCipher(cfg.cipher) && RevokedAt(cfg, run, steps, i, j)
    requires t in run[i].store.refresh
             && Owns(run[i].store.refresh[t].session, steps[i].op.userId, steps[i].op.tenantId)
    requires steps[j].Lone? && steps[j].op.RefreshAccessToken? && steps[j].op.token == t
    requires OutcomeOf(cfg, run[j], steps[j]).response.Tokens?
    ensures var tokens := OutcomeOf(cfg, run[j], steps[j]).response.tokens;
            DeadAccess(run[j + 1], tokens.accessToken) && DeadRefresh(run[j + 1], tokens.refreshToken)
  {
    hide Apply, DeadAccess, DeadRefresh, DeadGrant;
    RevocationLeavesDead(cfg, run, steps, i);
    DeadWasIssued(run[i + 1], t);
    DeadInContinuation(cfg, run, steps, i + 1, j, t);
    DeadIsAnsweredFromItsRotation(cfg, run, steps, j, t);
    RotationStaysInContinuation(cfg, run, steps, i + 1, j, t);
    ResponseDiesWithItsToken(cfg, run, steps, i, t);
    var tokens := run[i].tokens.rotations[t].response;
    DeadWasIssued(run[i + 1], tokens.accessToken);
    DeadWasIssued(run[i + 1], tokens.refreshToken);
    DeadInContinuation(cfg, run, steps, i + 1, j + 1, tokens.accessToken);
    DeadInContinuation(cfg, run, steps, i + 1, j + 1, tokens.refreshToken);
  }

  lemma DeadWasIssued(y: System, t: string)
    requires DeadAccess(y, t) || DeadRefresh(y, t)
    ensures t in y.issued
  {
  }
}
