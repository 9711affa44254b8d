/**
 Where every token comes from: through any number of rotations a token keeps the client,
 scope, user, tenant and upstream key of the code it descends from, and that code was
 redeemed by a client that met its redirect URI and PKCE challenge.
*/
module Provenance {
  import opened Options
  import opened FieldCrypto
  import opened TokenStore
  import opened TokenRuns
  import opened TokenEffects
  import opened HandoffRuns

  // ---------------------------------------------------------------- sessions through seal, stamp and open

  /** Neither sensitive value looks already sealed. */
  predicate Clean(session: Session) {
    !IsSealed(session.sessionKey) && !IsSealed(session.email)
  }

  /** `plain` still is the session `origin`, up to broker metadata: its user and tenant, and each
      of its sensitive values that did not look sealed to begin with. */
  ghost predicate SameIdentity(plain: Session, origin: Session) {
    && plain.userId == origin.userId && plain.tenantId == origin.tenantId
    && (!IsSealed(origin.sessionKey) ==> plain.sessionKey == origin.sessionKey)
    && (!IsSealed(origin.email) ==> plain.email == origin.email)
  }

  /** The stored form opens to the session `origin`, value by value. */
  ghost predicate Carries(cfg: Config, stored: Session, origin: Session) {
    && stored.userId == origin.userId && stored.tenantId == origin.tenantId
    && (!IsSealed(origin.sessionKey) ==> OpenField(cfg.cipher, stored.sessionKey) == Some(origin.sessionKey))
    && (!IsSealed(origin.email) ==> OpenField(cfg.cipher, stored.email) == Some(origin.email))
  }

  /** A session with neither value looking sealed always opens again. */
  lemma CleanSessionsOpen(cfg: Config, stored: Session, origin: Session)
    requires Carries(cfg, stored, origin) && Clean(origin)
    ensures OpenSession(cfg, stored).Some? && SameIdentity(OpenSession(cfg, stored).value, origin)
  {
  }

  lemma FieldRoundTrip(c: Cipher, v: string, nonce: nat)
    requires CorrectCipher(c) && !IsSealed(v)
    ensures OpenField(c, SealField(c, v, nonce)) == Some(v)
  {
    OpenUndoesSeal(c, v, nonce);
    if c.FernetCipher? && v != "" {
      assert |SealField(c, v, nonce)| >= |ENC_PREFIX|;
    }
  }

  lemma SealingCarries(cfg: Config, plain: Session, origin: Session, clientId: string, nonce: nat)
    requires CorrectCipher(cfg.cipher) && SameIdentity(plain, origin)
    ensures Carries(cfg, SealSession(cfg, StampSession(cfg, plain, clientId), nonce), origin)
  {
    if !IsSealed(origin.sessionKey) { FieldRoundTrip(cfg.cipher, origin.sessionKey, nonce); }
    if !IsSealed(origin.email) { FieldRoundTrip(cfg.cipher, origin.email, nonce + 1); }
  }

  lemma OpeningKeepsIdentity(cfg: Config, stored: Session, origin: Session, plain: Session)
    requires Carries(cfg, stored, origin) && OpenSession(cfg, stored) == Some(plain)
    ensures SameIdentity(plain, origin)
  {
  }

  lemma KeptCarries(cfg: Config, before: Session, after: Session, clientId: string, origin: Session)
    requires Carries(cfg, before, origin) && SessionKept(cfg, before, after, clientId)
    ensures Carries(cfg, after, origin)
  {
  }

  /** Without an encryption key the condition is exact: a session that looks sealed is never
      opened again, so its code can only be burned. */
  lemma NullCipherOpensExactlyCleanSessions(cfg: Config, session: Session, nonce: nat)
    requires cfg.cipher == NullCipher
    ensures OpenSession(cfg, SealSession(cfg, session, nonce)).Some? <==> Clean(session)
  {
    assert !IsSealed("");
  }

  // ---------------------------------------------------------------- codes

  ghost predicate CodeMatches(cfg: Config, r: CodeRecord, o: Origin) {
    && r.clientId == o.terms.clientId && r.redirectUri == o.terms.redirectUri && r.scope == o.terms.scope
    && r.codeChallenge == o.terms.codeChallenge
    && r.codeChallengeMethod == MethodOrS256(o.terms.codeChallengeMethod)
    && Carries(cfg, r.session, o.session)
  }

  /** The redemption met everything the code was bound to. */
  ghost predicate Redeems(cfg: Config, x: Redemption, o: Origin) {
    && x.clientId == o.terms.clientId && x.redirectUri == o.terms.redirectUri
    && o.terms.codeChallenge != "" && x.verifier != "" && MethodOrS256(o.terms.codeChallengeMethod) == "S256"
    && cfg.sha256Base64Url(x.verifier) == o.terms.codeChallenge
  }

  ghost predicate CodesMatch(cfg: Config, codes: map<string, CodeRecord>, l: CodeLedger) {
    && (forall c :: c in codes ==> c in l.origins && CodeMatches(cfg, codes[c], l.origins[c]))
    && (forall c :: c in l.redeemedBy ==> c in l.origins && Redeems(cfg, l.redeemedBy[c], l.origins[c]))
  }

  lemma MintedCodeMatches(cfg: Config, s: Store, op: Op, k: Ticks, o: Origin)
    requires CorrectCipher(cfg.cipher) && (op.BeginAuthorization? || op.CompleteSsoAuthorization?)
    requires op.CompleteSsoAuthorization? ==> Apply(cfg, s, op, k).response.Valid?
    requires o.session == op.session
    requires op.BeginAuthorization? ==> o.terms == op.terms
    requires op.CompleteSsoAuthorization? ==>
               op.handoff in s.handoffs && o.terms == HandoffTerms(s.handoffs[op.handoff])
    ensures var after := Apply(cfg, s, op, k).store.codes;
            && Shrinks(after - {op.code}, s.codes)
            && op.code in after && CodeMatches(cfg, after[op.code], o)
  {
    SealingCarries(cfg, op.session, op.session,
                   if op.BeginAuthorization? then op.terms.clientId else s.handoffs[op.handoff].request.clientId,
                   op.nonce);
  }

  lemma CodeCheckPassed(cfg: Config, s: Store, op: Op, k: Ticks, o: Origin)
    requires op.ExchangeConsume? && Apply(cfg, s, op, k).response.Consumed?
    requires op.code in s.codes && CodeMatches(cfg, s.codes[op.code], o)
    ensures Redeems(cfg, Redemption(op.clientId, op.redirectUri, op.verifier), o)
    ensures var r := Apply(cfg, s, op, k).response; r.scope == o.terms.scope && SameIdentity(r.session, o.session)
  {
    OpeningKeepsIdentity(cfg, s.codes[op.code].session, o.session, Apply(cfg, s, op, k).response.session);
  }

  lemma ConsumedCodeWasStored(cfg: Config, s: Store, op: Op, k: Ticks)
    requires op.ExchangeConsume?
    ensures Shrinks(Apply(cfg, s, op, k).store.codes, s.codes)
    ensures Apply(cfg, s, op, k).response.Consumed? ==> op.code in s.codes
  {
  }

  lemma FiledCodeMatches(cfg: Config, before: map<string, CodeRecord>, after: map<string, CodeRecord>, l: CodeLedger,
                         code: string, o: Origin)
    requires CodesMatch(cfg, before, l) && code !in l.origins && Shrinks(after - {code}, before)
    requires code in after ==> CodeMatches(cfg, after[code], o)
    ensures CodesMatch(cfg, after, l.(origins := l.origins[code := o]))
  {
    assert forall c :: c in after && c != code ==> c in after - {code};
  }

  lemma CompletionKeepsCodesMatch(cfg: Config, y: System, op: Op, k: Ticks)
    requires CorrectCipher(cfg.cipher) && HandoffsTraced(y) && CodesMatch(cfg, y.store.codes, y.codes)
    requires op.CompleteSsoAuthorization? && op.code !in y.codes.origins
    ensures var o := Apply(cfg, y.store, op, k);
            CodesMatch(cfg, o.store.codes, LogCodes(y.codes, y.handoffs.filed, op, o.response))
  {
    var o := Apply(cfg, y.store, op, k);
    if o.response.Valid? {
      CompletionFilesTheCode(cfg, y.store, op, k);
      var origin := Origin(HandoffTerms(y.handoffs.filed[op.handoff]), op.session, Some(op.handoff));
      MintedCodeMatches(cfg, y.store, op, k, origin);
      FiledCodeMatches(cfg, y.store.codes, o.store.codes, y.codes, op.code, origin);
    } else {
      InvalidCompletionMintsNothing(cfg, y.store, op, k);
    }
  }

  lemma BeginningKeepsCodesMatch(cfg: Config, y: System, op: Op, k: Ticks)
    requires CorrectCipher(cfg.cipher) && CodesMatch(cfg, y.store.codes, y.codes)
    requires op.BeginAuthorization? && op.code !in y.codes.origins
    ensures var o := Apply(cfg, y.store, op, k);
            CodesMatch(cfg, o.store.codes, LogCodes(y.codes, y.handoffs.filed, op, o.response))
  {
    var origin := Origin(op.terms, op.session, None);
    MintedCodeMatches(cfg, y.store, op, k, origin);
    FiledCodeMatches(cfg, y.store.codes, Apply(cfg, y.store, op, k).store.codes, y.codes, op.code, origin);
  }

  lemma ConsumingKeepsCodesMatch(cfg: Config, y: System, op: Op, k: Ticks)
    requires op.ExchangeConsume? && CodesMatch(cfg, y.store.codes, y.codes)
    ensures var o := Apply(cfg, y.store, op, k);
            CodesMatch(cfg, o.store.codes, LogCodes(y.codes, y.handoffs.filed, op, o.response))
  {
    ConsumedCodeWasStored(cfg, y.store, op, k);
    if Apply(cfg, y.store, op, k).response.Consumed? {
      CodeCheckPassed(cfg, y.store, op, k, y.codes.origins[op.code]);
    }
  }

  lemma InvalidCompletionMintsNothing(cfg: Config, s: Store, op: Op, k: Ticks)
    requires op.CompleteSsoAuthorization? && !Apply(cfg, s, op, k).response.Valid?
    ensures Shrinks(Apply(cfg, s, op, k).store.codes, s.codes)
  {
  }

  lemma StepKeepsCodesMatch(cfg: Config, y: System, st: Step)
    requires CorrectCipher(cfg.cipher) && NamesIssued(y) && HandoffsTraced(y) && Enabled(y, st)
    requires CodesMatch(cfg, y.store.codes, y.codes)
    ensures CodesMatch(cfg, Next(cfg, y, st).store.codes, Next(cfg, y, st).codes)
  {
    if !st.Look? {
      var op := OpOf(y, st);
      assert op.BeginAuthorization? || op.CompleteSsoAuthorization? ==> op.code in Draws(op);
      if op.BeginAuthorization? {
        BeginningKeepsCodesMatch(cfg, y, op, st.k);
      } else if op.CompleteSsoAuthorization? {
        CompletionKeepsCodesMatch(cfg, y, op, st.k);
      } else if op.ExchangeConsume? {
        ConsumingKeepsCodesMatch(cfg, y, op, st.k);
      } else {
        CodesShrink(cfg, y.store, op, st.k);
      }
    }
  }

  // ---------------------------------------------------------------- exchange threads

  /** A thread carries exactly what the code it redeemed was minted for. */
  ghost predicate ExchangeMatches(x: Exchange, l: CodeLedger) {
    && x.code in l.origins && x.code in l.redeemedBy
    && x.clientId == l.origins[x.code].terms.clientId && x.scope == l.origins[x.code].terms.scope
    && SameIdentity(x.session, l.origins[x.code].session)
  }

  /** Nothing the ledger says about a code ever changes. */
  ghost predicate LedgerGrows(l: CodeLedger, l': CodeLedger) {
    && (forall c :: c in l.origins ==> c in l'.origins && l'.origins[c] == l.origins[c])
    && (forall c :: c in l.redeemedBy ==> c in l'.redeemedBy)
  }

  lemma LoggingGrowsTheLedger(l: CodeLedger, filed: map<string, HandoffRecord>, op: Op, r: Response)
    requires op.BeginAuthorization? || op.CompleteSsoAuthorization? ==> op.code !in l.origins
    ensures LedgerGrows(l, LogCodes(l, filed, op, r))
  {
  }

  ghost predicate ExchangesMatch(x: map<nat, Exchange>, l: CodeLedger) {
    forall i :: i in x ==> ExchangeMatches(x[i], l)
  }

  lemma GrowingKeepsExchangesMatch(x: map<nat, Exchange>, l: CodeLedger, l': CodeLedger)
    requires ExchangesMatch(x, l) && LedgerGrows(l, l')
    ensures ExchangesMatch(x, l')
  {
    forall i | i in x ensures ExchangeMatches(x[i], l') {
      assert ExchangeMatches(x[i], l);
    }
  }

  lemma ConsumptionMatches(cfg: Config, y: System, op: Op, k: Ticks)
    requires op.ExchangeConsume? && CodesMatch(cfg, y.store.codes, y.codes)
    requires Apply(cfg, y.store, op, k).response.Consumed?
    ensures var r := Apply(cfg, y.store, op, k).response;
            ExchangeMatches(Exchange(op.code, op.clientId, r.session, r.scope),
                            LogCodes(y.codes, y.handoffs.filed, op, r))
  {
    ConsumedCodeWasStored(cfg, y.store, op, k);
    CodeCheckPassed(cfg, y.store, op, k, y.codes.origins[op.code]);
  }

  lemma StepKeepsExchangesMatch(cfg: Config, y: System, st: Step)
    requires NamesIssued(y) && Enabled(y, st)
    requires CodesMatch(cfg, y.store.codes, y.codes) && ExchangesMatch(y.exchanges, y.codes)
    ensures ExchangesMatch(Next(cfg, y, st).exchanges, Next(cfg, y, st).codes)
  {
    if !st.Look? {
      var op, o := OpOf(y, st), OutcomeOf(cfg, y, st);
      assert op.BeginAuthorization? || op.CompleteSsoAuthorization? ==> op.code in Draws(op);
      LoggingGrowsTheLedger(y.codes, y.handoffs.filed, op, o.response);
      GrowingKeepsExchangesMatch(y.exchanges, y.codes, LogCodes(y.codes, y.handoffs.filed, op, o.response));
      if st.Consume? && o.response.Consumed? {
        ConsumptionMatches(cfg, y, op, st.k);
      }
    }
  }

  // ---------------------------------------------------------------- tokens

  /** A token with this client, scope and stored session descends from a redeemed code with
      the same client and scope, minted for the session it carries. */
  ghost predicate Descends(cfg: Config, t: string, clientId: string, scope: string, stored: Session,
                           codeOf: map<string, string>, l: CodeLedger)
  {
    && t in codeOf && codeOf[t] in l.origins && codeOf[t] in l.redeemedBy
    && clientId == l.origins[codeOf[t]].terms.clientId && scope == l.origins[codeOf[t]].terms.scope
    && Carries(cfg, stored, l.origins[codeOf[t]].session)
  }

  ghost predicate AccessDescends(cfg: Config, access: map<string, AccessRecord>, codeOf: map<string, string>,
                                 l: CodeLedger)
  {
    forall t :: t in access ==> Descends(cfg, t, access[t].clientId, access[t].scope, access[t].session, codeOf, l)
  }

  ghost predicate RefreshDescends(cfg: Config, refresh: map<string, RefreshRecord>, codeOf: map<string, string>,
                                  l: CodeLedger)
  {
    forall t :: t in refresh ==> Descends(cfg, t, refresh[t].clientId, refresh[t].scope, refresh[t].session, codeOf, l)
  }

  ghost predicate TokensDescend(cfg: Config, s: Store, codeOf: map<string, string>, l: CodeLedger) {
    AccessDescends(cfg, s.access, codeOf, l) && RefreshDescends(cfg, s.refresh, codeOf, l)
  }

  lemma KeptAccessDescends(cfg: Config, before: map<string, AccessRecord>, after: map<string, AccessRecord>,
                           codeOf: map<string, string>, l: CodeLedger)
    requires AccessDescends(cfg, before, codeOf, l) && AccessKept(cfg, before, after)
    ensures AccessDescends(cfg, after, codeOf, l)
  {
    forall t | t in after ensures Descends(cfg, t, after[t].clientId, after[t].scope, after[t].session, codeOf, l) {
      assert Descends(cfg, t, before[t].clientId, before[t].scope, before[t].session, codeOf, l);
      KeptCarries(cfg, before[t].session, after[t].session, before[t].clientId, l.origins[codeOf[t]].session);
    }
  }

  lemma KeptRefreshDescends(cfg: Config, before: map<string, RefreshRecord>, after: map<string, RefreshRecord>,
                            k: Ticks, codeOf: map<string, string>, l: CodeLedger)
    requires RefreshDescends(cfg, before, codeOf, l) && RefreshKept(cfg, before, after, k)
    ensures RefreshDescends(cfg, after, codeOf, l)
  {
    forall t | t in after ensures Descends(cfg, t, after[t].clientId, after[t].scope, after[t].session, codeOf, l) {
      assert Descends(cfg, t, before[t].clientId, before[t].scope, before[t].session, codeOf, l);
      KeptCarries(cfg, before[t].session, after[t].session, before[t].clientId, l.origins[codeOf[t]].session);
    }
  }

  lemma GrowingKeepsDescent(cfg: Config, s: Store, codeOf: map<string, string>, l: CodeLedger, l': CodeLedger)
    requires TokensDescend(cfg, s, codeOf, l) && LedgerGrows(l, l')
    ensures TokensDescend(cfg, s, codeOf, l')
  {
    forall t | t in s.access
      ensures Descends(cfg, t, s.access[t].clientId, s.access[t].scope, s.access[t].session, codeOf, l')
    {
      assert Descends(cfg, t, s.access[t].clientId, s.access[t].scope, s.access[t].session, codeOf, l);
    }
    forall t | t in s.refresh
      ensures Descends(cfg, t, s.refresh[t].clientId, s.refresh[t].scope, s.refresh[t].session, codeOf, l')
    {
      assert Descends(cfg, t, s.refresh[t].clientId, s.refresh[t].scope, s.refresh[t].session, codeOf, l);
    }
  }

  /** A pair minted for code `c` from a session with the right identity descends from `c`. */
  lemma PairDescends(cfg: Config, a: map<string, AccessRecord>, r: map<string, RefreshRecord>, d: Draw, c: string,
                     clientId: string, scope: string, plain: Session, codeOf: map<string, string>, l: CodeLedger)
    requires CorrectCipher(cfg.cipher)
    requires d.access in a && d.refresh in r
    requires AccessDescends(cfg, a - {d.access}, codeOf, l) && RefreshDescends(cfg, r - {d.refresh}, codeOf, l)
    requires PairMinted(cfg, a[d.access], r[d.refresh], clientId, scope,
                        SealSession(cfg, StampSession(cfg, plain, clientId), d.nonce))
    requires d.access !in codeOf && d.refresh !in codeOf
    requires c in l.origins && c in l.redeemedBy && SameIdentity(plain, l.origins[c].session)
    requires clientId == l.origins[c].terms.clientId && scope == l.origins[c].terms.scope
    ensures AccessDescends(cfg, a, codeOf[d.access := c][d.refresh := c], l)
    ensures RefreshDescends(cfg, r, codeOf[d.access := c][d.refresh := c], l)
  {
    var codeOf' := codeOf[d.access := c][d.refresh := c];
    SealingCarries(cfg, plain, l.origins[c].session, clientId, d.nonce);
    forall t | t in a ensures Descends(cfg, t, a[t].clientId, a[t].scope, a[t].session, codeOf', l) {
      if t != d.access {
        assert t in a - {d.access};
        assert Descends(cfg, t, a[t].clientId, a[t].scope, a[t].session, codeOf, l);
      }
    }
    forall t | t in r ensures Descends(cfg, t, r[t].clientId, r[t].scope, r[t].session, codeOf', l) {
      if t != d.refresh {
        assert t in r - {d.refresh};
        assert Descends(cfg, t, r[t].clientId, r[t].scope, r[t].session, codeOf, l);
      }
    }
  }

  lemma MintDescends(cfg: Config, s: Store, op: Op, k: Ticks, c: string, codeOf: map<string, string>, l: CodeLedger)
    requires CorrectCipher(cfg.cipher) && Ordered(k) && op.ExchangeMint? && TokensDescend(cfg, s, codeOf, l)
    requires op.drawn.access !in codeOf && op.drawn.refresh !in codeOf
    requires ExchangeMatches(Exchange(c, op.clientId, op.session, op.scope), l)
    ensures TokensDescend(cfg, Apply(cfg, s, op, k).store, codeOf[op.drawn.access := c][op.drawn.refresh := c], l)
  {
    var d, after := op.drawn, Apply(cfg, s, op, k).store;
    MintAddsOnePair(cfg, s, op, k);
    assert d.refresh !in s.refresh;
    assert s.refresh - {d.refresh} == s.refresh;
    KeptAccessDescends(cfg, s.access, after.access - {d.access}, codeOf, l);
    KeptRefreshDescends(cfg, s.refresh, after.refresh - {d.refresh}, k, codeOf, l);
    PairDescends(cfg, after.access, after.refresh, d, c, op.clientId, op.scope, op.session, codeOf, l);
  }

  lemma RotatedStillDescends(cfg: Config, s: Store, op: Op, k: Ticks, o: Outcome, codeOf: map<string, string>,
                             l: CodeLedger)
    requires op.RefreshAccessToken? && Rotates(cfg, s, op, k, o) && TokensDescend(cfg, s, codeOf, l)
    requires op.drawn.refresh !in codeOf
    ensures RefreshDescends(cfg, o.store.refresh - {op.drawn.refresh}, codeOf, l)
  {
    var t, d, after := op.token, op.drawn.refresh, o.store.refresh;
    KeptRefreshDescends(cfg, s.refresh - {t}, after - {d, t}, k, codeOf, l);
    assert Descends(cfg, t, s.refresh[t].clientId, s.refresh[t].scope, s.refresh[t].session, codeOf, l);
    KeptCarries(cfg, s.refresh[t].session, after[t].session, s.refresh[t].clientId, l.origins[codeOf[t]].session);
    forall x | x in after - {d}
      ensures Descends(cfg, x, after[x].clientId, after[x].scope, after[x].session, codeOf, l)
    {
      if x != t { assert x in after - {d, t}; }
    }
  }

  lemma RotationDescends(cfg: Config, s: Store, op: Op, k: Ticks, o: Outcome, codeOf: map<string, string>,
                         l: CodeLedger)
    requires CorrectCipher(cfg.cipher) && op.RefreshAccessToken? && Rotates(cfg, s, op, k, o)
    requires TokensDescend(cfg, s, codeOf, l) && op.token in codeOf
    requires op.drawn.access !in codeOf && op.drawn.refresh !in codeOf
    ensures var c := codeOf[op.token];
            TokensDescend(cfg, o.store, codeOf[op.drawn.access := c][op.drawn.refresh := c], l)
  {
    var t, d, after := op.token, op.drawn, o.store;
    var r := StampRefresh(cfg, s.refresh[t]);
    var origin := l.origins[codeOf[t]].session;
    assert Descends(cfg, t, s.refresh[t].clientId, s.refresh[t].scope, s.refresh[t].session, codeOf, l);
    KeptCarries(cfg, s.refresh[t].session, r.session, r.clientId, origin);
    var plain := OpenSession(cfg, r.session).value;
    OpeningKeepsIdentity(cfg, r.session, origin, plain);
    KeptAccessDescends(cfg, s.access, after.access - {d.access}, codeOf, l);
    RotatedStillDescends(cfg, s, op, k, o, codeOf, l);
    PairDescends(cfg, after.access, after.refresh, d, codeOf[t], op.clientId, r.scope, plain, codeOf, l);
  }

  lemma OtherDescends(cfg: Config, s: Store, op: Op, k: Ticks, codeOf: map<string, string>, l: CodeLedger)
    requires Ordered(k) && !op.ExchangeMint? && !op.RefreshAccessToken? && TokensDescend(cfg, s, codeOf, l)
    ensures TokensDescend(cfg, Apply(cfg, s, op, k).store, codeOf, l)
  {
    var after := Apply(cfg, s, op, k).store;
    OthersKeepAccess(cfg, s, op, k);
    OthersKeepRefresh(cfg, s, op, k);
    KeptAccessDescends(cfg, s.access, after.access, codeOf, l);
    KeptRefreshDescends(cfg, s.refresh, after.refresh, k, codeOf, l);
  }

  lemma RefreshingDescends(cfg: Config, s: Store, op: Op, k: Ticks, tl: TokenLedger, l: CodeLedger)
    requires CorrectCipher(cfg.cipher) && Ordered(k) && op.RefreshAccessToken? && TokensDescend(cfg, s, tl.codeOf, l)
    requires op.drawn.access !in tl.codeOf && op.drawn.refresh !in tl.codeOf
    ensures var o := Apply(cfg, s, op, k); TokensDescend(cfg, o.store, LogTokens(tl, "", s, op, k, o).codeOf, l)
  {
    hide Apply, SealSession, StampSession, OpenSession, CheckCode;
    var o := Apply(cfg, s, op, k);
    assert op.drawn.refresh !in s.refresh;
    if WillRotate(cfg, s, op, k) {
      assert op.token in tl.codeOf;
      RotationMintsOnePair(cfg, s, op, k);
      RotationDescends(cfg, s, op, k, o, tl.codeOf, l);
    } else {
      OtherRefreshMintsNothing(cfg, s, op, k);
      KeptAccessDescends(cfg, s.access, o.store.access, tl.codeOf, l);
      KeptRefreshDescends(cfg, s.refresh, o.store.refresh, k, tl.codeOf, l);
    }
  }

  lemma StepKeepsDescent(cfg: Config, y: System, st: Step)
    requires CorrectCipher(cfg.cipher) && NamesIssued(y) && Enabled(y, st) && !st.Look?
    requires ExchangesMatch(y.exchanges, y.codes) && TokensDescend(cfg, y.store, y.tokens.codeOf, y.codes)
    ensures TokensDescend(cfg, Next(cfg, y, st).store, Next(cfg, y, st).tokens.codeOf, y.codes)
  {
    var op := OpOf(y, st);
    assert op.ExchangeMint? || op.RefreshAccessToken? ==> {op.drawn.access, op.drawn.refresh} <= Draws(op);
    if op.ExchangeMint? {
      MintDescends(cfg, y.store, op, st.k, RedeemedCode(y, st), y.tokens.codeOf, y.codes);
    } else if op.RefreshAccessToken? {
      RefreshingDescends(cfg, y.store, op, st.k, y.tokens, y.codes);
    } else {
      OtherDescends(cfg, y.store, op, st.k, y.tokens.codeOf, y.codes);
    }
  }

  ghost predicate Traceable(cfg: Config, y: System) {
    && CodesMatch(cfg, y.store.codes, y.codes)
    && ExchangesMatch(y.exchanges, y.codes)
    && TokensDescend(cfg, y.store, y.tokens.codeOf, y.codes)
  }

  lemma StepKeepsTraceable(cfg: Config, y: System, st: Step)
    requires CorrectCipher(cfg.cipher) && NamesIssued(y) && HandoffsTraced(y) && Enabled(y, st) && Traceable(cfg, y)
    ensures Traceable(cfg, Next(cfg, y, st))
  {
    if !st.Look? {
      var op, o := OpOf(y, st), OutcomeOf(cfg, y, st);
      StepKeepsCodesMatch(cfg, y, st);
      StepKeepsExchangesMatch(cfg, y, st);
      StepKeepsDescent(cfg, y, st);
      assert op.BeginAuthorization? || op.CompleteSsoAuthorization? ==> op.code in Draws(op);
      LoggingGrowsTheLedger(y.codes, y.handoffs.filed, op, o.response);
      GrowingKeepsDescent(cfg, Next(cfg, y, st).store, Next(cfg, y, st).tokens.codeOf, y.codes, Next(cfg, y, st).codes);
    }
  }

  lemma StartIsTraceable(cfg: Config)
    ensures Traceable(cfg, Start)
  {
  }

  lemma {:induction false} TraceableInRun(cfg: Config, run: seq<System>, steps: seq<Step>, i: nat)
    requires CorrectCipher(cfg.cipher) && IsRun(cfg, run, steps) && i < |run|
    ensures Traceable(cfg, run[i])
  {
    hide Next, Enabled, Traceable, HandoffsTraced, NamesIssued;
    StartIsTraceable(cfg);
    if i > 0 {
      TraceableInRun(cfg, run, steps, i - 1);
      NamesIssuedInRun(cfg, run, steps, i - 1);
      HandoffsTracedInRun(cfg, run, steps, i - 1);
      StepKeepsTraceable(cfg, run[i - 1], steps[i - 1]);
    }
  }

  /** The token's record opens, unless a sensitive value of its code's session looked sealed. */
  ghost predicate Opens(cfg: Config, stored: Session, origin: Session) {
    Clean(origin) ==> OpenSession(cfg, stored).Some? && SameIdentity(OpenSession(cfg, stored).value, origin)
  }

  ghost predicate CarriesItsCode(cfg: Config, y: System, t: string, clientId: string, scope: string, stored: Session) {
    && Descends(cfg, t, clientId, scope, stored, y.tokens.codeOf, y.codes)
    && Opens(cfg, stored, y.codes.origins[y.tokens.codeOf[t]].session)
    && Redeems(cfg, y.codes.redeemedBy[y.tokens.codeOf[t]], y.codes.origins[y.tokens.codeOf[t]])
  }

  lemma DescendantCarries(cfg: Config, y: System, t: string, clientId: string, scope: string, stored: Session)
    requires CodesMatch(cfg, y.store.codes, y.codes)
    requires Descends(cfg, t, clientId, scope, stored, y.tokens.codeOf, y.codes)
    ensures CarriesItsCode(cfg, y, t, clientId, scope, stored)
  {
    var origin := y.codes.origins[y.tokens.codeOf[t]].session;
    if Clean(origin) { CleanSessionsOpen(cfg, stored, origin); }
  }

  /** Main result. Every stored token, after any number of rotations in any interleaving, has
      the client and scope of the code it descends from and opens to that code's session; and
      that code was redeemed by its own client, at its own redirect URI, with a verifier
      hashing to its challenge. */
  lemma TokensCarryTheirCode(cfg: Config, run: seq<System>, steps: seq<Step>, i: nat, t: string)
    requires CorrectCipher(cfg.cipher) && IsRun(cfg, run, steps) && i < |run|
    ensures var y := run[i];
            t in y.store.access ==>
              var r := y.store.access[t]; CarriesItsCode(cfg, y, t, r.clientId, r.scope, r.session)
    ensures var y := run[i];
            t in y.store.refresh ==>
              var r := y.store.refresh[t]; CarriesItsCode(cfg, y, t, r.clientId, r.scope, r.session)
  {
    hide Next, Enabled;
    TraceableInRun(cfg, run, steps, i);
    var y := run[i];
    if t in y.store.access {
      var r := y.store.access[t];
      DescendantCarries(cfg, y, t, r.clientId, r.scope, r.session);
    }
    if t in y.store.refresh {
      var r := y.store.refresh[t];
      DescendantCarries(cfg, y, t, r.clientId, r.scope, r.session);
    }
  }

  // ---------------------------------------------------------------- back to the handoff

  /** The stored record of a code minted by SSO, against what its handoff was filed with. */
  predicate BoundAsFiled(r: CodeRecord, asked: SsoRequest) {
    && r.clientId == asked.clientId && r.redirectUri == asked.redirectUri && r.scope == asked.scope
    && r.codeChallenge == asked.codeChallenge && r.codeChallengeMethod == asked.codeChallengeMethod
  }

  /** Main result. Every stored authorization code has an origin; if that is a handoff, the
      stored record is bound to the client, redirect, scope, challenge and method the handoff was
      filed with, and no other code, stored or spent, came of it. */
  lemma StoredSsoCodeIsBoundAsFiled(cfg: Config, run: seq<System>, steps: seq<Step>, i: nat, c: string, d: string)
    requires CorrectCipher(cfg.cipher) && IsRun(cfg, run, steps) && i < |run| && c in run[i].store.codes
    ensures c in run[i].codes.origins
    ensures var y := run[i]; var h := y.codes.origins[c].handoff;
            h.Some? ==>
              && h.value in y.handoffs.filed && BoundAsFiled(y.store.codes[c], y.handoffs.filed[h.value].request)
              && (d in y.codes.origins && y.codes.origins[d].handoff == h ==> d == c)
  {
    hide Next, Enabled;
    TraceableInRun(cfg, run, steps, i);
    SsoCodesTracedInRun(cfg, run, steps, i);
    WellFiledInRun(cfg, run, steps, i);
  }

  /** Main result. A stored token whose code came of a handoff has the client and scope that
      handoff was filed with, and the code was redeemed at the filed redirect URI with a verifier
      hashing to the filed challenge. */
  lemma SsoTokensTraceToTheirHandoff(cfg: Config, run: seq<System>, steps: seq<Step>, i: nat, t: string)
    requires CorrectCipher(cfg.cipher) && IsRun(cfg, run, steps) && i < |run|
    requires t in run[i].store.access || t in run[i].store.refresh
    ensures var y := run[i]; t in y.tokens.codeOf && y.tokens.codeOf[t] in y.codes.origins
    ensures var y := run[i]; var c := y.tokens.codeOf[t]; var h := y.codes.origins[c].handoff;
            h.Some? ==>
              && h.value in y.handoffs.filed && c in y.codes.redeemedBy
              && var asked, used := y.handoffs.filed[h.value].request, y.codes.redeemedBy[c];
              && (t in y.store.access ==>
                    y.store.access[t].clientId == asked.clientId && y.store.access[t].scope == asked.scope)
              && (t in y.store.refresh ==>
                    y.store.refresh[t].clientId == asked.clientId && y.store.refresh[t].scope == asked.scope)
              && used.clientId == asked.clientId && used.redirectUri == asked.redirectUri
              && cfg.sha256Base64Url(used.verifier) == asked.codeChallenge && asked.codeChallengeMethod == "S256"
  {
    hide Next, Enabled;
    TokensCarryTheirCode(cfg, run, steps, i, t);
    SsoCodesTracedInRun(cfg, run, steps, i);
    WellFiledInRun(cfg, run, steps, i);
  }

  /** Main result. What a bearer of an access token is told: the client, scope, user and tenant
      of the code, and its upstream key whenever that key did not look sealed to begin with. */
  lemma ReadReturnsTheCodesSession(cfg: Config, run: seq<System>, steps: seq<Step>, i: nat)
    requires CorrectCipher(cfg.cipher) && IsRun(cfg, run, steps) && i < |steps|
    requires steps[i].Lone? && steps[i].op.ReadAccessToken?
    requires var r := OutcomeOf(cfg, run[i], steps[i]).response; r.Access? && r.access.Some?
    ensures var y, t := run[i], steps[i].op.token; var a := OutcomeOf(cfg, y, steps[i]).response.access.value;
            && t in y.tokens.codeOf && y.tokens.codeOf[t] in y.codes.origins
            && var o := y.codes.origins[y.tokens.codeOf[t]];
            && a.clientId == o.terms.clientId && a.scope == o.terms.scope
            && SameIdentity(a.session, o.session)
  {
    var y, t := run[i], steps[i].op.token;
    ReadTokenIsStored(cfg, y.store, t, steps[i].k.t0);
    TokensCarryTheirCode(cfg, run, steps, i, t);
    ReadOpensTheStoredSession(cfg, y.store, t, steps[i].k.t0, y.codes.origins[y.tokens.codeOf[t]].session);
  }

  lemma ReadTokenIsStored(cfg: Config, s: Store, t: string, now: int)
    requires ReadAccess(cfg, s, t, now).response.access.Some?
    ensures t in s.access
  {
  }

  lemma ReadOpensTheStoredSession(cfg: Config, s: Store, t: string, now: int, origin: Session)
    requires t in s.access && Carries(cfg, s.access[t].session, origin)
    requires ReadAccess(cfg, s, t, now).response.access.Some?
    ensures var a := ReadAccess(cfg, s, t, now).response.access.value;
            && a.clientId == s.access[t].clientId && a.scope == s.access[t].scope
            && SameIdentity(a.session, origin)
  {
    var r := StampAccess(cfg, s.access[t]);
    KeptCarries(cfg, s.access[t].session, r.session, r.clientId, origin);
    OpeningKeepsIdentity(cfg, r.session, origin, OpenSession(cfg, r.session).value);
  }
}
