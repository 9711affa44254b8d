/** With an encryption key configured, no sensitive value ever reaches the store file in clear. */
module SealedAtRest {
  import opened Options
  import opened FieldCrypto
  import opened TokenStore
  import opened TokenRuns

  predicate SealedOrEmpty(v: string) {
    v == "" || "enc:v1:" <= v
  }

  predicate SessionSealed(session: Session) {
    SealedOrEmpty(session.sessionKey) && SealedOrEmpty(session.email)
  }

  ghost predicate CodesSealed(codes: map<string, CodeRecord>) {
    forall c :: c in codes ==> SessionSealed(codes[c].session)
  }

  ghost predicate AccessSealed(access: map<string, AccessRecord>) {
    forall t :: t in access ==> SessionSealed(access[t].session)
  }

  ghost predicate RefreshSealed(refresh: map<string, RefreshRecord>) {
    forall t :: t in refresh ==> SessionSealed(refresh[t].session)
  }

  lemma FieldIsSealed(c: Cipher, v: string, nonce: nat)
    requires c.FernetCipher?
    ensures SealedOrEmpty(SealField(c, v, nonce))
  {
    SealEncryptsExactly(c.fernet, v, nonce);
    var stored := SealField(c, v, nonce);
    assert stored != "" ==> stored[..7] == "enc:v1:";
  }

  lemma SealedSessionIsSealed(cfg: Config, session: Session, nonce: nat)
    requires cfg.cipher.FernetCipher?
    ensures SessionSealed(SealSession(cfg, session, nonce))
  {
    FieldIsSealed(cfg.cipher, session.sessionKey, nonce);
    FieldIsSealed(cfg.cipher, session.email, nonce + 1);
  }

  lemma StampKeepsSealed(cfg: Config, session: Session, clientId: string)
    requires SessionSealed(session)
    ensures SessionSealed(StampSession(cfg, session, clientId))
  {
  }

  lemma CodesStaySealed(cfg: Config, s: Store, op: Op, k: Ticks)
    requires cfg.cipher.FernetCipher? && CodesSealed(s.codes)
    ensures CodesSealed(Apply(cfg, s, op, k).store.codes)
  {
    hide SealSession, StampSession, SessionSealed;
    if op.BeginAuthorization? {
      SealedSessionIsSealed(cfg, StampSession(cfg, op.session, op.terms.clientId), op.nonce);
    } else if op.CompleteSsoAuthorization? {
      CompletionSeals(cfg, s, op, k);
    } else {
      CodesShrink(cfg, s, op, k);
    }
  }

  lemma CompletionSeals(cfg: Config, s: Store, op: Op, k: Ticks)
    requires cfg.cipher.FernetCipher? && CodesSealed(s.codes) && op.CompleteSsoAuthorization?
    ensures CodesSealed(Apply(cfg, s, op, k).store.codes)
  {
    hide SealSession, StampSession, SessionSealed;
    if Apply(cfg, s, op, k).response.Valid? {
      var clientId := s.handoffs[op.handoff].request.clientId;
      SealedSessionIsSealed(cfg, StampSession(cfg, op.session, clientId), op.nonce);
    }
  }

  lemma PairIsSealed(cfg: Config, s: Store, session: Session, scope: string, clientId: string, drawn: Draw,
                     t1: int, t2: int, t3: int, t4: int)
    requires cfg.cipher.FernetCipher? && AccessSealed(s.access) && RefreshSealed(s.refresh)
    ensures var after := WritePair(cfg, s, session, scope, clientId, drawn, t1, t2, t3, t4);
            AccessSealed(after.access) && RefreshSealed(after.refresh)
  {
    hide SealSession, StampSession, SessionSealed;
    SealedSessionIsSealed(cfg, StampSession(cfg, session, clientId), drawn.nonce);
  }

  lemma MintSeals(cfg: Config, s: Store, op: Op, k: Ticks)
    requires cfg.cipher.FernetCipher? && AccessSealed(s.access) && RefreshSealed(s.refresh) && op.ExchangeMint?
    ensures var after := Apply(cfg, s, op, k).store; AccessSealed(after.access) && RefreshSealed(after.refresh)
  {
    hide SealSession, StampSession, SessionSealed, WritePair;
    PairIsSealed(cfg, Prune(cfg, s, k.t0), op.session, op.scope, op.clientId, op.drawn, k.t1, k.t2, k.t3, k.t4);
  }

  lemma RefreshSeals(cfg: Config, s: Store, op: Op, k: Ticks)
    requires cfg.cipher.FernetCipher? && AccessSealed(s.access) && RefreshSealed(s.refresh) && op.RefreshAccessToken?
    ensures var after := Apply(cfg, s, op, k).store; AccessSealed(after.access) && RefreshSealed(after.refresh)
  {
    hide SealSession, StampSession, SessionSealed, WritePair, OpenSession;
    var p := Prune(cfg, s, k.t0);
    if op.token in p.refresh {
      var r := StampRefresh(cfg, p.refresh[op.token]);
      StampKeepsSealed(cfg, p.refresh[op.token].session, r.clientId);
      var stamped, plain := p.(refresh := p.refresh[op.token := r]), OpenSession(cfg, r.session);
      if plain.Some? {
        PairIsSealed(cfg, stamped, plain.value, r.scope, op.clientId, op.drawn, k.t2, k.t3, k.t4, k.t5);
      }
    }
  }

  lemma ReadKeepsSealed(cfg: Config, s: Store, token: string, now: int)
    requires AccessSealed(s.access)
    ensures AccessSealed(ReadAccess(cfg, s, token, now).store.access)
  {
    hide StampSession, SessionSealed, OpenSession;
    var p := Prune(cfg, s, now);
    if token in p.access { StampKeepsSealed(cfg, p.access[token].session, p.access[token].clientId); }
  }

  lemma RevocationKeepsSealed(cfg: Config, s: Store, op: Op, k: Ticks)
    requires AccessSealed(s.access) && RefreshSealed(s.refresh) && (op.RevokeOne? || op.RevokeAllForUser?)
    ensures var after := Apply(cfg, s, op, k).store; AccessSealed(after.access) && RefreshSealed(after.refresh)
  {
    hide SessionSealed;
  }

  lemma TokensStaySealed(cfg: Config, s: Store, op: Op, k: Ticks)
    requires cfg.cipher.FernetCipher? && AccessSealed(s.access) && RefreshSealed(s.refresh)
    ensures var after := Apply(cfg, s, op, k).store; AccessSealed(after.access) && RefreshSealed(after.refresh)
  {
    hide SessionSealed, WritePair, SealSession, StampSession, OpenSession, CheckCode;
    if op.ExchangeMint? {
      MintSeals(cfg, s, op, k);
    } else if op.RefreshAccessToken? {
      RefreshSeals(cfg, s, op, k);
    } else if op.RevokeOne? || op.RevokeAllForUser? {
      RevocationKeepsSealed(cfg, s, op, k);
    } else {
      RefreshShrinks(cfg, s, op, k);
      if op.ReadAccessToken? { ReadKeepsSealed(cfg, s, op.token, k.t0); } else { AccessShrinks(cfg, s, op, k); }
    }
  }

  /** Main result. With a key, in every reachable state the upstream key and the email of every
      stored authorization code, access token and refresh token are each empty or sealed. */
  lemma {:induction false} StoredSessionsAreSealed(cfg: Config, run: seq<System>, steps: seq<Step>, i: nat)
    requires cfg.cipher.FernetCipher? && IsRun(cfg, run, steps) && i < |run|
    ensures forall c :: c in run[i].store.codes ==> SessionSealed(run[i].store.codes[c].session)
    ensures forall t :: t in run[i].store.access ==> SessionSealed(run[i].store.access[t].session)
    ensures forall t :: t in run[i].store.refresh ==> SessionSealed(run[i].store.refresh[t].session)
  {
    if i > 0 {
      StoredSessionsAreSealed(cfg, run, steps, i - 1);
      StepKeepsSealed(cfg, run[i - 1], steps[i - 1]);
    }
  }

  lemma StepKeepsSealed(cfg: Config, y: System, st: Step)
    requires cfg.cipher.FernetCipher? && Enabled(y, st)
    requires CodesSealed(y.store.codes) && AccessSealed(y.store.access) && RefreshSealed(y.store.refresh)
    ensures var after := Next(cfg, y, st).store;
            CodesSealed(after.codes) && AccessSealed(after.access) && RefreshSealed(after.refresh)
  {
    hide Apply;
    if !st.Look? {
      CodesStaySealed(cfg, y.store, OpOf(y, st), st.k);
      TokensStaySealed(cfg, y.store, OpOf(y, st), st.k);
    }
  }
}
