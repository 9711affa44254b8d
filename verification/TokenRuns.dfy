/**
 The token store under concurrent requests. A store transaction is one atomic step; a code
 exchange is two of them and an SSO callback is an unlocked look followed by one, so both
 are threads that hold data between their steps. Steps interleave freely and the clock may
 advance between any two readings.

 The ledgers are history no code reads: which token was minted from what, and what was answered.
*/
module TokenRuns {
  import opened Options
  import opened TokenStore

  /** A code exchange between consuming its code and minting its pair. */
  datatype Exchange = Exchange(code: string, clientId: string, session: Session, scope: string)

  /** An SSO callback between seeing an active handoff and completing it. */
  datatype Callback = Callback(handoff: string, held: HandoffRecord)

  /** What an authorization code was minted for: its terms, the authenticated session, and
      the handoff it completes if it came from SSO. */
  datatype Origin = Origin(terms: CodeTerms, session: Session, handoff: Option<string>)

  /** What a client presented when it redeemed a code. */
  datatype Redemption = Redemption(clientId: string, redirectUri: string, verifier: string)

  /** The rotation of a refresh token: when, until when the record lives, for whom, the answer. */
  datatype Rotation = Rotation(at: int, expiresAt: int, clientId: string, response: TokenResponse)

  datatype HandoffLedger = HandoffLedger(
    filed: map<string, HandoffRecord>,       // each handoff as first filed
    validations: multiset<string>)           // one entry per "valid" answer about a handoff

  datatype CodeLedger = CodeLedger(
    origins: map<string, Origin>,            // each code ever minted
    redemptions: multiset<string>,           // one entry per successfully consumed code
    redeemedBy: map<string, Redemption>)

  datatype TokenLedger = TokenLedger(
    codeOf: map<string, string>,             // each access or refresh token, the code it descends from
    chain: map<string, seq<string>>,         // the refresh tokens of a code in order of minting
    parent: map<string, string>,             // each rotated-in refresh token, the one it replaces
    children: multiset<string>,              // one entry per pair minted from a refresh token
    rotations: map<string, Rotation>,
    answers: set<(string, TokenResponse)>)   // refresh token and every successful answer to it

  datatype System = System(
    store: Store, clock: int, exchanges: map<nat, Exchange>, callbacks: map<nat, Callback>,
    issued: set<string>,                     // every random name drawn so far
    handoffs: HandoffLedger, codes: CodeLedger, tokens: TokenLedger)

  const Start := System(
    EmptyStore, 0, map[], map[], {}, HandoffLedger(map[], multiset{}), CodeLedger(map[], multiset{}, map[]),
    TokenLedger(map[], map[], map[], multiset{}, map[], {}))

  datatype Step =
    | Lone(op: Op, k: Ticks)  // a request that is one transaction, or the pruner
    | Consume(tid: nat, code: string, clientId: string, redirectUri: string, verifier: string, k: Ticks)
    | Mint(tid: nat, drawn: Draw, k: Ticks)
    | Look(tid: nat, handoff: string, seenAt: int)
    | Complete(tid: nat, session: Session, newCode: string, nonce: nat, k: Ticks)

  /** The operations that are not part of a longer protocol. The statistics are no step at all:
      they change nothing and read the clock outside the lock. */
  predicate IsLone(op: Op) {
    && !op.ExchangeConsume? && !op.ExchangeMint? && !op.CompleteSsoAuthorization?
    && !op.InspectHandoff? && !op.GetStats?
  }

  function Draws(op: Op): set<string> {
    match op
    case BeginAuthorization(_, _, code, _) => {code}
    case BeginSsoAuthorization(_, handoff, _) => {handoff}
    case CompleteSsoAuthorization(_, _, code, _) => {code}
    case ExchangeMint(_, _, _, drawn) => {drawn.access, drawn.refresh}
    case RefreshAccessToken(_, _, drawn) => {drawn.access, drawn.refresh}
    case CreateAssetGrant(grant, _, _, _) => {grant}
    case _ => {}
  }

  /** Random names are non-empty and never repeat. */
  predicate DrawsAreFresh(op: Op, issued: set<string>) {
    && Draws(op) !! issued
    && "" !in Draws(op)
    && (op.ExchangeMint? ==> op.drawn.access != op.drawn.refresh)
    && (op.RefreshAccessToken? ==> op.drawn.access != op.drawn.refresh)
  }

  predicate ThreadReady(y: System, st: Step) {
    match st
    case Lone(op, _) => IsLone(op)
    case Consume(tid, _, _, _, _, _) => tid !in y.exchanges
    case Mint(tid, _, _) => tid in y.exchanges
    case Look(tid, _, seenAt) => tid !in y.callbacks && y.clock <= seenAt
    case Complete(tid, _, _, _, _) => tid in y.callbacks
  }

  /** The store operation a step performs. */
  function OpOf(y: System, st: Step): Op
    requires ThreadReady(y, st)
  {
    match st
    case Lone(op, _) => op
    case Consume(_, code, clientId, redirectUri, verifier, _) => ExchangeConsume(code, clientId, redirectUri, verifier)
    case Mint(tid, drawn, _) =>
      var x := y.exchanges[tid];
      ExchangeMint(x.session, x.scope, x.clientId, drawn)
    case Look(_, handoff, _) => InspectHandoff(handoff)
    case Complete(tid, session, newCode, nonce, _) =>
      CompleteSsoAuthorization(y.callbacks[tid].handoff, session, newCode, nonce)
  }

  predicate Enabled(y: System, st: Step) {
    && ThreadReady(y, st)
    && (!st.Look? ==> Ordered(st.k) && y.clock <= st.k.t0)
    && DrawsAreFresh(OpOf(y, st), y.issued)
  }

  function LogHandoffs(cfg: Config, l: HandoffLedger, op: Op, k: Ticks, r: Response): HandoffLedger {
    match op
    case BeginSsoAuthorization(request, handoff, requestedAt) =>
      if r.Handoff? then l.(filed := l.filed[handoff := NewHandoff(cfg, request, requestedAt, k.t1)]) else l
    case CompleteSsoAuthorization(handoff, _, _, _) =>
      if r.Valid? then l.(validations := l.validations + multiset{handoff}) else l
    case ConsumePendingHandoff(handoff) =>
      if r.Valid? then l.(validations := l.validations + multiset{handoff}) else l
    case _ => l
  }

  /** A code minted by SSO is remembered with the terms of the handoff as first filed. */
  function LogCodes(l: CodeLedger, filed: map<string, HandoffRecord>, op: Op, r: Response): CodeLedger {
    match op
    case BeginAuthorization(terms, session, code, _) =>
      l.(origins := l.origins[code := Origin(terms, session, None)])
    case CompleteSsoAuthorization(handoff, session, code, _) =>
      if r.Valid? && handoff in filed
      then l.(origins := l.origins[code := Origin(HandoffTerms(filed[handoff]), session, Some(handoff))])
      else l
    case ExchangeConsume(code, clientId, redirectUri, verifier) =>
      if r.Consumed?
      then l.(redemptions := l.redemptions + multiset{code},
              redeemedBy := l.redeemedBy[code := Redemption(clientId, redirectUri, verifier)])
      else l
    case _ => l
  }

  function ChainOf(l: TokenLedger, code: string): seq<string> {
    if code in l.chain then l.chain[code] else []
  }

  /** History gained when a pair descending from `code` is minted. */
  function LogPair(l: TokenLedger, code: string, drawn: Draw): TokenLedger {
    l.(codeOf := l.codeOf[drawn.access := code][drawn.refresh := code],
       chain := l.chain[code := ChainOf(l, code) + [drawn.refresh]])
  }

  /** History gained when the rotation of `token` mints a pair. */
  function LogRotation(l: TokenLedger, token: string, r: RefreshRecord, drawn: Draw, at: int, tokens: TokenResponse)
    : TokenLedger
    requires token in l.codeOf
  {
    LogPair(l, l.codeOf[token], drawn).(
      parent := l.parent[drawn.refresh := token],
      children := l.children + multiset{token},
      rotations := l.rotations[token := Rotation(at, r.expiresAt, r.clientId, tokens)])
  }

  /** `redeemed` is the code an exchange thread holds; it matters to `ExchangeMint` only. */
  function LogTokens(l: TokenLedger, redeemed: string, before: Store, op: Op, k: Ticks, o: Outcome): TokenLedger {
    match op
    case ExchangeMint(_, _, _, drawn) => LogPair(l, redeemed, drawn)
    case RefreshAccessToken(_, token, drawn) =>
      if !o.response.Tokens? then l
      else
        var answered := l.(answers := l.answers + {(token, o.response.tokens)});
        if drawn.refresh in o.store.refresh && token in l.codeOf && token in before.refresh
        then LogRotation(answered, token, before.refresh[token], drawn, k.t1, o.response.tokens)
        else answered
    case _ => l
  }

  function RedeemedCode(y: System, st: Step): string
    requires ThreadReady(y, st)
  {
    if st.Mint? then y.exchanges[st.tid].code else ""
  }

  function ExchangesAfter(y: System, st: Step, r: Response): map<nat, Exchange> {
    match st
    case Consume(tid, code, clientId, _, _, _) =>
      if r.Consumed? then y.exchanges[tid := Exchange(code, clientId, r.session, r.scope)] else y.exchanges
    case Mint(tid, _, _) => y.exchanges - {tid}
    case _ => y.exchanges
  }

  function CallbacksAfter(y: System, st: Step): map<nat, Callback> {
    if st.Complete? then y.callbacks - {st.tid} else y.callbacks
  }

  function OutcomeOf(cfg: Config, y: System, st: Step): Outcome
    requires Enabled(y, st) && !st.Look?
  {
    Apply(cfg, y.store, OpOf(y, st), st.k)
  }

  /** The system once a transaction with outcome `o` has been saved. */
  function Commit(cfg: Config, y: System, st: Step, o: Outcome): System
    requires ThreadReady(y, st) && !st.Look?
  {
    var op := OpOf(y, st);
    System(o.store, st.k.t5, ExchangesAfter(y, st, o.response), CallbacksAfter(y, st),
           y.issued + Draws(op),
           LogHandoffs(cfg, y.handoffs, op, st.k, o.response),
           LogCodes(y.codes, y.handoffs.filed, op, o.response),
           LogTokens(y.tokens, RedeemedCode(y, st), y.store, op, st.k, o))
  }

  /** A look does not lock: its classification may use a reading from long after the snapshot,
      so it does not move the system's clock. */
  function Next(cfg: Config, y: System, st: Step): System
    requires Enabled(y, st)
  {
    if st.Look? then
      var r := Inspect(y.store, st.handoff, st.seenAt);
      if r.status == Active then y.(callbacks := y.callbacks[st.tid := Callback(st.handoff, r.record.value)]) else y
    else
      Commit(cfg, y, st, OutcomeOf(cfg, y, st))
  }

  ghost predicate IsRun(cfg: Config, run: seq<System>, steps: seq<Step>) {
    && |run| == |steps| + 1
    && run[0] == Start
    && forall i :: 0 <= i < |steps| ==> Enabled(run[i], steps[i]) && run[i + 1] == Next(cfg, run[i], steps[i])
  }

  /** A bucket that only lost records. */
  ghost predicate Shrinks<K, V>(after: map<K, V>, before: map<K, V>) {
    forall k :: k in after ==> k in before && after[k] == before[k]
  }

  // ---------------------------------------------------------------- names in use

  ghost predicate StoreNamesIn(s: Store, names: set<string>) {
    s.codes.Keys <= names && s.access.Keys <= names && s.refresh.Keys <= names && s.grants.Keys <= names &&
    s.handoffs.Keys <= names
  }

  /** Every stored or remembered name was drawn, so a fresh draw collides with nothing. */
  ghost predicate NamesIssued(y: System) {
    && StoreNamesIn(y.store, y.issued)
    && y.handoffs.filed.Keys <= y.issued
    && y.codes.origins.Keys <= y.issued
    && y.tokens.codeOf.Keys <= y.issued
  }

  lemma CodesShrink(cfg: Config, s: Store, op: Op, k: Ticks)
    requires !op.BeginAuthorization? && !op.CompleteSsoAuthorization?
    ensures Shrinks(Apply(cfg, s, op, k).store.codes, s.codes)
  {
    hide SealSession, StampSession, OpenSession, CheckCode, PerSourceLimit, ActiveHandoffs, ActiveHandoffsFrom;
  }

  lemma AccessShrinks(cfg: Config, s: Store, op: Op, k: Ticks)
    requires !op.ExchangeMint? && !op.RefreshAccessToken? && !op.ReadAccessToken? && !op.RevokeAllForUser?
    ensures Shrinks(Apply(cfg, s, op, k).store.access, s.access)
  {
    hide SealSession, StampSession, OpenSession, CheckCode, PerSourceLimit, ActiveHandoffs, ActiveHandoffsFrom;
  }

  lemma RefreshShrinks(cfg: Config, s: Store, op: Op, k: Ticks)
    requires !op.ExchangeMint? && !op.RefreshAccessToken? && !op.RevokeOne? && !op.RevokeAllForUser?
    ensures Shrinks(Apply(cfg, s, op, k).store.refresh, s.refresh)
  {
    hide SealSession, StampSession, OpenSession, CheckCode, PerSourceLimit, ActiveHandoffs, ActiveHandoffsFrom;
  }

  lemma GrantsShrink(cfg: Config, s: Store, op: Op, k: Ticks)
    requires !op.CreateAssetGrant? && !op.RevokeAllForUser?
    ensures Shrinks(Apply(cfg, s, op, k).store.grants, s.grants)
  {
    hide SealSession, StampSession, OpenSession, CheckCode, PerSourceLimit, ActiveHandoffs, ActiveHandoffsFrom;
  }

  lemma HandoffsShrink(cfg: Config, s: Store, op: Op, k: Ticks)
    requires !op.BeginSsoAuthorization? && !op.CompleteSsoAuthorization? && !op.ConsumePendingHandoff?
    ensures Shrinks(Apply(cfg, s, op, k).store.handoffs, s.handoffs)
  {
    hide SealSession, StampSession, OpenSession, CheckCode, PerSourceLimit, ActiveHandoffs, ActiveHandoffsFrom;
  }

  lemma CodeNamesAreDrawn(cfg: Config, s: Store, op: Op, k: Ticks)
    ensures Apply(cfg, s, op, k).store.codes.Keys <= s.codes.Keys + Draws(op)
  {
    if !op.BeginAuthorization? && !op.CompleteSsoAuthorization? { CodesShrink(cfg, s, op, k); }
  }

  lemma AccessNamesAreDrawn(cfg: Config, s: Store, op: Op, k: Ticks)
    ensures Apply(cfg, s, op, k).store.access.Keys <= s.access.Keys + Draws(op)
  {
    if !op.ExchangeMint? && !op.RefreshAccessToken? && !op.ReadAccessToken? && !op.RevokeAllForUser? {
      AccessShrinks(cfg, s, op, k);
    }
  }

  lemma RefreshNamesAreDrawn(cfg: Config, s: Store, op: Op, k: Ticks)
    ensures Apply(cfg, s, op, k).store.refresh.Keys <= s.refresh.Keys + Draws(op)
  {
    if !op.ExchangeMint? && !op.RefreshAccessToken? && !op.RevokeOne? && !op.RevokeAllForUser? {
      RefreshShrinks(cfg, s, op, k);
    }
  }

  lemma GrantNamesAreDrawn(cfg: Config, s: Store, op: Op, k: Ticks)
    ensures Apply(cfg, s, op, k).store.grants.Keys <= s.grants.Keys + Draws(op)
  {
    if !op.CreateAssetGrant? && !op.RevokeAllForUser? { GrantsShrink(cfg, s, op, k); }
  }

  lemma HandoffNamesAreDrawn(cfg: Config, s: Store, op: Op, k: Ticks)
    ensures Apply(cfg, s, op, k).store.handoffs.Keys <= s.handoffs.Keys + Draws(op)
  {
    if !op.BeginSsoAuthorization? && !op.CompleteSsoAuthorization? && !op.ConsumePendingHandoff? {
      HandoffsShrink(cfg, s, op, k);
    }
  }

  lemma LoggedNamesAreDrawn(cfg: Config, y: System, st: Step, o: Outcome)
    requires ThreadReady(y, st) && !st.Look?
    ensures var op := OpOf(y, st);
            && LogHandoffs(cfg, y.handoffs, op, st.k, o.response).filed.Keys <= y.handoffs.filed.Keys + Draws(op)
            && LogCodes(y.codes, y.handoffs.filed, op, o.response).origins.Keys <= y.codes.origins.Keys + Draws(op)
            && LogTokens(y.tokens, RedeemedCode(y, st), y.store, op, st.k, o).codeOf.Keys
               <= y.tokens.codeOf.Keys + Draws(op)
  {
  }

  lemma NamesStayIssued(cfg: Config, y: System, st: Step)
    requires NamesIssued(y) && Enabled(y, st)
    ensures NamesIssued(Next(cfg, y, st))
  {
    if !st.Look? {
      var op := OpOf(y, st);
      CodeNamesAreDrawn(cfg, y.store, op, st.k);
      AccessNamesAreDrawn(cfg, y.store, op, st.k);
      RefreshNamesAreDrawn(cfg, y.store, op, st.k);
      GrantNamesAreDrawn(cfg, y.store, op, st.k);
      HandoffNamesAreDrawn(cfg, y.store, op, st.k);
      LoggedNamesAreDrawn(cfg, y, st, OutcomeOf(cfg, y, st));
    }
  }

  lemma {:induction false} NamesIssuedInRun(cfg: Config, run: seq<System>, steps: seq<Step>, i: nat)
    requires IsRun(cfg, run, steps) && i < |run|
    ensures NamesIssued(run[i])
  {
    hide Next, Enabled;
    if i > 0 {
      NamesIssuedInRun(cfg, run, steps, i - 1);
      NamesStayIssued(cfg, run[i - 1], steps[i - 1]);
    }
  }
}
