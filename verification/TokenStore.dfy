/**
 The five buckets of the token store and every transaction over them, each one a
 function of the loaded store and of the successive clock readings it makes.

 Readings are milliseconds; 0 and `None` are both falsy, as in the source.
*/
module TokenStore {
  import opened Options
  import opened FieldCrypto
  import opened Bounds

  type Positive = x: int | x > 0 witness 1

  /** Settings, with the client registry and the two primitives as parameters. */
  datatype Config = Config(
    clients: map<string, string>,        // client id -> integration ("" when it has none)
    tokenTtlSeconds: nat,
    refreshTtlSeconds: nat,
    authCodeTtlSeconds: nat,
    refreshGraceSeconds: nat,
    signedUrlTtlSeconds: nat,
    ssoPendingTtlSeconds: nat,
    ssoReplayRetentionSeconds: nat,
    rateMaxRequests: nat,
    rateWindowMs: Positive,
    cipher: Cipher,
    sha256Base64Url: string -> string)

  datatype Session = Session(
    userId: string, email: string, tenantId: string, sessionKey: string, broker: map<string, string>)

  datatype CodeRecord = CodeRecord(
    clientId: string, redirectUri: string, scope: string, codeChallenge: string, codeChallengeMethod: string,
    session: Session, expiresAt: int)

  datatype AccessRecord = AccessRecord(
    clientId: string, scope: string, integration: string, session: Session,
    createdAt: int, expiresAt: int, revokedAt: Option<int>)

  datatype TokenResponse = TokenResponse(
    accessToken: string, expiresIn: nat, refreshToken: string, scope: string)

  datatype RefreshRecord = RefreshRecord(
    clientId: string, scope: string, integration: string, session: Session,
    createdAt: int, expiresAt: int, revokedAt: Option<int>, rotationResponse: Option<TokenResponse>)

  datatype GrantRecord = GrantRecord(
    userId: string, tenantId: string, source: string, expiresAt: int)

  /** What an SSO initiation asks for and who asks. */
  datatype SsoRequest = SsoRequest(
    clientId: string, redirectUri: string, scope: string, codeChallenge: string, codeChallengeMethod: string,
    canvaState: string, tenant: string, correlationId: string, initiatorKey: string)

  datatype HandoffRecord = HandoffRecord(
    request: SsoRequest, createdAt: int, expiresAt: int, usedAt: Option<int>, purgeAt: int)

  datatype Store = Store(
    codes: map<string, CodeRecord>,
    access: map<string, AccessRecord>,
    refresh: map<string, RefreshRecord>,
    grants: map<string, GrantRecord>,
    handoffs: map<string, HandoffRecord>)

  const EmptyStore := Store(map[], map[], map[], map[], map[])

  predicate Truthy(o: Option<int>) {
    o.Some? && o.value != 0
  }

  function Ms(seconds: nat): nat {
    seconds * 1000
  }

  function GraceMs(cfg: Config): nat {
    Ms(cfg.refreshGraceSeconds)
  }

  // ---------------------------------------------------------------- expiry

  predicate KeepCode(r: CodeRecord, now: int) {
    r.expiresAt > now
  }

  predicate KeepAccess(r: AccessRecord, now: int) {
    r.expiresAt > now && !Truthy(r.revokedAt)
  }

  predicate KeepRefresh(r: RefreshRecord, now: int, grace: int) {
    && !(Truthy(r.revokedAt) && now - r.revokedAt.value > grace)
    && !(r.expiresAt != 0 && r.expiresAt <= now)
  }

  predicate KeepGrant(r: GrantRecord, now: int) {
    r.expiresAt > now
  }

  predicate KeepHandoff(r: HandoffRecord, now: int) {
    r.purgeAt > now
  }

  function PruneGrants(s: Store, now: int): Store {
    s.(grants := map g | g in s.grants && KeepGrant(s.grants[g], now) :: s.grants[g])
  }

  function PruneAt(s: Store, now: int, grace: int): Store {
    Store(
      map c | c in s.codes && KeepCode(s.codes[c], now) :: s.codes[c],
      map t | t in s.access && KeepAccess(s.access[t], now) :: s.access[t],
      map t | t in s.refresh && KeepRefresh(s.refresh[t], now, grace) :: s.refresh[t],
      map g | g in s.grants && KeepGrant(s.grants[g], now) :: s.grants[g],
      map h | h in s.handoffs && KeepHandoff(s.handoffs[h], now) :: s.handoffs[h])
  }

  function Prune(cfg: Config, s: Store, now: int): Store {
    PruneAt(s, now, GraceMs(cfg))
  }

  // ---------------------------------------------------------------- sessions

  predicate IsConfigured(cfg: Config, clientId: string) {
    clientId in cfg.clients
  }

  function IntegrationOf(cfg: Config, clientId: string): string {
    if clientId in cfg.clients then cfg.clients[clientId] else ""
  }

  function StampSession(cfg: Config, session: Session, clientId: string): Session {
    var integration := IntegrationOf(cfg, clientId);
    var named := session.broker["clientId" := clientId];
    session.(broker := if integration != "" then named["integration" := integration] else named - {"integration"})
  }

  function SealField(c: Cipher, v: string, nonce: nat): string {
    if v == "" then v else Seal(c, v, nonce)
  }

  function OpenField(c: Cipher, v: string): Option<string> {
    if v == "" then Some(v) else Open(c, v)
  }

  function SealSession(cfg: Config, session: Session, nonce: nat): Session {
    session.(sessionKey := SealField(cfg.cipher, session.sessionKey, nonce),
             email := SealField(cfg.cipher, session.email, nonce + 1))
  }

  /** `None` when a sealed field cannot be decrypted. */
  function OpenSession(cfg: Config, session: Session): Option<Session> {
    var key := OpenField(cfg.cipher, session.sessionKey);
    var email := OpenField(cfg.cipher, session.email);
    if key.Some? && email.Some? then Some(session.(sessionKey := key.value, email := email.value)) else None
  }

  // ---------------------------------------------------------------- authorization codes

  datatype CodeTerms = CodeTerms(
    clientId: string, redirectUri: string, scope: string, codeChallenge: string, codeChallengeMethod: string)

  function MethodOrS256(m: string): string {
    if m == "" then "S256" else m
  }

  /** Prune, then file a fresh code; `session` already carries the broker stamp. */
  function MintCode(cfg: Config, s: Store, code: string, terms: CodeTerms, session: Session, nonce: nat,
                    pruneAt: int, now: int): Store
  {
    var p := Prune(cfg, s, pruneAt);
    p.(codes := p.codes[code := CodeRecord(
      terms.clientId, terms.redirectUri, terms.scope, terms.codeChallenge, MethodOrS256(terms.codeChallengeMethod),
      SealSession(cfg, session, nonce), now + Ms(cfg.authCodeTtlSeconds))])
  }

  // ---------------------------------------------------------------- SSO handoffs

  const MAX_PENDING_SSO_STATES := 2000

  function PerSourceLimit(cfg: Config): int {
    var fromRate := cfg.rateMaxRequests * Ms(cfg.ssoPendingTtlSeconds) / cfg.rateWindowMs;
    Max(10, Min(fromRate, MAX_PENDING_SSO_STATES / 10))
  }

  predicate IsActiveHandoff(r: HandoffRecord, now: int) {
    r.usedAt.None? && r.expiresAt > now
  }

  function ActiveHandoffs(s: Store, now: int): set<string> {
    set h | h in s.handoffs && IsActiveHandoff(s.handoffs[h], now)
  }

  function ActiveHandoffsFrom(s: Store, initiator: string, now: int): set<string> {
    set h | h in s.handoffs && s.handoffs[h].request.initiatorKey == initiator && IsActiveHandoff(s.handoffs[h], now)
  }

  datatype Status = Invalid | Replayed | Expired | Active

  function Classify(r: Option<HandoffRecord>, now: int): Status {
    match r
    case None => Invalid
    case Some(rec) => if Truthy(rec.usedAt) then Replayed else if now > rec.expiresAt then Expired else Active
  }

  function NewHandoff(cfg: Config, request: SsoRequest, requestedAt: int, createdAt: int): HandoffRecord {
    var expiresAt := requestedAt + Ms(cfg.ssoPendingTtlSeconds);
    HandoffRecord(request.(codeChallengeMethod := MethodOrS256(request.codeChallengeMethod)), createdAt, expiresAt,
                  None, expiresAt + Ms(cfg.ssoReplayRetentionSeconds))
  }

  function HandoffTerms(r: HandoffRecord): CodeTerms {
    CodeTerms(r.request.clientId, r.request.redirectUri, r.request.scope, r.request.codeChallenge,
              r.request.codeChallengeMethod)
  }

  // ---------------------------------------------------------------- responses

  datatype OAuthError = InvalidClient | CodeNotFound | BindingMismatch | VerifierRequired | OnlyS256 | PkceFailed
                      | SessionGone | RefreshNotFound

  datatype Response =
    | Done
    | Code(code: string)
    | Handoff(handoff: string)
    | SsoCapacity
    | Observed(status: Status, record: Option<HandoffRecord>)
    | Valid(validCode: Option<string>, validRecord: HandoffRecord)
    | Failed(error: OAuthError)
    | Consumed(session: Session, scope: string)
    | Tokens(tokens: TokenResponse)
    | Access(access: Option<AccessRecord>)
    | Flag(flag: bool)
    | Grant(grant: Option<GrantRecord>)
    | Counts(codeCount: nat, accessCount: nat, refreshCount: nat, grantCount: nat)

  datatype Outcome = Outcome(store: Store, response: Response)

  // ---------------------------------------------------------------- transactions

  /** Raising SSO_CAPACITY abandons the transaction, so its pruning is not saved either. */
  function BeginSso(cfg: Config, s: Store, request: SsoRequest, handoff: string, requestedAt: int,
                    t0: int, t1: int): Outcome
  {
    var p := Prune(cfg, s, t0);
    if |ActiveHandoffsFrom(p, request.initiatorKey, t1)| >= PerSourceLimit(cfg) then Outcome(s, SsoCapacity)
    else if |ActiveHandoffs(p, t1)| >= MAX_PENDING_SSO_STATES then Outcome(s, SsoCapacity)
    else Outcome(p.(handoffs := p.handoffs[handoff := NewHandoff(cfg, request, requestedAt, t1)]), Handoff(handoff))
  }

  function Inspect(s: Store, handoff: string, now: int): Response {
    var r := Lookup(s.handoffs, handoff);
    Observed(Classify(r, now), r)
  }

  function MarkUsed(s: Store, handoff: string, now: int): Store {
    if handoff in s.handoffs
    then s.(handoffs := s.handoffs[handoff := s.handoffs[handoff].(usedAt := Some(now))])
    else s
  }

  /** The nested prune may delete the very record being completed; the later write of
      `usedAt` then reaches only the detached record that goes into the response. */
  function CompleteSso(cfg: Config, s: Store, handoff: string, session: Session, code: string, nonce: nat,
                       t0: int, t1: int, t2: int, t3: int, t4: int): Outcome
  {
    var p := Prune(cfg, s, t0);
    var r := Lookup(p.handoffs, handoff);
    var status := Classify(r, t1);
    if status != Active then Outcome(p, Observed(status, r))
    else
      var stamped := StampSession(cfg, session, r.value.request.clientId);
      var minted := MintCode(cfg, p, code, HandoffTerms(r.value), stamped, nonce, t2, t3);
      Outcome(MarkUsed(minted, handoff, t4), Valid(Some(code), r.value.(usedAt := Some(t4))))
  }

  function ConsumeHandoff(cfg: Config, s: Store, handoff: string, t0: int, t1: int, t2: int): Outcome {
    var p := Prune(cfg, s, t0);
    var r := Lookup(p.handoffs, handoff);
    var status := Classify(r, t1);
    if status != Active then Outcome(p, Observed(status, r))
    else Outcome(MarkUsed(p, handoff, t2), Valid(None, r.value.(usedAt := Some(t2))))
  }

  function CheckCode(cfg: Config, r: CodeRecord, clientId: string, redirectUri: string, verifier: string): Response {
    if r.clientId != clientId || r.redirectUri != redirectUri then Failed(BindingMismatch)
    else if r.codeChallenge == "" || verifier == "" then Failed(VerifierRequired)
    else if MethodOrS256(r.codeChallengeMethod) != "S256" then Failed(OnlyS256)
    else if cfg.sha256Base64Url(verifier) != r.codeChallenge then Failed(PkceFailed)
    else
      var plain := OpenSession(cfg, r.session);
      if plain.None? then Failed(SessionGone) else Consumed(plain.value, r.scope)
  }

  /** First half of a code exchange. A presented code is burned whatever the checks say. */
  function ConsumeCode(cfg: Config, s: Store, code: string, clientId: string, redirectUri: string, verifier: string,
                       t0: int): Outcome
  {
    if !IsConfigured(cfg, clientId) then Outcome(s, Failed(InvalidClient))
    else
      var p := Prune(cfg, s, t0);
      if code !in p.codes then Outcome(p, Failed(CodeNotFound))
      else Outcome(p.(codes := p.codes - {code}), CheckCode(cfg, p.codes[code], clientId, redirectUri, verifier))
  }

  /** The random material one pair mint draws. */
  datatype Draw = Draw(access: string, refresh: string, nonce: nat)

  function PairResponse(cfg: Config, drawn: Draw, scope: string): TokenResponse {
    TokenResponse(drawn.access, cfg.tokenTtlSeconds, drawn.refresh, scope)
  }

  function WritePair(cfg: Config, s: Store, session: Session, scope: string, clientId: string, drawn: Draw,
                     t1: int, t2: int, t3: int, t4: int): Store
  {
    var sealed := SealSession(cfg, StampSession(cfg, session, clientId), drawn.nonce);
    var integration := IntegrationOf(cfg, clientId);
    s.(access := s.access[drawn.access := AccessRecord(
         clientId, scope, integration, sealed, t2, t1 + Ms(cfg.tokenTtlSeconds), None)],
       refresh := s.refresh[drawn.refresh := RefreshRecord(
         clientId, scope, integration, sealed, t3, t4 + Ms(cfg.refreshTtlSeconds), None, None)])
  }

  /** Second half of a code exchange. */
  function MintPair(cfg: Config, s: Store, session: Session, scope: string, clientId: string, drawn: Draw,
                    t0: int, t1: int, t2: int, t3: int, t4: int): Outcome
  {
    Outcome(WritePair(cfg, Prune(cfg, s, t0), session, scope, clientId, drawn, t1, t2, t3, t4),
            Tokens(PairResponse(cfg, drawn, scope)))
  }

  function StampRefresh(cfg: Config, r: RefreshRecord): RefreshRecord {
    r.(integration := IntegrationOf(cfg, r.clientId), session := StampSession(cfg, r.session, r.clientId))
  }

  function StampAccess(cfg: Config, r: AccessRecord): AccessRecord {
    r.(integration := IntegrationOf(cfg, r.clientId), session := StampSession(cfg, r.session, r.clientId))
  }

  /** The answer to a token that has already been rotated or revoked. */
  function Replay(cfg: Config, r: RefreshRecord, now: int): Response
    requires Truthy(r.revokedAt)
  {
    if now - r.revokedAt.value <= GraceMs(cfg) && r.rotationResponse.Some?
      && r.rotationResponse.value.refreshToken != ""
    then Tokens(r.rotationResponse.value)
    else Failed(RefreshNotFound)
  }

  function Refresh(cfg: Config, s: Store, clientId: string, token: string, drawn: Draw,
                   t0: int, t1: int, t2: int, t3: int, t4: int, t5: int): Outcome
  {
    if !IsConfigured(cfg, clientId) then Outcome(s, Failed(InvalidClient))
    else
      var p := Prune(cfg, s, t0);
      if token !in p.refresh || p.refresh[token].clientId != clientId then Outcome(p, Failed(RefreshNotFound))
      else
        var r := StampRefresh(cfg, p.refresh[token]);
        var stamped := p.(refresh := p.refresh[token := r]);
        var plain := OpenSession(cfg, r.session);
        if plain.None? then Outcome(stamped, Failed(SessionGone))
        else if Truthy(r.revokedAt) then Outcome(stamped, Replay(cfg, r, t1))
        else
          var tokens := PairResponse(cfg, drawn, r.scope);
          var minted := WritePair(cfg, stamped, plain.value, r.scope, clientId, drawn, t2, t3, t4, t5);
          var rotated := r.(revokedAt := Some(t1), rotationResponse := Some(tokens));
          Outcome(minted.(refresh := minted.refresh[token := rotated]),
                  Tokens(tokens))
  }

  function OpenAccess(cfg: Config, r: AccessRecord): Option<AccessRecord> {
    var plain := OpenSession(cfg, r.session);
    if plain.None? then None else Some(r.(session := plain.value))
  }

  function ReadAccess(cfg: Config, s: Store, token: string, t0: int): Outcome {
    var p := Prune(cfg, s, t0);
    if token !in p.access || !IsConfigured(cfg, p.access[token].clientId) then Outcome(p, Access(None))
    else
      var r := StampAccess(cfg, p.access[token]);
      Outcome(p.(access := p.access[token := r]), Access(OpenAccess(cfg, r)))
  }

  function RevokeToken(cfg: Config, s: Store, token: string, t0: int, t1: int): Outcome {
    var p := Prune(cfg, s, t0);
    if token in p.access then Outcome(p.(access := p.access - {token}), Flag(true))
    else if token in p.refresh
    then Outcome(p.(refresh := p.refresh[token := p.refresh[token].(revokedAt := Some(t1))]), Flag(true))
    else Outcome(p, Flag(false))
  }

  predicate Owns(session: Session, userId: string, tenantId: string) {
    session.userId == userId && session.tenantId == tenantId
  }

  function RevokeUserIn(s: Store, userId: string, tenantId: string, now: int): Store {
    s.(access := map t | t in s.access ::
         if Owns(s.access[t].session, userId, tenantId) then s.access[t].(revokedAt := Some(now)) else s.access[t],
       refresh := map t | t in s.refresh ::
         if Owns(s.refresh[t].session, userId, tenantId) then s.refresh[t].(revokedAt := Some(now)) else s.refresh[t],
       grants := map g | g in s.grants ::
         if s.grants[g].userId == userId && s.grants[g].tenantId == tenantId
         then s.grants[g].(expiresAt := 0) else s.grants[g])
  }

  function RevokeUser(cfg: Config, s: Store, userId: string, tenantId: string, t0: int, t1: int): Outcome {
    Outcome(RevokeUserIn(Prune(cfg, s, t0), userId, tenantId, t1), Done)
  }

  /** Grants are written and read by the asset service, which prunes its own bucket only. */
  function CreateGrant(cfg: Config, s: Store, grant: string, userId: string, tenantId: string, source: string,
                       t0: int, t1: int): Outcome
  {
    var p := PruneGrants(s, t0);
    var r := GrantRecord(userId, tenantId, source, t1 + Ms(cfg.signedUrlTtlSeconds));
    Outcome(p.(grants := p.grants[grant := r]), Grant(Some(r)))
  }

  function LookupGrant(s: Store, grant: string, t0: int): Outcome {
    var p := PruneGrants(s, t0);
    Outcome(p, Grant(Lookup(p.grants, grant)))
  }

  function Stats(cfg: Config, s: Store, now: int): Response {
    var p := Prune(cfg, s, now);
    Counts(|p.codes|, |p.access|, |p.refresh|, |p.grants|)
  }

  // ---------------------------------------------------------------- one store operation

  datatype Op =
    | BackgroundPrune
    | BeginAuthorization(terms: CodeTerms, session: Session, code: string, nonce: nat)
    | BeginSsoAuthorization(request: SsoRequest, handoff: string, requestedAt: int)
    | InspectHandoff(handoff: string)
    | CompleteSsoAuthorization(handoff: string, session: Session, code: string, nonce: nat)
    | ConsumePendingHandoff(handoff: string)
    | ExchangeConsume(code: string, clientId: string, redirectUri: string, verifier: string)
    | ExchangeMint(session: Session, scope: string, clientId: string, drawn: Draw)
    | RefreshAccessToken(clientId: string, token: string, drawn: Draw)
    | ReadAccessToken(token: string)
    | RevokeOne(token: string)
    | RevokeAllForUser(userId: string, tenantId: string)
    | CreateAssetGrant(grant: string, userId: string, tenantId: string, source: string)
    | LookupAssetGrant(grant: string)
    | GetStats

  /** The readings one operation may make, in order; each operation uses a prefix of them. */
  datatype Ticks = Ticks(t0: int, t1: int, t2: int, t3: int, t4: int, t5: int)

  predicate Ordered(k: Ticks) {
    0 < k.t0 <= k.t1 <= k.t2 <= k.t3 <= k.t4 <= k.t5
  }

  function Apply(cfg: Config, s: Store, op: Op, k: Ticks): Outcome {
    match op
    case BackgroundPrune => Outcome(Prune(cfg, s, k.t0), Done)
    case BeginAuthorization(terms, session, code, nonce) =>
      Outcome(MintCode(cfg, s, code, terms, StampSession(cfg, session, terms.clientId), nonce, k.t0, k.t1), Code(code))
    case BeginSsoAuthorization(request, handoff, requestedAt) =>
      BeginSso(cfg, s, request, handoff, requestedAt, k.t0, k.t1)
    case InspectHandoff(handoff) => Outcome(s, Inspect(s, handoff, k.t0))
    case CompleteSsoAuthorization(handoff, session, code, nonce) =>
      CompleteSso(cfg, s, handoff, session, code, nonce, k.t0, k.t1, k.t2, k.t3, k.t4)
    case ConsumePendingHandoff(handoff) => ConsumeHandoff(cfg, s, handoff, k.t0, k.t1, k.t2)
    case ExchangeConsume(code, clientId, redirectUri, verifier) =>
      ConsumeCode(cfg, s, code, clientId, redirectUri, verifier, k.t0)
    case ExchangeMint(session, scope, clientId, drawn) =>
      MintPair(cfg, s, session, scope, clientId, drawn, k.t0, k.t1, k.t2, k.t3, k.t4)
    case RefreshAccessToken(clientId, token, drawn) =>
      Refresh(cfg, s, clientId, token, drawn, k.t0, k.t1, k.t2, k.t3, k.t4, k.t5)
    case ReadAccessToken(token) => ReadAccess(cfg, s, token, k.t0)
    case RevokeOne(token) => RevokeToken(cfg, s, token, k.t0, k.t1)
    case RevokeAllForUser(userId, tenantId) => RevokeUser(cfg, s, userId, tenantId, k.t0, k.t1)
    case CreateAssetGrant(grant, userId, tenantId, source) =>
      CreateGrant(cfg, s, grant, userId, tenantId, source, k.t0, k.t1)
    case LookupAssetGrant(grant) => LookupGrant(s, grant, k.t0)
    case GetStats => Outcome(s, Stats(cfg, s, k.t0))
  }
}
