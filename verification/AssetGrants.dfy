/**
 Signed URLs for asset delivery: what the signature binds, and exactly when a grant verifies.
*/
module AssetGrants {
  import opened Options
  import opened Base64Url
  import opened Decimals
  import opened TokenStore
  import opened TokenRuns
  import Revocation
  import AuthService

  /** HMAC-SHA256 under the signing secret, as a function of the message. */
  type Mac = string -> seq<byte>

  function Message(grantId: string, expiresAt: int): string {
    grantId + ":" + IntText(expiresAt)
  }

  function CreateSignature(mac: Mac, grantId: string, expiresAt: int): string {
    Encode(mac(Message(grantId, expiresAt)))
  }

  datatype Verdict =
    | Ok(grant: GrantRecord)
    | MissingSignature
    | GrantExpired
    | InvalidSignature
    | ComparisonError  // the constant-time comparison refuses non-ASCII text by raising

  /** `expiry` is the parsed `expires` parameter, `None` when it is not an integer. The three
      readings are those before the signature check, in the store transaction, and after it. */
  function VerifyGrant(mac: Mac, s: Store, grantId: string, expires: string, expiry: Option<int>, signature: string,
                       before: int, pruning: int, after: int): (Verdict, Store)
  {
    if grantId == "" || expires == "" || signature == "" then (MissingSignature, s)
    else if expiry.None? then (GrantExpired, s)
    else if expiry.value < before then (GrantExpired, s)
    else if !IsAscii(signature) then (ComparisonError, s)
    else if CreateSignature(mac, grantId, expiry.value) != signature then (InvalidSignature, s)
    else
      var o := LookupGrant(s, grantId, pruning);
      var grant := o.response.grant;
      if grant.None? || grant.value.expiresAt < after then (GrantExpired, o.store) else (Ok(grant.value), o.store)
  }

  /** The grant half of the asset service, over the same store file as the authorization service. */
  class AssetService {
    const config: Config
    const mac: Mac
    var file: Store

    constructor (config: Config, mac: Mac, file: Store)
      ensures this.config == config && this.mac == mac && this.file == file
    {
      this.config, this.mac, this.file := config, mac, file;
    }

    /** File a grant; the URL handed out carries its id, its expiry and this signature. */
    method IssueGrant(grant: string, userId: string, tenantId: string, source: string, k: Ticks)
      returns (r: Response, signature: string)
      modifies this
      ensures Outcome(file, r) == Apply(config, old(file), CreateAssetGrant(grant, userId, tenantId, source), k)
      ensures signature == CreateSignature(mac, grant, r.grant.value.expiresAt)
    {
      var state := new AuthService.LoadedState(file);
      state.PruneGrantBucket(k.t0);
      var expiresAt := k.t1 + config.signedUrlTtlSeconds * 1000;
      signature := CreateSignature(mac, grant, expiresAt);
      var record := GrantRecord(userId, tenantId, source, expiresAt);
      state.grants := state.grants[grant := record];
      file := state.Snapshot();
      r := Grant(Some(record));
    }

    method CheckUrl(grantId: string, expires: string, expiry: Option<int>, signature: string,
                    before: int, pruning: int, after: int)
      returns (verdict: Verdict)
      modifies this
      ensures (verdict, file)
        == VerifyGrant(mac, old(file), grantId, expires, expiry, signature, before, pruning, after)
    {
      if grantId == "" || expires == "" || signature == "" { return MissingSignature; }
      if expiry.None? || expiry.value < before { return GrantExpired; }
      var expected := CreateSignature(mac, grantId, expiry.value);
      if !IsAscii(signature) { return ComparisonError; }
      if expected != signature { return InvalidSignature; }
      var state := new AuthService.LoadedState(file);
      state.PruneGrantBucket(pruning);
      file := state.Snapshot();
      if grantId !in file.grants || file.grants[grantId].expiresAt < after { return GrantExpired; }
      verdict := Ok(file.grants[grantId]);
    }
  }

  // ---------------------------------------------------------------- what the signature binds

  lemma LastColon(a: string, x: string, b: string, y: string)
    requires a + ":" + x == b + ":" + y
    requires ':' !in x && ':' !in y
    ensures a == b && x == y
  {
    var s, t := a + ":" + x, b + ":" + y;
    assert s[|a|] == ':' && t[|b|] == ':';
    assert a == s[..|a|] && b == t[..|b|];
    assert x == s[|a| + 1..] && y == t[|b| + 1..];
  }

  /** The signed text names one grant id and one expiry, although ids may contain colons. */
  lemma MessageIsInjective(g: string, e: int, h: string, f: int)
    requires Message(g, e) == Message(h, f)
    ensures g == h && e == f
  {
    IntTextShape(e);
    IntTextShape(f);
    LastColon(g, IntText(e), h, IntText(f));
    IntTextIsInjective(e, f);
  }

  /** Main result. If a URL for another grant id or another expiry verifies under a signature
      issued for `(g, e)`, then two different messages have the same authentication code. */
  lemma SignatureBindsIdAndExpiry(mac: Mac, s: Store, g: string, e: int, h: string, f: int, expires: string,
                                  before: int, pruning: int, after: int)
    requires VerifyGrant(mac, s, h, expires, Some(f), CreateSignature(mac, g, e), before, pruning, after).0.Ok?
    requires (h, f) != (g, e)
    ensures Message(h, f) != Message(g, e) && mac(Message(h, f)) == mac(Message(g, e))
  {
    EncodeIsInjective(mac(Message(h, f)), mac(Message(g, e)));
    if Message(h, f) == Message(g, e) { MessageIsInjective(h, f, g, e); }
  }

  // ---------------------------------------------------------------- exactly when a grant verifies

  lemma SignatureIsAscii(mac: Mac, g: string, e: int)
    ensures IsAscii(CreateSignature(mac, g, e))
  {
    EncodeShape(mac(Message(g, e)));
  }

  /** Main result. A correctly signed URL for a stored, unrevoked grant verifies if and only if
      the store transaction reads the clock strictly before the expiry and the last reading is
      not after it; otherwise it is expired. */
  lemma VerifiesExactly(mac: Mac, s: Store, g: string, expires: string, signature: string, before: int, pruning: int,
                        after: int)
    requires before <= pruning <= after
    requires g in s.grants && g != "" && expires != ""
    requires var e := s.grants[g].expiresAt; signature == CreateSignature(mac, g, e) && signature != ""
    ensures var e := s.grants[g].expiresAt;
            VerifyGrant(mac, s, g, expires, Some(e), signature, before, pruning, after).0
            == if pruning < e && after <= e then Ok(s.grants[g]) else GrantExpired
  {
    SignatureIsAscii(mac, g, s.grants[g].expiresAt);
  }

  /** So it is enough that every reading is before the expiry, but that is not needed: the last
      reading may be the expiry itself. */
  lemma VerifiesAtTheExpiryItself(mac: Mac, s: Store, g: string, expires: string, signature: string)
    requires g in s.grants && g != "" && expires != ""
    requires signature == CreateSignature(mac, g, s.grants[g].expiresAt) && signature != ""
    ensures var e := s.grants[g].expiresAt;
            VerifyGrant(mac, s, g, expires, Some(e), signature, e - 1, e - 1, e).0 == Ok(s.grants[g])
  {
    var e := s.grants[g].expiresAt;
    VerifiesExactly(mac, s, g, expires, signature, e - 1, e - 1, e);
  }

  /** A URL not signed for its own id and expiry is never verified, is told which of its parts is
      missing, out of date or wrong before the store is looked at, and changes nothing. */
  lemma OtherSignaturesAreRefused(mac: Mac, s: Store, g: string, expires: string, expiry: Option<int>,
                                  signature: string, before: int, pruning: int, after: int)
    requires expiry.Some? ==> signature != CreateSignature(mac, g, expiry.value)
    ensures var (verdict, store) := VerifyGrant(mac, s, g, expires, expiry, signature, before, pruning, after);
            && store == s
            && (verdict == MissingSignature <==> "" in {g, expires, signature})
            && (verdict == GrantExpired
                <==> "" !in {g, expires, signature} && (expiry.Some? ==> expiry.value < before))
            && (verdict == ComparisonError || verdict == InvalidSignature
                <==> "" !in {g, expires, signature} && expiry.Some? && before <= expiry.value)
            && (verdict == ComparisonError ==> !IsAscii(signature))
            && (verdict == InvalidSignature ==> IsAscii(signature))
  {
  }

  // ---------------------------------------------------------------- a grant over a whole run

  predicate Revokes(st: Step, r: GrantRecord) {
    st.Lone? && st.op == RevokeAllForUser(r.userId, r.tenantId)
  }

  /** The grant is stored as issued until it expires, and nothing else is stored under its id. */
  ghost predicate GrantLives(y: System, g: string, r: GrantRecord) {
    && g in y.issued
    && (g in y.store.grants ==> y.store.grants[g] == r)
    && (y.clock < r.expiresAt ==> g in y.store.grants)
  }

  ghost predicate KeepsGrant(before: map<string, GrantRecord>, after: map<string, GrantRecord>, g: string,
                             r: GrantRecord, now: int)
  {
    && (g in before ==> before[g] == r)
    && (g in after ==> g in before && after[g] == r)
    && (g in before && now < r.expiresAt ==> g in after)
  }

  lemma AssetOpsKeepGrant(cfg: Config, s: Store, op: Op, k: Ticks, g: string, r: GrantRecord)
    requires Ordered(k) && g !in Draws(op) && (op.CreateAssetGrant? || op.LookupAssetGrant?)
    requires g in s.grants ==> s.grants[g] == r
    ensures KeepsGrant(s.grants, Apply(cfg, s, op, k).store.grants, g, r, k.t5)
  {
    if op.CreateAssetGrant? { assert g != op.grant; }
  }

  lemma OtherUsersRevocationKeepsGrant(cfg: Config, s: Store, op: Op, k: Ticks, g: string, r: GrantRecord)
    requires Ordered(k) && op.RevokeAllForUser? && op != RevokeAllForUser(r.userId, r.tenantId)
    requires g in s.grants ==> s.grants[g] == r
    ensures KeepsGrant(s.grants, Apply(cfg, s, op, k).store.grants, g, r, k.t5)
  {
  }

  predicate Mints(op: Op) {
    op.BeginAuthorization? || op.CompleteSsoAuthorization? || op.ExchangeMint? || op.RefreshAccessToken?
  }

  lemma CodeMintsKeepGrant(cfg: Config, s: Store, op: Op, k: Ticks, g: string, r: GrantRecord)
    requires Ordered(k) && (op.BeginAuthorization? || op.CompleteSsoAuthorization?)
    requires g in s.grants ==> s.grants[g] == r
    ensures KeepsGrant(s.grants, Apply(cfg, s, op, k).store.grants, g, r, k.t5)
  {
    hide SealSession, StampSession, KeepCode, KeepAccess, KeepRefresh, KeepHandoff;
  }

  lemma TokenMintsKeepGrant(cfg: Config, s: Store, op: Op, k: Ticks, g: string, r: GrantRecord)
    requires Ordered(k) && (op.ExchangeMint? || op.RefreshAccessToken?)
    requires g in s.grants ==> s.grants[g] == r
    ensures KeepsGrant(s.grants, Apply(cfg, s, op, k).store.grants, g, r, k.t5)
  {
    hide SealSession, StampSession, OpenSession, KeepCode, KeepAccess, KeepRefresh, KeepHandoff;
  }

  lemma OthersKeepGrant(cfg: Config, s: Store, op: Op, k: Ticks, g: string, r: GrantRecord)
    requires Ordered(k) && !Mints(op) && !op.CreateAssetGrant? && !op.LookupAssetGrant? && !op.RevokeAllForUser?
    requires g in s.grants ==> s.grants[g] == r
    ensures KeepsGrant(s.grants, Apply(cfg, s, op, k).store.grants, g, r, k.t5)
  {
  }

  lemma TransactionKeepsGrant(cfg: Config, s: Store, op: Op, k: Ticks, g: string, r: GrantRecord)
    requires Ordered(k) && g !in Draws(op)
    requires op != RevokeAllForUser(r.userId, r.tenantId)
    requires g in s.grants ==> s.grants[g] == r
    ensures KeepsGrant(s.grants, Apply(cfg, s, op, k).store.grants, g, r, k.t5)
  {
    if op.CreateAssetGrant? || op.LookupAssetGrant? {
      AssetOpsKeepGrant(cfg, s, op, k, g, r);
    } else if op.RevokeAllForUser? {
      OtherUsersRevocationKeepsGrant(cfg, s, op, k, g, r);
    } else if Mints(op) {
      if op.BeginAuthorization? || op.CompleteSsoAuthorization? {
        CodeMintsKeepGrant(cfg, s, op, k, g, r);
      } else {
        TokenMintsKeepGrant(cfg, s, op, k, g, r);
      }
    } else {
      OthersKeepGrant(cfg, s, op, k, g, r);
    }
  }

  lemma StepKeepsGrant(cfg: Config, y: System, st: Step, g: string, r: GrantRecord)
    requires Enabled(y, st) && GrantLives(y, g, r) && !Revokes(st, r)
    ensures GrantLives(Next(cfg, y, st), g, r)
  {
    if !st.Look? {
      TransactionKeepsGrant(cfg, y.store, OpOf(y, st), st.k, g, r);
    }
  }

  lemma {:induction false} GrantLivesOn(cfg: Config, run: seq<System>, steps: seq<Step>, i: nat, j: nat, g: string,
                                        r: GrantRecord)
    requires IsRun(cfg, run, steps) && i <= j < |run| && GrantLives(run[i], g, r)
    requires forall m :: i <= m < j ==> !Revokes(steps[m], r)
    ensures GrantLives(run[j], g, r)
  {
    hide Next, Enabled;
    if i < j {
      GrantLivesOn(cfg, run, steps, i, j - 1, g, r);
      StepKeepsGrant(cfg, run[j - 1], steps[j - 1], g, r);
    }
  }

  /** Main result. Issue a grant at step `i` and look it up at a later step `j`, with no bulk
      revocation of its user and tenant in between: it is found, unchanged, if and only if the
      lookup prunes before the issued expiry, whatever else the run does. */
  lemma GrantIsFoundExactlyUntilExpiry(cfg: Config, run: seq<System>, steps: seq<Step>, i: nat, j: nat)
    requires IsRun(cfg, run, steps) && i < j < |steps|
    requires steps[i].Lone? && steps[i].op.CreateAssetGrant?
    requires steps[j].Lone? && steps[j].op == LookupAssetGrant(steps[i].op.grant)
    requires var r := OutcomeOf(cfg, run[i], steps[i]).response.grant.value;
             forall m :: i < m < j ==> !Revokes(steps[m], r)
    ensures var r := OutcomeOf(cfg, run[i], steps[i]).response.grant.value;
            && r == GrantRecord(steps[i].op.userId, steps[i].op.tenantId, steps[i].op.source,
                                steps[i].k.t1 + cfg.signedUrlTtlSeconds * 1000)
            && OutcomeOf(cfg, run[j], steps[j]).response
               == Grant(if steps[j].k.t0 < r.expiresAt then Some(r) else None)
  {
    var g := steps[i].op.grant;
    var r := OutcomeOf(cfg, run[i], steps[i]).response.grant.value;
    assert g in Draws(steps[i].op);
    assert GrantLives(run[i + 1], g, r);
    GrantLivesOn(cfg, run, steps, i + 1, j, g, r);
  }

  /** Main result. The URL issued with a grant, verified in any later state of the run with no
      bulk revocation of its user in between: it verifies if and only if the store transaction
      reads the clock before the issued expiry and the last reading is not after it, and is
      expired otherwise. */
  lemma IssuedUrlVerifiesExactlyUntilExpiry(cfg: Config, mac: Mac, run: seq<System>, steps: seq<Step>, i: nat, j: nat,
                                            expires: string, before: int, pruning: int, after: int)
    requires IsRun(cfg, run, steps) && i < j < |run|
    requires steps[i].Lone? && steps[i].op.CreateAssetGrant?
    requires var r := OutcomeOf(cfg, run[i], steps[i]).response.grant.value;
             (forall m :: i < m < j ==> !Revokes(steps[m], r))
             && CreateSignature(mac, steps[i].op.grant, r.expiresAt) != ""
    requires expires != "" && before <= pruning <= after && run[j].clock <= pruning
    ensures var g := steps[i].op.grant; var r := OutcomeOf(cfg, run[i], steps[i]).response.grant.value;
            VerifyGrant(mac, run[j].store, g, expires, Some(r.expiresAt), CreateSignature(mac, g, r.expiresAt),
                        before, pruning, after).0
            == if pruning < r.expiresAt && after <= r.expiresAt then Ok(r) else GrantExpired
  {
    var g := steps[i].op.grant;
    var r := OutcomeOf(cfg, run[i], steps[i]).response.grant.value;
    assert g in Draws(steps[i].op);
    assert GrantLives(run[i + 1], g, r);
    GrantLivesOn(cfg, run, steps, i + 1, j, g, r);
    StoredOrExpiredVerifies(mac, run[j].store, g, r, expires, before, pruning, after);
  }

  lemma StoredOrExpiredVerifies(mac: Mac, s: Store, g: string, r: GrantRecord, expires: string,
                                before: int, pruning: int, after: int)
    requires g != "" && expires != "" && CreateSignature(mac, g, r.expiresAt) != ""
    requires before <= pruning <= after
    requires g in s.grants ==> s.grants[g] == r
    requires pruning < r.expiresAt ==> g in s.grants
    ensures VerifyGrant(mac, s, g, expires, Some(r.expiresAt), CreateSignature(mac, g, r.expiresAt),
                        before, pruning, after).0
            == if pruning < r.expiresAt && after <= r.expiresAt then Ok(r) else GrantExpired
  {
    SignatureIsAscii(mac, g, r.expiresAt);
    if g in s.grants {
      VerifiesExactly(mac, s, g, expires, CreateSignature(mac, g, r.expiresAt), before, pruning, after);
    }
  }

  /** Main result. After a bulk revocation of its user no URL at all, whatever expiry and
      signature it carries, verifies a grant that was stored when the revocation committed. */
  lemma RevokedUrlNeverVerifies(cfg: Config, mac: Mac, run: seq<System>, steps: seq<Step>, i: nat, j: nat, g: string,
                                expires: string, expiry: Option<int>, signature: string,
                                before: int, pruning: int, after: int)
    requires IsRun(cfg, run, steps) && i < j < |run| && steps[i].Lone? && steps[i].op.RevokeAllForUser?
    requires g in run[i].store.grants
             && Revocation.GrantOf(run[i].store.grants[g], steps[i].op.userId, steps[i].op.tenantId)
    requires 0 < pruning
    ensures !VerifyGrant(mac, run[j].store, g, expires, expiry, signature, before, pruning, after).0.Ok?
  {
    Revocation.RevocationLeavesDead(cfg, run, steps, i);
    Revocation.DeadInContinuation(cfg, run, steps, i + 1, j, g);
    Revocation.DeadGrantIsNotFound(run[j].store, g, pruning);
  }
}
