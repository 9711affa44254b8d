/**
 Expiry is lazy: each transaction prunes when it starts, and a background task prunes
 whenever it likes. This module shows that the background task cannot be observed.
*/
module LazyExpiry {
  import opened Options
  import opened TokenStore

  datatype Event = Event(op: Op, at: Ticks)

  /** The two readers take a snapshot under the lock and read the clock after releasing it. */
  predicate ReadsUnlocked(op: Op) {
    op.GetStats? || op.InspectHandoff?
  }

  /** How far the clock is known to be once an event is over, for the transactions after it. */
  function ClockAfter(e: Event, clock: int): int {
    if ReadsUnlocked(e.op) then clock else e.at.t5
  }

  /** The clock never goes back, within an operation or from one transaction to the next; the
      reading of an unlocked reader may lie ahead of transactions that follow its snapshot. */
  predicate WellTimed(events: seq<Event>, clock: int) {
    events == [] ||
    (Ordered(events[0].at) && clock <= events[0].at.t0 && WellTimed(events[1..], ClockAfter(events[0], clock)))
  }

  function WithoutPrunes(events: seq<Event>): seq<Event> {
    if events == [] then []
    else (if events[0].op.BackgroundPrune? then [] else [events[0]]) + WithoutPrunes(events[1..])
  }

  /** Background prunes answer nobody; the non-pruning inspection is treated apart below. */
  predicate Answers(op: Op) {
    !op.BackgroundPrune? && !op.InspectHandoff?
  }

  /** What the callers of a run see. */
  function Responses(cfg: Config, s: Store, events: seq<Event>): seq<Response>
    decreases events
  {
    if events == [] then []
    else
      var o := Apply(cfg, s, events[0].op, events[0].at);
      (if Answers(events[0].op) then [o.response] else []) + Responses(cfg, o.store, events[1..])
  }

  /** Two stores no transaction starting at `now` or later can tell apart. */
  ghost predicate SameAt(cfg: Config, s: Store, s': Store, now: int) {
    Prune(cfg, s, now) == Prune(cfg, s', now)
  }

  lemma PruneAbsorbs(cfg: Config, s: Store, now: int, later: int)
    requires now <= later
    ensures Prune(cfg, Prune(cfg, s, now), later) == Prune(cfg, s, later)
  {
    var p, q := Prune(cfg, Prune(cfg, s, now), later), Prune(cfg, s, later);
    assert p.codes == q.codes;
    assert p.access == q.access;
    assert p.refresh == q.refresh;
    assert p.grants == q.grants;
    assert p.handoffs == q.handoffs;
  }

  lemma SameLater(cfg: Config, s: Store, s': Store, now: int, later: int)
    requires now <= later
    requires SameAt(cfg, s, s', now)
    ensures SameAt(cfg, s, s', later)
  {
    PruneAbsorbs(cfg, s, now, later);
    PruneAbsorbs(cfg, s', now, later);
  }

  /** Replacing the grants bucket of two indistinguishable stores keeps them so. */
  lemma SameWithGrants(cfg: Config, s: Store, s': Store, grants: map<string, GrantRecord>, now: int)
    requires SameAt(cfg, s, s', now)
    ensures SameAt(cfg, s.(grants := grants), s'.(grants := grants), now)
  {
    var p, p' := Prune(cfg, s, now), Prune(cfg, s', now);
    var q, q' := Prune(cfg, s.(grants := grants), now), Prune(cfg, s'.(grants := grants), now);
    assert q.codes == p.codes == p'.codes == q'.codes;
    assert q.access == p.access == p'.access == q'.access;
    assert q.refresh == p.refresh == p'.refresh == q'.refresh;
    assert q.grants == q'.grants;
    assert q.handoffs == p.handoffs == p'.handoffs == q'.handoffs;
  }

  lemma PrunedGrantsAgree(cfg: Config, s: Store, s': Store, now: int)
    requires SameAt(cfg, s, s', now)
    ensures PruneGrants(s, now).grants == PruneGrants(s', now).grants
  {
    assert PruneGrants(s, now).grants == Prune(cfg, s, now).grants;
    assert PruneGrants(s', now).grants == Prune(cfg, s', now).grants;
  }

  /** One operation answers indistinguishable stores alike and leaves them indistinguishable. */
  lemma OperationCannotTell(cfg: Config, s: Store, s': Store, op: Op, k: Ticks)
    requires Ordered(k)
    requires SameAt(cfg, s, s', k.t0)
    ensures !op.InspectHandoff? ==> Apply(cfg, s, op, k).response == Apply(cfg, s', op, k).response
    ensures SameAt(cfg, Apply(cfg, s, op, k).store, Apply(cfg, s', op, k).store, k.t5)
  {
    hide PruneAt, WritePair, SealSession, StampSession, OpenSession, CheckCode, Replay, RevokeUserIn, MarkUsed;
    SameLater(cfg, s, s', k.t0, k.t5);
    match op
    case CreateAssetGrant(grant, _, _, _) =>
      PrunedGrantsAgree(cfg, s, s', k.t0);
      SameWithGrants(cfg, s, s', Apply(cfg, s, op, k).store.grants, k.t5);
    case LookupAssetGrant(grant) =>
      PrunedGrantsAgree(cfg, s, s', k.t0);
      SameWithGrants(cfg, s, s', Apply(cfg, s, op, k).store.grants, k.t5);
    case _ =>
  }

  /** The heart of the refinement: from indistinguishable stores, a run and the same run
      stripped of its background prunes give their callers the same answers. */
  lemma {:induction false} StrippedRunAnswersAlike(cfg: Config, s: Store, s': Store, events: seq<Event>, clock: int)
    requires WellTimed(events, clock)
    requires SameAt(cfg, s, s', clock)
    ensures Responses(cfg, s, events) == Responses(cfg, s', WithoutPrunes(events))
    decreases events
  {
    if events != [] {
      var e, rest := events[0], events[1..];
      SameLater(cfg, s, s', clock, e.at.t0);
      var o := Apply(cfg, s, e.op, e.at);
      if e.op.BackgroundPrune? {
        PruneAbsorbs(cfg, s, e.at.t0, e.at.t5);
        SameLater(cfg, s, s', e.at.t0, e.at.t5);
        StrippedRunAnswersAlike(cfg, o.store, s', rest, e.at.t5);
        assert WithoutPrunes(events) == WithoutPrunes(rest);
      } else {
        OperationCannotTell(cfg, s, s', e.op, e.at);
        var o' := Apply(cfg, s', e.op, e.at);
        assert ReadsUnlocked(e.op) ==> o.store == s && o'.store == s';
        StrippedRunAnswersAlike(cfg, o.store, o'.store, rest, ClockAfter(e, clock));
        var stripped := WithoutPrunes(events);
        assert stripped[0] == e && stripped[1..] == WithoutPrunes(rest);
      }
    }
  }

  /** Main result. Runs that differ only in where, when and how often background pruning
      happens give every caller the same answers. */
  lemma BackgroundPruningIsUnobservable(cfg: Config, s: Store, events: seq<Event>, events': seq<Event>, clock: int)
    requires WellTimed(events, clock) && WellTimed(events', clock)
    requires WithoutPrunes(events) == WithoutPrunes(events')
    ensures Responses(cfg, s, events) == Responses(cfg, s, events')
  {
    StrippedRunAnswersAlike(cfg, s, s, events, clock);
    StrippedRunAnswersAlike(cfg, s, s, events', clock);
  }

  /** The exception, exactly: an inspection notices an earlier prune if and only if that
      prune dropped the record it asks for. */
  lemma InspectionNoticesOnlyTombstonesDropped(cfg: Config, s: Store, handoff: string, prunedAt: int, now: int)
    ensures Inspect(Prune(cfg, s, prunedAt), handoff, now) != Inspect(s, handoff, now)
       <==> handoff in s.handoffs && s.handoffs[handoff].purgeAt <= prunedAt
  {
    var r := Lookup(s.handoffs, handoff);
    var r' := Lookup(Prune(cfg, s, prunedAt).handoffs, handoff);
    assert r == r' || r' == None;
  }

  // ---------------------------------------------------------------- the statistics

  /** What a transaction at one reading still finds of each bucket. */
  ghost function FindableCodes(cfg: Config, s: Store, k: Ticks, x: Op): set<string>
    requires x.ExchangeConsume?
  {
    set c | c in s.codes && Apply(cfg, s, x.(code := c), k).response != Failed(CodeNotFound)
  }

  ghost function FindableGrants(cfg: Config, s: Store, k: Ticks): set<string> {
    set g | g in s.grants && Apply(cfg, s, LookupAssetGrant(g), k).response != Grant(None)
  }

  function LiveAccess(s: Store, now: int): set<string> {
    set t | t in s.access && now < s.access[t].expiresAt && !Truthy(s.access[t].revokedAt)
  }

  function LiveRefresh(cfg: Config, s: Store, now: int): set<string> {
    set t | && t in s.refresh
            && (s.refresh[t].expiresAt == 0 || now < s.refresh[t].expiresAt)
            && (Truthy(s.refresh[t].revokedAt) ==> now <= s.refresh[t].revokedAt.value + cfg.refreshGraceSeconds * 1000)
  }

  lemma CodesLeftAreFindable(cfg: Config, s: Store, k: Ticks, x: Op)
    requires x.ExchangeConsume? && x.clientId in cfg.clients
    ensures Prune(cfg, s, k.t0).codes.Keys == FindableCodes(cfg, s, k, x)
  {
    forall c | c in s.codes
      ensures Apply(cfg, s, x.(code := c), k).response != Failed(CodeNotFound) <==> c in Prune(cfg, s, k.t0).codes
    {
      CheckNeverMisses(cfg, s.codes[c], x.clientId, x.redirectUri, x.verifier);
      hide CheckCode;
    }
  }

  lemma CheckNeverMisses(cfg: Config, r: CodeRecord, clientId: string, redirectUri: string, verifier: string)
    ensures CheckCode(cfg, r, clientId, redirectUri, verifier) != Failed(CodeNotFound)
  {
    hide OpenSession;
  }

  lemma OthersLeftAreLive(cfg: Config, s: Store, k: Ticks)
    ensures Prune(cfg, s, k.t0).access.Keys == LiveAccess(s, k.t0)
    ensures Prune(cfg, s, k.t0).refresh.Keys == LiveRefresh(cfg, s, k.t0)
  {
  }

  lemma GrantsLeftAreFindable(cfg: Config, s: Store, k: Ticks)
    ensures Prune(cfg, s, k.t0).grants.Keys == FindableGrants(cfg, s, k)
  {
    hide KeepCode, KeepAccess, KeepRefresh, KeepHandoff;
  }

  /** The statistics count what a transaction at the same reading would still find: codes an
      exchange of a configured client would not call missing, grants a lookup would answer, access
      tokens neither expired nor revoked, and refresh tokens not expired and at most the grace past
      a revocation. */
  lemma StatisticsCountWhatIsStillFound(cfg: Config, s: Store, k: Ticks, x: Op)
    requires x.ExchangeConsume? && x.clientId in cfg.clients
    ensures Apply(cfg, s, GetStats, k)
         == Outcome(s, Counts(|FindableCodes(cfg, s, k, x)|, |LiveAccess(s, k.t0)|, |LiveRefresh(cfg, s, k.t0)|,
                              |FindableGrants(cfg, s, k)|))
  {
    hide FindableCodes, FindableGrants, LiveAccess, LiveRefresh, PruneAt;
    CodesLeftAreFindable(cfg, s, k, x);
    OthersLeftAreLive(cfg, s, k);
    GrantsLeftAreFindable(cfg, s, k);
  }
}
