/**
 Single use of authorization codes and the rotation of refresh tokens: in every
 interleaving the refresh tokens of one code form one chain with at most one live end.
*/
module RefreshChains {
  import opened TokenStore
  import opened TokenRuns
  import opened TokenEffects
  import opened HandoffRuns

  // ---------------------------------------------------------------- codes are redeemed once

  ghost predicate CodesUnredeemed(codes: map<string, CodeRecord>, l: CodeLedger) {
    && (forall c :: c in codes ==> c in l.origins && c !in l.redemptions)
    && (forall c :: c in l.redemptions ==> c in l.origins && c in l.redeemedBy)
    && (forall c :: l.redemptions[c] <= 1)
  }

  /** How one transaction may change the code bucket. */
  ghost predicate CodesEvolve(before: map<string, CodeRecord>, after: map<string, CodeRecord>, op: Op, r: Response) {
    match op
    case ExchangeConsume(code, _, _, _) =>
      Shrinks(after, before) && (r.Consumed? ==> code in before && code !in after)
    case BeginAuthorization(_, _, code, _) => Shrinks(after - {code}, before)
    case CompleteSsoAuthorization(_, _, code, _) =>
      if r.Valid? then Shrinks(after - {code}, before) else Shrinks(after, before)
    case _ => Shrinks(after, before)
  }

  lemma TransactionEvolvesCodes(cfg: Config, s: Store, op: Op, k: Ticks)
    ensures CodesEvolve(s.codes, Apply(cfg, s, op, k).store.codes, op, Apply(cfg, s, op, k).response)
  {
    if !op.BeginAuthorization? && !op.CompleteSsoAuthorization? { CodesShrink(cfg, s, op, k); }
  }

  lemma CompletionNeedsTheHandoff(cfg: Config, s: Store, op: Op, k: Ticks)
    requires op.CompleteSsoAuthorization? && Apply(cfg, s, op, k).response.Valid?
    ensures op.handoff in s.handoffs
  {
  }

  lemma LoggingKeepsUnredeemed(before: map<string, CodeRecord>, after: map<string, CodeRecord>, l: CodeLedger,
                               filed: map<string, HandoffRecord>, op: Op, r: Response)
    requires CodesUnredeemed(before, l) && CodesEvolve(before, after, op, r)
    requires op.BeginAuthorization? || op.CompleteSsoAuthorization? ==> op.code !in l.origins
    requires op.CompleteSsoAuthorization? && r.Valid? ==> op.handoff in filed
    ensures CodesUnredeemed(after, LogCodes(l, filed, op, r))
  {
    if op.BeginAuthorization? || op.CompleteSsoAuthorization? {
      assert forall c :: c in after && c != op.code ==> c in after - {op.code};
    }
  }

  lemma StepKeepsCodesUnredeemed(cfg: Config, y: System, st: Step)
    requires NamesIssued(y) && Enabled(y, st) && CodesUnredeemed(y.store.codes, y.codes)
    requires y.store.handoffs.Keys <= y.handoffs.filed.Keys
    ensures CodesUnredeemed(Next(cfg, y, st).store.codes, Next(cfg, y, st).codes)
  {
    if !st.Look? {
      var op, o := OpOf(y, st), OutcomeOf(cfg, y, st);
      assert op.BeginAuthorization? || op.CompleteSsoAuthorization? ==> op.code in Draws(op);
      TransactionEvolvesCodes(cfg, y.store, op, st.k);
      if op.CompleteSsoAuthorization? && o.response.Valid? { CompletionNeedsTheHandoff(cfg, y.store, op, st.k); }
      LoggingKeepsUnredeemed(y.store.codes, o.store.codes, y.codes, y.handoffs.filed, op, o.response);
    }
  }

  // ---------------------------------------------------------------- chains

  /** The refresh tokens of one code, each the parent of the next. */
  ghost predicate Linked(q: seq<string>, c: string, codeOf: map<string, string>, parent: map<string, string>) {
    && (forall i :: 0 <= i < |q| ==> q[i] in codeOf && codeOf[q[i]] == c)
    && (forall i :: 0 < i < |q| ==> q[i] in parent && parent[q[i]] == q[i - 1])
    && (q != [] ==> q[0] !in parent)
    && (forall i, j :: 0 <= i < j < |q| ==> q[i] != q[j])
  }

  /** A stored refresh token is in the chain of its code, and at its end unless revoked. */
  ghost predicate InItsChain(t: string, r: RefreshRecord, l: TokenLedger) {
    && t in l.codeOf && l.codeOf[t] in l.chain && t in l.chain[l.codeOf[t]]
    && var q := l.chain[l.codeOf[t]];
    !Truthy(r.revokedAt) ==> t == q[|q| - 1]
  }

  ghost predicate Chained(refresh: map<string, RefreshRecord>, l: TokenLedger) {
    && (forall c :: c in l.chain ==> l.chain[c] != [] && Linked(l.chain[c], c, l.codeOf, l.parent))
    && (forall t :: t in refresh ==> InItsChain(t, refresh[t], l))
    && l.parent.Keys <= l.codeOf.Keys
  }

  /** No record appears and no revocation is undone. */
  ghost predicate StaysRevoked(before: map<string, RefreshRecord>, after: map<string, RefreshRecord>) {
    forall t :: t in after ==> t in before && (Truthy(before[t].revokedAt) ==> Truthy(after[t].revokedAt))
  }

  lemma StaysChained(before: map<string, RefreshRecord>, after: map<string, RefreshRecord>, l: TokenLedger)
    requires Chained(before, l) && StaysRevoked(before, after)
    ensures Chained(after, l)
  {
    forall t | t in after ensures InItsChain(t, after[t], l) {
      assert InItsChain(t, before[t], l);
    }
  }

  lemma ExtensionStaysLinked(q: seq<string>, c: string, l: TokenLedger, access: string, token: string,
                             parent: map<string, string>)
    requires l.parent.Keys <= l.codeOf.Keys && Linked(q, c, l.codeOf, l.parent)
    requires token !in l.codeOf && access !in l.codeOf && token != access
    requires if q == [] then parent == l.parent else parent == l.parent[token := q[|q| - 1]]
    ensures Linked(q + [token], c, l.codeOf[access := c][token := c], parent)
  {
  }

  lemma OtherChainStaysLinked(q: seq<string>, c: string, d: string, l: TokenLedger, access: string, token: string,
                              parent: map<string, string>)
    requires Linked(q, d, l.codeOf, l.parent)
    requires token !in l.codeOf && access !in l.codeOf
    requires forall x :: x in l.parent ==> x in parent && parent[x] == l.parent[x]
    requires forall x :: x in parent && x != token ==> x in l.parent
    ensures Linked(q, d, l.codeOf[access := c][token := c], parent)
  {
    assert forall i :: 0 <= i < |q| ==> q[i] != token && q[i] != access;
  }

  /** Minting a pair onto the end of the chain of `c` keeps every chain. */
  lemma PairStaysChained(before: map<string, RefreshRecord>, after: map<string, RefreshRecord>,
                         l: TokenLedger, l': TokenLedger, c: string, drawn: Draw)
    requires Chained(before, l)
    requires drawn.refresh !in l.codeOf && drawn.access !in l.codeOf && drawn.refresh != drawn.access
    requires StaysRevoked(before, after - {drawn.refresh})
    requires l'.codeOf == LogPair(l, c, drawn).codeOf && l'.chain == LogPair(l, c, drawn).chain
    requires var q := ChainOf(l, c);
             if q == [] then l'.parent == l.parent else l'.parent == l.parent[drawn.refresh := q[|q| - 1]]
    requires forall t :: t in after && t != drawn.refresh && t in l.codeOf && l.codeOf[t] == c ==>
        Truthy(after[t].revokedAt)
    ensures Chained(after, l')
  {
    var q := ChainOf(l, c);
    ExtensionStaysLinked(q, c, l, drawn.access, drawn.refresh, l'.parent);
    forall d | d in l'.chain ensures l'.chain[d] != [] && Linked(l'.chain[d], d, l'.codeOf, l'.parent) {
      if d != c { OtherChainStaysLinked(l.chain[d], c, d, l, drawn.access, drawn.refresh, l'.parent); }
    }
    forall t | t in after ensures InItsChain(t, after[t], l') {
      if t == drawn.refresh {
        assert l'.chain[c][|q|] == t;
      } else {
        assert t in after - {drawn.refresh};
        assert InItsChain(t, before[t], l);
        if l.codeOf[t] == c { assert t in q && t in q + [drawn.refresh]; }
      }
    }
  }

  /** `token` was live and is now revoked; only `child` is new. */
  ghost predicate Retires(before: map<string, RefreshRecord>, after: map<string, RefreshRecord>, token: string,
                          child: string)
  {
    && token in before && !Truthy(before[token].revokedAt)
    && token in after && Truthy(after[token].revokedAt)
    && child in after && child !in before
    && StaysRevoked(before, after - {child})
  }

  lemma RotationRetires(cfg: Config, s: Store, op: Op, k: Ticks, o: Outcome)
    requires Ordered(k) && op.RefreshAccessToken? && Rotates(cfg, s, op, k, o) && op.drawn.refresh !in s.refresh
    ensures Retires(s.refresh, o.store.refresh, op.token, op.drawn.refresh)
  {
    var after := o.store.refresh;
    forall x | x in after - {op.drawn.refresh}
      ensures x in s.refresh && (Truthy(s.refresh[x].revokedAt) ==> Truthy(after[x].revokedAt))
    {
      if x != op.token { assert x in after - {op.drawn.refresh, op.token}; }
    }
  }

  /** Rotating the live end of a chain retires it and puts its child at the end. */
  lemma RotationStaysChained(before: map<string, RefreshRecord>, after: map<string, RefreshRecord>, l: TokenLedger,
                             token: string, drawn: Draw, at: int, tokens: TokenResponse)
    requires Chained(before, l) && Retires(before, after, token, drawn.refresh)
    requires drawn.refresh !in l.codeOf && drawn.access !in l.codeOf && drawn.refresh != drawn.access
    requires token in l.codeOf
    ensures Chained(after, LogRotation(l, token, before[token], drawn, at, tokens))
  {
    var c := l.codeOf[token];
    assert InItsChain(token, before[token], l);
    forall x | x in after && x != drawn.refresh && x in l.codeOf && l.codeOf[x] == c
      ensures Truthy(after[x].revokedAt)
    {
      assert x in after - {drawn.refresh};
      assert InItsChain(x, before[x], l);
    }
    PairStaysChained(before, after, l, LogRotation(l, token, before[token], drawn, at, tokens), c, drawn);
  }

  lemma MintStaysChained(cfg: Config, s: Store, l: TokenLedger, redeemed: string, op: Op, k: Ticks)
    requires Ordered(k) && op.ExchangeMint?
    requires Chained(s.refresh, l) && redeemed !in l.chain
    requires op.drawn.refresh !in l.codeOf && op.drawn.access !in l.codeOf && op.drawn.refresh != op.drawn.access
    ensures var o := Apply(cfg, s, op, k); Chained(o.store.refresh, LogTokens(l, redeemed, s, op, k, o))
  {
    var o := Apply(cfg, s, op, k);
    var after := o.store.refresh;
    MintAddsOnePair(cfg, s, op, k);
    forall x | x in after && x != op.drawn.refresh
      ensures x in s.refresh && l.codeOf[x] != redeemed
      ensures Truthy(s.refresh[x].revokedAt) ==> Truthy(after[x].revokedAt)
    {
      assert x in after - {op.drawn.refresh};
      assert InItsChain(x, s.refresh[x], l);
    }
    PairStaysChained(s.refresh, after, l, LogTokens(l, redeemed, s, op, k, o), redeemed, op.drawn);
  }

  // ---------------------------------------------------------------- exchange threads

  /** Each thread between its two transactions holds a redeemed code of its own, for which
      nothing has been minted yet. */
  ghost predicate Pending(x: map<nat, Exchange>, redemptions: multiset<string>, chain: map<string, seq<string>>) {
    && (forall i :: i in x ==> x[i].code in redemptions && x[i].code !in chain)
    && (forall i, j :: i in x && j in x && x[i].code == x[j].code ==> i == j)
    && (forall c :: c in chain ==> c in redemptions)
  }

  ghost predicate ChainInvariant(y: System) {
    && CodesUnredeemed(y.store.codes, y.codes)
    && Pending(y.exchanges, y.codes.redemptions, y.tokens.chain)
    && Chained(y.store.refresh, y.tokens)
    && y.store.handoffs.Keys <= y.handoffs.filed.Keys
  }

  lemma AnsweringStaysChained(refresh: map<string, RefreshRecord>, l: TokenLedger,
                              answers: set<(string, TokenResponse)>)
    requires Chained(refresh, l)
    ensures Chained(refresh, l.(answers := answers))
  {
  }

  lemma LiveRefreshStaysChained(cfg: Config, s: Store, l: TokenLedger, op: Op, k: Ticks, o: Outcome)
    requires Ordered(k) && op.RefreshAccessToken? && Chained(s.refresh, l) && Rotates(cfg, s, op, k, o)
    requires op.drawn.refresh !in l.codeOf && op.drawn.access !in l.codeOf && op.drawn.refresh != op.drawn.access
    requires op.drawn.refresh !in s.refresh
    ensures Chained(o.store.refresh, LogTokens(l, "", s, op, k, o))
  {
    RotationRetires(cfg, s, op, k, o);
    var answered := l.(answers := l.answers + {(op.token, o.response.tokens)});
    AnsweringStaysChained(s.refresh, l, answered.answers);
    assert InItsChain(op.token, s.refresh[op.token], l);
    RotationStaysChained(s.refresh, o.store.refresh, answered, op.token, op.drawn, k.t1, o.response.tokens);
  }

  lemma QuietRefreshStaysChained(cfg: Config, s: Store, l: TokenLedger, op: Op, k: Ticks, o: Outcome)
    requires op.RefreshAccessToken? && Chained(s.refresh, l) && MintsNothing(cfg, s, op, k, o)
    requires op.drawn.refresh !in o.store.refresh
    ensures Chained(o.store.refresh, LogTokens(l, "", s, op, k, o))
  {
    StaysChained(s.refresh, o.store.refresh, l);
    if o.response.Tokens? {
      AnsweringStaysChained(o.store.refresh, l, l.answers + {(op.token, o.response.tokens)});
    }
  }

  lemma RefreshStaysChained(cfg: Config, s: Store, l: TokenLedger, op: Op, k: Ticks)
    requires Ordered(k) && op.RefreshAccessToken? && Chained(s.refresh, l)
    requires op.drawn.refresh !in l.codeOf && op.drawn.access !in l.codeOf && op.drawn.refresh != op.drawn.access
    requires op.drawn.refresh !in s.refresh
    ensures var o := Apply(cfg, s, op, k); Chained(o.store.refresh, LogTokens(l, "", s, op, k, o))
  {
    if WillRotate(cfg, s, op, k) {
      RotationMintsOnePair(cfg, s, op, k);
      LiveRefreshStaysChained(cfg, s, l, op, k, Apply(cfg, s, op, k));
    } else {
      OtherRefreshMintsNothing(cfg, s, op, k);
      QuietRefreshStaysChained(cfg, s, l, op, k, Apply(cfg, s, op, k));
    }
  }

  lemma OtherStaysChained(cfg: Config, s: Store, l: TokenLedger, op: Op, k: Ticks)
    requires Ordered(k) && !op.ExchangeMint? && !op.RefreshAccessToken? && Chained(s.refresh, l)
    ensures Chained(Apply(cfg, s, op, k).store.refresh, l)
  {
    OthersKeepRefresh(cfg, s, op, k);
    StaysChained(s.refresh, Apply(cfg, s, op, k).store.refresh, l);
  }

  lemma StepKeepsTokensChained(cfg: Config, y: System, st: Step)
    requires NamesIssued(y) && Enabled(y, st) && ChainInvariant(y) && !st.Look?
    ensures Chained(Next(cfg, y, st).store.refresh, Next(cfg, y, st).tokens)
  {
    var op := OpOf(y, st);
    assert op.ExchangeMint? || op.RefreshAccessToken? ==> {op.drawn.access, op.drawn.refresh} <= Draws(op);
    if op.ExchangeMint? {
      MintStaysChained(cfg, y.store, y.tokens, RedeemedCode(y, st), op, st.k);
    } else if op.RefreshAccessToken? {
      RefreshStaysChained(cfg, y.store, y.tokens, op, st.k);
    } else {
      OtherStaysChained(cfg, y.store, y.tokens, op, st.k);
    }
  }

  lemma ConsumeStaysPending(x: map<nat, Exchange>, n: multiset<string>, chain: map<string, seq<string>>, i: nat,
                            e: Exchange)
    requires Pending(x, n, chain) && i !in x && e.code !in n
    ensures Pending(x[i := e], n + multiset{e.code}, chain)
  {
  }

  lemma MintStaysPending(x: map<nat, Exchange>, n: multiset<string>, chain: map<string, seq<string>>, i: nat,
                         q: seq<string>)
    requires Pending(x, n, chain) && i in x
    ensures Pending(x - {i}, n, chain[x[i].code := q])
  {
  }

  lemma RotationStaysPending(x: map<nat, Exchange>, n: multiset<string>, chain: map<string, seq<string>>, c: string,
                             q: seq<string>)
    requires Pending(x, n, chain) && c in chain
    ensures Pending(x, n, chain[c := q])
  {
  }

  lemma StepKeepsPending(cfg: Config, y: System, st: Step)
    requires Enabled(y, st) && ChainInvariant(y) && !st.Look?
    ensures var y' := Next(cfg, y, st); Pending(y'.exchanges, y'.codes.redemptions, y'.tokens.chain)
  {
    hide Apply;
    var op, o, n := OpOf(y, st), OutcomeOf(cfg, y, st), y.codes.redemptions;
    if st.Mint? {
      var c := y.exchanges[st.tid].code;
      MintStaysPending(y.exchanges, n, y.tokens.chain, st.tid, ChainOf(y.tokens, c) + [st.drawn.refresh]);
    } else if st.Consume? {
      if o.response.Consumed? {
        TransactionEvolvesCodes(cfg, y.store, op, st.k);
        ConsumeStaysPending(y.exchanges, n, y.tokens.chain, st.tid,
                            Exchange(st.code, st.clientId, o.response.session, o.response.scope));
      }
    } else if st.Lone? && op.RefreshAccessToken? && op.token in y.store.refresh {
      var c := y.tokens.codeOf[op.token];
      assert InItsChain(op.token, y.store.refresh[op.token], y.tokens);
      RotationStaysPending(y.exchanges, n, y.tokens.chain, c, ChainOf(y.tokens, c) + [op.drawn.refresh]);
    }
  }

  lemma StepKeepsChainInvariant(cfg: Config, y: System, st: Step)
    requires NamesIssued(y) && Enabled(y, st) && ChainInvariant(y)
    requires Next(cfg, y, st).store.handoffs.Keys <= Next(cfg, y, st).handoffs.filed.Keys
    ensures ChainInvariant(Next(cfg, y, st))
  {
    if !st.Look? {
      StepKeepsCodesUnredeemed(cfg, y, st);
      StepKeepsTokensChained(cfg, y, st);
      StepKeepsPending(cfg, y, st);
    }
  }

  lemma StoredHandoffsAreFiled(cfg: Config, run: seq<System>, steps: seq<Step>, i: nat)
    requires IsRun(cfg, run, steps) && i < |run|
    ensures run[i].store.handoffs.Keys <= run[i].handoffs.filed.Keys
  {
    HandoffsTracedInRun(cfg, run, steps, i);
  }

  lemma {:induction false} ChainInvariantInRun(cfg: Config, run: seq<System>, steps: seq<Step>, i: nat)
    requires IsRun(cfg, run, steps) && i < |run|
    ensures ChainInvariant(run[i])
  {
    hide Next, Enabled;
    if i > 0 {
      StoredHandoffsAreFiled(cfg, run, steps, i);
      ChainInvariantInRun(cfg, run, steps, i - 1);
      NamesIssuedInRun(cfg, run, steps, i - 1);
      StepKeepsChainInvariant(cfg, run[i - 1], steps[i - 1]);
    }
  }

  /** Main result. Whatever exchanges, refreshes, revocations and prunes interleave, a code is
      redeemed at most once, the refresh tokens descending from it form a single chain of
      parent and child without repetition, and at most one stored one is unrevoked: the last. */
  lemma RefreshTokensOfACodeFormOneChain(cfg: Config, run: seq<System>, steps: seq<Step>, i: nat, c: string)
    requires IsRun(cfg, run, steps) && i < |run|
    ensures run[i].codes.redemptions[c] <= 1
    ensures c in run[i].store.codes ==> c !in run[i].codes.redemptions && c !in run[i].tokens.chain
    ensures var l := run[i].tokens; var q := ChainOf(l, c);
            && Linked(q, c, l.codeOf, l.parent)
            && forall t :: t in run[i].store.refresh ==>
                 && t in l.codeOf
                 && (l.codeOf[t] == c ==> t in q)
                 && (l.codeOf[t] == c && !Truthy(run[i].store.refresh[t].revokedAt) ==> t == q[|q| - 1])
  {
    ChainInvariantInRun(cfg, run, steps, i);
    var y := run[i];
    forall t | t in y.store.refresh ensures InItsChain(t, y.store.refresh[t], y.tokens) {}
  }

  // ---------------------------------------------------------------- a presented code is burned

  ghost predicate Burned(y: System, c: string) {
    c in y.issued && c !in y.store.codes
  }

  lemma StepKeepsBurned(cfg: Config, y: System, st: Step, c: string)
    requires Enabled(y, st) && Burned(y, c)
    ensures Burned(Next(cfg, y, st), c)
  {
    hide Apply;
    if !st.Look? { CodeNamesAreDrawn(cfg, y.store, OpOf(y, st), st.k); }
  }

  lemma {:induction false} BurnedStaysBurned(cfg: Config, run: seq<System>, steps: seq<Step>, i: nat, j: nat, c: string)
    requires IsRun(cfg, run, steps) && i <= j < |run| && Burned(run[i], c)
    ensures Burned(run[j], c)
  {
    hide Next, Enabled;
    if i < j {
      BurnedStaysBurned(cfg, run, steps, i, j - 1, c);
      StepKeepsBurned(cfg, run[j - 1], steps[j - 1], c);
    }
  }

  /** Main result. Once a configured client has presented a code, whatever the answer was, no
      later exchange of the run is answered with a session for it. */
  lemma PresentedCodeIsBurned(cfg: Config, run: seq<System>, steps: seq<Step>, i: nat, j: nat)
    requires IsRun(cfg, run, steps) && i < j < |steps| && steps[i].Consume? && steps[j].Consume?
    requires steps[i].code == steps[j].code && steps[i].code in run[i].issued && IsConfigured(cfg, steps[i].clientId)
    ensures OutcomeOf(cfg, run[j], steps[j]).response
         == Failed(if IsConfigured(cfg, steps[j].clientId) then CodeNotFound else InvalidClient)
  {
    BurnedStaysBurned(cfg, run, steps, i + 1, j, steps[i].code);
  }
}
