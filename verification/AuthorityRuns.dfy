/** Runs of the authorization service: commits, issues, dispatches and revocations in any
    order. Tokens cannot be made outside the service. */
module AuthorityRuns {
  import opened Journals
  import opened Authority

  datatype Entry = Ran(token: Token, at: Dispatching) | RevokedNonce(nonce: string)

  datatype World = World(ledger: Ledger, minted: set<Token>, state: ServiceState, log: seq<Entry>)

  datatype Step =
    | Committing(key: (JournalRef, string), txn: Transaction)
    | Issuing(token: Token)
    | Dispatch(token: Token, at: Dispatching, hooks: bool)
    | Revoke(nonce: string)

  ghost predicate Enabled(w: World, digest: Decision -> string, step: Step) {
    match step
    case Committing(key, _) => key !in w.ledger
    case Issuing(token) => Warranted(w.ledger, digest, token)
    case Dispatch(token, _, _) => token in w.minted || !token.valid
    case Revoke(_) => true
  }

  function Apply(w: World, step: Step): World {
    match step
    case Committing(key, t) => w.(ledger := w.ledger[key := t])
    case Issuing(token) =>
      var r := Register(w.state, token);
      w.(state := AfterIssue(w.state, token), minted := if r.Ok? then w.minted + {r.value} else w.minted)
    case Dispatch(token, b, hooks) =>
      w.(state := AfterDispatch(w.state, token, b, hooks),
         log := if Admit(w.state, token, b).None? then w.log + [Ran(token, b)] else w.log)
    case Revoke(nonce) =>
      w.(state := AfterRevoke(w.state, nonce), log := if nonce == "" then w.log else w.log + [RevokedNonce(nonce)])
  }

  /** How often a nonce was revoked. */
  function Count(log: seq<Entry>, nonce: string): nat {
    if log == [] then 0
    else Count(log[..|log| - 1], nonce) + if log[|log| - 1] == RevokedNonce(nonce) then 1 else 0
  }

  ghost predicate OneEach(minted: set<Token>) {
    forall t, u :: t in minted && u in minted && t.nonce == u.nonce ==> t == u
  }

  ghost predicate TokensOk(w: World, digest: Decision -> string) {
    && (forall t :: t in w.minted ==>
      t.valid && t.epoch == 0 && t.nonce in w.state.issued && Warranted(w.ledger, digest, t))
    && OneEach(w.minted)
  }

  predicate RanOk(w: World, i: nat)
    requires i < |w.log| && w.log[i].Ran?
  {
    var t, b := w.log[i].token, w.log[i].at;
    && t in w.minted && t.kind == b.kind && t.binding == b.binding
    && t.nonce in w.state.dispatched && HandleKey(b.kind, b.handle) in w.state.handles
    && Count(w.log[..i], t.nonce) % EPOCHS == 0
  }

  predicate Apart(a: Entry, b: Entry)
    requires a.Ran? && b.Ran?
  {
    a.token.nonce != b.token.nonce && HandleKey(a.at.kind, a.at.handle) != HandleKey(b.at.kind, b.at.handle)
  }

  ghost predicate EffectsOk(w: World) {
    && (forall i :: 0 <= i < |w.log| && w.log[i].Ran? ==> RanOk(w, i))
    && (forall i, j :: 0 <= i < j < |w.log| && w.log[i].Ran? && w.log[j].Ran? ==> Apart(w.log[i], w.log[j]))
  }

  function Nonces(log: seq<Entry>): set<string> {
    if log == [] then {}
    else Nonces(log[..|log| - 1]) + if log[|log| - 1].Ran? then {log[|log| - 1].token.nonce} else {}
  }

  function Keys(log: seq<Entry>): set<string> {
    if log == [] then {}
    else
      Keys(log[..|log| - 1])
      + if log[|log| - 1].Ran? then {HandleKey(log[|log| - 1].at.kind, log[|log| - 1].at.handle)} else {}
  }

  /** The service remembers exactly the nonces and handles of the effects that ran. */
  predicate SetsOk(w: World) { w.state.dispatched == Nonces(w.log) && w.state.handles == Keys(w.log) }

  predicate Counted(w: World, n: string) { Revocations(w.state, n) == Count(w.log, n) % EPOCHS }

  ghost predicate CountsOk(w: World) { forall n :: Counted(w, n) }

  ghost predicate Inv(w: World, digest: Decision -> string) {
    TokensOk(w, digest) && EffectsOk(w) && CountsOk(w) && SetsOk(w)
  }

  const START := World(map[], {}, EMPTY, [])

  // ---- the steps ----

  lemma GrownWarrant(ledger: Ledger, more: Ledger, digest: Decision -> string, token: Token)
    requires Warranted(ledger, digest, token) && forall k :: k in ledger ==> k in more && more[k] == ledger[k]
    ensures Warranted(more, digest, token)
  {
    var r: Reference, e: Evidence :| Proves(ledger, digest, r, e) && token == TokenFor(e);
    assert Proves(more, digest, r, e);
  }

  lemma CommitKeeps(w: World, digest: Decision -> string, key: (JournalRef, string), t: Transaction)
    requires Inv(w, digest) && key !in w.ledger
    ensures Inv(Apply(w, Committing(key, t)), digest)
  {
    var w' := Apply(w, Committing(key, t));
    forall u | u in w'.minted ensures Warranted(w'.ledger, digest, u) { GrownWarrant(w.ledger, w'.ledger, digest, u); }
    forall i | 0 <= i < |w.log| && w.log[i].Ran? ensures RanOk(w', i) { assert RanOk(w, i); }
    forall n ensures Counted(w', n) { assert Counted(w, n); }
  }

  lemma OneMore(minted: set<Token>, issued: set<string>, token: Token)
    requires OneEach(minted) && (forall t :: t in minted ==> t.nonce in issued) && token.nonce !in issued
    ensures OneEach(minted + {token})
  {
  }

  lemma AddToken(w: World, digest: Decision -> string, token: Token)
    requires TokensOk(w, digest) && Warranted(w.ledger, digest, token) && token.valid && token.epoch == 0
    requires token.nonce !in w.state.issued
    ensures TokensOk(w.(minted := w.minted + {token}, state := w.state.(issued := w.state.issued + {token.nonce})),
        digest)
  {
    OneMore(w.minted, w.state.issued, token);
  }

  lemma TokenIsFresh(ledger: Ledger, digest: Decision -> string, token: Token)
    requires Warranted(ledger, digest, token)
    ensures token.valid && token.epoch == 0 && '\0' !in token.kind
  {
  }

  lemma IssueTokens(w: World, digest: Decision -> string, token: Token)
    requires TokensOk(w, digest) && Warranted(w.ledger, digest, token)
    ensures TokensOk(Apply(w, Issuing(token)), digest)
  {
    TokenIsFresh(w.ledger, digest, token);
    if Register(w.state, token).Ok? { AddToken(w, digest, token); }
  }

  /** A step that adds tokens only leaves what ran as it was. */
  lemma SameLogKeeps(w: World, w': World)
    requires EffectsOk(w) && CountsOk(w) && SetsOk(w) && w'.log == w.log && w.minted <= w'.minted
    requires w'.state.dispatched == w.state.dispatched && w'.state.handles == w.state.handles
    requires w'.state.revocations == w.state.revocations
    ensures EffectsOk(w') && CountsOk(w') && SetsOk(w')
  {
    forall i | 0 <= i < |w.log| && w.log[i].Ran? ensures RanOk(w', i) { assert RanOk(w, i); }
    forall n ensures Counted(w', n) { assert Counted(w, n); }
  }

  /** Issuing moves nothing but tokens and issued nonces. */
  lemma IssueFrame(w: World, token: Token)
    ensures var w' := Apply(w, Issuing(token));
      && w'.log == w.log && w.minted <= w'.minted && w'.state.revocations == w.state.revocations
      && w'.state.dispatched == w.state.dispatched && w'.state.handles == w.state.handles
  {
  }

  lemma IssueKeeps(w: World, digest: Decision -> string, token: Token)
    requires Inv(w, digest) && Warranted(w.ledger, digest, token)
    ensures Inv(Apply(w, Issuing(token)), digest)
  {
    IssueTokens(w, digest, token);
    IssueFrame(w, token);
    SameLogKeeps(w, Apply(w, Issuing(token)));
  }

  lemma AppendKeepsRan(w: World, w': World, entry: Entry, i: nat)
    requires i < |w.log| && w.log[i].Ran? && RanOk(w, i) && w'.log == w.log + [entry]
    requires w'.minted == w.minted && w.state.dispatched <= w'.state.dispatched && w.state.handles <= w'.state.handles
    ensures RanOk(w', i)
  {
    assert w'.log[..i] == w.log[..i];
  }

  lemma CountSnoc(log: seq<Entry>, entry: Entry, nonce: string)
    ensures Count(log + [entry], nonce) == Count(log, nonce) + if entry == RevokedNonce(nonce) then 1 else 0
  {
    assert (log + [entry])[..|log|] == log;
  }

  lemma RanEffects(w: World, w': World, token: Token, b: Dispatching)
    requires EffectsOk(w) && SetsOk(w) && CountsOk(w) && w'.log == w.log + [Ran(token, b)] && w'.minted == w.minted
    requires token in w.minted && token.kind == b.kind && token.binding == b.binding
    requires token.nonce !in w.state.dispatched && HandleKey(b.kind, b.handle) !in w.state.handles
    requires Revocations(w.state, token.nonce) == 0
    requires w'.state.dispatched == w.state.dispatched + {token.nonce}
    requires w'.state.handles == w.state.handles + {HandleKey(b.kind, b.handle)}
    ensures EffectsOk(w')
  {
    var n := |w.log|;
    forall i | 0 <= i < n && w.log[i].Ran? ensures RanOk(w', i) && Apart(w'.log[i], w'.log[n]) {
      assert RanOk(w, i);
      AppendKeepsRan(w, w', Ran(token, b), i);
    }
    assert w'.log[..n] == w.log;
    assert Counted(w, token.nonce);
    assert RanOk(w', n);
  }

  lemma RanCounts(w: World, w': World, entry: Entry)
    requires CountsOk(w) && entry.Ran? && w'.log == w.log + [entry] && w'.state.revocations == w.state.revocations
    ensures CountsOk(w')
  {
    forall m ensures Counted(w', m) {
      CountSnoc(w.log, entry, m);
      assert Counted(w, m);
    }
  }

  lemma RanSets(w: World, w': World, token: Token, b: Dispatching)
    requires SetsOk(w) && w'.log == w.log + [Ran(token, b)]
    requires w'.state.dispatched == w.state.dispatched + {token.nonce}
    requires w'.state.handles == w.state.handles + {HandleKey(b.kind, b.handle)}
    ensures SetsOk(w')
  {
    assert w'.log[..|w.log|] == w.log;
  }

  lemma SameTokens(w: World, w': World, digest: Decision -> string)
    requires TokensOk(w, digest) && w'.ledger == w.ledger && w'.minted == w.minted
    requires w'.state.issued == w.state.issued
    ensures TokensOk(w', digest)
  {
  }

  /** What an admitted dispatch moves. */
  lemma DispatchFrame(w: World, token: Token, b: Dispatching, hooks: bool)
    ensures var w' := Apply(w, Dispatch(token, b, hooks));
      && w'.ledger == w.ledger && w'.minted == w.minted && w'.state.issued == w.state.issued
      && w'.state.revocations == w.state.revocations
      && (if Admit(w.state, token, b).Some? then w' == w
        else
          && w'.log == w.log + [Ran(token, b)]
          && w'.state.dispatched == w.state.dispatched + {token.nonce}
          && w'.state.handles == w.state.handles + {HandleKey(b.kind, b.handle)})
  {
  }

  lemma Admitted(w: World, digest: Decision -> string, token: Token, b: Dispatching)
    requires TokensOk(w, digest) && (token in w.minted || !token.valid) && Admit(w.state, token, b).None?
    ensures token in w.minted && token.kind == b.kind && token.binding == b.binding
    ensures token.nonce !in w.state.dispatched && HandleKey(b.kind, b.handle) !in w.state.handles
    ensures Revocations(w.state, token.nonce) == 0
  {
  }

  lemma DispatchKeeps(w: World, digest: Decision -> string, token: Token, b: Dispatching, hooks: bool)
    requires Inv(w, digest) && (token in w.minted || !token.valid)
    ensures Inv(Apply(w, Dispatch(token, b, hooks)), digest)
  {
    var w' := Apply(w, Dispatch(token, b, hooks));
    DispatchFrame(w, token, b, hooks);
    if Admit(w.state, token, b).None? {
      Admitted(w, digest, token, b);
      RanEffects(w, w', token, b);
      RanCounts(w, w', Ran(token, b));
      RanSets(w, w', token, b);
      SameTokens(w, w', digest);
    }
  }

  lemma WrapsOnce(n: nat, c: nat)
    requires n == c % EPOCHS
    ensures (n + 1) % EPOCHS == (c + 1) % EPOCHS
  {
  }

  lemma RevokeCounts(w: World, nonce: string)
    requires CountsOk(w) && nonce != ""
    ensures CountsOk(Apply(w, Revoke(nonce)))
  {
    var w' := Apply(w, Revoke(nonce));
    forall m ensures Counted(w', m) {
      CountSnoc(w.log, RevokedNonce(nonce), m);
      assert Counted(w, m);
      WrapsOnce(Revocations(w.state, m), Count(w.log, m));
    }
  }

  lemma RevokeKeeps(w: World, digest: Decision -> string, nonce: string)
    requires Inv(w, digest)
    ensures Inv(Apply(w, Revoke(nonce)), digest)
  {
    var w' := Apply(w, Revoke(nonce));
    if nonce != "" {
      forall i | 0 <= i < |w.log| && w.log[i].Ran? ensures RanOk(w', i) {
        assert RanOk(w, i);
        AppendKeepsRan(w, w', RevokedNonce(nonce), i);
      }
      RevokeCounts(w, nonce);
      assert w'.log[..|w.log|] == w.log;
      assert EffectsOk(w') && SetsOk(w');
      SameTokens(w, w', digest);
    }
  }

  lemma StepKeeps(w: World, digest: Decision -> string, step: Step)
    requires Inv(w, digest) && Enabled(w, digest, step)
    ensures Inv(Apply(w, step), digest)
  {
    match step
    case Committing(key, t) => CommitKeeps(w, digest, key, t);
    case Issuing(token) => IssueKeeps(w, digest, token);
    case Dispatch(token, b, hooks) => DispatchKeeps(w, digest, token, b, hooks);
    case Revoke(nonce) => RevokeKeeps(w, digest, nonce);
  }

  ghost predicate Enables(w: World, digest: Decision -> string, steps: seq<Step>)
    decreases |steps|
  {
    steps == [] || (Enabled(w, digest, steps[0]) && Enables(Apply(w, steps[0]), digest, steps[1..]))
  }

  function Run(w: World, steps: seq<Step>): World
    decreases |steps|
  {
    if steps == [] then w else Run(Apply(w, steps[0]), steps[1..])
  }

  lemma {:induction false} RunKeeps(w: World, digest: Decision -> string, steps: seq<Step>)
    requires Inv(w, digest) && Enables(w, digest, steps)
    ensures Inv(Run(w, steps), digest)
    decreases |steps|
  {
    if steps == [] {
    } else {
      StepKeeps(w, digest, steps[0]);
      RunKeeps(Apply(w, steps[0]), digest, steps[1..]);
    }
  }

  // ---- what holds over every run ----

  function FirstNul(s: string): nat { if s == [] || s[0] == '\0' then 0 else 1 + FirstNul(s[1..]) }

  lemma {:induction false} NulAt(k: string, g: string)
    requires '\0' !in k
    ensures FirstNul(HandleKey(k, g)) == |k|
  {
    if k == "" {
    } else {
      assert HandleKey(k, g)[0] == k[0] && HandleKey(k, g)[1..] == HandleKey(k[1..], g);
      NulAt(k[1..], g);
    }
  }

  lemma KeyIsInjective(k: string, g: string, l: string, h: string)
    requires '\0' !in k && '\0' !in l && HandleKey(k, g) == HandleKey(l, h)
    ensures k == l && g == h
  {
    NulAt(k, g);
    NulAt(l, h);
    var key := HandleKey(k, g);
    assert key[..|k|] == k && key[..|l|] == l && key[|k| + 1..] == g && key[|l| + 1..] == h;
  }

  lemma StartInv(digest: Decision -> string)
    ensures Inv(START, digest)
  {
  }

  /** Over every run the effect runs at most once per nonce and per handle. */
  lemma {:induction false} AtMostOnce(digest: Decision -> string, steps: seq<Step>, i: nat, j: nat)
    requires Enables(START, digest, steps)
    requires i < j < |Run(START, steps).log| && Run(START, steps).log[i].Ran? && Run(START, steps).log[j].Ran?
    ensures var log := Run(START, steps).log;
      && log[i].token.nonce != log[j].token.nonce
      && (log[i].at.kind, log[i].at.handle) != (log[j].at.kind, log[j].at.handle)
  {
    StartInv(digest);
    RunKeeps(START, digest, steps);
    var log := Run(START, steps).log;
    assert Apart(log[i], log[j]);
  }

  lemma {:induction false} NeverRevoked(prefix: seq<Entry>, nonce: string, log: seq<Entry>, i: nat)
    requires i <= |log| && prefix == log[..i] && Count(prefix, nonce) == 0
    ensures forall k :: 0 <= k < i ==> log[k] != RevokedNonce(nonce)
    decreases i
  {
    if i == 0 {
    } else {
      assert prefix[..i - 1] == log[..i - 1];
      NeverRevoked(log[..i - 1], nonce, log, i - 1);
    }
  }

  lemma RanIsWarranted(w: World, digest: Decision -> string, i: nat)
    requires Inv(w, digest) && i < |w.log| && w.log[i].Ran?
    ensures var t := w.log[i].token;
      && Warranted(w.ledger, digest, t) && w.log[i].at.kind == t.kind && w.log[i].at.binding == t.binding
      && Count(w.log[..i], t.nonce) % EPOCHS == 0
      && (Count(w.log[..i], t.nonce) < EPOCHS ==> forall k :: 0 <= k < i ==> w.log[k] != RevokedNonce(t.nonce))
  {
    assert RanOk(w, i);
    if Count(w.log[..i], w.log[i].token.nonce) < EPOCHS { NeverRevoked(w.log[..i], w.log[i].token.nonce, w.log, i); }
  }

  /** Every effect that ran was warranted by a committed allow whose consumption and start
      lie in a strictly later transaction, through the token's own binding, and its nonce
      had been revoked a multiple of 2^64 times: never, short of the counter wrapping. */
  lemma {:induction false} EffectsAreWarranted(digest: Decision -> string, steps: seq<Step>, i: nat)
    requires Enables(START, digest, steps)
    requires i < |Run(START, steps).log| && Run(START, steps).log[i].Ran?
    ensures var w := Run(START, steps); var t := w.log[i].token;
      && Warranted(w.ledger, digest, t) && w.log[i].at.kind == t.kind && w.log[i].at.binding == t.binding
      && Count(w.log[..i], t.nonce) % EPOCHS == 0
      && (Count(w.log[..i], t.nonce) < EPOCHS ==> forall k :: 0 <= k < i ==> w.log[k] != RevokedNonce(t.nonce))
  {
    StartInv(digest);
    RunKeeps(START, digest, steps);
    RanIsWarranted(Run(START, steps), digest, i);
  }

  /** A nonce revoked before its token was issued gets no token, unless the counter wrapped. */
  lemma {:induction false} RevokedIsNotIssued(digest: Decision -> string, steps: seq<Step>, token: Token)
    requires Enables(START, digest, steps) && Warranted(Run(START, steps).ledger, digest, token)
    ensures var w := Run(START, steps);
      Register(w.state, token) == Err(Revoked) <==> Count(w.log, token.nonce) % EPOCHS != 0
  {
    StartInv(digest);
    RunKeeps(START, digest, steps);
    assert Counted(Run(START, steps), token.nonce);
  }

  lemma {:induction false} NonceRan(log: seq<Entry>, nonce: string) returns (i: nat)
    requires nonce in Nonces(log)
    ensures i < |log| && log[i].Ran? && log[i].token.nonce == nonce
  {
    var n := |log| - 1;
    if log[n].Ran? && log[n].token.nonce == nonce { i := n; } else { i := NonceRan(log[..n], nonce); }
  }

  lemma {:induction false} KeyRan(log: seq<Entry>, key: string) returns (i: nat)
    requires key in Keys(log)
    ensures i < |log| && log[i].Ran? && HandleKey(log[i].at.kind, log[i].at.handle) == key
  {
    var n := |log| - 1;
    if log[n].Ran? && HandleKey(log[n].at.kind, log[n].at.handle) == key { i := n; }
    else { i := KeyRan(log[..n], key); }
  }

  /** A token presented for its own binding is turned away as dispatched only because an
      effect already ran for the same nonce or for the same kind and handle. */
  lemma TurnedAwayOnlyByItself(digest: Decision -> string, steps: seq<Step>, token: Token,
          b: Dispatching) returns (i: nat)
    requires Enables(START, digest, steps) && token in Run(START, steps).minted
    requires Admit(Run(START, steps).state, token, b) == Some(AlreadyDispatched)
    ensures var log := Run(START, steps).log;
      i < |log| && log[i].Ran?
        && (log[i].token.nonce == token.nonce || (log[i].at.kind == b.kind && log[i].at.handle == b.handle))
  {
    StartInv(digest);
    RunKeeps(START, digest, steps);
    var w := Run(START, steps);
    if token.nonce in w.state.dispatched {
      i := NonceRan(w.log, token.nonce);
    } else {
      i := KeyRan(w.log, HandleKey(b.kind, b.handle));
      assert RanOk(w, i);
      TokenIsFresh(w.ledger, digest, token);
      TokenIsFresh(w.ledger, digest, w.log[i].token);
      KeyIsInjective(w.log[i].at.kind, w.log[i].at.handle, b.kind, b.handle);
    }
  }
}
