/** The service's answers over every run, told by the committed transactions and the log:
    when a token is issued, when its effect runs, and when a revocation fires a hook. */
module AuthorityLaws {
  import opened Journals
  import opened Authority
  import opened AuthorityRuns

  // ---- what a token stands for ----

  /** The decision allows the request, and the consumption and start bind what it bound. */
  predicate Binds(r: Reference, d: Decision, digest: string, c: Consumption, s: Started) {
    && d.action == "allow" && c.decisionEvent == r.decisionEvent == s.decisionEvent
    && c.nonce == d.nonce == s.nonce && c.decisionDigest == digest && c.requestId == d.request.id
    && c.binding == d.request.binding
    && s.binding.plan == c.binding.plan && s.binding.request == c.binding.request
    && s.binding.dispatch == c.binding.dispatch && s.binding.generation == c.binding.generation
    && (c.binding.activity != "" ==> s.binding.activity == c.binding.activity && s.binding.call == c.binding.call)
    && (c.binding.activity == "" ==> s.binding.control == c.binding.control)
  }

  /** The transaction is the one named, committed where it says, and holds the event. */
  ghost predicate Holds(ledger: Ledger, journal: JournalRef, txn: string, t: Transaction, id: string, kind: Kind,
          payload: Payload)
  {
    && (journal, txn) in ledger && ledger[(journal, txn)] == t
    && t.journal == journal && t.txn == txn && t.cursor.journal == journal && t.cursor.txn == txn
    && t.cursor.commitSeq > 0 && (forall k :: 0 <= k < |t.events| ==> t.events[k].txn == txn)
    && exists k :: 0 <= k < |t.events| && t.events[k] == Event(id, txn, kind, payload)
  }

  predicate StartsActivity(c: Consumption) { c.binding.activity != "" }

  /** The token of some evidence names what was decided, and the side it came from. */
  lemma TokenMeans(ledger: Ledger, digest: Decision -> string, r: Reference, e: Evidence)
    requires Proves(ledger, digest, r, e)
    ensures Binds(r, e.decision, digest(e.decision), e.consumption, e.started)
    ensures r.journal.id != "" && r.decisionTxn != "" && r.startTxn != "" && r.decisionTxn != r.startTxn
    ensures r.decisionEvent != "" && r.consumedEvent != "" && r.startedEvent != ""
    ensures Holds(ledger, r.journal, r.decisionTxn, e.decided, r.decisionEvent, DecidedKind, DecisionOf(e.decision))
    ensures Holds(ledger, r.journal, r.startTxn, e.start, r.consumedEvent, ConsumedKind, ConsumptionOf(e.consumption))
    ensures Holds(ledger, r.journal, r.startTxn, e.start, r.startedEvent,
        if StartsActivity(e.consumption) then ActivityStartedKind else ControlStartedKind, StartOf(e.started))
    ensures e.decided.cursor.commitSeq < e.start.cursor.commitSeq
    ensures e.decision.wellFormed && e.decision.request.wellFormed && e.consumption.wellFormed
    ensures e.decision.nonce != "" && e.decision.request.id != "" && e.consumption.binding.generation != ""
    ensures e.decision.request.session == "" <==> e.consumption.binding.control != ""
    ensures var t, request := TokenFor(e), e.decision.request;
      && t.valid && t.nonce == e.decision.nonce && t.binding == request.binding
      && t.kind == if request.binding.control != "" then "control"
        else if request.source == "provider" then "provider" else "tool"
  {
  }

  predicate Named(r: Reference) {
    && r.journal.id != "" && r.decisionTxn != "" && r.startTxn != "" && r.decisionTxn != r.startTxn
    && r.decisionEvent != "" && r.consumedEvent != "" && r.startedEvent != "" && r.consumedEvent != r.startedEvent
  }

  /** An allow for exactly one of an activity of a session and a control operation. */
  predicate Allows(d: Decision) {
    var q := d.request;
    && d.wellFormed && d.nonce != "" && d.action == "allow" && (d.lifetime == "once" || d.lifetime == "session")
    && q.wellFormed && q.id != "" && q.binding.call != "" && q.binding.generation != ""
    && (q.session == "") == (q.binding.activity == "") && (q.session == "") != (q.binding.control == "")
  }

  function DecidedIn(r: Reference, d: Decision, at: nat): Transaction {
    Transaction(r.journal, r.decisionTxn, Cursor(r.journal, at, r.decisionTxn),
      [Event(r.decisionEvent, r.decisionTxn, DecidedKind, DecisionOf(d))])
  }

  function StartedIn(r: Reference, c: Consumption, s: Started, at: nat): Transaction {
    var kind := if StartsActivity(c) then ActivityStartedKind else ControlStartedKind;
    Transaction(r.journal, r.startTxn, Cursor(r.journal, at, r.startTxn),
      [Event(r.consumedEvent, r.startTxn, ConsumedKind, ConsumptionOf(c)),
       Event(r.startedEvent, r.startTxn, kind, StartOf(s))])
  }

  /** Conversely, an allow and in a later transaction a consumption and a start that bind what
      it bound are evidence, whatever they are about. */
  lemma EvidenceSuffices(digest: Decision -> string, r: Reference, d: Decision, c: Consumption, s: Started,
          early: nat, late: nat)
    requires Named(r) && Allows(d) && c.wellFormed && Binds(r, d, digest(d), c, s) && 0 < early < late
    ensures var decided, start := DecidedIn(r, d, early), StartedIn(r, c, s, late);
      var ledger := map[(r.journal, r.decisionTxn) := decided, (r.journal, r.startTxn) := start];
      Proves(ledger, digest, r, Evidence(decided, start, d, c, s))
  {
    var decided, start := DecidedIn(r, d, early), StartedIn(r, c, s, late);
    assert OnlyOne(decided.events, 0, r.decisionEvent, DecidedKind);
    assert UniquelyNamed(decided, r.decisionTxn, r.decisionEvent, DecidedKind, decided.events[0]);
    assert OnlyOne(start.events, 0, r.consumedEvent, ConsumedKind);
    assert UniquelyNamed(start, r.startTxn, r.consumedEvent, ConsumedKind, start.events[0]);
    assert OnlyOne(start.events, 1, r.startedEvent, start.events[1].kind);
    assert UniquelyNamed(start, r.startTxn, r.startedEvent, start.events[1].kind, start.events[1]);
  }

  /** One more step of a run is applied to where the run had come. */
  lemma {:induction false} RunSnoc(w: World, digest: Decision -> string, steps: seq<Step>, step: Step)
    ensures Enables(w, digest, steps + [step]) <==> Enables(w, digest, steps) && Enabled(Run(w, steps), digest, step)
    ensures Run(w, steps + [step]) == Apply(Run(w, steps), step)
    decreases |steps|
  {
    if steps == [] {
      assert [] + [step] == [step] && [step][1..] == [];
    } else {
      assert (steps + [step])[1..] == steps[1..] + [step];
      RunSnoc(Apply(w, steps[0]), digest, steps[1..], step);
    }
  }

  // ---- when a token is issued ----

  /** A nonce counts as issued only for a token that was minted. */
  ghost predicate IssuedMinted(w: World) {
    forall n :: n in w.state.issued ==> exists t :: t in w.minted && t.nonce == n
  }

  lemma StepMints(w: World, digest: Decision -> string, step: Step)
    requires Enabled(w, digest, step) && IssuedMinted(w)
    ensures IssuedMinted(Apply(w, step))
  {
    var w' := Apply(w, step);
    forall n | n in w'.state.issued ensures exists t :: t in w'.minted && t.nonce == n {
      if n in w.state.issued {
        var t :| t in w.minted && t.nonce == n;
        assert t in w'.minted;
      } else {
        assert Register(w.state, step.token).value in w'.minted;
      }
    }
  }

  lemma {:induction false} RunMints(w: World, digest: Decision -> string, steps: seq<Step>)
    requires Enables(w, digest, steps) && IssuedMinted(w)
    ensures IssuedMinted(Run(w, steps))
    decreases |steps|
  {
    if steps == [] {
    } else {
      StepMints(w, digest, steps[0]);
      RunMints(Apply(w, steps[0]), digest, steps[1..]);
    }
  }

  /** Over every run: evidence is turned into its token exactly if its nonce was revoked a
      multiple of 2^64 times and no token was minted for it; otherwise the refusal says
      which of the two it was. */
  lemma {:induction false} IssuedIff(digest: Decision -> string, steps: seq<Step>, token: Token)
    requires Enables(START, digest, steps) && Warranted(Run(START, steps).ledger, digest, token)
    ensures var w := Run(START, steps); var revoked := Count(w.log, token.nonce) % 0x1_0000_0000_0000_0000 != 0;
      var used := exists t :: t in w.minted && t.nonce == token.nonce;
      Register(w.state, token) == if revoked then Err(Revoked) else if used then Err(AlreadyUsed) else Ok(token)
  {
    StartInv(digest);
    RunKeeps(START, digest, steps);
    RunMints(START, digest, steps);
    var w := Run(START, steps);
    RevokedIsNotIssued(digest, steps, token);
    TokenIsFresh(w.ledger, digest, token);
    assert TokensOk(w, digest);
  }

  // ---- when an effect runs ----

  ghost predicate NonceRanBefore(w: World, nonce: string) {
    exists i :: 0 <= i < |w.log| && w.log[i].Ran? && w.log[i].token.nonce == nonce
  }

  ghost predicate HandleRanBefore(w: World, kind: string, handle: string) {
    exists i :: 0 <= i < |w.log| && w.log[i].Ran? && w.log[i].at.kind == kind && w.log[i].at.handle == handle
  }

  lemma {:induction false} NoncesAre(log: seq<Entry>, nonce: string)
    ensures nonce in Nonces(log) <==> exists i :: 0 <= i < |log| && log[i].Ran? && log[i].token.nonce == nonce
  {
    if log == [] {
    } else {
      var n := |log| - 1;
      NoncesAre(log[..n], nonce);
      if nonce in Nonces(log[..n]) {
        var i :| 0 <= i < n && log[..n][i].Ran? && log[..n][i].token.nonce == nonce;
        assert log[i].Ran? && log[i].token.nonce == nonce;
      }
      if i :| 0 <= i < |log| && log[i].Ran? && log[i].token.nonce == nonce {
        if i < n { assert log[..n][i].Ran? && log[..n][i].token.nonce == nonce; }
      }
    }
  }

  lemma {:induction false} KeysAre(log: seq<Entry>, key: string)
    ensures key in Keys(log) <==>
      exists i :: 0 <= i < |log| && log[i].Ran? && HandleKey(log[i].at.kind, log[i].at.handle) == key
  {
    if log == [] {
    } else {
      var n := |log| - 1;
      KeysAre(log[..n], key);
      if key in Keys(log[..n]) {
        var i :| 0 <= i < n && log[..n][i].Ran? && HandleKey(log[..n][i].at.kind, log[..n][i].at.handle) == key;
        assert log[i].Ran? && HandleKey(log[i].at.kind, log[i].at.handle) == key;
      }
      if i :| 0 <= i < |log| && log[i].Ran? && HandleKey(log[i].at.kind, log[i].at.handle) == key {
        if i < n { assert log[..n][i].Ran? && HandleKey(log[..n][i].at.kind, log[..n][i].at.handle) == key; }
      }
    }
  }

  lemma HandleIsOwn(w: World, digest: Decision -> string, kind: string, handle: string)
    requires Inv(w, digest) && '\0' !in kind
    ensures HandleKey(kind, handle) in w.state.handles <==> HandleRanBefore(w, kind, handle)
  {
    KeysAre(w.log, HandleKey(kind, handle));
    if HandleKey(kind, handle) in w.state.handles {
      var i :| 0 <= i < |w.log| && w.log[i].Ran?
          && HandleKey(w.log[i].at.kind, w.log[i].at.handle) == HandleKey(kind, handle);
      assert RanOk(w, i);
      TokenIsFresh(w.ledger, digest, w.log[i].token);
      KeyIsInjective(w.log[i].at.kind, w.log[i].at.handle, kind, handle);
    }
  }

  /** Over every run: a minted token's effect runs exactly if it is presented for its own
      kind and binding and under a handle, its nonce was revoked a multiple of 2^64 times,
      and neither its nonce nor this kind and handle ran before. */
  lemma {:induction false} RunsIff(digest: Decision -> string, steps: seq<Step>, token: Token, b: Dispatching)
    requires Enables(START, digest, steps) && token in Run(START, steps).minted
    ensures var w := Run(START, steps);
      Admit(w.state, token, b).None? <==>
        && b.kind == token.kind && b.kind != "" && b.handle != "" && b.binding == token.binding
        && Count(w.log, token.nonce) % 0x1_0000_0000_0000_0000 == 0
        && !NonceRanBefore(w, token.nonce) && !HandleRanBefore(w, b.kind, b.handle)
  {
    StartInv(digest);
    RunKeeps(START, digest, steps);
    var w := Run(START, steps);
    TokenIsFresh(w.ledger, digest, token);
    assert Counted(w, token.nonce);
    NoncesAre(w.log, token.nonce);
    if b.kind == token.kind { HandleIsOwn(w, digest, b.kind, b.handle); }
  }

  // ---- hooks ----

  /** No step is about the nonce. */
  predicate Silent(steps: seq<Step>, nonce: string) {
    forall k :: 0 <= k < |steps| ==>
      match steps[k] {
        case Dispatch(token, _, _) => token.nonce != nonce
        case Revoke(n) => n != nonce
        case _ => true
      }
  }

  lemma {:induction false} HookStays(w: World, digest: Decision -> string, steps: seq<Step>, nonce: string)
    requires Enables(w, digest, steps) && Silent(steps, nonce)
    ensures nonce in Run(w, steps).state.cancellations <==> nonce in w.state.cancellations
    decreases |steps|
  {
    if steps == [] {
    } else {
      HookStays(Apply(w, steps[0]), digest, steps[1..], nonce);
    }
  }

  /** Only effects that ran leave hooks. */
  lemma {:induction false} HooksRan(w: World, digest: Decision -> string, steps: seq<Step>)
    requires Enables(w, digest, steps) && w.state.cancellations <= w.state.dispatched
    ensures Run(w, steps).state.cancellations <= Run(w, steps).state.dispatched
    decreases |steps|
  {
    if steps == [] {
    } else {
      HooksRan(Apply(w, steps[0]), digest, steps[1..]);
    }
  }

  /** An effect that ran with a hook has it fired by the next revocation of its nonce,
      whatever came in between, and by no other after that. */
  lemma {:induction false} HookFiresOnce(digest: Decision -> string, earlier: seq<Step>, w: World, token: Token,
          b: Dispatching, hooks: bool, steps: seq<Step>, later: seq<Step>)
    requires Enables(START, digest, earlier) && w == Run(START, earlier)
    requires Admit(w.state, token, b).None? && token.nonce != ""
    requires var ran := Apply(w, Dispatch(token, b, hooks));
      Enables(ran, digest, steps) && Silent(steps, token.nonce)
    requires var revoked := Apply(Run(Apply(w, Dispatch(token, b, hooks)), steps), Revoke(token.nonce));
      Enables(revoked, digest, later) && Silent(later, token.nonce)
    ensures var before := Run(Apply(w, Dispatch(token, b, hooks)), steps);
      var after := Run(Apply(before, Revoke(token.nonce)), later);
      && (token.nonce in before.state.cancellations <==> hooks)
      && token.nonce !in after.state.cancellations
  {
    var ran := Apply(w, Dispatch(token, b, hooks));
    HooksRan(START, digest, earlier);
    HookStays(ran, digest, steps, token.nonce);
    HookStays(Apply(Run(ran, steps), Revoke(token.nonce)), digest, later, token.nonce);
  }
}
