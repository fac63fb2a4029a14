/** Decisions, consumptions and the service that turns committed ones into single effects. */
module Authority {
  import opened Journals

  const EPOCHS := 0x1_0000_0000_0000_0000

  /** What an authorization is bound to. */
  datatype Binding = Binding(activity: string, control: string, call: string, plan: string, request: string,
      dispatch: string, generation: string)

  /** `wellFormed` stands for the field checks that do not concern the binding. */
  datatype Request = Request(id: string, session: string, source: string, binding: Binding, detail: string,
      wellFormed: bool) {
    predicate Valid() {
      && wellFormed && (session == "") != (binding.control == "")
      && id != "" && binding.call != "" && binding.generation != ""
      && (session != "" ==> binding.activity != "")
    }
  }

  datatype Decision = Decision(request: Request, action: string, lifetime: string, nonce: string, expires: Option<nat>,
      detail: string, wellFormed: bool) {
    predicate Valid() {
      && wellFormed && request.Valid() && nonce != ""
      && (action == "allow" || action == "deny" || action == "ask")
      && (lifetime == "once" || lifetime == "session")
    }
  }

  datatype Consumption = Consumption(nonce: string, decisionEvent: string, decisionDigest: string, requestId: string,
      binding: Binding, wellFormed: bool) {
    predicate Valid() {
      && wellFormed && (binding.activity == "") != (binding.control == "")
      && nonce != "" && decisionEvent != "" && requestId != "" && binding.call != "" && binding.generation != ""
    }
  }

  datatype Started = Started(nonce: string, decisionEvent: string, binding: Binding)

  datatype Kind = DecidedKind | ConsumedKind | ActivityStartedKind | ControlStartedKind | OtherKind(name: string)

  datatype Payload = Garbled | DecisionOf(decision: Decision) | ConsumptionOf(consumption: Consumption)
    | StartOf(started: Started)

  datatype Event = Event(id: string, txn: string, kind: Kind, payload: Payload)

  datatype Transaction = Transaction(journal: JournalRef, txn: string, cursor: Cursor, events: seq<Event>)

  /** Committed transactions by journal and identity. */
  type Ledger = map<(JournalRef, string), Transaction>

  datatype Reference = Reference(journal: JournalRef, decisionTxn: string, decisionEvent: string, startTxn: string,
      consumedEvent: string, startedEvent: string) {
    predicate Valid() {
      && journal.Valid() && decisionTxn != "" && decisionEvent != "" && startTxn != "" && consumedEvent != ""
      && startedEvent != ""
      && decisionTxn != startTxn
    }
  }

  datatype TokenKind = Control | Provider | Tool

  datatype Token = Token(valid: bool, kind: string, binding: Binding, nonce: string, epoch: nat)

  datatype AuthError = Unreadable | Stale | Expired | NotAllow | Revoked | AlreadyUsed | InvalidToken
    | AlreadyDispatched | EffectFailed

  datatype Result<T> = Ok(value: T) | Err(error: AuthError)

  // ---- named events ----

  /** `e` is the only event of its kind and the only one with its identity. */
  ghost predicate UniquelyNamed(t: Transaction, txn: string, id: string, kind: Kind, e: Event) {
    && t.txn == txn && t.journal.Valid() && id != "" && e.id == id && e.kind == kind
    && (forall k :: 0 <= k < |t.events| ==> t.events[k].txn == txn)
    && (exists i :: 0 <= i < |t.events| && OnlyOne(t.events, i, id, kind) && t.events[i] == e)
  }

  predicate OnlyOne(events: seq<Event>, i: nat, id: string, kind: Kind)
    requires i < |events|
  {
    forall k :: 0 <= k < |events| ==> (events[k].kind == kind || events[k].id == id) ==> k == i
  }

  lemma OtherKind(t: Transaction, txn: string, id: string, kind: Kind, k: nat)
    requires k < |t.events| && t.events[k].id == id && t.events[k].kind != kind
    ensures forall e :: !UniquelyNamed(t, txn, id, kind, e)
  {
  }

  method NamedEvent(t: Transaction, txn: string, id: string, kind: Kind) returns (found: Option<Event>)
    requires id != ""
    ensures found.Some? ==> UniquelyNamed(t, txn, id, kind, found.value)
    ensures found.None? ==> forall e :: !UniquelyNamed(t, txn, id, kind, e)
  {
    if t.txn != txn || !t.journal.Valid() {
      return None;
    }
    var named: Option<nat> := None;
    var kindCount := 0;
    ghost var last: Option<nat> := None;
    for k := 0 to |t.events|
      invariant forall j :: 0 <= j < k ==> t.events[j].txn == txn && (t.events[j].id == id ==> t.events[j].kind == kind)
      invariant named.Some? ==> named.value < k && t.events[named.value].id == id
      invariant named.None? ==> forall j :: 0 <= j < k ==> t.events[j].id != id
      invariant kindCount == 0 ==> forall j :: 0 <= j < k ==> t.events[j].kind != kind
      invariant kindCount > 0 ==> last.Some? && last.value < k && t.events[last.value].kind == kind
      invariant kindCount == 1 ==> forall j :: 0 <= j < k && t.events[j].kind == kind ==> j == last.value
      invariant kindCount > 1 ==> exists i, j :: 0 <= i < j < k && t.events[i].kind == kind == t.events[j].kind
    {
      var event := t.events[k];
      if event.txn != txn {
        return None;
      }
      if event.kind == kind {
        if kindCount > 0 { assert t.events[last.value].kind == kind == t.events[k].kind; }
        kindCount := kindCount + 1;
        last := Some(k);
      }
      if event.id == id {
        if event.kind != kind {
          OtherKind(t, txn, id, kind, k);
          return None;
        }
        named := Some(k);
      }
    }
    if named.None? || kindCount != 1 {
      return None;
    }
    assert OnlyOne(t.events, named.value, id, kind);
    found := Some(t.events[named.value]);
  }

  // ---- evidence ----

  predicate MatchesConsumption(d: Decision, digest: string, decisionEvent: string, c: Consumption) {
    && c.nonce == d.nonce && c.decisionEvent == decisionEvent && c.decisionDigest == digest
    && c.requestId == d.request.id && c.binding == d.request.binding
  }

  predicate Identified(t: Transaction, journal: JournalRef, txn: string) {
    && t.journal == journal && t.txn == txn && t.cursor.Valid()
    && t.cursor.journal == journal && t.cursor.txn == txn
  }

  function KindOf(d: Decision, c: Consumption): string {
    if c.binding.control != "" then "control" else if d.request.source == "provider" then "provider" else "tool"
  }

  function StartKind(c: Consumption): Kind {
    if c.binding.activity != "" then ActivityStartedKind else ControlStartedKind
  }

  /** A control start carries neither activity nor call; an activity start no control. */
  predicate MatchesStart(s: Started, c: Consumption, decisionEvent: string) {
    && s.nonce == c.nonce && s.decisionEvent == decisionEvent
    && s.binding.plan == c.binding.plan && s.binding.request == c.binding.request
    && s.binding.dispatch == c.binding.dispatch && s.binding.generation == c.binding.generation
    && if c.binding.activity != "" then s.binding.activity == c.binding.activity && s.binding.call == c.binding.call
       else s.binding.control == c.binding.control
  }

  /** The committed facts a token stands for. */
  datatype Evidence = Evidence(decided: Transaction, start: Transaction, decision: Decision, consumption: Consumption,
      started: Started)

  ghost predicate Names(t: Transaction, txn: string, id: string, kind: Kind, payload: Payload) {
    exists e :: UniquelyNamed(t, txn, id, kind, e) && e.payload == payload
  }

  ghost predicate Decides(ledger: Ledger, r: Reference, t: Transaction, d: Decision) {
    && (r.journal, r.decisionTxn) in ledger && ledger[(r.journal, r.decisionTxn)] == t
    && Identified(t, r.journal, r.decisionTxn)
    && Names(t, r.decisionTxn, r.decisionEvent, DecidedKind, DecisionOf(d))
    && d.action == "allow" && d.Valid()
  }

  ghost predicate Starts(ledger: Ledger, digest: Decision -> string, r: Reference, decided: Transaction, d: Decision,
          t: Transaction, c: Consumption, s: Started)
  {
    && (r.journal, r.startTxn) in ledger && ledger[(r.journal, r.startTxn)] == t
    && Identified(t, r.journal, r.startTxn) && decided.cursor.commitSeq < t.cursor.commitSeq
    && Names(t, r.startTxn, r.consumedEvent, ConsumedKind, ConsumptionOf(c))
    && c.Valid() && MatchesConsumption(d, digest(d), r.decisionEvent, c)
    && Names(t, r.startTxn, r.startedEvent, StartKind(c), StartOf(s)) && MatchesStart(s, c, r.decisionEvent)
  }

  /** The reference names a committed allow and, in a strictly later transaction, the
      consumption and the start it allows. */
  ghost predicate Proves(ledger: Ledger, digest: Decision -> string, r: Reference, e: Evidence) {
    && r.Valid() && Decides(ledger, r, e.decided, e.decision)
    && Starts(ledger, digest, r, e.decided, e.decision, e.start, e.consumption, e.started)
  }

  predicate HasExpired(d: Decision, now: nat) { d.expires.Some? && now >= d.expires.value }

  function TokenFor(e: Evidence): Token {
    Token(true, KindOf(e.decision, e.consumption), e.consumption.binding, e.consumption.nonce, 0)
  }

  ghost predicate Warranted(ledger: Ledger, digest: Decision -> string, token: Token) {
    exists r: Reference, e: Evidence :: Proves(ledger, digest, r, e) && token == TokenFor(e)
  }

  // ---- the guarded state ----

  datatype ServiceState = ServiceState(
    issued: set<string>, dispatched: set<string>, handles: set<string>,
    revocations: map<string, nat>, cancellations: set<string>)

  function Revocations(s: ServiceState, nonce: string): nat {
    if nonce in s.revocations then s.revocations[nonce] else 0
  }

  /** The last section of `Issue`. */
  function Register(s: ServiceState, token: Token): Result<Token> {
    if Revocations(s, token.nonce) != 0 then Err(Revoked)
    else if token.nonce in s.issued then Err(AlreadyUsed)
    else Ok(token.(epoch := Revocations(s, token.nonce)))
  }

  function AfterIssue(s: ServiceState, token: Token): ServiceState {
    if Register(s, token).Ok? then s.(issued := s.issued + {token.nonce}) else s
  }

  function HandleKey(kind: string, handle: string): string { kind + "\0" + handle }

  datatype Dispatching = Dispatching(kind: string, handle: string, binding: Binding)

  /** Whether a dispatch reaches the effect, or the error it stops with. */
  function Admit(s: ServiceState, token: Token, b: Dispatching): Option<AuthError> {
    if !token.valid || b.kind == "" || b.handle == "" || token.kind != b.kind || token.binding != b.binding
    then Some(InvalidToken)
    else if Revocations(s, token.nonce) != token.epoch then Some(Revoked)
    else if token.nonce in s.dispatched || HandleKey(b.kind, b.handle) in s.handles then Some(AlreadyDispatched)
    else None
  }

  /** `hooks` tells whether the effect registers a cancellation hook. */
  function AfterDispatch(s: ServiceState, token: Token, b: Dispatching, hooks: bool): ServiceState {
    if Admit(s, token, b).Some? then s
    else s.(dispatched := s.dispatched + {token.nonce}, handles := s.handles + {HandleKey(b.kind, b.handle)},
            cancellations := if hooks then s.cancellations + {token.nonce} else s.cancellations)
  }

  function AfterRevoke(s: ServiceState, nonce: string): ServiceState {
    if nonce == "" then s
    else s.(revocations := s.revocations[nonce := (Revocations(s, nonce) + 1) % EPOCHS],
        cancellations := s.cancellations - {nonce})
  }

  const EMPTY := ServiceState({}, {}, {}, map[], {})

  class Service {
    var issued: set<string>
    var dispatched: set<string>
    var handles: set<string>
    var revocations: map<string, nat>
    var cancellations: set<string>

    function State(): ServiceState
      reads this
    {
      ServiceState(issued, dispatched, handles, revocations, cancellations)
    }

    constructor ()
      ensures State() == EMPTY
    {
      issued, dispatched, handles, revocations, cancellations := {}, {}, {}, map[], {};
    }

    /** The committed decision a reference names. */
    static method ReadDecision(ledger: Ledger, now: nat, r: Reference) returns (result: Result<(Transaction, Decision)>)
      requires r.Valid()
      ensures result.Ok? ==> Decides(ledger, r, result.value.0, result.value.1) && !HasExpired(result.value.1, now)
      ensures result.Err? ==> forall t, d :: Decides(ledger, r, t, d) ==> HasExpired(d, now)
    {
      if (r.journal, r.decisionTxn) !in ledger {
        return Err(Unreadable);
      }
      var decided := ledger[(r.journal, r.decisionTxn)];
      if !Identified(decided, r.journal, r.decisionTxn) {
        return Err(Unreadable);
      }
      var event := NamedEvent(decided, r.decisionTxn, r.decisionEvent, DecidedKind);
      forall d
        ensures Names(decided, r.decisionTxn, r.decisionEvent, DecidedKind, DecisionOf(d))
          <==> event.Some? && event.value.payload == DecisionOf(d)
      {
      }
      if event.None? || !event.value.payload.DecisionOf? {
        return Err(Unreadable);
      }
      var decision := event.value.payload.decision;
      if decision.action != "allow" {
        return Err(NotAllow);
      }
      if !decision.request.Valid() || !decision.Valid() {
        return Err(Stale);
      }
      if decision.expires.Some? && now >= decision.expires.value {
        return Err(Expired);
      }
      result := Ok((decided, decision));
    }

    /** The committed consumption and start that follow a decision. */
    static method ReadStart(ledger: Ledger, digest: Decision -> string, r: Reference, decided: Transaction,
            decision: Decision)
      returns (result: Result<(Transaction, Consumption, Started)>)
      requires r.Valid()
      ensures result.Ok? ==>
        Starts(ledger, digest, r, decided, decision, result.value.0, result.value.1, result.value.2)
      ensures result.Err? ==> forall t, c, s :: !Starts(ledger, digest, r, decided, decision, t, c, s)
    {
      if (r.journal, r.startTxn) !in ledger {
        return Err(Unreadable);
      }
      var start := ledger[(r.journal, r.startTxn)];
      if !Identified(start, r.journal, r.startTxn) || decided.cursor.commitSeq >= start.cursor.commitSeq {
        return Err(Unreadable);
      }
      var event := NamedEvent(start, r.startTxn, r.consumedEvent, ConsumedKind);
      forall c
        ensures Names(start, r.startTxn, r.consumedEvent, ConsumedKind, ConsumptionOf(c))
          <==> event.Some? && event.value.payload == ConsumptionOf(c)
      {
      }
      if event.None? || !event.value.payload.ConsumptionOf? {
        return Err(Unreadable);
      }
      var consumption := event.value.payload.consumption;
      if !consumption.Valid() {
        return Err(Unreadable);
      }
      if !MatchesConsumption(decision, digest(decision), r.decisionEvent, consumption) {
        return Err(Stale);
      }
      var kind := StartKind(consumption);
      var begun := NamedEvent(start, r.startTxn, r.startedEvent, kind);
      forall s
        ensures Names(start, r.startTxn, r.startedEvent, kind, StartOf(s))
          <==> begun.Some? && begun.value.payload == StartOf(s)
      {
      }
      if begun.None? || !begun.value.payload.StartOf? {
        return Err(Unreadable);
      }
      var started := begun.value.payload.started;
      if !MatchesStart(started, consumption, r.decisionEvent) {
        return Err(Stale);
      }
      result := Ok((start, consumption, started));
    }

    /** The reading half of `Issue`: exactly what the committed transactions prove. */
    static method ReadEvidence(ledger: Ledger, digest: Decision -> string, now: nat,
            r: Reference) returns (result: Result<Evidence>)
      ensures result.Ok? ==> Proves(ledger, digest, r, result.value)
      ensures result.Ok? && result.value.decision.expires.Some? ==> now < result.value.decision.expires.value
      ensures result.Err? ==> forall e :: Proves(ledger, digest, r, e) ==>
        e.decision.expires.Some? && e.decision.expires.value <= now
    {
      if !r.Valid() {
        return Err(Unreadable);
      }
      var decision := ReadDecision(ledger, now, r);
      if decision.Err? {
        return Err(decision.error);
      }
      forall t, d | Decides(ledger, r, t, d) ensures (t, d) == decision.value {
      }
      var start := ReadStart(ledger, digest, r, decision.value.0, decision.value.1);
      if start.Err? {
        return Err(start.error);
      }
      result := Ok(Evidence(decision.value.0, start.value.0, decision.value.1, start.value.1, start.value.2));
    }

    method Issue(ledger: Ledger, digest: Decision -> string, now: nat, r: Reference) returns (result: Result<Token>)
      modifies this
      ensures result.Ok? ==> exists e ::
        && Proves(ledger, digest, r, e) && result.value == TokenFor(e)
        && (e.decision.expires.Some? ==> now < e.decision.expires.value)
      ensures result.Ok? ==>
        result == Register(old(State()), result.value) && State() == AfterIssue(old(State()), result.value)
      ensures result.Err? ==> State() == old(State())
      ensures result.Err? ==> forall e :: Proves(ledger, digest, r, e) ==>
        (e.decision.expires.Some? && e.decision.expires.value <= now) || Register(old(State()), TokenFor(e)).Err?
    {
      var evidence := ReadEvidence(ledger, digest, now, r);
      if evidence.Err? {
        return Err(evidence.error);
      }
      var token := TokenFor(evidence.value);
      var epoch := if token.nonce in revocations then revocations[token.nonce] else 0;
      forall e | Proves(ledger, digest, r, e) ensures e == evidence.value {
      }
      if epoch != 0 {
        return Err(Revoked);
      }
      if token.nonce in issued {
        return Err(AlreadyUsed);
      }
      assert Proves(ledger, digest, r, evidence.value);
      issued := issued + {token.nonce};
      result := Ok(token.(epoch := epoch));
    }

    /** `effect` is the error the effect returns, if any; it runs exactly when `ran`. */
    method Dispatch(token: Token, b: Dispatching, hooks: bool,
            effect: Option<AuthError>) returns (error: Option<AuthError>, ran: bool)
      modifies this
      ensures ran <==> Admit(old(State()), token, b).None?
      ensures error == if ran then effect else Admit(old(State()), token, b)
      ensures State() == AfterDispatch(old(State()), token, b, hooks)
    {
      if !token.valid || b.kind == "" || b.handle == "" {
        return Some(InvalidToken), false;
      }
      if token.kind != b.kind || token.binding != b.binding {
        return Some(InvalidToken), false;
      }
      var epoch := if token.nonce in revocations then revocations[token.nonce] else 0;
      if epoch != token.epoch {
        return Some(Revoked), false;
      }
      if token.nonce in dispatched {
        return Some(AlreadyDispatched), false;
      }
      var key := HandleKey(b.kind, b.handle);
      if key in handles {
        return Some(AlreadyDispatched), false;
      }
      dispatched := dispatched + {token.nonce};
      handles := handles + {key};
      if hooks {
        cancellations := cancellations + {token.nonce};
      }
      error, ran := effect, true;
    }

    method Revoke(nonce: string) returns (cancelled: bool)
      modifies this
      ensures cancelled <==> nonce != "" && nonce in old(State()).cancellations
      ensures State() == AfterRevoke(old(State()), nonce)
    {
      if nonce == "" {
        return false;
      }
      revocations := revocations[nonce := ((if nonce in revocations then revocations[nonce] else 0) + 1) % EPOCHS];
      cancelled := nonce in cancellations;
      cancellations := cancellations - {nonce};
    }
  }
}
