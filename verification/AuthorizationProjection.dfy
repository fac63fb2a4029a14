/** The authorization projector: what every state it reaches satisfies. */
module AuthorizationProjection {
  import opened Journals
  import opened Authority

  datatype CommandResult = CommandResult(version: nat, command: string, requestDigest: string, status: string,
      body: string)

  datatype Fact =
    | Requested(request: Request)
    | Decided(decision: Decision)
    | Consumed(consumption: Consumption, activity: string)
    | GrantRevoked(grant: string, epoch: nat, reason: string)
    | CommandAccepted(command: string, requestDigest: string, key: string)
    | CommandCompleted(command: string, requestDigest: string, status: string, result: Option<CommandResult>)
    | Unrelated

  datatype Record = Record(id: string, fact: Fact)

  datatype DecisionRecord = DecisionRecord(decision: Decision, event: string)

  datatype Grant = Grant(id: string, decision: Decision, revoked: bool, epoch: nat, reason: string)

  datatype Consuming = Consuming(nonce: string, event: string, bindings: Consumption)

  datatype Command = Command(journal: JournalRef, command: string, requestDigest: string, key: string, accepted: string,
      result: Option<CommandResult>, completed: string)

  datatype State = State(
    journal: JournalRef, requests: map<string, Request>,
    decisions: map<string, DecisionRecord>, grants: map<string, Grant>,
    consumed: map<string, Consuming>, commands: map<string, Command>, epoch: nat)

  const PROTOCOL_VERSION := 1

  function Zero(ref: JournalRef): State { State(ref, map[], map[], map[], map[], map[], 0) }

  function KindName(ref: JournalRef): string { if ref.Session? then "session" else "workspace_control" }

  function CommandKey(ref: JournalRef, command: string): string { KindName(ref) + "\0" + ref.id + "\0" + command }

  predicate IsSessionGrant(d: Decision) { d.action == "allow" && d.lifetime == "session" }

  /** The projector's own check of a consumption against the recorded decision. */
  predicate ConsumptionBinds(c: Consumption, activity: string, d: DecisionRecord, digest: string) {
    var request := d.decision.request;
    && c.decisionEvent == d.event && c.decisionDigest == digest && c.requestId == request.id
    && c.binding.call == request.binding.call && c.binding.plan == request.binding.plan
    && c.binding.request == request.binding.request
    && c.binding.dispatch == request.binding.dispatch && c.binding.generation == request.binding.generation
    && if request.session != "" then c.binding.activity == request.binding.activity && c.binding.control == ""
      && activity == request.binding.activity
       else c.binding.control == request.binding.control && c.binding.activity == ""
  }

  function ApplyRequested(s: State, request: Request): Option<State> {
    if request.id in s.requests then (if s.requests[request.id] == request then Some(s) else None)
    else Some(s.(requests := s.requests[request.id := request]))
  }

  function ApplyDecided(s: State, d: Decision, event: string): Option<State> {
    if d.request.id !in s.requests || s.requests[d.request.id] != d.request then None
    else if d.nonce in s.decisions then (if s.decisions[d.nonce] == DecisionRecord(d, event) then Some(s) else None)
    else Some(s.(decisions := s.decisions[d.nonce := DecisionRecord(d, event)],
                 grants := if IsSessionGrant(d) then s.grants[d.nonce := Grant(d.nonce, d, false, 0, "")]
                     else s.grants))
  }

  function ApplyConsumed(s: State, digest: Decision -> string, c: Consumption, activity: string,
          event: string): Option<State>
  {
    if c.nonce in s.consumed || c.nonce !in s.decisions || s.decisions[c.nonce].decision.action != "allow" then None
    else if !ConsumptionBinds(c, activity, s.decisions[c.nonce], digest(s.decisions[c.nonce].decision)) then None
    else Some(s.(consumed := s.consumed[c.nonce := Consuming(c.nonce, event, c)]))
  }

  function ApplyRevoked(s: State, grant: string, epoch: nat, reason: string): Option<State> {
    if grant !in s.grants || epoch <= s.epoch then None
    else Some(s.(grants := s.grants[grant := s.grants[grant].(revoked := true, epoch := epoch, reason := reason)],
        epoch := epoch))
  }

  function ApplyAccepted(s: State, command: string, requestDigest: string, key: string, event: string): Option<State> {
    var at := CommandKey(s.journal, command);
    if at in s.commands then
      (if s.commands[at].requestDigest == requestDigest && s.commands[at].key == key then Some(s) else None)
    else Some(s.(commands := s.commands[at := Command(s.journal, command, requestDigest, key, event, None, "")]))
  }

  function ApplyCompleted(s: State, command: string, requestDigest: string, status: string,
          result: Option<CommandResult>, event: string): Option<State>
  {
    var at := CommandKey(s.journal, command);
    if at !in s.commands || s.commands[at].requestDigest != requestDigest || result.None? then None
    else if result.value.version != PROTOCOL_VERSION || result.value.command != command
      || result.value.requestDigest != requestDigest || result.value.status != status then None
    else if s.commands[at].result.Some? then (if s.commands[at].result == result then Some(s) else None)
    else Some(s.(commands := s.commands[at := s.commands[at].(result := result, completed := event)]))
  }

  function Apply(s: State, digest: Decision -> string, e: Record): Option<State> {
    match e.fact
    case Requested(request) => ApplyRequested(s, request)
    case Decided(d) => ApplyDecided(s, d, e.id)
    case Consumed(c, activity) => ApplyConsumed(s, digest, c, activity, e.id)
    case GrantRevoked(grant, epoch, reason) => ApplyRevoked(s, grant, epoch, reason)
    case CommandAccepted(command, requestDigest, key) => ApplyAccepted(s, command, requestDigest, key, e.id)
    case CommandCompleted(command, requestDigest, status, result) =>
      ApplyCompleted(s, command, requestDigest, status, result, e.id)
    case Unrelated => Some(s)
  }

  /** All events of a journal, or nothing once one is refused. */
  function Project(ref: JournalRef, digest: Decision -> string, events: seq<Record>): Option<State> {
    if events == [] then Some(Zero(ref))
    else match Project(ref, digest, events[..|events| - 1])
      case None => None
      case Some(s) => Apply(s, digest, events[|events| - 1])
  }

  // ---- invariants of reachable states ----

  predicate RequestRecorded(requests: map<string, Request>, n: string, d: Decision) {
    d.nonce == n && d.request.id in requests && requests[d.request.id] == d.request
  }

  /** Each decision's request is the recorded one. */
  ghost predicate DecisionsOk(requests: map<string, Request>, decisions: map<string, DecisionRecord>) {
    && (forall id :: id in requests ==> requests[id].id == id)
    && (forall n :: n in decisions ==> RequestRecorded(requests, n, decisions[n].decision))
  }

  ghost predicate ConsumesAllow(n: string, c: Consuming, d: DecisionRecord, digest: Decision -> string) {
    && c.nonce == n == c.bindings.nonce && d.decision.action == "allow"
    && exists activity :: ConsumptionBinds(c.bindings, activity, d, digest(d.decision))
  }

  /** Consumed nonces are allow decisions, through equal bindings. */
  ghost predicate ConsumedOk(consumed: map<string, Consuming>, decisions: map<string, DecisionRecord>,
          digest: Decision -> string)
  {
    forall n :: n in consumed ==> n in decisions && ConsumesAllow(n, consumed[n], decisions[n], digest)
  }

  predicate GrantOf(n: string, g: Grant, d: DecisionRecord) {
    IsSessionGrant(d.decision) && g.id == n && g.decision == d.decision
  }

  /** Grants are exactly the allow decisions for a session. */
  ghost predicate GrantsOk(grants: map<string, Grant>, decisions: map<string, DecisionRecord>) {
    && (forall n :: n in grants ==> n in decisions && GrantOf(n, grants[n], decisions[n]))
    && (forall n :: n in decisions && IsSessionGrant(decisions[n].decision) ==> n in grants)
  }

  predicate RevokedAt(g: Grant, epoch: nat) { g.revoked && g.epoch == epoch }

  /** The epoch is the greatest over revoked grants, zero exactly when there is none. */
  ghost predicate EpochOk(grants: map<string, Grant>, epoch: nat) {
    && (forall n :: n in grants && grants[n].revoked ==> 0 < grants[n].epoch <= epoch)
    && (epoch > 0 ==> exists n :: n in grants && RevokedAt(grants[n], epoch))
  }

  /** A command sits under its own key, and its result is a result of it. */
  predicate CommandOk(ref: JournalRef, at: string, c: Command) {
    && at == CommandKey(ref, c.command) && c.journal == ref
    && (c.result.Some? ==> c.result.value.command == c.command && c.result.value.requestDigest == c.requestDigest)
  }

  ghost predicate CommandsOk(ref: JournalRef, commands: map<string, Command>) {
    forall at :: at in commands ==> CommandOk(ref, at, commands[at])
  }

  ghost predicate Inv(s: State, digest: Decision -> string) {
    && DecisionsOk(s.requests, s.decisions) && ConsumedOk(s.consumed, s.decisions, digest)
    && GrantsOk(s.grants, s.decisions) && EpochOk(s.grants, s.epoch) && CommandsOk(s.journal, s.commands)
  }

  ghost predicate Submap<V>(a: map<string, V>, b: map<string, V>) { forall k :: k in a ==> k in b && b[k] == a[k] }

  predicate SameCommand(a: Command, b: Command) {
    && b.requestDigest == a.requestDigest && b.key == a.key && b.accepted == a.accepted && b.command == a.command
    && (a.result.Some? ==> b == a)
  }

  ghost predicate KeepsCommands(a: map<string, Command>, b: map<string, Command>) {
    forall at :: at in a ==> at in b && SameCommand(a[at], b[at])
  }

  predicate SameGrant(a: Grant, b: Grant) {
    b.decision == a.decision && b.id == a.id && (a.revoked ==> b.revoked && a.epoch <= b.epoch)
  }

  ghost predicate KeepsGrants(a: map<string, Grant>, b: map<string, Grant>) {
    forall n :: n in a ==> n in b && SameGrant(a[n], b[n])
  }

  /** What was recorded before is recorded still; only an open command may gain a result,
      and a grant may be revoked, or revoked again later. */
  ghost predicate Preserves(before: State, after: State) {
    && Submap(before.requests, after.requests) && Submap(before.decisions, after.decisions)
    && Submap(before.consumed, after.consumed)
    && KeepsCommands(before.commands, after.commands) && KeepsGrants(before.grants, after.grants)
    && before.epoch <= after.epoch
  }

  ghost predicate StepOk(s: State, s': State, digest: Decision -> string) {
    Inv(s', digest) && Preserves(s, s') && s'.journal == s.journal
  }

  lemma AddRequest(requests: map<string, Request>, decisions: map<string, DecisionRecord>, request: Request)
    requires DecisionsOk(requests, decisions) && request.id !in requests
    ensures DecisionsOk(requests[request.id := request], decisions)
  {
  }

  lemma PreservesSelf(a: State)
    ensures Preserves(a, a)
  {
  }

  lemma RequestKeeps(s: State, digest: Decision -> string, request: Request)
    requires Inv(s, digest) && ApplyRequested(s, request).Some?
    ensures var s' := ApplyRequested(s, request).value; StepOk(s, s', digest)
  {
    PreservesSelf(s);
    if request.id !in s.requests { AddRequest(s.requests, s.decisions, request); }
  }

  lemma AcceptKeeps(s: State, digest: Decision -> string, command: string, requestDigest: string, key: string,
          event: string)
    requires Inv(s, digest) && ApplyAccepted(s, command, requestDigest, key, event).Some?
    ensures var s' := ApplyAccepted(s, command, requestDigest, key, event).value; StepOk(s, s', digest)
  {
    PreservesSelf(s);
  }

  lemma AddGrant(grants: map<string, Grant>, decisions: map<string, DecisionRecord>, epoch: nat, n: string,
          record: DecisionRecord)
    requires GrantsOk(grants, decisions) && EpochOk(grants, epoch) && n !in decisions && IsSessionGrant(record.decision)
    ensures var grants' := grants[n := Grant(n, record.decision, false, 0, "")];
      GrantsOk(grants', decisions[n := record]) && EpochOk(grants', epoch) && KeepsGrants(grants, grants')
  {
    var grants' := grants[n := Grant(n, record.decision, false, 0, "")];
    assert n !in grants;
    if epoch > 0 {
      var m :| m in grants && RevokedAt(grants[m], epoch);
      assert m in grants' && RevokedAt(grants'[m], epoch);
    }
  }

  lemma DecideKeeps(s: State, digest: Decision -> string, d: Decision, event: string)
    requires Inv(s, digest) && ApplyDecided(s, d, event).Some?
    ensures var s' := ApplyDecided(s, d, event).value; StepOk(s, s', digest)
  {
    if d.nonce !in s.decisions {
      var record := DecisionRecord(d, event);
      var decisions := s.decisions[d.nonce := record];
      assert d.nonce !in s.grants;
      assert DecisionsOk(s.requests, decisions);
      assert ConsumedOk(s.consumed, decisions, digest);
      if IsSessionGrant(d) {
        AddGrant(s.grants, s.decisions, s.epoch, d.nonce, record);
      } else {
        assert GrantsOk(s.grants, decisions);
      }
    }
    PreservesSelf(s);
  }

  lemma RevokeKeeps(s: State, digest: Decision -> string, grant: string, epoch: nat, reason: string)
    requires Inv(s, digest) && ApplyRevoked(s, grant, epoch, reason).Some?
    ensures var s' := ApplyRevoked(s, grant, epoch, reason).value; StepOk(s, s', digest)
  {
    var s' := ApplyRevoked(s, grant, epoch, reason).value;
    assert RevokedAt(s'.grants[grant], s'.epoch);
    assert EpochOk(s'.grants, s'.epoch);
    assert GrantOf(grant, s.grants[grant], s.decisions[grant]);
    assert GrantsOk(s'.grants, s'.decisions);
    PreservesSelf(s);
  }

  /** Keys of one journal's commands do not collide. */
  lemma CommandKeysDiffer(ref: JournalRef, a: string, b: string)
    requires CommandKey(ref, a) == CommandKey(ref, b)
    ensures a == b
  {
    var n := |KindName(ref)| + 1 + |ref.id| + 1;
    assert CommandKey(ref, a)[n..] == a && CommandKey(ref, b)[n..] == b;
  }

  lemma CompleteKeeps(s: State, digest: Decision -> string, command: string, requestDigest: string, status: string,
          result: Option<CommandResult>, event: string)
    requires Inv(s, digest) && ApplyCompleted(s, command, requestDigest, status, result, event).Some?
    ensures var s' := ApplyCompleted(s, command, requestDigest, status, result, event).value; StepOk(s, s', digest)
  {
    var at := CommandKey(s.journal, command);
    assert CommandOk(s.journal, at, s.commands[at]);
    CommandKeysDiffer(s.journal, command, s.commands[at].command);
    PreservesSelf(s);
  }

  lemma ConsumeKeeps(s: State, digest: Decision -> string, c: Consumption, activity: string, event: string)
    requires Inv(s, digest) && ApplyConsumed(s, digest, c, activity, event).Some?
    ensures StepOk(s, ApplyConsumed(s, digest, c, activity, event).value, digest)
  {
    PreservesSelf(s);
  }

  lemma ApplyKeeps(s: State, digest: Decision -> string, e: Record)
    requires Inv(s, digest) && Apply(s, digest, e).Some?
    ensures StepOk(s, Apply(s, digest, e).value, digest)
  {
    match e.fact
    case Requested(request) => RequestKeeps(s, digest, request);
    case Decided(d) => DecideKeeps(s, digest, d, e.id);
    case Consumed(c, activity) => ConsumeKeeps(s, digest, c, activity, e.id);
    case GrantRevoked(grant, epoch, reason) => RevokeKeeps(s, digest, grant, epoch, reason);
    case CommandAccepted(command, requestDigest, key) => AcceptKeeps(s, digest, command, requestDigest, key, e.id);
    case CommandCompleted(command, requestDigest, status, result) =>
      CompleteKeeps(s, digest, command, requestDigest, status, result, e.id);
    case Unrelated => PreservesSelf(s);
  }

  /** Every state a journal projects to satisfies all of it. */
  lemma {:induction false} ReachableInv(ref: JournalRef, digest: Decision -> string, events: seq<Record>)
    requires Project(ref, digest, events).Some?
    ensures Inv(Project(ref, digest, events).value, digest) && Project(ref, digest, events).value.journal == ref
  {
    if events == [] {
    } else {
      ReachableInv(ref, digest, events[..|events| - 1]);
      ApplyKeeps(Project(ref, digest, events[..|events| - 1]).value, digest, events[|events| - 1]);
    }
  }

  // ---- nothing recorded changes ----

  lemma PreservesTrans(a: State, b: State, c: State)
    requires Preserves(a, b) && Preserves(b, c)
    ensures Preserves(a, c)
  {
  }

  /** However a journal continues, recorded bindings and terminal results stay. */
  lemma {:induction false} RecordsAreFinal(ref: JournalRef, digest: Decision -> string, events: seq<Record>, k: nat)
    requires k <= |events| && Project(ref, digest, events).Some?
    ensures Project(ref, digest, events[..k]).Some?
    ensures Preserves(Project(ref, digest, events[..k]).value, Project(ref, digest, events).value)
  {
    if k == |events| {
      assert events[..k] == events;
      PreservesSelf(Project(ref, digest, events).value);
    } else {
      var n := |events| - 1;
      assert events[..n][..k] == events[..k];
      RecordsAreFinal(ref, digest, events[..n], k);
      ReachableInv(ref, digest, events[..n]);
      var before := Project(ref, digest, events[..n]).value;
      ApplyKeeps(before, digest, events[n]);
      PreservesTrans(Project(ref, digest, events[..k]).value, before, Project(ref, digest, events).value);
    }
  }

  /** Event `i` was applied to the state of what precedes it. */
  lemma StepAt(ref: JournalRef, digest: Decision -> string, events: seq<Record>, i: nat)
    requires i < |events| && Project(ref, digest, events).Some?
    ensures Project(ref, digest, events[..i]).Some? && Project(ref, digest, events[..i + 1]).Some?
    ensures Project(ref, digest, events[..i + 1]) == Apply(Project(ref, digest, events[..i]).value, digest, events[i])
  {
    RecordsAreFinal(ref, digest, events, i);
    RecordsAreFinal(ref, digest, events, i + 1);
    assert events[..i + 1][..i] == events[..i];
  }

  /** In an accepted journal a nonce is consumed by at most one event. */
  lemma ConsumedOnce(ref: JournalRef, digest: Decision -> string, events: seq<Record>, i: nat, j: nat)
    requires i < j < |events| && Project(ref, digest, events).Some?
    requires events[i].fact.Consumed? && events[j].fact.Consumed?
    ensures events[i].fact.consumption.nonce != events[j].fact.consumption.nonce
  {
    StepAt(ref, digest, events, i);
    StepAt(ref, digest, events, j);
    RecordsAreFinal(ref, digest, events, j);
    RecordsAreFinal(ref, digest, events[..j], i + 1);
    assert events[..j][..i + 1] == events[..i + 1];
  }

  /** The projector and the dispatching service read the same consumptions the same way:
      for a valid decision and consumption the projector's check is the service's, given the
      event's own activity; the one exception is a control request that names an activity
      as well, which the projector may record and the service never accepts. */
  lemma ChecksAgree(d: DecisionRecord, digest: string, c: Consumption, activity: string)
    requires d.decision.Valid() && c.Valid() && c.nonce == d.decision.nonce
    ensures var r := d.decision.request;
      ConsumptionBinds(c, activity, d, digest) && (r.session != "" || r.binding.activity == "")
      <==> MatchesConsumption(d.decision, digest, d.event, c) && (r.session != "" ==> activity == r.binding.activity)
  {
    var r := d.decision.request;
    assert (r.session == "") != (r.binding.control == "");
  }
}
