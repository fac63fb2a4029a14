/** What the authorization projector accepts and records, told by the journal alone: every
    table is pinned by the events that fill it. */
module AuthorizationHistory {
  import opened Journals
  import opened Authority
  import opened AuthorizationProjection

  // ---- looking back ----

  ghost predicate Asked(events: seq<Record>, r: Request) {
    exists k :: 0 <= k < |events| && events[k].fact == Requested(r)
  }

  ghost predicate Happened(events: seq<Record>, e: Record) { exists k :: 0 <= k < |events| && events[k] == e }

  /** The last revocation of a grant. */
  function LastRevocation(events: seq<Record>, grant: string): Option<Record> {
    if events == [] then None
    else
      var last := events[|events| - 1];
      if last.fact.GrantRevoked? && last.fact.grant == grant then Some(last)
      else LastRevocation(events[..|events| - 1], grant)
  }

  /** The first acceptance of a command, and the first completion. */
  function FirstAccepted(events: seq<Record>, command: string): Option<Record> {
    if events == [] then None
    else
      var last := events[|events| - 1];
      match FirstAccepted(events[..|events| - 1], command)
      case Some(e) => Some(e)
      case None => if last.fact.CommandAccepted? && last.fact.command == command then Some(last) else None
  }

  function FirstCompleted(events: seq<Record>, command: string): Option<Record> {
    if events == [] then None
    else
      var last := events[|events| - 1];
      match FirstCompleted(events[..|events| - 1], command)
      case Some(e) => Some(e)
      case None => if last.fact.CommandCompleted? && last.fact.command == command then Some(last) else None
  }

  lemma Snoc(events: seq<Record>, e: Record)
    ensures (events + [e])[..|events|] == events && (events + [e])[|events|] == e
    ensures forall r :: Asked(events + [e], r) <==> Asked(events, r) || e.fact == Requested(r)
    ensures forall x :: Happened(events + [e], x) <==> Happened(events, x) || x == e
    ensures forall g ::
      LastRevocation(events + [e], g) ==
      if e.fact.GrantRevoked? && e.fact.grant == g then Some(e) else LastRevocation(events, g)
    ensures forall c ::
      FirstAccepted(events + [e], c) ==
      if FirstAccepted(events, c).None? && e.fact.CommandAccepted? && e.fact.command == c then Some(e)
      else FirstAccepted(events, c)
    ensures forall c ::
      FirstCompleted(events + [e], c) ==
      if FirstCompleted(events, c).None? && e.fact.CommandCompleted? && e.fact.command == c then Some(e)
      else FirstCompleted(events, c)
  {
    var longer, n := events + [e], |events|;
    assert longer[..n] == events && longer[n] == e;
    forall r ensures Asked(longer, r) <==> Asked(events, r) || e.fact == Requested(r) {
      if k :| 0 <= k < n && events[k].fact == Requested(r) { assert longer[k].fact == Requested(r); }
      if k :| 0 <= k < |longer| && longer[k].fact == Requested(r) {
        if k < n { assert events[k].fact == Requested(r); }
      }
    }
    forall x ensures Happened(longer, x) <==> Happened(events, x) || x == e {
      if k :| 0 <= k < n && events[k] == x { assert longer[k] == x; }
      if k :| 0 <= k < |longer| && longer[k] == x {
        if k < n { assert events[k] == x; }
      }
    }
  }

  /** Commands of different journals never share a key, and keys have one form. */
  lemma KeysApart(ref: JournalRef, other: JournalRef, a: string, b: string)
    requires '\0' !in ref.id && '\0' !in other.id
    ensures CommandKey(ref, a) == CommandKey(other, b) ==> ref == other && a == b
    ensures CommandKey(ref, a) == (if ref.Session? then "session" else "workspace_control") + "\0" + ref.id + "\0" + a
  {
    if CommandKey(ref, a) == CommandKey(other, b) {
      assert CommandKey(ref, a)[0] == CommandKey(other, b)[0];
      assert ref.Session? == other.Session?;
      var n := |KindName(ref)| + 1;
      var rest, rest' := ref.id + "\0" + a, other.id + "\0" + b;
      assert CommandKey(ref, a)[n..] == rest && CommandKey(other, b)[n..] == rest';
      SameFront(ref.id, a, other.id, b);
    }
  }

  lemma SameFront(x: string, a: string, y: string, b: string)
    requires '\0' !in x && '\0' !in y && x + "\0" + a == y + "\0" + b
    ensures x == y && a == b
  {
    var s := x + "\0" + a;
    assert s[|x|] == '\0' && s[|y|] == '\0';
    assert forall i :: 0 <= i < |x| ==> s[i] in x;
    assert forall i :: 0 <= i < |y| ==> s[i] in y;
    assert s[..|x|] == x && s[..|y|] == y;
    assert s[|x| + 1..] == a && s[|y| + 1..] == b;
  }

  // ---- what each table holds ----

  ghost predicate RequestsTell(events: seq<Record>, requests: map<string, Request>) {
    && (forall r :: Asked(events, r) ==> r.id in requests && requests[r.id] == r)
    && (forall id :: id in requests ==> requests[id].id == id && Asked(events, requests[id]))
  }

  ghost predicate DecisionsTell(events: seq<Record>, decisions: map<string, DecisionRecord>) {
    && (forall d, id :: Happened(events, Record(id, Decided(d))) ==>
      d.nonce in decisions && decisions[d.nonce] == DecisionRecord(d, id))
    && (forall n :: n in decisions ==>
      decisions[n].decision.nonce == n && Happened(events, Record(decisions[n].event, Decided(decisions[n].decision))))
  }

  ghost predicate ConsumedTells(events: seq<Record>, consumed: map<string, Consuming>) {
    && (forall c, activity, id :: Happened(events, Record(id, Consumed(c, activity))) ==>
      c.nonce in consumed && consumed[c.nonce] == Consuming(c.nonce, id, c))
    && (forall n :: n in consumed ==>
      consumed[n].bindings.nonce == n
        && exists activity :: Happened(events, Record(consumed[n].event, Consumed(consumed[n].bindings, activity))))
  }

  /** A grant is an allow decision for a session, as its last revocation left it. */
  ghost predicate GrantTells(events: seq<Record>, g: Grant) {
    match LastRevocation(events, g.id)
    case None => !g.revoked && g.epoch == 0 && g.reason == ""
    case Some(e) => e.fact == GrantRevoked(g.id, g.epoch, g.reason) && g.revoked
  }

  ghost predicate GrantsTell(events: seq<Record>, grants: map<string, Grant>) {
    && (forall d, id :: Happened(events, Record(id, Decided(d))) && d.action == "allow" && d.lifetime == "session" ==>
      d.nonce in grants && grants[d.nonce].decision == d)
    && (forall n :: n in grants ==>
      && grants[n].id == n && GrantTells(events, grants[n])
      && var d := grants[n].decision;
        d.nonce == n && d.action == "allow" && d.lifetime == "session"
        && exists id :: Happened(events, Record(id, Decided(d))))
    && (forall g :: LastRevocation(events, g).Some? ==> g in grants)
  }

  ghost predicate EpochTells(events: seq<Record>, epoch: nat) {
    && (forall id, g, n: nat, reason :: Happened(events, Record(id, GrantRevoked(g, n, reason))) ==> 0 < n <= epoch)
    && (epoch > 0 ==> exists id, g, reason :: Happened(events, Record(id, GrantRevoked(g, epoch, reason))))
  }

  /** A command as it was first accepted, with the result it was first completed with. */
  ghost predicate CommandTells(ref: JournalRef, events: seq<Record>, commands: map<string, Command>, command: string) {
    var at := CommandKey(ref, command);
    match FirstAccepted(events, command)
    case None => at !in commands && FirstCompleted(events, command).None?
    case Some(e) =>
      && e.fact.CommandAccepted? && at in commands
      && var c := commands[at];
        && c.journal == ref && c.command == command && c.requestDigest == e.fact.requestDigest
        && c.key == e.fact.key && c.accepted == e.id
        && match FirstCompleted(events, command) {
          case None => c.result == None && c.completed == ""
          case Some(f) => f.fact.CommandCompleted? && f.fact.result.Some? && c.result == f.fact.result
            && c.completed == f.id
        }
  }

  ghost predicate CommandsTell(ref: JournalRef, events: seq<Record>, commands: map<string, Command>) {
    && (forall command :: CommandTells(ref, events, commands, command))
    && (forall at :: at in commands ==> exists command :: at == CommandKey(ref, command))
  }

  ghost predicate Reflects(ref: JournalRef, events: seq<Record>, s: State) {
    && s.journal == ref && RequestsTell(events, s.requests) && DecisionsTell(events, s.decisions)
    && ConsumedTells(events, s.consumed) && GrantsTell(events, s.grants) && EpochTells(events, s.epoch)
    && CommandsTell(ref, events, s.commands)
  }

  // ---- what may come next ----

  /** A request repeats only itself. */
  ghost predicate MayAsk(before: seq<Record>, r: Request) { forall q :: Asked(before, q) && q.id == r.id ==> q == r }

  /** A decision answers a request that was made, and a nonce repeats only itself. */
  ghost predicate MayDecide(before: seq<Record>, d: Decision, id: string) {
    && Asked(before, d.request)
    && forall d', id' :: Happened(before, Record(id', Decided(d'))) && d'.nonce == d.nonce ==> d' == d && id' == id
  }

  /** A consumption uses an allow decision that is recorded, through its bindings, and a
      nonce that was never used. */
  ghost predicate MayConsume(before: seq<Record>, digest: Decision -> string, c: Consumption, activity: string) {
    && (forall c', a, id :: Happened(before, Record(id, Consumed(c', a))) ==> c'.nonce != c.nonce)
    && exists d, id ::
      Happened(before, Record(id, Decided(d))) && d.nonce == c.nonce && d.action == "allow"
      && ConsumptionBinds(c, activity, DecisionRecord(d, id), digest(d))
  }

  /** A revocation names a grant and a later epoch than any before it. */
  ghost predicate MayRevoke(before: seq<Record>, grant: string, epoch: nat) {
    && epoch > 0
    && (forall id, g, n: nat, reason :: Happened(before, Record(id, GrantRevoked(g, n, reason))) ==> n < epoch)
    && exists d, id ::
      Happened(before, Record(id, Decided(d))) && d.nonce == grant && d.action == "allow"
      && d.lifetime == "session"
  }

  predicate MayAccept(before: seq<Record>, requestDigest: string, key: string, command: string) {
    match FirstAccepted(before, command)
    case None => true
    case Some(e) => e.fact.CommandAccepted? && e.fact.requestDigest == requestDigest && e.fact.key == key
  }

  /** A completion carries a result of an accepted command, and repeats only itself. */
  predicate MayComplete(before: seq<Record>, command: string, requestDigest: string, status: string,
          result: Option<CommandResult>)
  {
    && FirstAccepted(before, command).Some?
    && FirstAccepted(before, command).value.fact.CommandAccepted?
    && FirstAccepted(before, command).value.fact.requestDigest == requestDigest
    && result.Some? && result.value.version == 1 && result.value.command == command
    && result.value.requestDigest == requestDigest && result.value.status == status
    && match FirstCompleted(before, command) {
      case None => true
      case Some(f) => f.fact.CommandCompleted? && f.fact.result == result
    }
  }

  ghost predicate Lawful(before: seq<Record>, digest: Decision -> string, e: Record) {
    match e.fact
    case Requested(r) => MayAsk(before, r)
    case Decided(d) => MayDecide(before, d, e.id)
    case Consumed(c, activity) => MayConsume(before, digest, c, activity)
    case GrantRevoked(grant, epoch, _) => MayRevoke(before, grant, epoch)
    case CommandAccepted(command, requestDigest, key) => MayAccept(before, requestDigest, key, command)
    case CommandCompleted(command, requestDigest, status, result) =>
      MayComplete(before, command, requestDigest, status, result)
    case Unrelated => true
  }

  // ---- tables an event does not touch ----

  lemma RequestsSame(events: seq<Record>, e: Record, requests: map<string, Request>)
    requires RequestsTell(events, requests) && !e.fact.Requested?
    ensures RequestsTell(events + [e], requests)
  {
    Snoc(events, e);
  }

  lemma DecisionsSame(events: seq<Record>, e: Record, decisions: map<string, DecisionRecord>)
    requires DecisionsTell(events, decisions) && !e.fact.Decided?
    ensures DecisionsTell(events + [e], decisions)
  {
    Snoc(events, e);
  }

  lemma ConsumedSame(events: seq<Record>, e: Record, consumed: map<string, Consuming>)
    requires ConsumedTells(events, consumed) && !e.fact.Consumed?
    ensures ConsumedTells(events + [e], consumed)
  {
    Snoc(events, e);
    forall n | n in consumed
      ensures exists activity ::
        Happened(events + [e], Record(consumed[n].event, Consumed(consumed[n].bindings, activity)))
    {
      var activity :| Happened(events, Record(consumed[n].event, Consumed(consumed[n].bindings, activity)));
      assert Happened(events + [e], Record(consumed[n].event, Consumed(consumed[n].bindings, activity)));
    }
  }

  lemma GrantsSame(events: seq<Record>, e: Record, grants: map<string, Grant>)
    requires GrantsTell(events, grants) && !e.fact.GrantRevoked?
    requires e.fact.Decided? && e.fact.decision.action == "allow" && e.fact.decision.lifetime == "session" ==>
      e.fact.decision.nonce in grants && grants[e.fact.decision.nonce].decision == e.fact.decision
    ensures GrantsTell(events + [e], grants)
  {
    Snoc(events, e);
    forall n | n in grants ensures exists id :: Happened(events + [e], Record(id, Decided(grants[n].decision))) {
      var id :| Happened(events, Record(id, Decided(grants[n].decision)));
      assert Happened(events + [e], Record(id, Decided(grants[n].decision)));
    }
  }

  lemma EpochSame(events: seq<Record>, e: Record, epoch: nat)
    requires EpochTells(events, epoch) && !e.fact.GrantRevoked?
    ensures EpochTells(events + [e], epoch)
  {
    Snoc(events, e);
    if epoch > 0 {
      var id, g, reason :| Happened(events, Record(id, GrantRevoked(g, epoch, reason)));
      assert Happened(events + [e], Record(id, GrantRevoked(g, epoch, reason)));
    }
  }

  lemma CommandsSame(ref: JournalRef, events: seq<Record>, e: Record, commands: map<string, Command>)
    requires CommandsTell(ref, events, commands) && !e.fact.CommandAccepted? && !e.fact.CommandCompleted?
    ensures CommandsTell(ref, events + [e], commands)
  {
    Snoc(events, e);
    forall command ensures CommandTells(ref, events + [e], commands, command) {
      assert CommandTells(ref, events, commands, command);
    }
  }

  // ---- one event ----

  lemma AskReflects(ref: JournalRef, events: seq<Record>, digest: Decision -> string, s: State, e: Record)
    requires Reflects(ref, events, s) && e.fact.Requested?
    ensures Apply(s, digest, e).Some? <==> Lawful(events, digest, e)
    ensures Apply(s, digest, e).Some? ==> Reflects(ref, events + [e], Apply(s, digest, e).value)
  {
    Snoc(events, e);
    var r := e.fact.request;
    if r.id in s.requests {
      assert Asked(events, s.requests[r.id]);
    }
    DecisionsSame(events, e, s.decisions);
    ConsumedSame(events, e, s.consumed);
    GrantsSame(events, e, s.grants);
    EpochSame(events, e, s.epoch);
    CommandsSame(ref, events, e, s.commands);
  }

  lemma DecideTables(events: seq<Record>, s: State, e: Record)
    requires DecisionsTell(events, s.decisions) && GrantsTell(events, s.grants) && e.fact.Decided?
    requires ApplyDecided(s, e.fact.decision, e.id).Some?
    ensures var t := ApplyDecided(s, e.fact.decision, e.id).value;
      DecisionsTell(events + [e], t.decisions) && GrantsTell(events + [e], t.grants)
  {
    Snoc(events, e);
    var d := e.fact.decision;
    var t := ApplyDecided(s, d, e.id).value;
    if d.nonce in s.decisions {
      GrantsSame(events, e, s.grants);
    } else {
      forall n | n in s.decisions ensures n != d.nonce { }
      forall d', id | Happened(events, Record(id, Decided(d'))) ensures d'.nonce != d.nonce { }
      assert d.nonce !in s.grants;
      if d.action == "allow" && d.lifetime == "session" {
        NewGrant(events, e, s.grants);
      } else {
        GrantsSame(events, e, s.grants);
      }
    }
  }

  lemma NewGrant(events: seq<Record>, e: Record, grants: map<string, Grant>)
    requires GrantsTell(events, grants) && e.fact.Decided? && e.fact.decision.nonce !in grants
    requires e.fact.decision.action == "allow" && e.fact.decision.lifetime == "session"
    ensures var d := e.fact.decision; GrantsTell(events + [e], grants[d.nonce := Grant(d.nonce, d, false, 0, "")])
  {
    Snoc(events, e);
    var d := e.fact.decision;
    var grants' := grants[d.nonce := Grant(d.nonce, d, false, 0, "")];
    assert LastRevocation(events, d.nonce).None?;
    assert Happened(events + [e], Record(e.id, Decided(d)));
    forall n | n in grants' ensures exists id :: Happened(events + [e], Record(id, Decided(grants'[n].decision))) {
      if n in grants {
        var id :| Happened(events, Record(id, Decided(grants[n].decision)));
        assert Happened(events + [e], Record(id, Decided(grants'[n].decision)));
      }
    }
  }

  lemma DecideIff(events: seq<Record>, s: State, e: Record)
    requires RequestsTell(events, s.requests) && DecisionsTell(events, s.decisions) && e.fact.Decided?
    ensures ApplyDecided(s, e.fact.decision, e.id).Some? <==> MayDecide(events, e.fact.decision, e.id)
  {
    var d := e.fact.decision;
    if d.request.id in s.requests { assert Asked(events, s.requests[d.request.id]); }
    if d.nonce in s.decisions {
      assert Happened(events, Record(s.decisions[d.nonce].event, Decided(s.decisions[d.nonce].decision)));
    }
  }

  lemma DecideReflects(ref: JournalRef, events: seq<Record>, digest: Decision -> string, s: State, e: Record)
    requires Reflects(ref, events, s) && e.fact.Decided?
    ensures Apply(s, digest, e).Some? <==> Lawful(events, digest, e)
    ensures Apply(s, digest, e).Some? ==> Reflects(ref, events + [e], Apply(s, digest, e).value)
  {
    DecideIff(events, s, e);
    if Apply(s, digest, e).Some? {
      DecideTables(events, s, e);
      RequestsSame(events, e, s.requests);
      ConsumedSame(events, e, s.consumed);
      EpochSame(events, e, s.epoch);
      CommandsSame(ref, events, e, s.commands);
    }
  }

  lemma ConsumeIff(events: seq<Record>, digest: Decision -> string, s: State, e: Record)
    requires DecisionsTell(events, s.decisions) && ConsumedTells(events, s.consumed) && e.fact.Consumed?
    ensures ApplyConsumed(s, digest, e.fact.consumption, e.fact.activity, e.id).Some? <==>
      MayConsume(events, digest, e.fact.consumption, e.fact.activity)
  {
    var c, activity := e.fact.consumption, e.fact.activity;
    if c.nonce in s.consumed {
      var a :| Happened(events, Record(s.consumed[c.nonce].event, Consumed(s.consumed[c.nonce].bindings, a)));
    }
    if c.nonce in s.decisions {
      var d := s.decisions[c.nonce];
      assert Happened(events, Record(d.event, Decided(d.decision)));
      assert d == DecisionRecord(d.decision, d.event);
    }
  }

  lemma ConsumeReflects(ref: JournalRef, events: seq<Record>, digest: Decision -> string, s: State, e: Record)
    requires Reflects(ref, events, s) && e.fact.Consumed?
    ensures Apply(s, digest, e).Some? <==> Lawful(events, digest, e)
    ensures Apply(s, digest, e).Some? ==> Reflects(ref, events + [e], Apply(s, digest, e).value)
  {
    ConsumeIff(events, digest, s, e);
    if Apply(s, digest, e).Some? {
      ConsumedMore(events, e, s.consumed);
      RequestsSame(events, e, s.requests);
      DecisionsSame(events, e, s.decisions);
      GrantsSame(events, e, s.grants);
      EpochSame(events, e, s.epoch);
      CommandsSame(ref, events, e, s.commands);
    }
  }

  lemma ConsumedMore(events: seq<Record>, e: Record, consumed: map<string, Consuming>)
    requires ConsumedTells(events, consumed) && e.fact.Consumed? && e.fact.consumption.nonce !in consumed
    ensures var c := e.fact.consumption;
      ConsumedTells(events + [e], consumed[c.nonce := Consuming(c.nonce, e.id, c)])
  {
    Snoc(events, e);
    var c := e.fact.consumption;
    var consumed' := consumed[c.nonce := Consuming(c.nonce, e.id, c)];
    assert Happened(events + [e], Record(e.id, Consumed(c, e.fact.activity)));
    forall n | n in consumed'
      ensures exists activity ::
        Happened(events + [e], Record(consumed'[n].event, Consumed(consumed'[n].bindings, activity)))
    {
      if n != c.nonce {
        var activity :| Happened(events, Record(consumed[n].event, Consumed(consumed[n].bindings, activity)));
        assert Happened(events + [e], Record(consumed'[n].event, Consumed(consumed'[n].bindings, activity)));
      }
    }
  }

  lemma RevokeIff(events: seq<Record>, s: State, e: Record)
    requires GrantsTell(events, s.grants) && EpochTells(events, s.epoch) && e.fact.GrantRevoked?
    ensures ApplyRevoked(s, e.fact.grant, e.fact.epoch, e.fact.reason).Some? <==>
      MayRevoke(events, e.fact.grant, e.fact.epoch)
  {
    var grant := e.fact.grant;
    if grant in s.grants {
      var d := s.grants[grant].decision;
      var id :| Happened(events, Record(id, Decided(d)));
    }
    if s.epoch > 0 {
      var id, g, reason :| Happened(events, Record(id, GrantRevoked(g, s.epoch, reason)));
    }
  }

  lemma RevokedGrants(events: seq<Record>, e: Record, grants: map<string, Grant>)
    requires GrantsTell(events, grants) && e.fact.GrantRevoked? && e.fact.grant in grants
    ensures var g := grants[e.fact.grant].(revoked := true, epoch := e.fact.epoch, reason := e.fact.reason);
      GrantsTell(events + [e], grants[e.fact.grant := g])
  {
    Snoc(events, e);
    var f := e.fact;
    var grants' := grants[f.grant := grants[f.grant].(revoked := true, epoch := f.epoch, reason := f.reason)];
    forall n | n in grants' ensures exists id :: Happened(events + [e], Record(id, Decided(grants'[n].decision))) {
      var id :| Happened(events, Record(id, Decided(grants[n].decision)));
      assert Happened(events + [e], Record(id, Decided(grants'[n].decision)));
    }
    forall n | n in grants' ensures grants'[n].id == n && GrantTells(events + [e], grants'[n]) {
      assert grants[n].id == n && GrantTells(events, grants[n]);
    }
  }

  lemma RevokedEpoch(events: seq<Record>, e: Record, epoch: nat)
    requires EpochTells(events, epoch) && e.fact.GrantRevoked? && epoch < e.fact.epoch
    ensures EpochTells(events + [e], e.fact.epoch)
  {
    Snoc(events, e);
    assert Happened(events + [e], Record(e.id, GrantRevoked(e.fact.grant, e.fact.epoch, e.fact.reason)));
  }

  lemma RevokeReflects(ref: JournalRef, events: seq<Record>, digest: Decision -> string, s: State, e: Record)
    requires Reflects(ref, events, s) && e.fact.GrantRevoked?
    ensures Apply(s, digest, e).Some? <==> Lawful(events, digest, e)
    ensures Apply(s, digest, e).Some? ==> Reflects(ref, events + [e], Apply(s, digest, e).value)
  {
    RevokeIff(events, s, e);
    if Apply(s, digest, e).Some? {
      RevokedGrants(events, e, s.grants);
      RevokedEpoch(events, e, s.epoch);
      RequestsSame(events, e, s.requests);
      DecisionsSame(events, e, s.decisions);
      ConsumedSame(events, e, s.consumed);
      CommandsSame(ref, events, e, s.commands);
    }
  }

  /** An event about one command leaves the others alone. */
  lemma OtherCommand(ref: JournalRef, events: seq<Record>, e: Record, commands: map<string, Command>, c: Command,
          about: string, command: string)
    requires CommandTells(ref, events, commands, command) && command != about
    requires e.fact.CommandAccepted? || e.fact.CommandCompleted?
    requires e.fact.CommandAccepted? ==> e.fact.command == about
    requires e.fact.CommandCompleted? ==> e.fact.command == about
    ensures CommandTells(ref, events + [e], commands[CommandKey(ref, about) := c], command)
  {
    Snoc(events, e);
    if CommandKey(ref, about) == CommandKey(ref, command) { CommandKeysDiffer(ref, about, command); }
  }

  lemma AcceptReflects(ref: JournalRef, events: seq<Record>, digest: Decision -> string, s: State, e: Record)
    requires Reflects(ref, events, s) && e.fact.CommandAccepted?
    ensures Apply(s, digest, e).Some? <==> Lawful(events, digest, e)
    ensures Apply(s, digest, e).Some? ==> Reflects(ref, events + [e], Apply(s, digest, e).value)
  {
    assert CommandTells(ref, events, s.commands, e.fact.command);
    if Apply(s, digest, e).Some? {
      AcceptedTable(ref, events, s, e);
      RequestsSame(events, e, s.requests);
      DecisionsSame(events, e, s.decisions);
      ConsumedSame(events, e, s.consumed);
      GrantsSame(events, e, s.grants);
      EpochSame(events, e, s.epoch);
    }
  }

  lemma AcceptedTable(ref: JournalRef, events: seq<Record>, s: State, e: Record)
    requires CommandsTell(ref, events, s.commands) && s.journal == ref && e.fact.CommandAccepted?
    requires ApplyAccepted(s, e.fact.command, e.fact.requestDigest, e.fact.key, e.id).Some?
    ensures CommandsTell(ref, events + [e],
        ApplyAccepted(s, e.fact.command, e.fact.requestDigest, e.fact.key, e.id).value.commands)
  {
    Snoc(events, e);
    var about := e.fact.command;
    var at := CommandKey(ref, about);
    var t := ApplyAccepted(s, about, e.fact.requestDigest, e.fact.key, e.id).value;
    assert CommandTells(ref, events, s.commands, about);
    assert t.commands == s.commands[at := t.commands[at]];
    forall command ensures CommandTells(ref, events + [e], t.commands, command) {
      assert CommandTells(ref, events, s.commands, command);
      if command != about { OtherCommand(ref, events, e, s.commands, t.commands[at], about, command); }
    }
  }

  lemma CompleteReflects(ref: JournalRef, events: seq<Record>, digest: Decision -> string, s: State, e: Record)
    requires Reflects(ref, events, s) && e.fact.CommandCompleted?
    ensures Apply(s, digest, e).Some? <==> Lawful(events, digest, e)
    ensures Apply(s, digest, e).Some? ==> Reflects(ref, events + [e], Apply(s, digest, e).value)
  {
    assert CommandTells(ref, events, s.commands, e.fact.command);
    if Apply(s, digest, e).Some? {
      CompletedTable(ref, events, s, e);
      RequestsSame(events, e, s.requests);
      DecisionsSame(events, e, s.decisions);
      ConsumedSame(events, e, s.consumed);
      GrantsSame(events, e, s.grants);
      EpochSame(events, e, s.epoch);
    }
  }

  lemma CompletedTable(ref: JournalRef, events: seq<Record>, s: State, e: Record)
    requires CommandsTell(ref, events, s.commands) && s.journal == ref && e.fact.CommandCompleted?
    requires ApplyCompleted(s, e.fact.command, e.fact.requestDigest, e.fact.status, e.fact.result, e.id).Some?
    ensures CommandsTell(ref, events + [e],
        ApplyCompleted(s, e.fact.command, e.fact.requestDigest, e.fact.status, e.fact.result, e.id).value.commands)
  {
    Snoc(events, e);
    var about := e.fact.command;
    var at := CommandKey(ref, about);
    var t := ApplyCompleted(s, about, e.fact.requestDigest, e.fact.status, e.fact.result, e.id).value;
    assert CommandTells(ref, events, s.commands, about);
    assert t.commands == s.commands[at := t.commands[at]];
    forall command ensures CommandTells(ref, events + [e], t.commands, command) {
      assert CommandTells(ref, events, s.commands, command);
      if command != about { OtherCommand(ref, events, e, s.commands, t.commands[at], about, command); }
    }
  }

  lemma StepReflects(ref: JournalRef, events: seq<Record>, digest: Decision -> string, s: State, e: Record)
    requires Reflects(ref, events, s)
    ensures Apply(s, digest, e).Some? <==> Lawful(events, digest, e)
    ensures Apply(s, digest, e).Some? ==> Reflects(ref, events + [e], Apply(s, digest, e).value)
  {
    match e.fact
    case Requested(_) => AskReflects(ref, events, digest, s, e);
    case Decided(_) => DecideReflects(ref, events, digest, s, e);
    case Consumed(_, _) => ConsumeReflects(ref, events, digest, s, e);
    case GrantRevoked(_, _, _) => RevokeReflects(ref, events, digest, s, e);
    case CommandAccepted(_, _, _) => AcceptReflects(ref, events, digest, s, e);
    case CommandCompleted(_, _, _, _) => CompleteReflects(ref, events, digest, s, e);
    case Unrelated =>
      RequestsSame(events, e, s.requests);
      DecisionsSame(events, e, s.decisions);
      ConsumedSame(events, e, s.consumed);
      GrantsSame(events, e, s.grants);
      EpochSame(events, e, s.epoch);
      CommandsSame(ref, events, e, s.commands);
  }

  // ---- whole journals ----

  ghost predicate AllLawful(events: seq<Record>, digest: Decision -> string) {
    forall k :: 0 <= k < |events| ==> Lawful(events[..k], digest, events[k])
  }

  lemma LawfulSnoc(events: seq<Record>, digest: Decision -> string, e: Record)
    ensures AllLawful(events + [e], digest) <==> AllLawful(events, digest) && Lawful(events, digest, e)
  {
    var longer, n := events + [e], |events|;
    assert longer[..n] == events && longer[n] == e;
    assert forall k :: 0 <= k < n ==> longer[..k] == events[..k] && longer[k] == events[k];
    if AllLawful(longer, digest) {
      assert Lawful(longer[..n], digest, longer[n]);
      forall k | 0 <= k < n ensures Lawful(events[..k], digest, events[k]) {
        assert Lawful(longer[..k], digest, longer[k]);
      }
    }
  }

  /** A journal is accepted exactly if every event is in order after those before it, and
      then each table holds what the events say and nothing else. */
  lemma {:induction false} AcceptedIff(ref: JournalRef, digest: Decision -> string, events: seq<Record>)
    ensures Project(ref, digest, events).Some? <==> AllLawful(events, digest)
    ensures Project(ref, digest, events).Some? ==> Reflects(ref, events, Project(ref, digest, events).value)
  {
    if events == [] {
    } else {
      var n := |events| - 1;
      var front, e := events[..n], events[n];
      assert events == front + [e];
      AcceptedIff(ref, digest, front);
      LawfulSnoc(front, digest, e);
      if Project(ref, digest, front).Some? { StepReflects(ref, front, digest, Project(ref, digest, front).value, e); }
    }
  }

  /** An accepted completion leaves its result and its event in the command's record. */
  lemma CompletionIsRecorded(ref: JournalRef, digest: Decision -> string, events: seq<Record>, e: Record)
    requires e.fact.CommandCompleted? && Project(ref, digest, events + [e]).Some?
    ensures var s := Project(ref, digest, events + [e]).value; var at := CommandKey(ref, e.fact.command);
      && at in s.commands && s.commands[at].result == e.fact.result
      && (FirstCompleted(events, e.fact.command).None? ==> s.commands[at].completed == e.id)
  {
    AcceptedIff(ref, digest, events + [e]);
    Snoc(events, e);
    LawfulSnoc(events, digest, e);
    assert CommandTells(ref, events + [e], Project(ref, digest, events + [e]).value.commands, e.fact.command);
  }
}
