/** Recovery: what it reads from an interrupted journal and the batch that closes it. */
module Recovery {
  import opened Journals
  import opened ActivityProjection
  import opened CanonicalJson
  import Commits

  datatype PlanKind = ProviderPlan | PreviewPlan | ToolPlan | OtherPlan

  /** The task and turn a child session was given. */
  datatype Manifest = Manifest(task: string, turn: string)

  datatype View = View(
    task: string, turn: string, command: string, digest: string, manifest: Option<Manifest>,
    started: set<string>, kinds: map<string, PlanKind>, calls: map<string, string>,
    visible: map<string, string>, noEffect: set<string>)

  const BLANK := View("", "", "", "", None, {}, map[], map[], map[], {})

  function KindOfPlan(kind: string, purpose: string): PlanKind {
    if kind == "provider" then ProviderPlan
    else if kind == "tool" && purpose == "tool preview" then PreviewPlan
    else if kind == "tool" then ToolPlan
    else OtherPlan
  }

  function CallOf(v: View, activity: string): string { if activity in v.calls then v.calls[activity] else "" }

  function See(v: View, journal: string, e: Event): Option<View> {
    match e.fact
    case CommandAccepted(command, digest) => Some(v.(command := command, digest := digest))
    case TaskCreated => Some(v.(task := e.task))
    case TurnAccepted => Some(v.(turn := e.turn, task := e.task))
    case TurnEnded => Some(if e.turn == v.turn then v.(turn := "") else v)
    case ManifestFor(child, task, turn) =>
      Some(if child == journal then v.(manifest := Some(Manifest(task, turn))) else v)
    case ActivityPlanned(_, kind, purpose, call, _) =>
      if e.activity == "" || kind == "" then None
      else
        var plan := KindOfPlan(kind, purpose);
        Some(v.(kinds := v.kinds[e.activity := plan],
                calls := if plan == ToolPlan && call.Some? then v.calls[e.activity := call.value] else v.calls))
    case ActivityStarted(named, call, _) =>
      if e.activity == "" || named != e.activity || call == "" || e.activity !in v.kinds then None
      else if v.kinds[e.activity] == ToolPlan && CallOf(v, e.activity) != call then None
      else Some(v.(started := v.started + {e.activity},
                   visible := if v.kinds[e.activity] == ToolPlan then v.visible[e.activity := call] else v.visible))
    case ActivityEnded(to, _, _) =>
      Some(v.(started := v.started - {e.activity}, visible := v.visible - {e.activity},
              noEffect := if to == InterruptedNoEffect then v.noEffect + {e.activity} else v.noEffect))
    case _ => Some(v)
  }

  function Inspected(journal: string, events: seq<Event>): Option<View> {
    if events == [] then Some(BLANK)
    else match Inspected(journal, events[..|events| - 1])
      case None => None
      case Some(v) => See(v, journal, events[|events| - 1])
  }

  lemma {:induction false} InspectFailSticks(journal: string, events: seq<Event>, k: nat)
    requires k <= |events| && Inspected(journal, events[..k]).None?
    ensures Inspected(journal, events).None?
  {
    if k < |events| {
      assert events[..|events| - 1][..k] == events[..k];
      InspectFailSticks(journal, events[..|events| - 1], k);
    } else {
      assert events[..k] == events;
    }
  }

  ghost predicate Lists(listed: seq<string>, started: set<string>) {
    (forall i, j :: 0 <= i < j < |listed| ==> listed[i] != listed[j]) && (forall id :: id in listed <==> id in started)
  }

  lemma AscendingLists(listed: seq<string>, started: set<string>)
    requires Ascending(listed) && forall id :: id in listed <==> id in started
    ensures Lists(listed, started)
  {
    forall i, j | 0 <= i < j < |listed| ensures listed[i] != listed[j] { LessIrreflexive(listed[i]); }
  }

  /** The started activities in sorted order. */
  method SortStarted(started: set<string>) returns (listed: seq<string>)
    ensures Ascending(listed) && forall id :: id in listed <==> id in started
  {
    listed := [];
    var left := started;
    while left != {}
      invariant left <= started && Ascending(listed)
      invariant forall id :: id in listed <==> id in started - left
      decreases left
    {
      var id :| id in left;
      InsertAscends(listed, id);
      InsertMembers(listed, id);
      listed := Insert(listed, id);
      left := left - {id};
    }
  }

  /** The loop over the events, once the journal is seen to stand where the caller expects it. */
  method InspectRecovery(journal: string, head: Cursor, expected: Cursor, events: seq<Event>)
    returns (view: Option<View>, listed: seq<string>)
    ensures view == if head == expected then Inspected(journal, events) else None
    ensures view.Some? ==> Ascending(listed) && Lists(listed, view.value.started)
  {
    if head != expected {
      return None, [];
    }
    var v := BLANK;
    for k := 0 to |events|
      invariant Inspected(journal, events[..k]) == Some(v)
    {
      assert events[..k + 1][..k] == events[..k];
      var next := See(v, journal, events[k]);
      if next.None? {
        InspectFailSticks(journal, events, k + 1);
        return None, [];
      }
      v := next.value;
    }
    assert events[..|events|] == events;
    listed := SortStarted(v.started);
    AscendingLists(listed, v.started);
    view := Some(v);
  }

  // ---- the two readings of one journal ----

  /** Recovery sees as started, planned and interrupted what the activity projector does. */
  ghost predicate Agree(v: View, p: Projection) {
    && (forall id :: id in v.started <==> id in p.activities && p.activities[id].status == Started)
    && (forall id :: id in v.kinds <==> id in p.activities)
    && (forall id :: id in v.noEffect ==> id in p.activities && p.activities[id].status == InterruptedNoEffect)
    && (forall id :: id in v.visible <==> id in v.started && v.kinds[id] == ToolPlan)
    && (forall id :: id in v.visible ==> v.visible[id] != "")
  }

  /** Only one activity's status moved. */
  ghost predicate Moved(p: Projection, p': Projection, id: string, status: Status) {
    && id in p.activities
    && (forall x :: x in p'.activities <==> x in p.activities)
    && (forall x :: x in p.activities ==> p'.activities[x].status == if x == id then status else p.activities[x].status)
  }

  lemma RevisionMoves(p: Projection, e: Event)
    requires Inv(p) && Revised(p, e).Some?
    ensures Moved(p, Transition(p, Revised(p, e).value), e.activity, Revised(p, e).value.status)
    ensures Allowed(p.activities[e.activity].status, Revised(p, e).value.status)
  {
    var p' := Transition(p, Revised(p, e).value);
    RevisedIsRevision(p, e);
    forall id | id in p.activities
      ensures id in p'.activities && p'.activities[id].status == if id == e.activity then Revised(p, e).value.status
          else p.activities[id].status {
      ReviseFollows(p, e, id);
    }
  }

  lemma StartAgrees(v: View, p: Projection, p': Projection, journal: string, e: Event)
    requires Agree(v, p) && e.fact.ActivityStarted? && See(v, journal, e).Some?
    requires Moved(p, p', e.activity, Started) && Allowed(p.activities[e.activity].status, Started)
    ensures Agree(See(v, journal, e).value, p')
  {
  }

  lemma EndAgrees(v: View, p: Projection, p': Projection, journal: string, e: Event)
    requires Agree(v, p) && e.fact.ActivityEnded? && Terminal(e.fact.to)
    requires Moved(p, p', e.activity, e.fact.to) && Allowed(p.activities[e.activity].status, e.fact.to)
    ensures Agree(See(v, journal, e).value, p')
  {
  }

  lemma ReviseAgrees(v: View, p: Projection, journal: string, e: Event)
    requires Inv(p) && Agree(v, p) && See(v, journal, e).Some? && Revised(p, e).Some?
    ensures Agree(See(v, journal, e).value, Transition(p, Revised(p, e).value))
  {
    var p' := Transition(p, Revised(p, e).value);
    RevisionMoves(p, e);
    match e.fact
    case ActivityAuthorized(_) =>
    case ActivityStarted(_, _, _) => StartAgrees(v, p, p', journal, e);
    case ActivityEnded(_, _, _) => EndAgrees(v, p, p', journal, e);
  }

  lemma LinkAgrees(v: View, p: Projection, id: string, relation: Relation, evidence: string)
    requires Agree(v, p) && Link(p, id, relation, evidence).Some?
    ensures Agree(v, Link(p, id, relation, evidence).value)
  {
  }

  predicate Neutral(f: Fact) {
    !f.ActivityPlanned? && !f.ActivityAuthorized? && !f.ActivityStarted? && !f.ActivityEnded? && !f.EvidenceLinked?
  }

  lemma NeutralSeen(v: View, journal: string, e: Event)
    requires Neutral(e.fact)
    ensures See(v, journal, e).Some?
    ensures var w := See(v, journal, e).value;
      w.started == v.started && w.kinds == v.kinds && w.visible == v.visible && w.noEffect == v.noEffect
  {
  }

  lemma NeutralApplied(p: Projection, e: Event)
    requires Neutral(e.fact)
    ensures Apply(p, e) == Some(p)
  {
  }

  lemma NeutralAgrees(v: View, p: Projection, journal: string, e: Event)
    requires Agree(v, p) && Neutral(e.fact)
    ensures See(v, journal, e).Some? && Apply(p, e) == Some(p) && Agree(See(v, journal, e).value, p)
  {
    NeutralSeen(v, journal, e);
    NeutralApplied(p, e);
  }

  lemma PlannedAgrees(v: View, p: Projection, journal: string, e: Event)
    requires Inv(p) && Agree(v, p) && e.fact.ActivityPlanned? && See(v, journal, e).Some? && Apply(p, e).Some?
    ensures Agree(See(v, journal, e).value, Apply(p, e).value)
  {
    var f := e.fact;
    var a := Activity(e.activity, f.parent, f.kind, f.purpose, Planned, f.inputs, [], None, []);
    assert e.activity !in p.activities;
    forall id | id in p.activities
      ensures Apply(p, e).value.activities[id].status == p.activities[id].status
    {
      UpdateShape(p.activities[a.id := a], a, id);
    }
    UpdateShape(p.activities[a.id := a], a, a.id);
  }

  lemma RevisedAgrees(v: View, p: Projection, journal: string, e: Event)
    requires Inv(p) && Agree(v, p) && See(v, journal, e).Some? && Apply(p, e).Some?
    requires e.fact.ActivityAuthorized? || e.fact.ActivityStarted? || e.fact.ActivityEnded?
    ensures Agree(See(v, journal, e).value, Apply(p, e).value)
  {
    ReviseAgrees(v, p, journal, e);
  }

  lemma StepAgrees(v: View, p: Projection, journal: string, e: Event)
    requires Inv(p) && Agree(v, p) && See(v, journal, e).Some? && Apply(p, e).Some?
    ensures Agree(See(v, journal, e).value, Apply(p, e).value)
  {
    if e.fact.ActivityPlanned? {
      PlannedAgrees(v, p, journal, e);
    } else if e.fact.EvidenceLinked? {
      LinkAgrees(v, p, e.activity, e.fact.relation, e.fact.evidence);
    } else if Neutral(e.fact) {
      NeutralAgrees(v, p, journal, e);
    } else {
      RevisedAgrees(v, p, journal, e);
    }
  }

  /** On a journal both accept, recovery reports exactly the activities the projector
      holds in started. */
  lemma {:induction false} ReadingsAgree(journal: string, events: seq<Event>)
    requires Inspected(journal, events).Some? && Project(events).Some?
    ensures Agree(Inspected(journal, events).value, Project(events).value)
  {
    if events == [] {
    } else {
      var n := |events| - 1;
      ReadingsAgree(journal, events[..n]);
      IndexIsExact(events[..n]);
      StepAgrees(Inspected(journal, events[..n]).value, Project(events[..n]).value, journal, events[n]);
    }
  }

  // ---- the closing batch ----

  datatype Proposed = Proposed(ordinal: nat, event: Event)

  datatype Closing = Closing(events: seq<Proposed>, finalSeq: nat, receiptSeq: nat)

  function OutcomeOf(id: string, probe: string -> bool): Status { if probe(id) then InterruptedNoEffect else Uncertain }

  function About(v: View, activity: string, fact: Fact): Event { Event(activity, v.task, v.turn, fact) }

  function CloseOne(v: View, id: string, probe: string -> bool): seq<Event> {
    (if id in v.visible then [About(v, id, ToolMessage(v.visible[id], OutcomeOf(id, probe)))] else [])
    + [About(v, id, ActivityEnded(OutcomeOf(id, probe), OutcomeOf(id, probe), []))]
  }

  function CloseAll(v: View, listed: seq<string>, probe: string -> bool): seq<Event> {
    if listed == [] then []
    else CloseAll(v, listed[..|listed| - 1], probe) + CloseOne(v, listed[|listed| - 1], probe)
  }

  /** `cancelled` only if every started activity is known to have had no effect. */
  function ReceiptStatus(v: View, listed: seq<string>): string {
    if forall k :: 0 <= k < |listed| ==> listed[k] in v.noEffect then "cancelled" else "uncertain"
  }

  /** The receipt of a child session belongs to the task and turn of its manifest. */
  function ReceiptOf(v: View, status: string, receiptSeq: nat): Event
    requires v.manifest.Some?
  {
    Event("", v.manifest.value.task, v.manifest.value.turn, SubagentReceipt(status, receiptSeq))
  }

  function CloseTurn(v: View, listed: seq<string>, diagnostic: bool, receiptSeq: nat): seq<Event> {
    [About(v, "", TurnEnded), About(v, "", TaskStatusChanged)]
    + (if v.command != "" then [About(v, "", CommandCompleted(v.command))] else [])
    + (if v.manifest.Some? then [ReceiptOf(v, ReceiptStatus(v, listed), receiptSeq)] else [])
    + (if diagnostic then [About(v, "", RecoveryDiagnostic)] else [])
  }

  function Batch(v: View, listed: seq<string>, probe: string -> bool, diagnostic: bool, receiptSeq: nat): seq<Event> {
    CloseAll(v, listed, probe) + CloseTurn(v, listed, diagnostic, receiptSeq)
  }

  function ToolCount(v: View, listed: seq<string>): nat {
    if listed == [] then 0
    else ToolCount(v, listed[..|listed| - 1]) + if listed[|listed| - 1] in v.visible then 1 else 0
  }

  function Bit(b: bool): nat { if b then 1 else 0 }

  /** The number of events the batch is predicted to have. */
  function EventCount(v: View, listed: seq<string>, diagnostic: bool): nat {
    |listed| + 2 + ToolCount(v, listed) + Bit(v.command != "") + Bit(v.manifest.Some?) + Bit(diagnostic)
  }

  lemma {:induction false} CountIsLength(v: View, listed: seq<string>, probe: string -> bool)
    ensures |CloseAll(v, listed, probe)| == |listed| + ToolCount(v, listed)
  {
    if listed == [] {
    } else {
      CountIsLength(v, listed[..|listed| - 1], probe);
    }
  }

  /** The prediction is the length. */
  lemma BatchLength(v: View, listed: seq<string>, probe: string -> bool, diagnostic: bool, receiptSeq: nat)
    ensures |Batch(v, listed, probe, diagnostic, receiptSeq)| == EventCount(v, listed, diagnostic)
  {
    CountIsLength(v, listed, probe);
  }

  function Numbered(events: seq<Event>): seq<Proposed> {
    seq(|events|, k requires 0 <= k < |events| => Proposed(k, events[k]))
  }

  method Propose(events: seq<Proposed>, e: Event, ghost sofar: seq<Event>) returns (more: seq<Proposed>)
    requires events == Numbered(sofar)
    ensures more == Numbered(sofar + [e])
  {
    more := events + [Proposed(|events|, e)];
  }

  predicate Unresolved(v: View, id: string) { id in v.visible && v.visible[id] == "" }

  method CountEvents(v: View, listed: seq<string>, diagnostic: bool) returns (count: Option<nat>)
    ensures count.None? <==> exists k :: 0 <= k < |listed| && Unresolved(v, listed[k])
    ensures count.Some? ==> count.value == EventCount(v, listed, diagnostic)
  {
    var n := |listed| + 2;
    for k := 0 to |listed|
      invariant n == |listed| + 2 + ToolCount(v, listed[..k])
      invariant forall j :: 0 <= j < k ==> !Unresolved(v, listed[j])
    {
      assert listed[..k + 1][..k] == listed[..k];
      if listed[k] in v.visible {
        if v.visible[listed[k]] == "" {
          assert Unresolved(v, listed[k]);
          return None;
        }
        n := n + 1;
      }
    }
    assert listed[..|listed|] == listed;
    if v.command != "" { n := n + 1; }
    if v.manifest.Some? { n := n + 1; }
    if diagnostic { n := n + 1; }
    count := Some(n);
  }

  /** The admission service, if there is one: which invented results it lets through. */
  type Admission = Option<(string, Status) -> bool>

  datatype Ending = UnresolvedCall | NoAdmission | RejectedResult | Proposing(closing: Closing)

  /** A call was made visible to the provider, so its result must be admitted. */
  predicate NeedsResult(v: View, id: string) { id in v.visible }

  predicate Admitted(v: View, id: string, probe: string -> bool, admission: Admission)
    requires admission.Some? && NeedsResult(v, id)
  {
    admission.value(v.visible[id], OutcomeOf(id, probe))
  }

  method CloseActivities(v: View, listed: seq<string>, probe: string -> bool, admission: Admission)
    returns (refusal: Option<Ending>, events: seq<Proposed>)
    ensures refusal.None? || refusal == Some(NoAdmission) || refusal == Some(RejectedResult)
    ensures refusal == Some(NoAdmission) <==>
      admission.None? && exists k :: 0 <= k < |listed| && NeedsResult(v, listed[k])
    ensures refusal == Some(RejectedResult) <==>
      admission.Some? &&
      exists k :: 0 <= k < |listed| && NeedsResult(v, listed[k]) && !Admitted(v, listed[k], probe, admission)
    ensures refusal.None? ==> events == Numbered(CloseAll(v, listed, probe))
  {
    events := [];
    for k := 0 to |listed|
      invariant events == Numbered(CloseAll(v, listed[..k], probe))
      invariant forall j :: 0 <= j < k && NeedsResult(v, listed[j]) ==>
        admission.Some? && Admitted(v, listed[j], probe, admission)
    {
      assert listed[..k + 1][..k] == listed[..k];
      var id := listed[k];
      ghost var sofar := CloseAll(v, listed[..k], probe);
      var status := if probe(id) then InterruptedNoEffect else Uncertain;
      var ended := About(v, id, ActivityEnded(status, status, []));
      if id in v.visible {
        assert NeedsResult(v, listed[k]);
        if admission.None? {
          return Some(NoAdmission), [];
        }
        if !admission.value(v.visible[id], status) {
          return Some(RejectedResult), [];
        }
        var message := About(v, id, ToolMessage(v.visible[id], status));
        events := Propose(events, message, sofar);
        events := Propose(events, ended, sofar + [message]);
        assert sofar + [message] + [ended] == sofar + CloseOne(v, id, probe);
      } else {
        events := Propose(events, ended, sofar);
        assert sofar + [ended] == sofar + CloseOne(v, id, probe);
      }
    }
    assert listed[..|listed|] == listed;
    refusal := None;
  }

  method ReceiptStatusOf(v: View, listed: seq<string>) returns (status: string)
    ensures status == ReceiptStatus(v, listed)
  {
    for k := 0 to |listed|
      invariant forall j :: 0 <= j < k ==> listed[j] in v.noEffect
    {
      if listed[k] !in v.noEffect {
        return "uncertain";
      }
    }
    status := "cancelled";
  }

  method EndTurn(v: View, listed: seq<string>, diagnostic: bool, receiptSeq: nat, before: seq<Proposed>,
          ghost sofar: seq<Event>)
    returns (events: seq<Proposed>)
    requires before == Numbered(sofar)
    ensures events == Numbered(sofar + CloseTurn(v, listed, diagnostic, receiptSeq))
  {
    var ended, changed := About(v, "", TurnEnded), About(v, "", TaskStatusChanged);
    events := Propose(before, ended, sofar);
    events := Propose(events, changed, sofar + [ended]);
    ghost var tail := [ended, changed];
    assert sofar + [ended] + [changed] == sofar + tail;
    if v.command != "" {
      var completed := About(v, "", CommandCompleted(v.command));
      events := Propose(events, completed, sofar + tail);
      assert sofar + tail + [completed] == sofar + (tail + [completed]);
      tail := tail + [completed];
    }
    if v.manifest.Some? {
      var status := ReceiptStatusOf(v, listed);
      var receipt := ReceiptOf(v, status, receiptSeq);
      events := Propose(events, receipt, sofar + tail);
      assert sofar + tail + [receipt] == sofar + (tail + [receipt]);
      tail := tail + [receipt];
    }
    if diagnostic {
      var note := About(v, "", RecoveryDiagnostic);
      events := Propose(events, note, sofar + tail);
      assert sofar + tail + [note] == sofar + (tail + [note]);
      tail := tail + [note];
    }
    assert tail == CloseTurn(v, listed, diagnostic, receiptSeq);
  }

  function ClosingOf(v: View, listed: seq<string>, probe: string -> bool, diagnostic: bool, expected: nat): Closing {
    var count := EventCount(v, listed, diagnostic);
    Closing(Numbered(Batch(v, listed, probe, diagnostic, expected + count)), expected + count + 1, expected + count)
  }

  /** The batch, its predicted cursor and the position its receipt is given; `listed` is
      the started activities in sorted order. */
  method AppendRecoverySessionTerminal(v: View, listed: seq<string>, probe: string -> bool, admission: Admission,
          diagnostic: bool, expected: nat)
    returns (ending: Ending)
    ensures ending.UnresolvedCall? <==> exists k :: 0 <= k < |listed| && Unresolved(v, listed[k])
    ensures ending.NoAdmission? <==>
      && !(exists k :: 0 <= k < |listed| && Unresolved(v, listed[k]))
      && admission.None? && exists k :: 0 <= k < |listed| && NeedsResult(v, listed[k])
    ensures ending.RejectedResult? <==>
      && !(exists k :: 0 <= k < |listed| && Unresolved(v, listed[k]))
      && admission.Some?
      && exists k :: 0 <= k < |listed| && NeedsResult(v, listed[k]) && !Admitted(v, listed[k], probe, admission)
    ensures ending.Proposing? ==> ending.closing == ClosingOf(v, listed, probe, diagnostic, expected)
  {
    var count := CountEvents(v, listed, diagnostic);
    if count.None? {
      return UnresolvedCall;
    }
    var receiptSeq := expected + count.value;
    var refusal, events := CloseActivities(v, listed, probe, admission);
    if refusal.Some? {
      return refusal.value;
    }
    events := EndTurn(v, listed, diagnostic, receiptSeq, events, CloseAll(v, listed, probe));
    ending := Proposing(Closing(events, expected + count.value + 1, receiptSeq));
  }

  // ---- the batch closes the journal ----

  /** Both readings accept the events and end where `v` and `p` say. */
  predicate Accepted(journal: string, events: seq<Event>, v: View, p: Projection) {
    Inspected(journal, events) == Some(v) && Project(events) == Some(p)
  }

  lemma NeutralAccepted(journal: string, events: seq<Event>, v: View, p: Projection, e: Event)
    requires Accepted(journal, events, v, p) && Neutral(e.fact)
    ensures See(v, journal, e).Some? && Accepted(journal, events + [e], See(v, journal, e).value, p)
  {
  }

  /** What closing activities leaves of a view. */
  predicate SameTurn(v: View, w: View) {
    w.task == v.task && w.turn == v.turn && w.command == v.command && w.manifest == v.manifest
  }

  lemma EndApplies(journal: string, events: seq<Event>, w: View, p: Projection, e: Event)
    requires Accepted(journal, events, w, p) && e.activity in w.started && e.fact.ActivityEnded?
    requires e.fact.reported == e.fact.to
    requires e.fact.to == InterruptedNoEffect || e.fact.to == Uncertain
    ensures Apply(p, e).Some?
  {
    ReadingsAgree(journal, events);
    assert p.activities[e.activity].status == Started;
  }

  lemma EndAccepted(journal: string, events: seq<Event>, w: View, p: Projection,
          e: Event) returns (w': View, p': Projection)
    requires Accepted(journal, events, w, p) && e.activity in w.started && e.fact.ActivityEnded?
    requires e.fact.reported == e.fact.to
    requires e.fact.to == InterruptedNoEffect || e.fact.to == Uncertain
    ensures Accepted(journal, events + [e], w', p') && SameTurn(w, w') && w'.started == w.started - {e.activity}
  {
    EndApplies(journal, events, w, p, e);
    w', p' := See(w, journal, e).value, Apply(p, e).value;
  }

  lemma CloseOneAccepted(journal: string, events: seq<Event>, v: View, w: View, p: Projection, id: string,
          probe: string -> bool)
    returns (w': View, p': Projection)
    requires Accepted(journal, events, w, p) && id in w.started && SameTurn(v, w)
    ensures Accepted(journal, events + CloseOne(v, id, probe), w', p') && SameTurn(v, w')
    ensures w'.started == w.started - {id}
  {
    var ended := About(v, id, ActivityEnded(OutcomeOf(id, probe), OutcomeOf(id, probe), []));
    if id in v.visible {
      var message := About(v, id, ToolMessage(v.visible[id], OutcomeOf(id, probe)));
      NeutralAccepted(journal, events, w, p, message);
      w', p' := EndAccepted(journal, events + [message], w, p, ended);
      assert events + [message] + [ended] == events + CloseOne(v, id, probe);
    } else {
      w', p' := EndAccepted(journal, events, w, p, ended);
      assert events + [ended] == events + CloseOne(v, id, probe);
    }
  }

  function Members(listed: seq<string>): set<string> {
    if listed == [] then {} else Members(listed[..|listed| - 1]) + {listed[|listed| - 1]}
  }

  lemma {:induction false} MembersAre(listed: seq<string>)
    ensures forall id :: id in Members(listed) <==> id in listed
  {
    if listed == [] {
    } else {
      MembersAre(listed[..|listed| - 1]);
      assert listed == listed[..|listed| - 1] + [listed[|listed| - 1]];
    }
  }

  lemma LastIsNew(listed: seq<string>)
    requires listed != [] && forall i, j :: 0 <= i < j < |listed| ==> listed[i] != listed[j]
    ensures listed[|listed| - 1] !in Members(listed[..|listed| - 1])
  {
    MembersAre(listed[..|listed| - 1]);
  }

  lemma {:induction false} CloseAllAccepted(journal: string, events: seq<Event>, v: View, p: Projection,
          listed: seq<string>, probe: string -> bool)
    returns (w: View, q: Projection)
    requires Accepted(journal, events, v, p)
    requires forall i, j :: 0 <= i < j < |listed| ==> listed[i] != listed[j]
    requires forall k :: 0 <= k < |listed| ==> listed[k] in v.started
    ensures Accepted(journal, events + CloseAll(v, listed, probe), w, q) && SameTurn(v, w)
    ensures w.started == v.started - Members(listed)
  {
    if listed == [] {
      assert events + [] == events;
      w, q := v, p;
    } else {
      var n := |listed| - 1;
      var front, last := listed[..n], listed[n];
      w, q := CloseAllAccepted(journal, events, v, p, front, probe);
      LastIsNew(listed);
      var before := events + CloseAll(v, front, probe);
      w, q := CloseOneAccepted(journal, before, v, w, q, last, probe);
      assert before + CloseOne(v, last, probe) == events + CloseAll(v, listed, probe);
    }
  }

  /** Events that touch no activity and open no turn. */
  predicate Closes(f: Fact) { Neutral(f) && f != TurnAccepted }

  lemma {:induction false} NeutralAll(journal: string, events: seq<Event>, v: View, p: Projection,
          tail: seq<Event>) returns (w: View)
    requires Accepted(journal, events, v, p) && forall k :: 0 <= k < |tail| ==> Closes(tail[k].fact)
    ensures Accepted(journal, events + tail, w, p) && w.started == v.started && (v.turn == "" ==> w.turn == "")
    decreases |tail|
  {
    if tail == [] {
      assert events + [] == events;
      w := v;
    } else {
      NeutralAccepted(journal, events, v, p, tail[0]);
      w := NeutralAll(journal, events + [tail[0]], See(v, journal, tail[0]).value, p, tail[1..]);
      assert events + [tail[0]] + tail[1..] == events + tail;
    }
  }

  /** A journal with nothing started and no turn open, as both readings see it. */
  ghost predicate Closed(journal: string, events: seq<Event>) {
    && Inspected(journal, events).Some? && Project(events).Some?
    && Inspected(journal, events).value.started == {} && Inspected(journal, events).value.turn == ""
    && forall id :: id in Project(events).value.activities ==> Project(events).value.activities[id].status != Started
  }

  /** The projector accepts the batch one event after the other. */
  ghost predicate EachAccepted(events: seq<Event>, batch: seq<Event>) {
    forall k :: 0 <= k <= |batch| ==> Project(events + batch[..k]).Some?
  }

  lemma NothingStarted(journal: string, events: seq<Event>, w: View, q: Projection)
    requires Accepted(journal, events, w, q) && w.started == {} && w.turn == ""
    ensures Closed(journal, events)
  {
    ReadingsAgree(journal, events);
  }

  lemma PrefixAccepted(events: seq<Event>, batch: seq<Event>, k: nat)
    requires k <= |batch| && Project(events + batch).Some?
    ensures Project(events + batch[..k]).Some?
  {
    assert (events + batch)[..|events| + k] == events + batch[..k];
    TerminalIsFinal(events + batch, |events| + k, "");
  }

  /** The batch has exactly the predicted number of events, numbered in order, so the
      predicted cursor is the one after its last event. */
  lemma PredictionHolds(v: View, listed: seq<string>, probe: string -> bool, diagnostic: bool, expected: nat)
    ensures var closing := ClosingOf(v, listed, probe, diagnostic, expected);
      && closing.finalSeq == expected + |closing.events| + 1 && closing.receiptSeq == expected + |closing.events|
      && (forall k :: 0 <= k < |closing.events| ==> closing.events[k].ordinal == k)
  {
    BatchLength(v, listed, probe, diagnostic, expected + EventCount(v, listed, diagnostic));
  }

  lemma ListsAll(listed: seq<string>, started: set<string>)
    requires Lists(listed, started)
    ensures (forall k :: 0 <= k < |listed| ==> listed[k] in started) && started - Members(listed) == {}
  {
    MembersAre(listed);
    forall k | 0 <= k < |listed| ensures listed[k] in started { assert listed[k] in listed; }
  }

  /** The closing events after the end of the turn. */
  lemma TurnTail(v: View, listed: seq<string>, diagnostic: bool, receiptSeq: nat) returns (tail: seq<Event>)
    ensures CloseTurn(v, listed, diagnostic, receiptSeq) == [About(v, "", TurnEnded)] + tail
    ensures forall k :: 0 <= k < |tail| ==> Closes(tail[k].fact)
  {
    tail := CloseTurn(v, listed, diagnostic, receiptSeq)[1..];
  }

  lemma TurnCloses(journal: string, events: seq<Event>, v: View, w: View, q: Projection, listed: seq<string>,
          diagnostic: bool, receiptSeq: nat)
    returns (end: View)
    requires Accepted(journal, events, w, q) && SameTurn(v, w)
    ensures Accepted(journal, events + CloseTurn(v, listed, diagnostic, receiptSeq), end, q)
    ensures end.started == w.started && end.turn == ""
  {
    var ended := About(v, "", TurnEnded);
    var tail := TurnTail(v, listed, diagnostic, receiptSeq);
    NeutralAccepted(journal, events, w, q, ended);
    end := NeutralAll(journal, events + [ended], See(w, journal, ended).value, q, tail);
    assert events + [ended] + tail == events + ([ended] + tail);
  }

  lemma BatchSplits(events: seq<Event>, v: View, listed: seq<string>, probe: string -> bool, diagnostic: bool,
          receiptSeq: nat)
    ensures events + Batch(v, listed, probe, diagnostic, receiptSeq)
      == events + CloseAll(v, listed, probe) + CloseTurn(v, listed, diagnostic, receiptSeq)
  {
    var a, b := CloseAll(v, listed, probe), CloseTurn(v, listed, diagnostic, receiptSeq);
    assert events + (a + b) == events + a + b;
  }

  lemma BatchAcceptedFrom(journal: string, events: seq<Event>, v: View, p: Projection, listed: seq<string>,
          probe: string -> bool, diagnostic: bool, receiptSeq: nat)
    returns (w: View, q: Projection)
    requires Accepted(journal, events, v, p) && Lists(listed, v.started)
    ensures Accepted(journal, events + Batch(v, listed, probe, diagnostic, receiptSeq), w, q)
    ensures w.started == {} && w.turn == ""
  {
    var u: View;
    ListsAll(listed, v.started);
    u, q := CloseAllAccepted(journal, events, v, p, listed, probe);
    w := TurnCloses(journal, events + CloseAll(v, listed, probe), v, u, q, listed, diagnostic, receiptSeq);
    BatchSplits(events, v, listed, probe, diagnostic, receiptSeq);
  }

  lemma BatchAccepted(journal: string, events: seq<Event>, listed: seq<string>, probe: string -> bool,
          diagnostic: bool, receiptSeq: nat)
    returns (w: View, q: Projection)
    requires Inspected(journal, events).Some? && Project(events).Some?
    requires Lists(listed, Inspected(journal, events).value.started)
    ensures Accepted(journal, events + Batch(Inspected(journal, events).value, listed, probe, diagnostic, receiptSeq),
        w, q)
    ensures w.started == {} && w.turn == ""
  {
    w, q := BatchAcceptedFrom(journal, events, Inspected(journal, events).value, Project(events).value, listed, probe,
        diagnostic, receiptSeq);
  }

  /** The recovery batch is accepted event by event and leaves nothing started and no turn
      open. */
  lemma RecoveryCloses(journal: string, events: seq<Event>, listed: seq<string>, probe: string -> bool,
          diagnostic: bool, receiptSeq: nat, batch: seq<Event>)
    requires Inspected(journal, events).Some? && Project(events).Some?
    requires Lists(listed, Inspected(journal, events).value.started)
    requires batch == Batch(Inspected(journal, events).value, listed, probe, diagnostic, receiptSeq)
    ensures Closed(journal, events + batch) && EachAccepted(events, batch)
  {
    var w, q := BatchAccepted(journal, events, listed, probe, diagnostic, receiptSeq);
    NothingStarted(journal, events + batch, w, q);
    forall k | 0 <= k <= |batch| ensures Project(events + batch[..k]).Some? { PrefixAccepted(events, batch, k); }
  }

  /** On an accepted journal no started activity is known to have had no effect, so the
      receipt is uncertain as soon as one was started, whatever the probes now say. */
  lemma ReceiptUncertainIfStarted(journal: string, events: seq<Event>, listed: seq<string>)
    requires Inspected(journal, events).Some? && Project(events).Some?
    requires Lists(listed, Inspected(journal, events).value.started)
    ensures ReceiptStatus(Inspected(journal, events).value, listed)
      == if Inspected(journal, events).value.started == {} then "cancelled" else "uncertain"
  {
    ReadingsAgree(journal, events);
    var v := Inspected(journal, events).value;
    forall k | 0 <= k < |listed|
      ensures listed[k] in v.started && listed[k] !in v.noEffect
    {
      assert listed[k] in listed;
    }
    if v.started != {} {
      var id :| id in v.started;
      assert id in listed;
    }
  }

  function CommittedAfter(ref: JournalRef, txn: string, payloads: seq<string>, expected: nat): seq<Commits.Record> {
    seq(|payloads|, k requires 0 <= k < |payloads| => Commits.Native(ref, expected + 1 + k, txn, payloads[k]))
  }

  /** Committed right after `expected`, the batch gets exactly the predicted cursor. */
  lemma PredictedCursor(ref: JournalRef, txn: string, payloads: seq<string>, expected: nat)
    requires payloads != [] && txn != ""
    ensures Commits.TransactionCursor(ref, CommittedAfter(ref, txn, payloads, expected)) ==
        Some(Cursor(ref, expected + |payloads| + 1, txn))
  {
    var records := CommittedAfter(ref, txn, payloads, expected);
    assert forall i :: 0 <= i < |records| ==> Commits.Follows(records, i);
  }

  /** A child receipt names its own sequence exactly when no diagnostic follows it. */
  lemma ReceiptNamesItself(v: View, listed: seq<string>, probe: string -> bool, diagnostic: bool, expected: nat)
    requires v.manifest.Some?
    ensures var closing := ClosingOf(v, listed, probe, diagnostic, expected);
      var at := |closing.events| - 1 - Bit(diagnostic);
      && 0 <= at && closing.events[at].ordinal == at
      && closing.events[at].event.fact == SubagentReceipt(ReceiptStatus(v, listed), closing.receiptSeq)
      && (closing.receiptSeq == expected + 1 + at <==> !diagnostic)
  {
    var receiptSeq := expected + EventCount(v, listed, diagnostic);
    BatchLength(v, listed, probe, diagnostic, receiptSeq);
    var tail := CloseTurn(v, listed, diagnostic, receiptSeq);
    assert tail[|tail| - 1 - Bit(diagnostic)].fact == SubagentReceipt(ReceiptStatus(v, listed), receiptSeq);
  }
}
