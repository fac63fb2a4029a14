/** The activity projector: lifecycle states and the denormalised list of children. */
module ActivityProjection {
  import opened Journals

  datatype Status = Planned | Authorized | Started | Succeeded | Failed | Denied | Cancelled | InterruptedNoEffect
    | Uncertain

  datatype DecisionRef = DecisionRef(nonce: string, event: string, plan: string, request: string, dispatch: string)

  datatype Child = Child(id: string, kind: string, status: Status)

  datatype Activity = Activity(
    id: string, parent: string, kind: string, detail: string, status: Status,
    inputs: seq<string>, outputs: seq<string>, decision: Option<DecisionRef>, children: seq<Child>)

  datatype Relation = Input | Output | OtherRelation

  /** Events with their envelope's activity; what other components read of them is theirs. */
  datatype Fact =
    | ActivityPlanned(parent: string, kind: string, purpose: string, plannedCall: Option<string>, inputs: seq<string>)
    | ActivityAuthorized(decision: DecisionRef)
    | ActivityStarted(named: string, call: string, binding: DecisionRef)
    | ActivityEnded(to: Status, reported: Status, outputs: seq<string>)
    | EvidenceLinked(relation: Relation, evidence: string)
    | CommandAccepted(command: string, digest: string)
    | TaskCreated
    | TurnAccepted
    | TurnEnded
    | ManifestFor(child: string, task: string, turn: string)
    | ToolMessage(call: string, outcome: Status)
    | TaskStatusChanged
    | CommandCompleted(command: string)
    | SubagentReceipt(status: string, at: nat)
    | RecoveryDiagnostic
    | OtherFact

  datatype Event = Event(activity: string, task: string, turn: string, fact: Fact)

  datatype Projection = Projection(activities: map<string, Activity>, order: seq<string>)

  const EMPTY := Projection(map[], [])

  predicate Allowed(from: Status, to: Status) {
    match from
    case Planned => to == Denied || to == Cancelled || to == Authorized
    case Authorized => to == Cancelled || to == Started
    case Started => to == Succeeded || to == Failed || to == InterruptedNoEffect || to == Uncertain
    case _ => false
  }

  predicate Terminal(s: Status) { s != Planned && s != Authorized && s != Started }

  function Summary(a: Activity): Child { Child(a.id, a.kind, a.status) }

  /** Replaces the entry of the same activity, or appends one. */
  function Replace(children: seq<Child>, c: Child): seq<Child> {
    if children == [] then [c]
    else if children[0].id == c.id then [c] + children[1..]
    else [children[0]] + Replace(children[1..], c)
  }

  /** The parent is always known in a reachable projection. */
  function UpdateParent(activities: map<string, Activity>, child: Activity): map<string, Activity> {
    if child.parent == "" || child.parent !in activities then activities
    else
      var parent := activities[child.parent];
      activities[child.parent := parent.(children := Replace(parent.children, Summary(child)))]
  }

  lemma {:induction false} ReplaceAt(children: seq<Child>, c: Child, i: nat)
    requires i <= |children| && (forall k :: 0 <= k < i ==> children[k].id != c.id)
    requires (i < |children| ==> children[i].id == c.id)
    ensures Replace(children, c) == if i < |children| then children[i := c] else children + [c]
  {
    if i == 0 {
    } else {
      ReplaceAt(children[1..], c, i - 1);
      assert children == [children[0]] + children[1..];
    }
  }

  method UpdateParentInPlace(activities: map<string, Activity>,
          child: Activity) returns (updated: map<string, Activity>)
    ensures updated == UpdateParent(activities, child)
  {
    if child.parent == "" || child.parent !in activities {
      return activities;
    }
    var parent := activities[child.parent];
    var summary := Child(child.id, child.kind, child.status);
    var index := 0;
    while index < |parent.children| && parent.children[index].id != child.id
      invariant 0 <= index <= |parent.children|
      invariant forall k :: 0 <= k < index ==> parent.children[k].id != child.id
    {
      index := index + 1;
    }
    ReplaceAt(parent.children, summary, index);
    var children := if index < |parent.children| then parent.children[index := summary]
        else parent.children + [summary];
    updated := activities[child.parent := parent.(children := children)];
  }

  function Transition(p: Projection, a: Activity): Projection
  {
    p.(activities := UpdateParent(p.activities[a.id := a], a))
  }

  function AddUnique(values: seq<string>, value: string): seq<string> {
    if value in values then values else values + [value]
  }

  function Plan(p: Projection, id: string, parent: string, kind: string, purpose: string,
          inputs: seq<string>): Option<Projection>
  {
    if id == "" || id in p.activities || (parent != "" && parent !in p.activities) then None
    else
      var a := Activity(id, parent, kind, purpose, Planned, inputs, [], None, []);
      Some(Projection(UpdateParent(p.activities[a.id := a], a), p.order + [a.id]))
  }

  /** The record a lifecycle event leaves, if its activity may take it. */
  /** The activity an event moves on, if the state machine allows it. */
  function RevisionOf(a: Activity, e: Event): Option<Activity> {
    match e.fact
    case ActivityAuthorized(decision) =>
      if Allowed(a.status, Authorized) then Some(a.(status := Authorized, decision := Some(decision))) else None
    case ActivityStarted(named, _, binding) =>
      if named == e.activity && a.status == Authorized && a.decision == Some(binding) then Some(a.(status := Started))
      else None
    case ActivityEnded(to, reported, outputs) =>
      if reported == to && Terminal(to) && Allowed(a.status, to) then Some(a.(status := to, outputs := outputs))
      else None
    case _ => None
  }

  function Revised(p: Projection, e: Event): Option<Activity> {
    if e.activity !in p.activities then None else RevisionOf(p.activities[e.activity], e)
  }

  function Linked(a: Activity, relation: Relation, evidence: string): Activity {
    if relation == Input then a.(inputs := AddUnique(a.inputs, evidence))
    else a.(outputs := AddUnique(a.outputs, evidence))
  }

  function Link(p: Projection, id: string, relation: Relation, evidence: string): Option<Projection> {
    if id !in p.activities || id == "" || relation == OtherRelation then None
    else Some(p.(activities := p.activities[id := Linked(p.activities[id], relation, evidence)]))
  }

  function Revise(p: Projection, a: Option<Activity>): Option<Projection> {
    match a
    case None => None
    case Some(record) => Some(Transition(p, record))
  }

  function Apply(p: Projection, e: Event): Option<Projection> {
    match e.fact
    case ActivityPlanned(parent, kind, purpose, _, inputs) => Plan(p, e.activity, parent, kind, purpose, inputs)
    case ActivityAuthorized(_) => Revise(p, Revised(p, e))
    case ActivityStarted(_, _, _) => Revise(p, Revised(p, e))
    case ActivityEnded(_, _, _) => Revise(p, Revised(p, e))
    case EvidenceLinked(relation, evidence) => Link(p, e.activity, relation, evidence)
    case _ => Some(p)
  }

  function Project(events: seq<Event>): Option<Projection> {
    if events == [] then Some(EMPTY)
    else match Project(events[..|events| - 1])
      case None => None
      case Some(p) => Apply(p, events[|events| - 1])
  }

  // ---- the child index ----

  /** Activities naming `parent`, in planning order, with their current states. */
  function ChildrenOf(order: seq<string>, activities: map<string, Activity>, parent: string): seq<Child> {
    if order == [] then []
    else
      var last := order[|order| - 1];
      ChildrenOf(order[..|order| - 1], activities, parent) +
        if last in activities && activities[last].parent == parent then [Summary(activities[last])] else []
  }

  ghost predicate Listed(order: seq<string>, activities: map<string, Activity>) {
    && (forall i, j :: 0 <= i < j < |order| ==> order[i] != order[j])
    && (forall id :: id in order <==> id in activities)
    && (forall id :: id in activities ==> activities[id].id == id != "")
  }

  /** Parents were planned before their children, so parent chains end. */
  ghost predicate ParentsEarlier(order: seq<string>, activities: map<string, Activity>) {
    forall k :: 0 <= k < |order| && order[k] in activities && activities[order[k]].parent != "" ==>
      activities[order[k]].parent in order[..k]
  }

  ghost predicate ChildrenListed(order: seq<string>, activities: map<string, Activity>) {
    forall id :: id in activities ==> activities[id].children == ChildrenOf(order, activities, id)
  }

  ghost predicate Inv(p: Projection) {
    Listed(p.order, p.activities) && ParentsEarlier(p.order, p.activities) && ChildrenListed(p.order, p.activities)
  }

  /** Only parent, kind and state matter to the index. */
  predicate SameShape(a: Activity, b: Activity) {
    a.id == b.id && a.parent == b.parent && a.kind == b.kind && a.status == b.status
  }

  lemma {:induction false} ChildrenSame(order: seq<string>, a: map<string, Activity>, b: map<string, Activity>,
          parent: string)
    requires forall id :: id in order ==> (id in a <==> id in b) && (id in a ==> SameShape(a[id], b[id]))
    ensures ChildrenOf(order, a, parent) == ChildrenOf(order, b, parent)
  {
    if order == [] {
    } else {
      assert order[|order| - 1] in order;
      ChildrenSame(order[..|order| - 1], a, b, parent);
    }
  }

  lemma {:induction false} ChildIds(order: seq<string>, activities: map<string, Activity>, parent: string, id: string)
    requires forall k :: k in activities ==> activities[k].id == k
    requires id !in order
    ensures forall k :: 0 <= k < |ChildrenOf(order, activities, parent)| ==>
      ChildrenOf(order, activities, parent)[k].id != id
  {
    if order == [] {
    } else {
      ChildIds(order[..|order| - 1], activities, parent, id);
    }
  }

  predicate Has(children: seq<Child>, id: string) { exists k :: 0 <= k < |children| && children[k].id == id }

  lemma FirstAt(children: seq<Child>, id: string) returns (i: nat)
    requires Has(children, id)
    ensures i < |children| && children[i].id == id && forall k :: 0 <= k < i ==> children[k].id != id
  {
    i := 0;
    while children[i].id != id
      invariant i < |children| && forall k :: 0 <= k < i ==> children[k].id != id
      decreases |children| - i
    {
      if i + 1 == |children| {
        var k :| 0 <= k < |children| && children[k].id == id;
        assert false;
      }
      i := i + 1;
    }
  }

  lemma ReplaceInFront(a: seq<Child>, b: seq<Child>, c: Child)
    requires Has(a, c.id)
    ensures Replace(a + b, c) == Replace(a, c) + b
  {
    var i := FirstAt(a, c.id);
    ReplaceAt(a, c, i);
    ReplaceAt(a + b, c, i);
  }

  /** A state change of one child rewrites its entry in its parent's list. */
  lemma {:induction false} ChildrenReplaced(order: seq<string>, a: map<string, Activity>, child: Activity,
          parent: string)
    requires (forall i, j :: 0 <= i < j < |order| ==> order[i] != order[j]) && (forall k :: k in a ==> a[k].id == k)
    requires child.id in a && a[child.id].parent == child.parent && child.id in order
    ensures ChildrenOf(order, a[child.id := child], parent) ==
      if child.parent == parent then Replace(ChildrenOf(order, a, parent), Summary(child))
      else ChildrenOf(order, a, parent)
    ensures child.parent == parent ==> Has(ChildrenOf(order, a, parent), child.id)
  {
    var n := |order| - 1;
    var before, last := order[..n], order[n];
    var list := ChildrenOf(before, a, parent);
    if last == child.id {
      assert child.id !in before;
      ChildrenSame(before, a, a[child.id := child], parent);
      ChildIds(before, a, parent, child.id);
      if child.parent == parent {
        ReplaceAt(list + [Summary(a[last])], Summary(child), |list|);
        assert (list + [Summary(a[last])])[|list|].id == child.id;
      }
    } else {
      assert child.id in before;
      ChildrenReplaced(before, a, child, parent);
      if child.parent == parent {
        var more := if last in a && a[last].parent == parent then [Summary(a[last])] else [];
        ReplaceInFront(list, more, Summary(child));
        var k :| 0 <= k < |list| && list[k].id == child.id;
        assert (list + more)[k].id == child.id;
      }
    }
  }

  lemma {:induction false} NoChildren(order: seq<string>, activities: map<string, Activity>, parent: string)
    requires forall id :: id in order && id in activities ==> activities[id].parent != parent
    ensures ChildrenOf(order, activities, parent) == []
  {
    if order == [] {
    } else {
      assert order[|order| - 1] in order;
      NoChildren(order[..|order| - 1], activities, parent);
    }
  }

  // ---- the steps ----

  /** Rewriting a list of children leaves every child list's definition alone. */
  lemma UpdateKeepsChildren(order: seq<string>, activities: map<string, Activity>, child: Activity, x: string)
    requires forall id :: id in activities ==> activities[id].id == id
    ensures ChildrenOf(order, UpdateParent(activities, child), x) == ChildrenOf(order, activities, x)
  {
    ChildrenSame(order, activities, UpdateParent(activities, child), x);
  }

  lemma PlanListed(p: Projection, a: Activity)
    requires Listed(p.order, p.activities) && a.id !in p.activities && a.id != ""
    requires (a.parent != "" ==> a.parent in p.activities)
    ensures Listed(p.order + [a.id], UpdateParent(p.activities[a.id := a], a))
  {
    var order := p.order + [a.id];
    assert order[|p.order|] == a.id;
    forall id ensures id in order <==> id in p.order || id == a.id {}
  }

  lemma PlanParents(p: Projection, a: Activity)
    requires Listed(p.order, p.activities) && ParentsEarlier(p.order, p.activities) && a.id !in p.activities
    requires (a.parent != "" ==> a.parent in p.activities)
    ensures ParentsEarlier(p.order + [a.id], UpdateParent(p.activities[a.id := a], a))
  {
    var order, after := p.order + [a.id], UpdateParent(p.activities[a.id := a], a);
    forall k | 0 <= k < |order| && order[k] in after && after[order[k]].parent != ""
      ensures after[order[k]].parent in order[..k]
    {
      assert order[..k] == if k < |p.order| then p.order[..k] else p.order;
      if k < |p.order| { assert order[k] == p.order[k] && p.order[k] in p.order; }
    }
  }

  lemma PlanChildren(p: Projection, a: Activity, x: string)
    requires Inv(p) && a.id !in p.activities && a.id != "" && a.children == []
    requires (a.parent != "" ==> a.parent in p.activities)
    requires x in UpdateParent(p.activities[a.id := a], a)
    ensures var after := UpdateParent(p.activities[a.id := a], a);
      after[x].children == ChildrenOf(p.order + [a.id], after, x)
  {
    var order, added := p.order + [a.id], p.activities[a.id := a];
    UpdateKeepsChildren(order, added, a, x);
    assert order[..|p.order|] == p.order && a.id !in p.order;
    ChildrenSame(p.order, p.activities, added, x);
    var list := ChildrenOf(p.order, p.activities, x);
    if x == a.id {
      forall id | id in p.order && id in p.activities ensures p.activities[id].parent != x { }
      NoChildren(p.order, p.activities, x);
    } else if x == a.parent {
      ChildIds(p.order, p.activities, x, a.id);
      ReplaceAt(list, Summary(a), |list|);
    }
  }

  lemma PlanKeeps(p: Projection, a: Activity)
    requires Inv(p) && a.id !in p.activities && a.id != "" && a.children == []
    requires (a.parent != "" ==> a.parent in p.activities)
    ensures Inv(Projection(UpdateParent(p.activities[a.id := a], a), p.order + [a.id]))
  {
    var after := UpdateParent(p.activities[a.id := a], a);
    PlanListed(p, a);
    PlanParents(p, a);
    forall x | x in after ensures after[x].children == ChildrenOf(p.order + [a.id], after, x) { PlanChildren(p, a, x); }
  }

  predicate Revises(p: Projection, a: Activity) {
    a.id in p.activities && a.parent == p.activities[a.id].parent && a.kind == p.activities[a.id].kind
      && a.children == p.activities[a.id].children
  }

  /** Updating a parent's list changes nothing else. */
  lemma UpdateShape(activities: map<string, Activity>, child: Activity, id: string)
    requires id in activities
    ensures id in UpdateParent(activities, child)
    ensures UpdateParent(activities, child)[id] ==
        activities[id].(children := UpdateParent(activities, child)[id].children)
  {
  }

  lemma TransitionShape(p: Projection, a: Activity, id: string)
    requires a.id in p.activities && id in p.activities
    ensures id in Transition(p, a).activities
    ensures var before := if id == a.id then a else p.activities[id];
      Transition(p, a).activities[id] == before.(children := Transition(p, a).activities[id].children)
  {
    UpdateShape(p.activities[a.id := a], a, id);
  }

  lemma TransitionListed(p: Projection, a: Activity)
    requires Inv(p) && Revises(p, a)
    ensures Listed(p.order, Transition(p, a).activities) && ParentsEarlier(p.order, Transition(p, a).activities)
  {
    var after := Transition(p, a).activities;
    forall id | id in after
      ensures id in p.activities && after[id].id == id != "" && after[id].parent == p.activities[id].parent
    {
      TransitionShape(p, a, id);
    }
  }

  lemma NotOwnParent(p: Projection, id: string)
    requires Inv(p) && id in p.activities
    ensures p.activities[id].parent != id
  {
    var k :| 0 <= k < |p.order| && p.order[k] == id;
  }

  lemma TransitionChildren(p: Projection, a: Activity, x: string)
    requires Inv(p) && Revises(p, a) && x in p.activities
    ensures x in Transition(p, a).activities
    ensures Transition(p, a).activities[x].children == ChildrenOf(p.order, Transition(p, a).activities, x)
  {
    UpdateKeepsChildren(p.order, p.activities[a.id := a], a, x);
    ChildrenReplaced(p.order, p.activities, a, x);
    assert x != "";
    if a.parent == a.id { NotOwnParent(p, a.id); }
  }

  lemma TransitionKeeps(p: Projection, a: Activity)
    requires Inv(p) && Revises(p, a)
    ensures Inv(Transition(p, a))
  {
    TransitionListed(p, a);
    forall x | x in Transition(p, a).activities
      ensures Transition(p, a).activities[x].children == ChildrenOf(p.order, Transition(p, a).activities, x) {
      TransitionChildren(p, a, x);
    }
  }

  /** A change of evidence lists leaves the index alone. */
  lemma EvidenceListed(order: seq<string>, before: map<string, Activity>, a: Activity)
    requires Listed(order, before) && a.id in before
    ensures Listed(order, before[a.id := a])
  {
  }

  lemma EvidenceParents(order: seq<string>, before: map<string, Activity>, a: Activity)
    requires ParentsEarlier(order, before) && a.id in before && a.parent == before[a.id].parent
    ensures ParentsEarlier(order, before[a.id := a])
  {
    var after := before[a.id := a];
    forall k | 0 <= k < |order| && order[k] in after && after[order[k]].parent != ""
      ensures after[order[k]].parent in order[..k]
    {
      assert before[order[k]].parent == after[order[k]].parent;
    }
  }

  lemma EvidenceChildren(order: seq<string>, before: map<string, Activity>, a: Activity)
    requires ChildrenListed(order, before) && a.id in before && SameShape(before[a.id], a)
    requires a.children == before[a.id].children
    ensures ChildrenListed(order, before[a.id := a])
  {
    var after := before[a.id := a];
    forall x | x in after ensures after[x].children == ChildrenOf(order, after, x) {
      ChildrenSame(order, before, after, x);
    }
  }

  lemma EvidenceKeeps(p: Projection, a: Activity)
    requires Inv(p) && Revises(p, a) && a.status == p.activities[a.id].status
    ensures Inv(p.(activities := p.activities[a.id := a]))
  {
    assert p.activities[a.id].id == a.id;
    EvidenceListed(p.order, p.activities, a);
    EvidenceParents(p.order, p.activities, a);
    EvidenceChildren(p.order, p.activities, a);
  }

  lemma RevisionShape(a: Activity, e: Event)
    requires RevisionOf(a, e).Some?
    ensures var b := RevisionOf(a, e).value;
      && b.id == a.id && b.parent == a.parent && b.kind == a.kind && b.children == a.children
      && Allowed(a.status, b.status)
  {
  }

  lemma RevisedIsRevision(p: Projection, e: Event)
    requires Inv(p) && Revised(p, e).Some?
    ensures Revises(p, Revised(p, e).value) && Revised(p, e).value.id == e.activity
    ensures Allowed(p.activities[e.activity].status, Revised(p, e).value.status)
  {
    RevisionShape(p.activities[e.activity], e);
    assert p.activities[e.activity].id == e.activity;
  }

  lemma ReviseKeeps(p: Projection, e: Event)
    requires Inv(p) && Revised(p, e).Some?
    ensures Inv(Transition(p, Revised(p, e).value))
  {
    RevisedIsRevision(p, e);
    TransitionKeeps(p, Revised(p, e).value);
  }

  lemma PlannedKeeps(p: Projection, id: string, parent: string, kind: string, purpose: string, inputs: seq<string>)
    requires Inv(p) && Plan(p, id, parent, kind, purpose, inputs).Some?
    ensures Inv(Plan(p, id, parent, kind, purpose, inputs).value)
  {
    PlanKeeps(p, Activity(id, parent, kind, purpose, Planned, inputs, [], None, []));
  }

  lemma LinkKeeps(p: Projection, id: string, relation: Relation, evidence: string)
    requires Inv(p) && Link(p, id, relation, evidence).Some?
    ensures Inv(Link(p, id, relation, evidence).value)
  {
    EvidenceKeeps(p, Linked(p.activities[id], relation, evidence));
  }

  lemma ApplyKeeps(p: Projection, e: Event)
    requires Inv(p) && Apply(p, e).Some?
    ensures Inv(Apply(p, e).value)
  {
    match e.fact
    case ActivityPlanned(parent, kind, purpose, _, inputs) =>
      PlannedKeeps(p, e.activity, parent, kind, purpose, inputs);
    case ActivityAuthorized(_) => ReviseKeeps(p, e);
    case ActivityStarted(_, _, _) => ReviseKeeps(p, e);
    case ActivityEnded(_, _, _) => ReviseKeeps(p, e);
    case EvidenceLinked(relation, evidence) => LinkKeeps(p, e.activity, relation, evidence);
    case _ =>
  }

  /** After any accepted events each record's children are exactly the activities naming it
      as parent, in planning order and with their current states; each activity is listed
      once, after its parent. */
  lemma {:induction false} IndexIsExact(events: seq<Event>)
    requires Project(events).Some?
    ensures Inv(Project(events).value)
  {
    if events == [] {
    } else {
      IndexIsExact(events[..|events| - 1]);
      ApplyKeeps(Project(events[..|events| - 1]).value, events[|events| - 1]);
    }
  }

  /** One accepted event keeps an activity's place and moves its status only as allowed. */
  predicate Follows(before: Activity, after: Activity) {
    && after.parent == before.parent && after.kind == before.kind && after.id == before.id
    && (after.status == before.status || Allowed(before.status, after.status))
  }

  lemma ReviseFollows(p: Projection, e: Event, id: string)
    requires Inv(p) && Revised(p, e).Some? && id in p.activities
    ensures var after := Transition(p, Revised(p, e).value).activities;
      && id in after && Follows(p.activities[id], after[id])
      && after[id].status == if id == e.activity then Revised(p, e).value.status else p.activities[id].status
  {
    RevisedIsRevision(p, e);
    TransitionShape(p, Revised(p, e).value, id);
  }

  lemma PlanFollows(p: Projection, id: string, parent: string, kind: string, purpose: string, inputs: seq<string>,
          other: string)
    requires Plan(p, id, parent, kind, purpose, inputs).Some? && other in p.activities
    ensures other in Plan(p, id, parent, kind, purpose, inputs).value.activities
    ensures Follows(p.activities[other], Plan(p, id, parent, kind, purpose, inputs).value.activities[other])
  {
    var a := Activity(id, parent, kind, purpose, Planned, inputs, [], None, []);
    UpdateShape(p.activities[a.id := a], a, other);
  }

  lemma LinkFollows(p: Projection, id: string, relation: Relation, evidence: string, other: string)
    requires Inv(p) && Link(p, id, relation, evidence).Some? && other in p.activities
    ensures other in Link(p, id, relation, evidence).value.activities
    ensures Follows(p.activities[other], Link(p, id, relation, evidence).value.activities[other])
  {
    assert p.activities[id].id == id;
  }

  lemma RevisionFollows(p: Projection, e: Event, id: string)
    requires Inv(p) && Apply(p, e).Some? && id in p.activities
    requires e.fact.ActivityAuthorized? || e.fact.ActivityStarted? || e.fact.ActivityEnded?
    ensures id in Apply(p, e).value.activities && Follows(p.activities[id], Apply(p, e).value.activities[id])
  {
    assert Apply(p, e) == Revise(p, Revised(p, e));
    ReviseFollows(p, e, id);
  }

  lemma ApplyFollows(p: Projection, e: Event, id: string)
    requires Inv(p) && Apply(p, e).Some? && id in p.activities
    ensures id in Apply(p, e).value.activities && Follows(p.activities[id], Apply(p, e).value.activities[id])
  {
    var f := e.fact;
    if f.ActivityPlanned? {
      PlanFollows(p, e.activity, f.parent, f.kind, f.purpose, f.inputs, id);
    } else if f.EvidenceLinked? {
      LinkFollows(p, e.activity, f.relation, f.evidence, id);
    } else if f.ActivityAuthorized? || f.ActivityStarted? || f.ActivityEnded? {
      RevisionFollows(p, e, id);
    } else {
      assert Apply(p, e) == Some(p);
    }
  }

  /** Terminal states are absorbing, however the journal goes on. */
  lemma {:induction false} TerminalIsFinal(events: seq<Event>, k: nat, id: string)
    requires k <= |events| && Project(events).Some?
    ensures Project(events[..k]).Some?
    ensures var before := Project(events[..k]).value;
      id in before.activities && Terminal(before.activities[id].status) ==>
      id in Project(events).value.activities
        && Project(events).value.activities[id].status == Project(events[..k]).value.activities[id].status
  {
    if k == |events| {
      assert events[..k] == events;
    } else {
      var n := |events| - 1;
      assert events[..n][..k] == events[..k];
      TerminalIsFinal(events[..n], k, id);
      IndexIsExact(events[..n]);
      if id in Project(events[..n]).value.activities { ApplyFollows(Project(events[..n]).value, events[n], id); }
    }
  }

  /** Following parents from any activity strictly descends the planning order. */
  lemma ParentsDescend(events: seq<Event>, k: nat)
    requires Project(events).Some? && k < |Project(events).value.order|
    ensures var p := Project(events).value; var id := p.order[k];
      id in p.activities && (p.activities[id].parent != "" ==>
        exists j :: 0 <= j < k && p.order[j] == p.activities[id].parent)
  {
    IndexIsExact(events);
    var p := Project(events).value;
    assert p.order[k] in p.order;
    if p.activities[p.order[k]].parent != "" {
      assert p.activities[p.order[k]].parent in p.order[..k];
    }
  }
}
