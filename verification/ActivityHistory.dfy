/** What the activity projector accepts and records, told by the history of each
    activity alone: the last event that moved it decides what may come next. */
module ActivityHistory {
  import opened Journals
  import opened ActivityProjection

  predicate Moves(f: Fact) { f.ActivityPlanned? || f.ActivityAuthorized? || f.ActivityStarted? || f.ActivityEnded? }

  /** The last event that moved the activity. */
  function LastMove(events: seq<Event>, id: string): Option<Event> {
    if events == [] then None
    else
      var last := events[|events| - 1];
      if Moves(last.fact) && last.activity == id then Some(last) else LastMove(events[..|events| - 1], id)
  }

  /** What an activity may do next. A start carries the decision last recorded for it. */
  predicate MayFollow(last: Fact, next: Fact, id: string) {
    match next
    case ActivityAuthorized(_) => last.ActivityPlanned?
    case ActivityStarted(named, _, binding) => named == id && last == ActivityAuthorized(binding)
    case ActivityEnded(to, reported, _) =>
      && reported == to
      && match last {
        case ActivityPlanned(_, _, _, _, _) => to == Denied || to == Cancelled
        case ActivityAuthorized(_) => to == Cancelled
        case ActivityStarted(_, _, _) => to == Succeeded || to == Failed || to == InterruptedNoEffect || to == Uncertain
        case _ => false
      }
    case _ => true
  }

  /** The event is in order after the events before it. */
  predicate Lawful(before: seq<Event>, e: Event) {
    var last := LastMove(before, e.activity);
    match e.fact
    case ActivityPlanned(parent, _, _, _, _) =>
      e.activity != "" && last.None? && (parent != "" ==> LastMove(before, parent).Some?)
    case EvidenceLinked(relation, _) => e.activity != "" && last.Some? && relation != OtherRelation
    case ActivityAuthorized(_) => last.Some? && MayFollow(last.value.fact, e.fact, e.activity)
    case ActivityStarted(_, _, _) => last.Some? && MayFollow(last.value.fact, e.fact, e.activity)
    case ActivityEnded(_, _, _) => last.Some? && MayFollow(last.value.fact, e.fact, e.activity)
    case _ => true
  }

  ghost predicate AllLawful(events: seq<Event>) { forall k :: 0 <= k < |events| ==> Lawful(events[..k], events[k]) }

  /** The record says what the last move said. */
  predicate Tells(last: Fact, a: Activity) {
    match last
    case ActivityPlanned(_, _, _, _, _) => a.status == Planned && a.decision == None
    case ActivityAuthorized(decision) => a.status == Authorized && a.decision == Some(decision)
    case ActivityStarted(_, _, binding) => a.status == Started && a.decision == Some(binding)
    case ActivityEnded(to, _, _) => a.status == to && Terminal(to)
    case _ => false
  }

  ghost predicate Reflects(events: seq<Event>, p: Projection) {
    && (forall id :: id in p.activities <==> LastMove(events, id).Some?)
    && (forall id :: id in p.activities ==> Tells(LastMove(events, id).value.fact, p.activities[id]))
  }

  lemma MoveSnoc(events: seq<Event>, e: Event, id: string)
    ensures LastMove(events + [e], id) == if Moves(e.fact) && e.activity == id then Some(e) else LastMove(events, id)
  {
    assert (events + [e])[..|events|] == events;
  }

  lemma ProjectSnoc(events: seq<Event>, e: Event)
    ensures Project(events + [e]) == if Project(events).None? then None else Apply(Project(events).value, e)
  {
    assert (events + [e])[..|events|] == events;
  }

  // ---- one event ----

  lemma PlanReflects(events: seq<Event>, p: Projection, e: Event)
    requires Inv(p) && Reflects(events, p) && e.fact.ActivityPlanned?
    ensures Apply(p, e).Some? <==> Lawful(events, e)
    ensures Apply(p, e).Some? ==> Reflects(events + [e], Apply(p, e).value)
  {
    var f := e.fact;
    if Apply(p, e).Some? {
      var a := Activity(e.activity, f.parent, f.kind, f.purpose, Planned, f.inputs, [], None, []);
      forall id ensures id in p.activities[a.id := a] ==>
        && id in Apply(p, e).value.activities
        && Tells(LastMove(events + [e], id).value.fact, Apply(p, e).value.activities[id])
      {
        MoveSnoc(events, e, id);
        if id in p.activities[a.id := a] { UpdateShape(p.activities[a.id := a], a, id); }
      }
      forall id ensures LastMove(events + [e], id).Some? <==> id in p.activities || id == a.id {
        MoveSnoc(events, e, id);
      }
    }
  }

  lemma LinkReflects(events: seq<Event>, p: Projection, e: Event)
    requires Inv(p) && Reflects(events, p) && e.fact.EvidenceLinked?
    ensures Apply(p, e).Some? <==> Lawful(events, e)
    ensures Apply(p, e).Some? ==> Reflects(events + [e], Apply(p, e).value)
  {
    if Apply(p, e).Some? {
      var q := Apply(p, e).value;
      assert p.activities[e.activity].id == e.activity;
      forall id ensures
        && (id in q.activities <==> LastMove(events + [e], id).Some?)
        && (id in p.activities ==> Tells(LastMove(events + [e], id).value.fact, q.activities[id]))
      {
        MoveSnoc(events, e, id);
      }
    }
  }

  lemma RevisionIff(last: Fact, a: Activity, e: Event)
    requires Tells(last, a) && (e.fact.ActivityAuthorized? || e.fact.ActivityStarted? || e.fact.ActivityEnded?)
    ensures RevisionOf(a, e).Some? <==> MayFollow(last, e.fact, e.activity)
    ensures RevisionOf(a, e).Some? ==> Tells(e.fact, RevisionOf(a, e).value)
  {
  }

  lemma RevisedReflects(events: seq<Event>, p: Projection, e: Event, id: string)
    requires Inv(p) && Reflects(events, p) && Moves(e.fact) && Revised(p, e).Some?
    requires Tells(e.fact, Revised(p, e).value)
    ensures var q := Transition(p, Revised(p, e).value);
      && (id in q.activities <==> LastMove(events + [e], id).Some?)
      && (id in q.activities ==> Tells(LastMove(events + [e], id).value.fact, q.activities[id]))
  {
    RevisedIsRevision(p, e);
    MoveSnoc(events, e, id);
    if id in p.activities { TransitionShape(p, Revised(p, e).value, id); }
  }

  lemma ReviseReflects(events: seq<Event>, p: Projection, e: Event)
    requires Inv(p) && Reflects(events, p)
    requires e.fact.ActivityAuthorized? || e.fact.ActivityStarted? || e.fact.ActivityEnded?
    ensures Apply(p, e).Some? <==> Lawful(events, e)
    ensures Apply(p, e).Some? ==> Reflects(events + [e], Apply(p, e).value)
  {
    assert Apply(p, e) == Revise(p, Revised(p, e));
    if e.activity in p.activities {
      RevisionIff(LastMove(events, e.activity).value.fact, p.activities[e.activity], e);
    }
    if Revised(p, e).Some? {
      var q := Transition(p, Revised(p, e).value);
      forall id ensures
        && (id in q.activities <==> LastMove(events + [e], id).Some?)
        && (id in q.activities ==> Tells(LastMove(events + [e], id).value.fact, q.activities[id]))
      {
        RevisedReflects(events, p, e, id);
      }
    }
  }

  lemma StepReflects(events: seq<Event>, p: Projection, e: Event)
    requires Inv(p) && Reflects(events, p)
    ensures Apply(p, e).Some? <==> Lawful(events, e)
    ensures Apply(p, e).Some? ==> Reflects(events + [e], Apply(p, e).value)
  {
    if e.fact.ActivityPlanned? {
      PlanReflects(events, p, e);
    } else if e.fact.EvidenceLinked? {
      LinkReflects(events, p, e);
    } else if e.fact.ActivityAuthorized? || e.fact.ActivityStarted? || e.fact.ActivityEnded? {
      ReviseReflects(events, p, e);
    } else {
      forall id ensures LastMove(events + [e], id) == LastMove(events, id) { MoveSnoc(events, e, id); }
    }
  }

  // ---- whole journals ----

  lemma LawfulSnoc(events: seq<Event>, e: Event)
    ensures AllLawful(events + [e]) <==> AllLawful(events) && Lawful(events, e)
  {
    var longer := events + [e];
    assert longer[..|events|] == events;
    assert forall k :: 0 <= k < |events| ==> longer[..k] == events[..k] && longer[k] == events[k];
    if AllLawful(longer) { assert Lawful(longer[..|events|], longer[|events|]); }
    if AllLawful(longer) {
      forall k | 0 <= k < |events| ensures Lawful(events[..k], events[k]) { assert Lawful(longer[..k], longer[k]); }
    }
  }

  /** A journal is accepted exactly if every event is in order after those before it, and
      then each record tells what the last move of its activity said. */
  lemma {:induction false} AcceptedIff(events: seq<Event>)
    ensures Project(events).Some? <==> AllLawful(events)
    ensures Project(events).Some? ==> Reflects(events, Project(events).value)
  {
    if events == [] {
    } else {
      var n := |events| - 1;
      var front, e := events[..n], events[n];
      assert events == front + [e];
      AcceptedIff(front);
      LawfulSnoc(front, e);
      ProjectSnoc(front, e);
      if Project(front).Some? {
        IndexIsExact(front);
        StepReflects(front, Project(front).value, e);
      }
    }
  }

  // ---- what a record holds besides ----

  /** Event `k` planned the activity as the record says. */
  predicate PlannedAs(events: seq<Event>, k: int, id: string, a: Activity) {
    && 0 <= k < |events| && events[k].activity == id && events[k].fact.ActivityPlanned?
    && var f := events[k].fact; a.id == id && a.parent == f.parent && a.kind == f.kind && a.detail == f.purpose
  }

  predicate GivenInput(events: seq<Event>, k: int, id: string, x: string) {
    && 0 <= k < |events| && events[k].activity == id
    && (events[k].fact == EvidenceLinked(Input, x)
        || (events[k].fact.ActivityPlanned? && x in events[k].fact.inputs))
  }

  /** Event `k` gave the activity an output, and no later end replaced its outputs. */
  predicate GivenOutput(events: seq<Event>, k: int, id: string, x: string) {
    && 0 <= k < |events| && events[k].activity == id
    && (events[k].fact == EvidenceLinked(Output, x)
        || (events[k].fact.ActivityEnded? && x in events[k].fact.outputs))
    && forall j :: k < j < |events| && events[j].activity == id ==> !events[j].fact.ActivityEnded?
  }

  ghost predicate Documents(events: seq<Event>, id: string, a: Activity) {
    && (exists k :: PlannedAs(events, k, id, a))
    && (forall x :: x in a.inputs <==> exists k :: GivenInput(events, k, id, x))
    && (forall x :: x in a.outputs <==> exists k :: GivenOutput(events, k, id, x))
  }

  predicate SameDocuments(a: Activity, b: Activity) {
    && a.id == b.id && a.parent == b.parent && a.kind == b.kind && a.detail == b.detail
    && a.inputs == b.inputs && a.outputs == b.outputs
  }

  lemma InputsSnoc(events: seq<Event>, e: Event, id: string, x: string)
    ensures (exists k :: GivenInput(events + [e], k, id, x)) <==>
      (exists k :: GivenInput(events, k, id, x)) || GivenInput([e], 0, id, x)
  {
    var longer := events + [e];
    if k :| GivenInput(longer, k, id, x) {
      if k < |events| { assert GivenInput(events, k, id, x); }
    }
    if k :| GivenInput(events, k, id, x) { assert GivenInput(longer, k, id, x); }
    if GivenInput([e], 0, id, x) { assert GivenInput(longer, |events|, id, x); }
  }

  lemma OutputsSnoc(events: seq<Event>, e: Event, id: string, x: string)
    ensures (exists k :: GivenOutput(events + [e], k, id, x)) <==>
      ((exists k :: GivenOutput(events, k, id, x)) && !(e.activity == id && e.fact.ActivityEnded?))
      || GivenOutput([e], 0, id, x)
  {
    var longer, n := events + [e], |events|;
    assert longer[n] == e;
    if k :| GivenOutput(longer, k, id, x) {
      if k < n {
        assert forall j :: 0 <= j < n ==> events[j] == longer[j];
        assert GivenOutput(events, k, id, x);
      }
    }
    if !(e.activity == id && e.fact.ActivityEnded?) {
      if k :| GivenOutput(events, k, id, x) { assert GivenOutput(longer, k, id, x); }
    }
    if GivenOutput([e], 0, id, x) { assert GivenOutput(longer, n, id, x); }
  }

  lemma PlannedStays(events: seq<Event>, e: Event, id: string, a: Activity, b: Activity)
    requires (exists k :: PlannedAs(events, k, id, a))
    requires a.id == b.id && a.parent == b.parent && a.kind == b.kind && a.detail == b.detail
    ensures exists k :: PlannedAs(events + [e], k, id, b)
  {
    var k :| PlannedAs(events, k, id, a);
    assert PlannedAs(events + [e], k, id, b);
  }

  /** An event that is not about the activity's evidence changes nothing it documents. */
  lemma DocumentsStay(events: seq<Event>, e: Event, id: string, a: Activity, b: Activity)
    requires Documents(events, id, a) && SameDocuments(a, b)
    requires e.activity == id ==>
      !e.fact.ActivityPlanned? && !e.fact.ActivityEnded? && !e.fact.EvidenceLinked?
    ensures Documents(events + [e], id, b)
  {
    PlannedStays(events, e, id, a, b);
    forall x ensures x in b.inputs <==> exists k :: GivenInput(events + [e], k, id, x) { InputsSnoc(events, e, id, x); }
    forall x ensures x in b.outputs <==> exists k :: GivenOutput(events + [e], k, id, x) {
      OutputsSnoc(events, e, id, x);
    }
  }

  lemma EndDocuments(events: seq<Event>, e: Event, id: string, a: Activity, b: Activity)
    requires Documents(events, id, a) && e.activity == id && e.fact.ActivityEnded?
    requires SameDocuments(a.(outputs := e.fact.outputs), b)
    ensures Documents(events + [e], id, b)
  {
    PlannedStays(events, e, id, a, b);
    forall x ensures x in b.inputs <==> exists k :: GivenInput(events + [e], k, id, x) { InputsSnoc(events, e, id, x); }
    forall x ensures x in b.outputs <==> exists k :: GivenOutput(events + [e], k, id, x) {
      OutputsSnoc(events, e, id, x);
    }
  }

  lemma LinkDocuments(events: seq<Event>, e: Event, id: string, a: Activity)
    requires Documents(events, id, a) && e.activity == id && e.fact.EvidenceLinked?
    requires e.fact.relation != OtherRelation
    ensures Documents(events + [e], id, Linked(a, e.fact.relation, e.fact.evidence))
  {
    var b := Linked(a, e.fact.relation, e.fact.evidence);
    PlannedStays(events, e, id, a, b);
    forall x ensures x in b.inputs <==> exists k :: GivenInput(events + [e], k, id, x) { InputsSnoc(events, e, id, x); }
    forall x ensures x in b.outputs <==> exists k :: GivenOutput(events + [e], k, id, x) {
      OutputsSnoc(events, e, id, x);
    }
  }

  /** Evidence an activity has is not listed again. */
  lemma LinkedOnce(a: Activity, x: string)
    ensures x in a.inputs ==> Linked(a, Input, x) == a
    ensures x in a.outputs ==> Linked(a, Output, x) == a
    ensures x !in a.inputs ==> Linked(a, Input, x) == a.(inputs := a.inputs + [x])
    ensures x !in a.outputs ==> Linked(a, Output, x) == a.(outputs := a.outputs + [x])
  {
  }

  /** No event of a journal mentions an activity that was not planned. */
  ghost predicate Unmentioned(events: seq<Event>, id: string) {
    forall k :: 0 <= k < |events| && events[k].activity == id ==>
      !Moves(events[k].fact) && !events[k].fact.EvidenceLinked?
  }

  lemma {:induction false} NeverMoved(events: seq<Event>, id: string)
    requires AllLawful(events) && LastMove(events, id).None?
    ensures Unmentioned(events, id)
  {
    if events == [] {
    } else {
      var n := |events| - 1;
      assert events == events[..n] + [events[n]];
      LawfulSnoc(events[..n], events[n]);
      NeverMoved(events[..n], id);
      forall k | 0 <= k < |events| && events[k].activity == id
        ensures !Moves(events[k].fact) && !events[k].fact.EvidenceLinked?
      {
        if k < n { assert events[..n][k] == events[k]; }
      }
    }
  }

  lemma PlanDocuments(events: seq<Event>, e: Event, a: Activity)
    requires Unmentioned(events, e.activity) && e.fact.ActivityPlanned?
    requires var f := e.fact;
      a.id == e.activity && a.parent == f.parent && a.kind == f.kind && a.detail == f.purpose && a.inputs == f.inputs
    requires a.outputs == []
    ensures Documents(events + [e], e.activity, a)
  {
    var id := e.activity;
    assert PlannedAs(events + [e], |events|, id, a);
    forall x ensures x in a.inputs <==> exists k :: GivenInput(events + [e], k, id, x) { InputsSnoc(events, e, id, x); }
    forall x ensures x in a.outputs <==> exists k :: GivenOutput(events + [e], k, id, x) {
      OutputsSnoc(events, e, id, x);
    }
  }

  lemma StepDocuments(events: seq<Event>, e: Event, id: string)
    requires Project(events + [e]).Some? && Project(events).Some? && id in Project(events + [e]).value.activities
    requires id in Project(events).value.activities ==> Documents(events, id, Project(events).value.activities[id])
    ensures Documents(events + [e], id, Project(events + [e]).value.activities[id])
  {
    var p, f := Project(events).value, e.fact;
    ProjectSnoc(events, e);
    IndexIsExact(events);
    var q := Apply(p, e).value;
    if f.ActivityPlanned? {
      var a := Activity(e.activity, f.parent, f.kind, f.purpose, Planned, f.inputs, [], None, []);
      UpdateShape(p.activities[a.id := a], a, id);
      if id == e.activity {
        AcceptedIff(events);
        NeverMoved(events, id);
        PlanDocuments(events, e, q.activities[id]);
      } else {
        DocumentsStay(events, e, id, p.activities[id], q.activities[id]);
      }
    } else if f.EvidenceLinked? {
      assert p.activities[e.activity].id == e.activity;
      if id == e.activity {
        LinkDocuments(events, e, id, p.activities[id]);
      } else {
        DocumentsStay(events, e, id, p.activities[id], q.activities[id]);
      }
    } else if f.ActivityAuthorized? || f.ActivityStarted? || f.ActivityEnded? {
      RevisedIsRevision(p, e);
      TransitionShape(p, Revised(p, e).value, id);
      if id == e.activity && f.ActivityEnded? {
        EndDocuments(events, e, id, p.activities[id], q.activities[id]);
      } else {
        DocumentsStay(events, e, id, p.activities[id], q.activities[id]);
      }
    } else {
      DocumentsStay(events, e, id, p.activities[id], q.activities[id]);
    }
  }

  /** Each record documents its activity: how it was planned, every input it was given, and
      the outputs given at its end and after. */
  lemma {:induction false} RecordsDocument(events: seq<Event>, id: string)
    requires Project(events).Some? && id in Project(events).value.activities
    ensures Documents(events, id, Project(events).value.activities[id])
  {
    if events == [] {
    } else {
      var n := |events| - 1;
      assert events == events[..n] + [events[n]];
      ProjectSnoc(events[..n], events[n]);
      if id in Project(events[..n]).value.activities { RecordsDocument(events[..n], id); }
      StepDocuments(events[..n], events[n], id);
    }
  }
}
