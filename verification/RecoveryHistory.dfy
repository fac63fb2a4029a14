/** What recovery reads and what it records, told by the journal before and after. */
module RecoveryHistory {
  import opened Journals
  import opened ActivityProjection
  import opened ActivityHistory
  import opened Recovery

  // ---- the outcomes recorded ----

  lemma {:induction false} MoveAfter(events: seq<Event>, more: seq<Event>, id: string)
    ensures LastMove(events + more, id) == if LastMove(more, id).Some? then LastMove(more, id) else LastMove(events, id)
  {
    if more == [] {
      assert events + more == events;
    } else {
      var n := |more| - 1;
      MoveAfter(events, more[..n], id);
      assert events + more == (events + more[..n]) + [more[n]] && more == more[..n] + [more[n]];
      MoveSnoc(events + more[..n], more[n], id);
      MoveSnoc(more[..n], more[n], id);
    }
  }

  /** The event that ends an activity with what the probe says of it. */
  predicate EndsAs(e: Event, v: View, id: string, probe: string -> bool) {
    && e.activity == id && e.task == v.task && e.turn == v.turn && e.fact.ActivityEnded?
    && e.fact.to == (if probe(id) then InterruptedNoEffect else Uncertain)
    && e.fact.reported == e.fact.to && e.fact.outputs == []
  }

  lemma CloseOneMoves(v: View, id: string, probe: string -> bool, other: string)
    ensures var moved := LastMove(CloseOne(v, id, probe), other);
      (moved.Some? <==> other == id) && (moved.Some? ==> EndsAs(moved.value, v, id, probe))
  {
    var one := CloseOne(v, id, probe);
    var end := one[|one| - 1];
    assert one == one[..|one| - 1] + [end];
    MoveSnoc(one[..|one| - 1], end, other);
    MoveAfter([], one[..|one| - 1], other);
    if id in v.visible {
      assert one[..1] == [one[0]];
      MoveSnoc([], one[0], other);
      assert [] + [one[0]] == [one[0]];
    }
  }

  lemma {:induction false} CloseAllMoves(v: View, listed: seq<string>, probe: string -> bool, id: string)
    ensures var moved := LastMove(CloseAll(v, listed, probe), id);
      (moved.Some? <==> id in listed) && (moved.Some? ==> EndsAs(moved.value, v, id, probe))
  {
    if listed == [] {
    } else {
      var n := |listed| - 1;
      CloseAllMoves(v, listed[..n], probe, id);
      CloseOneMoves(v, listed[n], probe, id);
      MoveAfter(CloseAll(v, listed[..n], probe), CloseOne(v, listed[n], probe), id);
      assert listed == listed[..n] + [listed[n]];
    }
  }

  lemma {:induction false} NothingMoves(events: seq<Event>, id: string)
    requires forall k :: 0 <= k < |events| ==> !Moves(events[k].fact)
    ensures LastMove(events, id).None?
  {
    if events == [] {
    } else {
      NothingMoves(events[..|events| - 1], id);
    }
  }

  lemma TurnMovesNothing(v: View, listed: seq<string>, diagnostic: bool, receiptSeq: nat, id: string)
    ensures LastMove(CloseTurn(v, listed, diagnostic, receiptSeq), id).None?
  {
    var tail := TurnTail(v, listed, diagnostic, receiptSeq);
    assert forall k :: 0 <= k < |tail| ==> !Moves(tail[k].fact);
    NothingMoves([About(v, "", TurnEnded)] + tail, id);
  }

  lemma BatchMoves(v: View, listed: seq<string>, probe: string -> bool, diagnostic: bool, receiptSeq: nat, id: string)
    ensures var moved := LastMove(Batch(v, listed, probe, diagnostic, receiptSeq), id);
      (moved.Some? <==> id in listed) && (moved.Some? ==> EndsAs(moved.value, v, id, probe))
  {
    CloseAllMoves(v, listed, probe, id);
    TurnMovesNothing(v, listed, diagnostic, receiptSeq, id);
    MoveAfter(CloseAll(v, listed, probe), CloseTurn(v, listed, diagnostic, receiptSeq), id);
  }

  /** The status an activity's last move leaves it in. */
  function StatusOf(f: Fact): Status
    requires Moves(f)
  {
    match f
    case ActivityPlanned(_, _, _, _, _) => Planned
    case ActivityAuthorized(_) => Authorized
    case ActivityStarted(_, _, _) => Started
    case ActivityEnded(to, _, _) => to
  }

  lemma StatusTold(events: seq<Event>, id: string)
    requires Project(events).Some?
    ensures id in Project(events).value.activities <==> LastMove(events, id).Some?
    ensures LastMove(events, id).Some? ==>
      && Moves(LastMove(events, id).value.fact)
      && Project(events).value.activities[id].status == StatusOf(LastMove(events, id).value.fact)
  {
    AcceptedIff(events);
  }

  lemma ListedStarted(journal: string, events: seq<Event>, listed: seq<string>, id: string)
    requires Inspected(journal, events).Some? && Project(events).Some?
    requires Lists(listed, Inspected(journal, events).value.started)
    ensures id in listed <==>
      id in Project(events).value.activities && Project(events).value.activities[id].status == Started
  {
    ReadingsAgree(journal, events);
  }

  /** Once the batch is committed, each activity that was started is known to have had no
      effect if the probe proves it and is uncertain otherwise; no other changes. */
  lemma OutcomesRecorded(journal: string, events: seq<Event>, listed: seq<string>, probe: string -> bool,
          diagnostic: bool, receiptSeq: nat, batch: seq<Event>, id: string)
    requires Inspected(journal, events).Some? && Project(events).Some?
    requires Lists(listed, Inspected(journal, events).value.started)
    requires batch == Batch(Inspected(journal, events).value, listed, probe, diagnostic, receiptSeq)
    ensures Project(events + batch).Some?
    ensures var before, after := Project(events).value.activities, Project(events + batch).value.activities;
      && (id in after <==> id in before)
      && (id in before && before[id].status == Started ==>
        after[id].status == if probe(id) then InterruptedNoEffect else Uncertain)
      && (id in before && before[id].status != Started ==> after[id].status == before[id].status)
  {
    var v := Inspected(journal, events).value;
    RecoveryCloses(journal, events, listed, probe, diagnostic, receiptSeq, batch);
    ListedStarted(journal, events, listed, id);
    StatusTold(events, id);
    StatusTold(events + batch, id);
    BatchMoves(v, listed, probe, diagnostic, receiptSeq, id);
    MoveAfter(events, batch, id);
  }

  // ---- the results recorded ----

  /** The message that gives the activity's call the outcome of the event after it. */
  predicate Answers(message: Event, end: Event, v: View) {
    && message.fact.ToolMessage? && end.fact.ActivityEnded? && message.activity == end.activity
    && message.task == v.task && message.turn == v.turn
    && message.activity in v.visible && message.fact.call == v.visible[message.activity]
    && message.fact.outcome == end.fact.to
  }

  /** Each end is of a listed activity, and a visible call is answered directly before. */
  predicate EndListed(batch: seq<Event>, v: View, listed: seq<string>, probe: string -> bool, k: nat)
    requires k < |batch|
  {
    && batch[k].activity in listed && EndsAs(batch[k], v, batch[k].activity, probe)
    && (batch[k].activity in v.visible ==> k > 0 && Answers(batch[k - 1], batch[k], v))
  }

  ghost predicate EndsListed(batch: seq<Event>, v: View, listed: seq<string>, probe: string -> bool) {
    forall k :: 0 <= k < |batch| && batch[k].fact.ActivityEnded? ==> EndListed(batch, v, listed, probe, k)
  }

  /** No activity ends twice. */
  predicate EndsApart(batch: seq<Event>) {
    forall j, k :: 0 <= j < k < |batch| && batch[j].fact.ActivityEnded? && batch[k].fact.ActivityEnded? ==>
      batch[j].activity != batch[k].activity
  }

  /** Each message answers the call of the activity that ends next. */
  predicate MessagesAnswer(batch: seq<Event>, v: View) {
    forall k :: 0 <= k < |batch| && batch[k].fact.ToolMessage? ==> k + 1 < |batch| && Answers(batch[k], batch[k + 1], v)
  }

  predicate EndsIn(batch: seq<Event>, v: View, id: string, probe: string -> bool) {
    exists k :: 0 <= k < |batch| && EndsAs(batch[k], v, id, probe)
  }

  ghost predicate EachOnce(batch: seq<Event>, v: View, listed: seq<string>, probe: string -> bool) {
    && EndsListed(batch, v, listed, probe) && EndsApart(batch) && MessagesAnswer(batch, v)
    && forall id :: id in listed ==> EndsIn(batch, v, id, probe)
  }

  lemma CloseOneShape(v: View, id: string, probe: string -> bool)
    ensures var one := CloseOne(v, id, probe);
      && EndsAs(one[|one| - 1], v, id, probe)
      && (if id in v.visible then |one| == 2 && Answers(one[0], one[1], v) else |one| == 1)
  {
  }

  lemma MoreEndsListed(batch: seq<Event>, v: View, listed: seq<string>, probe: string -> bool, id: string)
    requires EndsListed(batch, v, listed, probe)
    ensures EndsListed(batch + CloseOne(v, id, probe), v, listed + [id], probe)
  {
    var one, n := CloseOne(v, id, probe), |batch|;
    var longer := batch + one;
    CloseOneShape(v, id, probe);
    forall k | 0 <= k < |longer| && longer[k].fact.ActivityEnded?
      ensures EndListed(longer, v, listed + [id], probe, k)
    {
      if k < n {
        assert longer[k] == batch[k] && EndListed(batch, v, listed, probe, k);
        if k > 0 { assert longer[k - 1] == batch[k - 1]; }
      } else {
        assert longer[k] == one[k - n] && k == |longer| - 1;
        if id in v.visible { assert longer[k - 1] == one[0]; }
      }
    }
  }

  lemma MoreEndsApart(batch: seq<Event>, v: View, listed: seq<string>, probe: string -> bool, id: string)
    requires EndsListed(batch, v, listed, probe) && EndsApart(batch) && id !in listed
    ensures EndsApart(batch + CloseOne(v, id, probe))
  {
    var one, n := CloseOne(v, id, probe), |batch|;
    CloseOneShape(v, id, probe);
    assert forall k :: 0 <= k < |one| && one[k].fact.ActivityEnded? ==> k == |one| - 1 && one[k].activity == id;
  }

  lemma MoreAnswers(batch: seq<Event>, v: View, id: string, probe: string -> bool)
    requires MessagesAnswer(batch, v)
    ensures MessagesAnswer(batch + CloseOne(v, id, probe), v)
  {
    var one, n := CloseOne(v, id, probe), |batch|;
    var longer := batch + one;
    CloseOneShape(v, id, probe);
    forall k | 0 <= k < |longer| && longer[k].fact.ToolMessage?
      ensures k + 1 < |longer| && Answers(longer[k], longer[k + 1], v)
    {
      if k < n {
        assert longer[k] == batch[k] && longer[k + 1] == batch[k + 1];
      } else {
        assert longer[k] == one[k - n] && k == n && longer[k + 1] == one[1];
      }
    }
  }

  lemma StillEnds(batch: seq<Event>, more: seq<Event>, v: View, id: string, probe: string -> bool)
    requires EndsIn(batch, v, id, probe)
    ensures EndsIn(batch + more, v, id, probe)
  {
    var k :| 0 <= k < |batch| && EndsAs(batch[k], v, id, probe);
    assert EndsAs((batch + more)[k], v, id, probe);
  }

  lemma OneMoreEnds(batch: seq<Event>, v: View, listed: seq<string>, probe: string -> bool, id: string)
    requires EachOnce(batch, v, listed, probe) && id !in listed
    ensures EachOnce(batch + CloseOne(v, id, probe), v, listed + [id], probe)
  {
    var one := CloseOne(v, id, probe);
    MoreEndsListed(batch, v, listed, probe, id);
    MoreEndsApart(batch, v, listed, probe, id);
    MoreAnswers(batch, v, id, probe);
    forall x | x in listed + [id] ensures EndsIn(batch + one, v, x, probe) {
      if x in listed {
        StillEnds(batch, one, v, x, probe);
      } else {
        CloseOneShape(v, id, probe);
        assert x == id && (batch + one)[|batch| + |one| - 1] == one[|one| - 1];
      }
    }
  }

  lemma {:induction false} AllEnd(v: View, listed: seq<string>, probe: string -> bool)
    requires forall i, j :: 0 <= i < j < |listed| ==> listed[i] != listed[j]
    ensures EachOnce(CloseAll(v, listed, probe), v, listed, probe)
  {
    if listed == [] {
    } else {
      var n := |listed| - 1;
      AllEnd(v, listed[..n], probe);
      OneMoreEnds(CloseAll(v, listed[..n], probe), v, listed[..n], probe, listed[n]);
      assert listed == listed[..n] + [listed[n]];
    }
  }

  lemma TailEndsNothing(batch: seq<Event>, v: View, listed: seq<string>, probe: string -> bool, tail: seq<Event>)
    requires EachOnce(batch, v, listed, probe)
    requires forall k :: 0 <= k < |tail| ==> !tail[k].fact.ActivityEnded? && !tail[k].fact.ToolMessage?
    ensures EachOnce(batch + tail, v, listed, probe)
  {
    var longer := batch + tail;
    assert forall k :: 0 <= k < |batch| ==> longer[k] == batch[k];
    assert forall k :: |batch| <= k < |longer| ==> longer[k] == tail[k - |batch|];
    forall k | 0 <= k < |longer| && longer[k].fact.ActivityEnded?
      ensures EndListed(longer, v, listed, probe, k)
    {
      assert longer[k] == batch[k] && EndListed(batch, v, listed, probe, k);
      if k > 0 { assert longer[k - 1] == batch[k - 1]; }
    }
    forall id | id in listed ensures EndsIn(longer, v, id, probe) { StillEnds(batch, tail, v, id, probe); }
  }

  /** In the batch every started activity ends once, and every call the provider saw is
      answered once, directly before its activity's end, with the same outcome. */
  lemma ResultsRecorded(v: View, listed: seq<string>, probe: string -> bool, diagnostic: bool, receiptSeq: nat)
    requires Lists(listed, v.started)
    ensures EachOnce(Batch(v, listed, probe, diagnostic, receiptSeq), v, listed, probe)
  {
    AllEnd(v, listed, probe);
    TailEndsNothing(CloseAll(v, listed, probe), v, listed, probe, CloseTurn(v, listed, diagnostic, receiptSeq));
  }

  // ---- what was read ----

  /** The last event of a kind. */
  function Last(events: seq<Event>, kind: Event -> bool): Option<Event> {
    if events == [] then None
    else if kind(events[|events| - 1]) then Some(events[|events| - 1])
    else Last(events[..|events| - 1], kind)
  }

  predicate NamesTask(e: Event) { e.fact.TaskCreated? || e.fact.TurnAccepted? }

  predicate OpensTurn(e: Event) { e.fact.TurnAccepted? }

  predicate AcceptsCommand(e: Event) { e.fact.CommandAccepted? }

  /** The turn was opened again or ended. */
  predicate Touches(turn: string, e: Event) { e.fact.TurnAccepted? || (e.fact.TurnEnded? && e.turn == turn) }

  predicate HandsOver(child: string, e: Event) { e.fact.ManifestFor? && e.fact.child == child }

  ghost predicate TaskTells(events: seq<Event>, v: View) {
    v.task == match Last(events, NamesTask) { case None => "" case Some(e) => e.task }
  }

  ghost predicate CommandTells(events: seq<Event>, v: View) {
    match Last(events, AcceptsCommand)
    case None => v.command == "" && v.digest == ""
    case Some(e) => e.fact == CommandAccepted(v.command, v.digest)
  }

  ghost predicate ManifestTells(journal: string, events: seq<Event>, v: View) {
    match Last(events, e => HandsOver(journal, e))
    case None => v.manifest == None
    case Some(e) => v.manifest.Some? && e.fact == ManifestFor(journal, v.manifest.value.task, v.manifest.value.turn)
  }

  /** A turn that ended since it was opened is gone. */
  ghost predicate TurnTells(events: seq<Event>, v: View) {
    match Last(events, OpensTurn)
    case None => v.turn == ""
    case Some(e) =>
      var touched := Last(events, x => Touches(e.turn, x));
      touched.Some? && v.turn == if touched.value.fact.TurnEnded? then "" else e.turn
  }

  lemma LastSnoc(events: seq<Event>, e: Event, kind: Event -> bool)
    ensures Last(events + [e], kind) == if kind(e) then Some(e) else Last(events, kind)
  {
    assert (events + [e])[..|events|] == events;
  }

  lemma SeenTask(journal: string, events: seq<Event>, v: View, e: Event)
    requires TaskTells(events, v) && See(v, journal, e).Some?
    ensures TaskTells(events + [e], See(v, journal, e).value)
  {
    LastSnoc(events, e, NamesTask);
  }

  lemma SeenCommand(journal: string, events: seq<Event>, v: View, e: Event)
    requires CommandTells(events, v) && See(v, journal, e).Some?
    ensures CommandTells(events + [e], See(v, journal, e).value)
  {
    LastSnoc(events, e, AcceptsCommand);
  }

  lemma SeenManifest(journal: string, events: seq<Event>, v: View, e: Event)
    requires ManifestTells(journal, events, v) && See(v, journal, e).Some?
    ensures ManifestTells(journal, events + [e], See(v, journal, e).value)
  {
    LastSnoc(events, e, x => HandsOver(journal, x));
  }

  lemma SeenTurn(journal: string, events: seq<Event>, v: View, e: Event)
    requires TurnTells(events, v) && See(v, journal, e).Some?
    ensures TurnTells(events + [e], See(v, journal, e).value)
  {
    LastSnoc(events, e, OpensTurn);
    if Last(events + [e], OpensTurn).Some? {
      var turn := Last(events + [e], OpensTurn).value.turn;
      LastSnoc(events, e, x => Touches(turn, x));
    }
  }

  /** Task, turn, command and manifest are those the journal spoke of last. */
  lemma {:induction false} HeaderIs(journal: string, events: seq<Event>)
    requires Inspected(journal, events).Some?
    ensures var v := Inspected(journal, events).value;
      TaskTells(events, v) && CommandTells(events, v) && ManifestTells(journal, events, v) && TurnTells(events, v)
  {
    if events == [] {
    } else {
      var n := |events| - 1;
      var v, e := Inspected(journal, events[..n]).value, events[n];
      HeaderIs(journal, events[..n]);
      assert events == events[..n] + [e];
      SeenTask(journal, events[..n], v, e);
      SeenCommand(journal, events[..n], v, e);
      SeenManifest(journal, events[..n], v, e);
      SeenTurn(journal, events[..n], v, e);
    }
  }

  // ---- which activities, and which of them the provider saw ----

  predicate IsToolPlan(f: Fact) { f.ActivityPlanned? && f.kind == "tool" && f.purpose != "tool preview" }

  predicate PlannedTool(events: seq<Event>, id: string) {
    exists k :: 0 <= k < |events| && events[k].activity == id && IsToolPlan(events[k].fact)
  }

  predicate PlannedCall(events: seq<Event>, id: string, call: string) {
    exists k :: 0 <= k < |events| && events[k].activity == id && IsToolPlan(events[k].fact)
      && events[k].fact.plannedCall == Some(call)
  }

  predicate StartedWith(events: seq<Event>, id: string, call: string) {
    exists k :: 0 <= k < |events| && events[k].activity == id && events[k].fact.ActivityStarted?
      && events[k].fact.call == call
  }

  predicate WithoutEffect(events: seq<Event>, id: string) {
    exists k :: 0 <= k < |events| && events[k].activity == id && events[k].fact.ActivityEnded?
      && events[k].fact.to == InterruptedNoEffect
  }

  /** Recovery can read the event: plans are named, and a start names its activity and its
      call, the planned one for a tool. */
  predicate Readable(before: seq<Event>, e: Event) {
    match e.fact
    case ActivityPlanned(_, kind, _, _, _) => e.activity != "" && kind != ""
    case ActivityStarted(named, call, _) =>
      && e.activity != "" && named == e.activity && call != ""
      && (PlannedTool(before, e.activity) ==> PlannedCall(before, e.activity, call))
    case _ => true
  }

  ghost predicate AllReadable(events: seq<Event>) {
    forall k :: 0 <= k < |events| ==> Readable(events[..k], events[k])
  }

  lemma ReadableSnoc(events: seq<Event>, e: Event)
    ensures AllReadable(events + [e]) <==> AllReadable(events) && Readable(events, e)
  {
    var longer, n := events + [e], |events|;
    assert longer[..n] == events && longer[n] == e;
    assert forall k :: 0 <= k < n ==> longer[..k] == events[..k] && longer[k] == events[k];
    if AllReadable(longer) {
      assert Readable(longer[..n], longer[n]);
      forall k | 0 <= k < n ensures Readable(events[..k], events[k]) { assert Readable(longer[..k], longer[k]); }
    }
  }

  lemma FactsSnoc(events: seq<Event>, e: Event, id: string, call: string)
    ensures PlannedTool(events + [e], id) <==> PlannedTool(events, id) || (e.activity == id && IsToolPlan(e.fact))
    ensures PlannedCall(events + [e], id, call) <==>
      PlannedCall(events, id, call) || (e.activity == id && IsToolPlan(e.fact) && e.fact.plannedCall == Some(call))
    ensures StartedWith(events + [e], id, call) <==>
      StartedWith(events, id, call) || (e.activity == id && e.fact.ActivityStarted? && e.fact.call == call)
    ensures WithoutEffect(events + [e], id) <==>
      WithoutEffect(events, id) || (e.activity == id && e.fact.ActivityEnded? && e.fact.to == InterruptedNoEffect)
  {
    var longer, n := events + [e], |events|;
    assert longer[n] == e;
    assert forall k :: 0 <= k < n ==> longer[k] == events[k];
  }

  /** What the view knows of one activity. */
  ghost predicate Sees(events: seq<Event>, v: View, id: string) {
    && (id in v.kinds <==> LastMove(events, id).Some?)
    && (id in v.kinds ==> (v.kinds[id] == ToolPlan <==> PlannedTool(events, id)))
    && (id !in v.kinds ==> !PlannedTool(events, id))
    && (forall call :: PlannedCall(events, id, call) <==> id in v.calls && v.calls[id] == call)
    && (id in v.started <==> LastMove(events, id).Some? && LastMove(events, id).value.fact.ActivityStarted?)
    && (id in v.noEffect <==> WithoutEffect(events, id))
    && (id in v.visible <==> id in v.started && PlannedTool(events, id))
    && (id in v.visible ==> v.visible[id] == LastMove(events, id).value.fact.call)
  }

  ghost predicate SeesAll(events: seq<Event>, v: View) { forall id :: Sees(events, v, id) }

  lemma SeeIff(journal: string, events: seq<Event>, v: View, e: Event)
    requires SeesAll(events, v) && Lawful(events, e)
    ensures See(v, journal, e).Some? <==> Readable(events, e)
  {
    assert Sees(events, v, e.activity);
    if e.fact.ActivityStarted? && e.activity in v.calls {
      assert PlannedCall(events, e.activity, v.calls[e.activity]);
    }
  }

  lemma CallsSnoc(events: seq<Event>, e: Event, id: string)
    ensures forall call :: PlannedCall(events + [e], id, call) <==>
      PlannedCall(events, id, call) || (e.activity == id && IsToolPlan(e.fact) && e.fact.plannedCall == Some(call))
  {
    forall call ensures PlannedCall(events + [e], id, call) <==>
      PlannedCall(events, id, call) || (e.activity == id && IsToolPlan(e.fact) && e.fact.plannedCall == Some(call))
    {
      FactsSnoc(events, e, id, call);
    }
  }

  /** What the view knows of one activity stays with events that do not move it. */
  lemma SeeElsewhere(journal: string, v: View, e: Event, id: string)
    requires See(v, journal, e).Some? && (e.activity != id || !Moves(e.fact))
    ensures var w := See(v, journal, e).value;
      && (id in w.kinds <==> id in v.kinds) && (id in v.kinds ==> w.kinds[id] == v.kinds[id])
      && (id in w.calls <==> id in v.calls) && (id in v.calls ==> w.calls[id] == v.calls[id])
      && (id in w.started <==> id in v.started) && (id in w.noEffect <==> id in v.noEffect)
      && (id in w.visible <==> id in v.visible) && (id in v.visible ==> w.visible[id] == v.visible[id])
  {
  }

  /** An event that is not about the activity. */
  lemma SeenOther(journal: string, events: seq<Event>, v: View, e: Event, id: string)
    requires Sees(events, v, id) && See(v, journal, e).Some?
    requires e.activity != id || !Moves(e.fact)
    ensures Sees(events + [e], See(v, journal, e).value, id)
  {
    MoveSnoc(events, e, id);
    FactsSnoc(events, e, id, "");
    CallsSnoc(events, e, id);
    SeeElsewhere(journal, v, e, id);
  }

  lemma SeenPlan(journal: string, events: seq<Event>, v: View, e: Event)
    requires Sees(events, v, e.activity) && Lawful(events, e) && See(v, journal, e).Some? && e.fact.ActivityPlanned?
    ensures Sees(events + [e], See(v, journal, e).value, e.activity)
  {
    MoveSnoc(events, e, e.activity);
    FactsSnoc(events, e, e.activity, "");
    CallsSnoc(events, e, e.activity);
    assert forall call :: !PlannedCall(events, e.activity, call);
  }

  lemma SeenStart(journal: string, events: seq<Event>, v: View, e: Event)
    requires Sees(events, v, e.activity) && Lawful(events, e) && See(v, journal, e).Some? && e.fact.ActivityStarted?
    ensures Sees(events + [e], See(v, journal, e).value, e.activity)
  {
    MoveSnoc(events, e, e.activity);
    FactsSnoc(events, e, e.activity, "");
    CallsSnoc(events, e, e.activity);
  }

  lemma SeenMove(journal: string, events: seq<Event>, v: View, e: Event)
    requires Sees(events, v, e.activity) && Lawful(events, e) && See(v, journal, e).Some?
    requires e.fact.ActivityAuthorized? || e.fact.ActivityEnded?
    ensures Sees(events + [e], See(v, journal, e).value, e.activity)
  {
    MoveSnoc(events, e, e.activity);
    FactsSnoc(events, e, e.activity, "");
    CallsSnoc(events, e, e.activity);
  }

  lemma SeenOne(journal: string, events: seq<Event>, v: View, e: Event, id: string)
    requires Sees(events, v, id) && Lawful(events, e) && See(v, journal, e).Some?
    ensures Sees(events + [e], See(v, journal, e).value, id)
  {
    if e.activity != id || !Moves(e.fact) {
      SeenOther(journal, events, v, e, id);
    } else if e.fact.ActivityPlanned? {
      SeenPlan(journal, events, v, e);
    } else if e.fact.ActivityStarted? {
      SeenStart(journal, events, v, e);
    } else {
      SeenMove(journal, events, v, e);
    }
  }

  /** On a journal the projector accepts, recovery reads exactly those it can read event by
      event, and then knows of each activity what the journal says. */
  lemma {:induction false} InspectedIff(journal: string, events: seq<Event>)
    requires AllLawful(events)
    ensures Inspected(journal, events).Some? <==> AllReadable(events)
    ensures Inspected(journal, events).Some? ==> SeesAll(events, Inspected(journal, events).value)
  {
    if events == [] {
    } else {
      var n := |events| - 1;
      var front, e := events[..n], events[n];
      assert events == front + [e];
      LawfulSnoc(front, e);
      ReadableSnoc(front, e);
      InspectedIff(journal, front);
      if Inspected(journal, front).Some? {
        var v := Inspected(journal, front).value;
        SeeIff(journal, front, v, e);
        if See(v, journal, e).Some? {
          forall id ensures Sees(events, See(v, journal, e).value, id) {
            assert Sees(front, v, id);
            SeenOne(journal, front, v, e, id);
          }
        }
      }
    }
  }

  /** On a journal both accept no visible call is ever without a name. */
  lemma NeverUnresolved(journal: string, events: seq<Event>, id: string)
    requires Inspected(journal, events).Some? && Project(events).Some?
    ensures !Unresolved(Inspected(journal, events).value, id)
  {
    ReadingsAgree(journal, events);
  }

  // ---- the end of the turn ----

  function Facts(events: seq<Event>): seq<Fact> { seq(|events|, k requires 0 <= k < |events| => events[k].fact) }

  lemma FactsConcat(a: seq<Event>, b: seq<Event>)
    ensures Facts(a + b) == Facts(a) + Facts(b)
  {
  }

  function IfSo(b: bool, f: Fact): seq<Fact> { if b then [f] else [] }

  lemma TurnFacts(v: View, listed: seq<string>, diagnostic: bool, receiptSeq: nat)
    ensures Facts(CloseTurn(v, listed, diagnostic, receiptSeq)) == [TurnEnded, TaskStatusChanged]
      + IfSo(v.command != "", CommandCompleted(v.command))
      + IfSo(v.manifest.Some?, SubagentReceipt(ReceiptStatus(v, listed), receiptSeq))
      + IfSo(diagnostic, RecoveryDiagnostic)
  {
    var start := [About(v, "", TurnEnded), About(v, "", TaskStatusChanged)];
    var command := if v.command != "" then [About(v, "", CommandCompleted(v.command))] else [];
    var receipt := if v.manifest.Some? then [ReceiptOf(v, ReceiptStatus(v, listed), receiptSeq)] else [];
    var note := if diagnostic then [About(v, "", RecoveryDiagnostic)] else [];
    FactsConcat(start, command);
    FactsConcat(start + command, receipt);
    FactsConcat(start + command + receipt, note);
    assert Facts(start) == [TurnEnded, TaskStatusChanged];
    assert Facts(command) == IfSo(v.command != "", CommandCompleted(v.command));
    assert Facts(receipt) == IfSo(v.manifest.Some?, SubagentReceipt(ReceiptStatus(v, listed), receiptSeq));
    assert Facts(note) == IfSo(diagnostic, RecoveryDiagnostic);
  }

  /** A receipt belongs to the task and turn the child was given, the rest to the session's. */
  predicate BelongsTo(e: Event, v: View) {
    && e.activity == ""
    && if e.fact.SubagentReceipt? then v.manifest == Some(Manifest(e.task, e.turn))
      else e.task == v.task && e.turn == v.turn
  }

  lemma TurnBelongs(v: View, listed: seq<string>, diagnostic: bool, receiptSeq: nat)
    ensures var tail := CloseTurn(v, listed, diagnostic, receiptSeq);
      forall k :: 0 <= k < |tail| ==> BelongsTo(tail[k], v)
  {
    var start := [About(v, "", TurnEnded), About(v, "", TaskStatusChanged)];
    var command := if v.command != "" then [About(v, "", CommandCompleted(v.command))] else [];
    var receipt := if v.manifest.Some? then [ReceiptOf(v, ReceiptStatus(v, listed), receiptSeq)] else [];
    var note := if diagnostic then [About(v, "", RecoveryDiagnostic)] else [];
    assert forall e :: e in start + command ==> BelongsTo(e, v);
    assert forall e :: e in start + command + receipt ==> BelongsTo(e, v);
    assert forall e :: e in start + command + receipt + note ==> BelongsTo(e, v);
  }

  lemma BatchTail(v: View, listed: seq<string>, probe: string -> bool, diagnostic: bool, receiptSeq: nat)
    ensures Batch(v, listed, probe, diagnostic, receiptSeq)[|CloseAll(v, listed, probe)|..]
      == CloseTurn(v, listed, diagnostic, receiptSeq)
  {
    var a, b := CloseAll(v, listed, probe), CloseTurn(v, listed, diagnostic, receiptSeq);
    assert (a + b)[|a|..] == b;
  }

  /** After the activities the batch ends the turn and the task's run, answers the command
      if there was one, and hands a child's receipt over. */
  lemma TurnRecorded(v: View, listed: seq<string>, probe: string -> bool, diagnostic: bool, receiptSeq: nat,
          tail: seq<Event>)
    requires tail == Batch(v, listed, probe, diagnostic, receiptSeq)[|CloseAll(v, listed, probe)|..]
    ensures Facts(tail) == [TurnEnded, TaskStatusChanged]
      + IfSo(v.command != "", CommandCompleted(v.command))
      + IfSo(v.manifest.Some?, SubagentReceipt(ReceiptStatus(v, listed), receiptSeq))
      + IfSo(diagnostic, RecoveryDiagnostic)
    ensures forall k :: 0 <= k < |tail| ==> BelongsTo(tail[k], v)
  {
    BatchTail(v, listed, probe, diagnostic, receiptSeq);
    TurnFacts(v, listed, diagnostic, receiptSeq);
    TurnBelongs(v, listed, diagnostic, receiptSeq);
  }
}
