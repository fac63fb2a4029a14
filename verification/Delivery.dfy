/** Who gets what: in every reachable state of the broker, what one publish, notice or
    rotation does to one registered client, in terms of its queue and cursor alone. */
module Deliveries {
  import opened Journals
  import opened Subscriptions
  import opened BrokerRuns

  // ---- committed transactions ----

  /** The client follows the journal and its cursor there lies before `at`. */
  predicate Behind(s: Sub, ref: JournalRef, at: Cursor) {
    match ref
    case WorkspaceControl(_) => s.cursor.workspace.commitSeq < at.commitSeq
    case Session(name) =>
      && s.selected == name
      && (s.cursor.session.Some? ==>
        s.cursor.session.value.journal.id != name || s.cursor.session.value.commitSeq < at.commitSeq)
  }

  predicate Fits(s: Sub, events: seq<Envelope>) { |s.queue| + |events| <= s.capacity }

  predicate AllReadable(events: seq<Envelope>) {
    forall k :: 0 <= k < |events| ==> events[k].renders && !events[k].stage.BadStage?
  }

  /** The transaction reports a child's stage to its parent. */
  predicate OwesNotice(e: Envelope) { e.stage.Stage? && e.session == e.stage.child }

  predicate OwesNothing(events: seq<Envelope>) { forall k :: 0 <= k < |events| ==> !OwesNotice(events[k]) }

  /** The client got the transaction whole: its events in order, each at the transaction's
      cursor, and its own cursor there moved to it and nowhere else. */
  ghost predicate Got(s: Sub, s': Sub, ref: JournalRef, t: Txn, epoch: string, streamSeq: nat) {
    && |s'.queue| == |s.queue| + |t.events| && s.queue == s'.queue[..|s.queue|]
    && (forall k :: 0 <= k < |t.events| ==>
      var item := s'.queue[|s.queue| + k];
      item.Durable? && item.envelope == t.events[k] && item.at == t.at && item.app == s'.cursor)
    && (if ref.WorkspaceControl? then s'.cursor.workspace == t.at && s'.cursor.session == s.cursor.session
        else s'.cursor.session == Some(t.at) && s'.cursor.workspace == s.cursor.workspace)
    && s'.cursor.epoch == epoch && s'.cursor.streamSeq == streamSeq
    && !s'.terminal && !s'.closed && s'.selected == s.selected && s'.capacity == s.capacity
  }

  /** Delivery ended where it stood. */
  ghost predicate Ended(s: Sub, s': Sub, code: TerminalCode, requiresSnapshot: bool) {
    && |s'.queue| == |s.queue| + 1 && s.queue == s'.queue[..|s.queue|]
    && s'.queue[|s.queue|] == Terminal(code, s.cursor, requiresSnapshot)
    && s'.cursor == s.cursor && s'.terminal && !s'.closed
    && s'.selected == s.selected && s'.capacity == s.capacity
  }

  /** What becomes of a live client when a transaction is committed: nothing unless it is
      behind; all of it if it fits and can be shown; otherwise an end that says why. */
  ghost predicate Verdicts(s: Sub, s': Sub, keep: bool, ref: JournalRef, t: Txn, epoch: string, streamSeq: nat) {
    if !Behind(s, ref, t.at) then s' == s && keep
    else if !Fits(s, t.events) then Ended(s, s', SlowConsumer, false) && !keep
    else if !AllReadable(t.events) then Ended(s, s', InvalidEvent, true) && !keep
    else Got(s, s', ref, t, epoch, streamSeq) && keep
  }

  lemma {:induction false} ItemsIff(events: seq<Envelope>, at: Cursor, app: AppCursor)
    ensures Items(events, at, app).Some? <==> AllReadable(events)
  {
    if events == [] {
    } else {
      ItemsIff(events[..|events| - 1], at, app);
    }
  }

  lemma CommitVerdict(s: Sub, ref: JournalRef, t: Txn, epoch: string, streamSeq: nat)
    requires !s.closed && !s.terminal && t.at.journal == ref
    ensures var v := Act(s, Commit(ref, t.events, t.at), epoch, streamSeq);
      Verdicts(s, v.sub, v.keep, ref, t, epoch, streamSeq)
  {
    var next := CursorAfter(s, t.at, epoch, streamSeq);
    ItemsIff(t.events, t.at, next);
    if Items(t.events, t.at, next).Some? { ItemsAre(t.events, t.at, next); }
  }

  lemma {:induction false} OwedStages(events: seq<Envelope>)
    ensures ParentStages(events) == [] <==> OwesNothing(events)
  {
    if events == [] {
    } else {
      OwedStages(events[..|events| - 1]);
    }
  }

  /** A registered client of a reachable state is live. */
  lemma RegisteredIsLive(w: World, id: nat)
    requires Inv(w) && id in w.hub.registered
    ensures id in w.hub.subs && id in w.histories && !w.hub.subs[id].closed && !w.hub.subs[id].terminal
  {
    assert ClientOk(w, id);
  }

  /** A committed transaction is refused exactly for a stage that cannot be read. */
  lemma RefusedIff(ref: JournalRef, t: Txn)
    requires t.at.Valid() && t.at.journal == ref && EventsMatch(t, ref)
    ensures Refused(ref, t) <==> exists k :: 0 <= k < |t.events| && t.events[k].stage.BadStage?
  {
  }

  ghost predicate Publishes(w: World, steps: seq<Step>, ref: JournalRef, i: nat) {
    Fresh(w) && Enables(w, steps) && Enabled(Run(w, steps), Publishing(ref, i))
  }

  /** In every reachable state, publishing a transaction that owes no notice does to each
      registered client exactly what the cases say, and one that cannot be read does
      nothing at all. */
  lemma PublishVerdict(w: World, steps: seq<Step>, ref: JournalRef, i: nat, id: nat)
    requires Publishes(w, steps, ref, i)
    requires WellRegistered(Run(w, steps).hub) && id in Run(w, steps).hub.registered
    requires OwesNothing(Log(Run(w, steps), ref)[i].events)
    ensures var now := Run(w, steps); var t := Log(now, ref)[i]; var after := Apply(now, Publishing(ref, i));
      var unreadable := exists k :: 0 <= k < |t.events| && t.events[k].stage.BadStage?;
      && (unreadable ==> after.hub == now.hub)
      && (!unreadable ==>
        && id in after.hub.subs
        && Verdicts(now.hub.subs[id], after.hub.subs[id], id in after.hub.registered, ref, t, now.hub.epoch,
            now.hub.streamSeq))
  {
    FreshInv(w);
    RunKeeps(w, steps);
    var now := Run(w, steps);
    var t := Log(now, ref)[i];
    LogIsOk(now, ref);
    RefusedIff(ref, t);
    RegisteredIsLive(now, id);
    OwedStages(t.events);
    CommitVerdict(now.hub.subs[id], ref, t, now.hub.epoch, now.hub.streamSeq);
  }

  // ---- notices ----

  /** A notice reached the client: one item at the end, at the cursor it stands at. */
  ghost predicate Told(s: Sub, s': Sub, notice: string, epoch: string, streamSeq: nat) {
    && |s'.queue| == |s.queue| + 1 && s.queue == s'.queue[..|s.queue|]
    && s'.queue[|s.queue|] ==
      Transient(notice, AppCursor(s.cursor.workspace, s.cursor.session, epoch, streamSeq))
    && s'.cursor == s.cursor && !s'.terminal && !s'.closed
    && s'.selected == s.selected && s'.capacity == s.capacity
  }

  /** A live client is told if it has room, and otherwise its delivery ends. */
  ghost predicate ToldIfRoom(s: Sub, s': Sub, keep: bool, notice: string, epoch: string, streamSeq: nat) {
    if |s.queue| < s.capacity then Told(s, s', notice, epoch, streamSeq) && keep
    else Ended(s, s', SlowConsumer, false) && !keep
  }

  /** Over every run, a notice moves the stream on by one; every registered client is told
      or ended if it can be formed, and nothing else happens if it cannot. */
  lemma NoticeVerdict(w: World, steps: seq<Step>, notice: string, valid: bool, id: nat)
    requires Fresh(w) && Enables(w, steps)
    requires WellRegistered(Run(w, steps).hub) && id in Run(w, steps).hub.registered
    ensures var now := Run(w, steps).hub; var after := Apply(Run(w, steps), Noticing(notice, valid)).hub;
      && after.streamSeq == now.streamSeq + 1 && after.epoch == now.epoch && id in after.subs
      && (if valid
        then ToldIfRoom(now.subs[id], after.subs[id], id in after.registered, notice, now.epoch, now.streamSeq + 1)
        else after.subs == now.subs && after.registered == now.registered)
  {
    FreshInv(w);
    RunKeeps(w, steps);
    RegisteredIsLive(Run(w, steps), id);
  }

  /** Over every run, a change of epoch ends every registered client with a gap from which
      it must take a snapshot, and starts the stream anew. */
  lemma RotationVerdict(w: World, steps: seq<Step>, epoch: string, id: nat)
    requires Fresh(w) && Enables(w, steps) && epoch != "" && epoch != Run(w, steps).hub.epoch
    requires WellRegistered(Run(w, steps).hub) && id in Run(w, steps).hub.registered
    ensures var now := Run(w, steps).hub; var after := Apply(Run(w, steps), Rotating(epoch)).hub;
      && after.epoch == epoch && after.streamSeq == 0 && id in after.subs
      && after.registered == {}
      && var s, s' := now.subs[id], after.subs[id];
        && s'.queue == s.queue + [Terminal(TransientGap,
            AppCursor(s.cursor.workspace, s.cursor.session, epoch, 0), true)]
        && s'.cursor == s.cursor && s'.terminal && !s'.closed
  {
    FreshInv(w);
    RunKeeps(w, steps);
    RegisteredIsLive(Run(w, steps), id);
  }

  // ---- notices to parents ----

  /** What a parent is told of some stages: one notice each, numbered along the stream. */
  function NoticesFor(parent: string, stages: seq<Envelope>, cursor: AppCursor, epoch: string, streamSeq: nat)
    : seq<Item>
    requires forall k :: 0 <= k < |stages| ==> stages[k].stage.Stage?
  {
    if stages == [] then []
    else
      (if stages[0].stage.parent == parent
       then [Transient(stages[0].id, AppCursor(cursor.workspace, cursor.session, epoch, streamSeq + 1))] else [])
      + NoticesFor(parent, stages[1..], cursor, epoch, streamSeq + 1)
  }

  /** One stage whose notice can be formed. */
  lemma OneStage(h: Hub, e: Envelope, id: nat)
    requires WellRegistered(h) && e.stage.Stage? && e.stage.sends && id in h.registered
    requires var s := h.subs[id]; !s.closed && !s.terminal && |s.queue| + 1 <= s.capacity
    ensures var (next, ended) := SendStage(h, e); var s := h.subs[id];
      && !ended && next.epoch == h.epoch && next.streamSeq == h.streamSeq + 1
      && id in next.registered && next.subs[id].cursor == s.cursor
      && next.subs[id] == s.(queue := s.queue + NoticesFor(s.selected, [e], s.cursor, h.epoch, h.streamSeq))
  {
    var s := h.subs[id];
    assert NoticesFor(s.selected, [e][1..], s.cursor, h.epoch, h.streamSeq + 1) == [];
    assert s.queue + [] == s.queue && s.(queue := s.queue) == s;
  }

  lemma NoticesCons(parent: string, stages: seq<Envelope>, cursor: AppCursor, epoch: string, streamSeq: nat)
    requires stages != [] && forall k :: 0 <= k < |stages| ==> stages[k].stage.Stage?
    ensures NoticesFor(parent, stages, cursor, epoch, streamSeq)
      == NoticesFor(parent, [stages[0]], cursor, epoch, streamSeq)
        + NoticesFor(parent, stages[1..], cursor, epoch, streamSeq + 1)
  {
    assert [stages[0]][1..] == [];
    assert NoticesFor(parent, [stages[0]][1..], cursor, epoch, streamSeq + 1) == [];
  }

  /** If all notices can be formed and the client has room for as many, it gets exactly
      those of its own children, in order. */
  lemma {:induction false} ParentsTold(h: Hub, stages: seq<Envelope>, id: nat)
    requires WellRegistered(h) && id in h.registered
    requires forall k :: 0 <= k < |stages| ==> stages[k].stage.Stage? && stages[k].stage.sends
    requires var s := h.subs[id]; !s.closed && !s.terminal && |s.queue| + |stages| <= s.capacity
    ensures var after := SendStages(h, stages); var s := h.subs[id];
      && id in after.registered && after.streamSeq == h.streamSeq + |stages| && after.epoch == h.epoch
      && after.subs[id] == s.(queue := s.queue + NoticesFor(s.selected, stages, s.cursor, h.epoch, h.streamSeq))
    decreases |stages|
  {
    var s := h.subs[id];
    if stages == [] {
      assert s.queue + [] == s.queue;
    } else {
      var next := SendStage(h, stages[0]).0;
      OneStage(h, stages[0], id);
      ParentsTold(next, stages[1..], id);
      var first, rest := NoticesFor(s.selected, [stages[0]], s.cursor, h.epoch, h.streamSeq),
          NoticesFor(s.selected, stages[1..], s.cursor, h.epoch, h.streamSeq + 1);
      NoticesCons(s.selected, stages, s.cursor, h.epoch, h.streamSeq);
      assert (s.queue + first) + rest == s.queue + (first + rest);
    }
  }

  /** The events whose stages are owed to parents, in order. */
  function Owed(events: seq<Envelope>): seq<Envelope> {
    if events == [] then [] else OwedOf(events[0]) + Owed(events[1..])
  }

  function OwedOf(e: Envelope): seq<Envelope> { if OwesNotice(e) then [e] else [] }

  lemma Regrouped(x: seq<Envelope>, y: seq<Envelope>, z: seq<Envelope>)
    ensures x + (y + z) == x + y + z
  {
  }

  lemma {:induction false} OwedSnoc(events: seq<Envelope>, e: Envelope)
    ensures Owed(events + [e]) == Owed(events) + OwedOf(e)
  {
    var longer := events + [e];
    if events == [] {
      assert longer == [e] && [e][1..] == [] && Owed([]) == [];
      assert OwedOf(e) + [] == [] + OwedOf(e);
    } else {
      assert longer[0] == events[0] && longer[1..] == events[1..] + [e];
      OwedSnoc(events[1..], e);
      Regrouped(OwedOf(events[0]), Owed(events[1..]), OwedOf(e));
    }
  }

  lemma {:induction false} StagesAreOwed(events: seq<Envelope>)
    ensures ParentStages(events) == Owed(events)
    ensures forall k :: 0 <= k < |Owed(events)| ==> Owed(events)[k].stage.Stage?
  {
    if events == [] {
    } else {
      var n := |events| - 1;
      StagesAreOwed(events[..n]);
      OwedSnoc(events[..n], events[n]);
      assert events[..n] + [events[n]] == events;
    }
  }

  /** What a transaction takes of a live client's room. */
  function Needs(s: Sub, ref: JournalRef, t: Txn): nat {
    (if Behind(s, ref, t.at) then |t.events| else 0) + |Owed(t.events)|
  }

  /** Over every run: a client with room for what concerns it stays registered, and gets a
      transaction it is behind whole, followed by the notices of its children's stages. */
  lemma PublishReaches(w: World, steps: seq<Step>, ref: JournalRef, i: nat, id: nat) returns (mid: Sub)
    requires Publishes(w, steps, ref, i)
    requires WellRegistered(Run(w, steps).hub) && id in Run(w, steps).hub.registered
    requires var t, s := Log(Run(w, steps), ref)[i], Run(w, steps).hub.subs[id];
      && (forall k :: 0 <= k < |t.events| ==> !t.events[k].stage.BadStage?)
      && (Behind(s, ref, t.at) ==> AllReadable(t.events))
      && (forall k :: 0 <= k < |t.events| && OwesNotice(t.events[k]) ==> t.events[k].stage.sends)
      && |s.queue| + Needs(s, ref, t) <= s.capacity
    ensures var now := Run(w, steps); var t := Log(now, ref)[i]; var after := Apply(now, Publishing(ref, i));
      var owed, s := Owed(t.events), now.hub.subs[id];
      && id in after.hub.subs && id in after.hub.registered
      && (if Behind(s, ref, t.at) then Got(s, mid, ref, t, now.hub.epoch, now.hub.streamSeq) else mid == s)
      && (forall k :: 0 <= k < |owed| ==> owed[k].stage.Stage?)
      && after.hub.subs[id] == mid.(queue := mid.queue
          + NoticesFor(s.selected, owed, mid.cursor, now.hub.epoch, now.hub.streamSeq))
  {
    FreshInv(w);
    RunKeeps(w, steps);
    var now := Run(w, steps);
    var t := Log(now, ref)[i];
    LogIsOk(now, ref);
    RefusedIff(ref, t);
    RegisteredIsLive(now, id);
    CommitVerdict(now.hub.subs[id], ref, t, now.hub.epoch, now.hub.streamSeq);
    var passed := Dispatch(now.hub, Commit(ref, t.events, t.at));
    mid := passed.subs[id];
    StagesAreOwed(t.events);
    OwedSend(t.events);
    ParentsTold(passed, Owed(t.events), id);
  }

  lemma {:induction false} OwedSend(events: seq<Envelope>)
    requires forall k :: 0 <= k < |events| && OwesNotice(events[k]) ==> events[k].stage.sends
    ensures forall k :: 0 <= k < |Owed(events)| ==> Owed(events)[k].stage.Stage? && Owed(events)[k].stage.sends
  {
    if events == [] {
    } else {
      OwedSend(events[1..]);
    }
  }

  /** A new client starts empty, at the heads that were read, with the room it asked for. */
  lemma SubscribeVerdict(w: World, id: nat, selected: string, capacity: nat, workspaceAt: nat, sessionAt: nat)
    requires WellRegistered(w.hub) && Enabled(w, Subscribing(id, selected, capacity, workspaceAt, sessionAt))
    ensures var hub := Apply(w, Subscribing(id, selected, capacity, workspaceAt, sessionAt)).hub;
      && id in hub.subs && hub.registered == w.hub.registered + {id} && hub.subs - {id} == w.hub.subs
      && hub.streamSeq == w.hub.streamSeq && hub.epoch == w.hub.epoch
      && var s := hub.subs[id];
        && s.selected == selected && s.capacity == capacity && s.queue == [] && !s.terminal && !s.closed
        && s.cursor.workspace == Log(w, WorkspaceControl(w.workspace))[workspaceAt - 1].at
        && s.cursor.session == (if selected == "" then None else Some(Log(w, Session(selected))[sessionAt - 1].at))
        && s.cursor.epoch == hub.epoch && s.cursor.streamSeq == hub.streamSeq
  {
    var hub := Apply(w, Subscribing(id, selected, capacity, workspaceAt, sessionAt)).hub;
    assert hub.subs - {id} == w.hub.subs;
  }

  /** One more step of a run is applied to where the run had come. */
  lemma {:induction false} RunSnoc(w: World, steps: seq<Step>, step: Step)
    requires WellRegistered(w.hub) && Enables(w, steps)
    requires WellRegistered(Run(w, steps).hub) && Enabled(Run(w, steps), step)
    ensures Enables(w, steps + [step]) && Run(w, steps + [step]) == Apply(Run(w, steps), step)
    decreases |steps|
  {
    if steps == [] {
      assert [] + [step] == [step] && [step][1..] == [];
    } else {
      assert (steps + [step])[1..] == steps[1..] + [step];
      RunSnoc(Apply(w, steps[0]), steps[1..], step);
    }
  }

  // ---- what never happens ----

  /** A publish for another journal, under another transaction or with a stage that cannot be
      read leaves everything as it was. */
  lemma MalformedPublish(h: Hub, ref: JournalRef, c: Cursor, events: seq<Envelope>, k: nat)
    requires WellRegistered(h)
    requires c.journal != ref || c.commitSeq == 0 || c.txn == ""
      || (k < |events| && (events[k].journal != ref || events[k].txn != c.txn || events[k].stage.BadStage?))
    ensures PublishCommitted(h, ref, c, events) == h && !PublishesWell(h, ref, c, events)
  {
  }

  /** A client that is closed or was ended takes nothing more, whatever is sent. */
  lemma NothingMore(s: Sub, action: Action, events: seq<Envelope>, c: Cursor, item: Item, epoch: string,
          streamSeq: nat)
    requires s.closed || s.terminal
    ensures Act(s, action, epoch, streamSeq).sub == s
    ensures EnqueueTransaction(s, events, c, epoch, streamSeq) == Verdict(s, false)
    ensures EnqueueEvent(s, item) == Verdict(s, false) && QueueTerminal(s, item) == s
  {
  }

  predicate Awaits(h: Hub, id: nat, parent: string) {
    id in h.registered && id in h.subs && !h.subs[id].closed && !h.subs[id].terminal && h.subs[id].selected == parent
  }

  /** A notice that cannot be formed ends the call if some live client waits for it, and is
      passed over otherwise. */
  lemma UnformedNotice(h: Hub, stages: seq<Envelope>)
    requires WellRegistered(h) && stages != []
    requires (forall k :: 0 <= k < |stages| ==> stages[k].stage.Stage?) && !stages[0].stage.sends
    ensures var bumped := h.(streamSeq := h.streamSeq + 1);
      SendStages(h, stages) ==
        if exists id :: Awaits(h, id, stages[0].stage.parent) then bumped else SendStages(bumped, stages[1..])
    ensures var bumped := h.(streamSeq := h.streamSeq + 1);
      NoticesForm(h, stages) <==>
        (forall id :: !Awaits(h, id, stages[0].stage.parent)) && NoticesForm(bumped, stages[1..])
  {
    var parent := stages[0].stage.parent;
    assert forall id :: Awaits(h, id, parent) <==> id in h.registered && Notified(h.subs[id], parent);
  }

  lemma {:induction false} FormedNotices(h: Hub, stages: seq<Envelope>)
    requires WellRegistered(h)
    requires forall k :: 0 <= k < |stages| ==> stages[k].stage.Stage? && stages[k].stage.sends
    ensures NoticesForm(h, stages)
    decreases |stages|
  {
    if stages == [] {
    } else {
      FormedNotices(SendStage(h, stages[0]).0, stages[1..]);
    }
  }

  /** A publish that fits its journal and transaction, with stages that can be read and
      notices that can be formed, reports no error. */
  lemma PublishSucceeds(h: Hub, ref: JournalRef, c: Cursor, events: seq<Envelope>)
    requires WellRegistered(h) && c.Valid() && c.journal == ref
    requires forall k :: 0 <= k < |events| ==>
      events[k].journal == ref && events[k].txn == c.txn && !events[k].stage.BadStage?
    requires forall k :: 0 <= k < |events| && OwesNotice(events[k]) ==> events[k].stage.sends
    ensures PublishesWell(h, ref, c, events)
  {
    StagesAreOwed(events);
    OwedSend(events);
    FormedNotices(Dispatch(h, Commit(ref, events, c)), Owed(events));
  }
}
