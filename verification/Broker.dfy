/** The broker and its subscriptions as the objects a mutex guards. */
module Brokers {
  import opened Journals
  import opened Subscriptions

  lemma {:induction false} NoItems(events: seq<Envelope>, c: Cursor, next: AppCursor, k: nat)
    requires k <= |events| && Items(events[..k], c, next) == None
    ensures Items(events, c, next) == None
  {
    if k < |events| {
      assert events[..|events| - 1][..k] == events[..k];
      NoItems(events[..|events| - 1], c, next, k);
    } else {
      assert events[..k] == events;
    }
  }

  class Subscription {
    const id: nat
    const selected: string
    const capacity: nat
    var queue: seq<Item>
    var cursor: AppCursor
    var terminal: bool
    var closed: bool

    constructor (id: nat, selected: string, capacity: nat, cursor: AppCursor)
      ensures View() == Sub(selected, capacity, [], cursor, false, false) && this.id == id
    {
      this.id, this.selected, this.capacity := id, selected, capacity;
      queue, this.cursor, terminal, closed := [], cursor, false, false;
    }

    function View(): Sub
      reads this
    {
      Sub(selected, capacity, queue, cursor, terminal, closed)
    }

    method QueueTerminal(t: Item)
      modifies this
      ensures View() == Subscriptions.QueueTerminal(old(View()), t)
    {
      if closed || terminal {
        return;
      }
      queue := queue + [t];
      terminal := true;
    }

    method EnqueueTransaction(events: seq<Envelope>, c: Cursor, epoch: string, streamSeq: nat) returns (keep: bool)
      modifies this
      ensures Verdict(View(), keep) == Subscriptions.EnqueueTransaction(old(View()), events, c, epoch, streamSeq)
    {
      if closed || terminal || HasCursor(View(), c) {
        return !closed && !terminal;
      }
      if |queue| + |events| > capacity {
        QueueTerminal(Terminal(SlowConsumer, cursor, false));
        return false;
      }
      var next := CursorAfter(View(), c, epoch, streamSeq);
      var items: seq<Item> := [];
      for k := 0 to |events|
        invariant Items(events[..k], c, next) == Some(items)
        invariant View() == old(View())
      {
        assert events[..k + 1][..k] == events[..k];
        if !Renders(events[k]) {
          NoItems(events, c, next, k + 1);
          QueueTerminal(Terminal(InvalidEvent, cursor, true));
          return false;
        }
        items := items + [Durable(events[k], c, next)];
      }
      assert events[..|events|] == events;
      queue := queue + items;
      cursor := next;
      keep := true;
    }

    method EnqueueEvent(event: Item) returns (keep: bool)
      modifies this
      ensures Verdict(View(), keep) == Subscriptions.EnqueueEvent(old(View()), event)
    {
      if closed || terminal {
        return false;
      }
      if |queue| >= capacity {
        QueueTerminal(Terminal(SlowConsumer, cursor, false));
        return false;
      }
      queue := queue + [event];
      keep := true;
    }

    method Pop() returns (item: Item)
      requires queue != []
      modifies this
      ensures (Some(item), View()) == TakeNext(old(View()))
    {
      item := queue[0];
      queue := queue[1..];
      if item.Terminal? {
        closed := true;
      }
    }

    method Visit(action: Action, epoch: string, streamSeq: nat) returns (keep: bool)
      modifies this
      ensures Verdict(View(), keep) == Act(old(View()), action, epoch, streamSeq)
    {
      match action
      case Commit(ref, events, at) =>
        if closed || terminal || !Accepts(View(), ref) || HasCursor(View(), at) {
          return true;
        }
        keep := EnqueueTransaction(events, at, epoch, streamSeq);
      case NotifyParent(parent, notice) =>
        if closed || terminal || selected != parent {
          return true;
        }
        keep := EnqueueEvent(Transient(notice, cursor.(epoch := epoch, streamSeq := streamSeq)));
      case NotifyAll(notice) =>
        if closed || terminal {
          return true;
        }
        keep := EnqueueEvent(Transient(notice, cursor.(epoch := epoch, streamSeq := streamSeq)));
      case Gap =>
        QueueTerminal(Terminal(TransientGap, cursor.(epoch := epoch, streamSeq := 0), true));
        keep := false;
    }
  }

  /** What the pass does to one registered subscription. */
  function DispatchOne(h: Hub, action: Action, id: nat): (r: Hub)
    requires WellRegistered(h) && id in h.registered
    ensures WellRegistered(r)
  {
    var v := Act(h.subs[id], action, h.epoch, h.streamSeq);
    h.(subs := h.subs[id := v.sub], registered := if v.keep then h.registered else h.registered - {id})
  }

  /** During a pass: the subscriptions in `todo` are still as they were, the others done. */
  ghost predicate Midway(before: Hub, action: Action, now: Hub, todo: set<nat>)
    requires WellRegistered(before)
  {
    && WellRegistered(now) && now.epoch == before.epoch && now.streamSeq == before.streamSeq
    && todo <= before.registered && todo <= now.registered && now.subs.Keys == before.subs.Keys
    && (forall id :: id in before.subs ==>
      if id in todo then now.subs[id] == before.subs[id]
      else
        && now.subs[id] == Dispatch(before, action).subs[id]
        && (id in now.registered <==> id in Dispatch(before, action).registered))
  }

  lemma MidwayStep(before: Hub, action: Action, now: Hub, todo: set<nat>, id: nat)
    requires WellRegistered(before) && Midway(before, action, now, todo) && id in todo
    ensures Midway(before, action, DispatchOne(now, action, id), todo - {id})
  {
  }

  lemma MidwayEnd(before: Hub, action: Action, now: Hub)
    requires WellRegistered(before) && Midway(before, action, now, {})
    ensures now == Dispatch(before, action)
  {
    assert now.registered == Dispatch(before, action).registered;
    assert now.subs == Dispatch(before, action).subs;
  }

  class Broker {
    var epoch: string
    var streamSeq: nat
    var nextSubscription: nat
    var subscriptions: map<nat, Subscription>
    /** Every subscription handed out, registered or not. */
    ghost var handles: map<nat, Subscription>

    ghost predicate Valid()
      reads this, handles.Values
    {
      && subscriptions.Keys <= handles.Keys
      && (forall id :: id in subscriptions ==> subscriptions[id] == handles[id])
      && (forall id :: id in handles ==> handles[id].id == id && 0 < id <= nextSubscription)
    }

    ghost function View(): (h: Hub)
      reads this, handles.Values
      requires Valid()
      ensures WellRegistered(h)
    {
      Hub(epoch, streamSeq, map id | id in handles :: handles[id].View(), subscriptions.Keys)
    }

    constructor (epoch: string)
      requires epoch != ""
      ensures Valid() && View() == Hub(epoch, 0, map[], {})
    {
      this.epoch, streamSeq, nextSubscription, subscriptions, handles := epoch, 0, 0, map[], map[];
    }

    method ActOn(action: Action, id: nat) returns (keep: bool)
      requires Valid() && id in subscriptions
      modifies subscriptions[id]
      ensures Valid()
      ensures var h := old(View()); var v := Act(h.subs[id], action, h.epoch, h.streamSeq);
        keep == v.keep && View() == h.(subs := h.subs[id := v.sub])
    {
      ghost var before := View();
      var sub := subscriptions[id];
      keep := sub.Visit(action, epoch, streamSeq);
      forall other | other in handles && other != id ensures handles[other].View() == before.subs[other] {
        assert handles[other].id != sub.id;
      }
      assert View().subs == before.subs[id := sub.View()];
    }

    method Remove(id: nat)
      requires Valid()
      modifies this`subscriptions
      ensures Valid() && View() == old(View()).(registered := old(View()).registered - {id})
    {
      subscriptions := subscriptions - {id};
    }

    method VisitOne(action: Action, id: nat)
      requires Valid() && id in subscriptions
      modifies this`subscriptions, subscriptions[id]
      ensures Valid() && View() == DispatchOne(old(View()), action, id)
    {
      var keep := ActOn(action, id);
      if !keep {
        Remove(id);
      }
    }

    /** One pass over the registered subscriptions, in any order. */
    method Visit(action: Action)
      requires Valid()
      modifies this`subscriptions, handles.Values
      ensures Valid() && View() == Dispatch(old(View()), action)
    {
      ghost var before := View();
      var todo := subscriptions.Keys;
      while todo != {}
        invariant Valid() && Midway(before, action, View(), todo)
        decreases |todo|
      {
        var id :| id in todo;
        ghost var now := View();
        VisitOne(action, id);
        MidwayStep(before, action, now, todo, id);
        todo := todo - {id};
      }
      MidwayEnd(before, action, View());
    }

    method BumpStream()
      requires Valid()
      modifies this`streamSeq
      ensures Valid() && View() == old(View()).(streamSeq := old(View()).streamSeq + 1)
    {
      streamSeq := streamSeq + 1;
    }

    method AnyNotified(parent: string) returns (found: bool)
      requires Valid()
      ensures found <==> exists id :: id in View().registered && Notified(View().subs[id], parent)
    {
      var todo := subscriptions.Keys;
      while todo != {}
        invariant todo <= subscriptions.Keys
        invariant forall id :: id in subscriptions && id !in todo ==> !Notified(View().subs[id], parent)
        decreases |todo|
      {
        var id :| id in todo;
        var sub := subscriptions[id];
        assert View().subs[id] == sub.View();
        if !sub.closed && !sub.terminal && sub.selected == parent {
          return true;
        }
        todo := todo - {id};
      }
      found := false;
    }

    method AnyLive() returns (found: bool)
      requires Valid()
      ensures found <==> exists id :: id in View().registered && !View().subs[id].closed && !View().subs[id].terminal
    {
      var todo := subscriptions.Keys;
      while todo != {}
        invariant todo <= subscriptions.Keys
        invariant forall id :: id in subscriptions && id !in todo ==> View().subs[id].closed || View().subs[id].terminal
        decreases |todo|
      {
        var id :| id in todo;
        var sub := subscriptions[id];
        assert View().subs[id] == sub.View();
        if !sub.closed && !sub.terminal {
          return true;
        }
        todo := todo - {id};
      }
      found := false;
    }

    method NotifyStage(candidate: Envelope) returns (ended: bool)
      requires Valid() && candidate.stage.Stage?
      modifies this`subscriptions, this`streamSeq, handles.Values
      ensures Valid() && (View(), ended) == SendStage(old(View()), candidate)
    {
      BumpStream();
      if candidate.stage.sends {
        Visit(NotifyParent(candidate.stage.parent, candidate.id));
        return false;
      }
      ended := AnyNotified(candidate.stage.parent);
    }

    method NotifyStages(stages: seq<Envelope>) returns (ok: bool)
      requires Valid() && forall k :: 0 <= k < |stages| ==> stages[k].stage.Stage?
      modifies this`subscriptions, this`streamSeq, handles.Values
      ensures Valid() && View() == SendStages(old(View()), stages)
      ensures ok <==> NoticesForm(old(View()), stages)
    {
      ghost var before := View();
      assert stages[0..] == stages;
      for k := 0 to |stages|
        invariant Valid() && SendStages(View(), stages[k..]) == SendStages(before, stages)
        invariant NoticesForm(View(), stages[k..]) <==> NoticesForm(before, stages)
      {
        assert stages[k..][1..] == stages[k + 1..];
        var ended := NotifyStage(stages[k]);
        if ended {
          return false;
        }
      }
      ok := true;
    }

    method PublishCommitted(ref: JournalRef, c: Cursor, events: seq<Envelope>) returns (ok: bool)
      requires Valid()
      modifies this`subscriptions, this`streamSeq, handles.Values
      ensures Valid() && View() == Subscriptions.PublishCommitted(old(View()), ref, c, events)
      ensures ok <==> PublishesWell(old(View()), ref, c, events)
    {
      if !c.Valid() || c.journal != ref {
        return false;
      }
      for k := 0 to |events|
        invariant forall j :: 0 <= j < k ==> events[j].journal == ref && events[j].txn == c.txn
      {
        if events[k].journal != ref || events[k].txn != c.txn {
          return false;
        }
      }
      var stages: seq<Envelope> := [];
      for k := 0 to |events|
        invariant forall j :: 0 <= j < k ==> !events[j].stage.BadStage?
        invariant stages == ParentStages(events[..k])
      {
        assert events[..k + 1][..k] == events[..k];
        if events[k].stage.BadStage? {
          return false;
        }
        if events[k].stage.Stage? && events[k].session == events[k].stage.child {
          stages := stages + [events[k]];
        }
      }
      assert events[..|events|] == events;
      StagesAreStages(events);
      Visit(Commit(ref, events, c));
      ok := NotifyStages(stages);
    }

    method PublishTransient(notice: string, valid: bool) returns (ok: bool)
      requires Valid()
      modifies this`subscriptions, this`streamSeq, handles.Values
      ensures Valid() && View() == Subscriptions.PublishTransient(old(View()), notice, valid)
      ensures ok <==> valid || forall id :: id in old(View()).registered ==>
        old(View()).subs[id].closed || old(View()).subs[id].terminal
    {
      BumpStream();
      if !valid {
        var found := AnyLive();
        return !found;
      }
      Visit(NotifyAll(notice));
      ok := true;
    }

    method SetEpoch(epoch: string)
      requires Valid()
      modifies this`epoch, this`streamSeq
      ensures Valid() && View() == old(View()).(epoch := epoch, streamSeq := 0)
    {
      this.epoch, streamSeq := epoch, 0;
    }

    method RotateEpoch(epoch: string) returns (ok: bool)
      requires Valid()
      modifies this`epoch, this`subscriptions, this`streamSeq, handles.Values
      ensures Valid() && View() == Subscriptions.RotateEpoch(old(View()), epoch) && (ok <==> epoch != "")
    {
      if epoch == "" {
        return false;
      }
      if epoch == this.epoch {
        return true;
      }
      SetEpoch(epoch);
      Visit(Gap);
      ok := true;
    }

    /** Registration at heads read under the lock. */
    method SnapshotAndSubscribe(selected: string, capacity: nat, workspace: Cursor,
            session: Option<Cursor>) returns (sub: Subscription)
      requires Valid()
      modifies this`subscriptions, this`nextSubscription, this`handles
      ensures Valid() && fresh(sub) && sub.id !in old(handles) && handles == old(handles)[sub.id := sub]
      ensures View() == Subscribe(old(View()), sub.id, selected, capacity, workspace, session)
    {
      sub := new Subscription(nextSubscription + 1, selected, capacity,
          AppCursor(workspace, session, epoch, streamSeq));
      Register(sub);
    }

    method Register(sub: Subscription)
      requires Valid() && sub.id == nextSubscription + 1 && sub !in handles.Values
      modifies this`subscriptions, this`nextSubscription, this`handles
      ensures Valid() && handles == old(handles)[sub.id := sub]
      ensures View() == old(View()).(subs := old(View()).subs[sub.id := sub.View()],
          registered := old(View()).registered + {sub.id})
    {
      ghost var before := View();
      nextSubscription := nextSubscription + 1;
      subscriptions := subscriptions[sub.id := sub];
      handles := handles[sub.id := sub];
      assert View().subs == before.subs[sub.id := sub.View()];
    }

    /** Takes the front of a queue; a terminal closes the subscription. */
    method Take(sub: Subscription) returns (item: Item)
      requires Valid() && sub.id in handles && handles[sub.id] == sub && sub.queue != []
      modifies sub
      ensures Valid() && Some(item) == TakeNext(old(sub.View())).0
      ensures View() == old(View()).(subs := old(View()).subs[sub.id := TakeNext(old(sub.View())).1])
    {
      ghost var before := View();
      item := sub.Pop();
      forall other | other in handles && other != sub.id ensures handles[other].View() == before.subs[other] {
        assert handles[other].id != sub.id;
      }
      assert View().subs == before.subs[sub.id := sub.View()];
    }

    /** One non-blocking turn of `Next`: nothing when the queue is empty. */
    method Next(sub: Subscription) returns (item: Option<Item>)
      requires Valid() && sub.id in handles && handles[sub.id] == sub
      modifies this`subscriptions, sub
      ensures Valid() && item == TakeNext(old(sub.View())).0
      ensures View() == Subscriptions.Next(old(View()), sub.id)
    {
      if |sub.queue| == 0 {
        assert View().subs[sub.id := View().subs[sub.id]] == View().subs;
        return None;
      }
      var taken := Take(sub);
      if taken.Terminal? {
        Remove(sub.id);
      }
      item := Some(taken);
    }

    method Shut(sub: Subscription)
      requires Valid() && sub.id in handles && handles[sub.id] == sub
      modifies sub
      ensures Valid()
      ensures View() == old(View()).(subs := old(View()).subs[sub.id := old(sub.View()).(closed := true, queue := [])])
    {
      ghost var before := View();
      sub.closed := true;
      sub.queue := [];
      forall other | other in handles && other != sub.id ensures handles[other].View() == before.subs[other] {
        assert handles[other].id != sub.id;
      }
      assert View().subs == before.subs[sub.id := sub.View()];
    }

    method Close(sub: Subscription)
      requires Valid() && sub.id in handles && handles[sub.id] == sub
      modifies this`subscriptions, sub
      ensures Valid() && View() == Subscriptions.Close(old(View()), sub.id)
    {
      if sub.closed {
        return;
      }
      Shut(sub);
      Remove(sub.id);
    }
  }
}
