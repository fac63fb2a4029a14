/** One broker subscription as a value, and what each broker action does to it. */
module Subscriptions {
  import opened Journals

  /** A subagent stage carried by an event; `sends` tells whether its notice is well formed. */
  datatype Stage = NoStage | BadStage | Stage(parent: string, child: string, sends: bool)

  /** A committed event; `renders` tells whether it can be shown to applications. */
  datatype Envelope = Envelope(id: string, journal: JournalRef, txn: string, session: string, body: string,
      stage: Stage, renders: bool)

  datatype AppCursor = AppCursor(workspace: Cursor, session: Option<Cursor>, epoch: string, streamSeq: nat)

  datatype TerminalCode = SlowConsumer | InvalidEvent | TransientGap

  datatype Item =
    | Durable(envelope: Envelope, at: Cursor, app: AppCursor)
    | Transient(notice: string, app: AppCursor)
    | Terminal(code: TerminalCode, resumeAfter: AppCursor, requiresSnapshot: bool)

  datatype Sub = Sub(selected: string, capacity: nat, queue: seq<Item>, cursor: AppCursor, terminal: bool, closed: bool)

  /** An action's effect on a subscription, and whether it stays registered. */
  datatype Verdict = Verdict(sub: Sub, keep: bool)

  predicate Accepts(s: Sub, ref: JournalRef) {
    ref.WorkspaceControl? || ref.id == s.selected
  }

  predicate HasCursor(s: Sub, c: Cursor) {
    if c.journal.WorkspaceControl? then s.cursor.workspace.commitSeq >= c.commitSeq
    else
      && s.cursor.session.Some? && s.cursor.session.value.journal.id == c.journal.id
      && s.cursor.session.value.commitSeq >= c.commitSeq
  }

  function CursorAfter(s: Sub, c: Cursor, epoch: string, streamSeq: nat): AppCursor {
    if c.journal.WorkspaceControl? then
      AppCursor(if s.cursor.workspace.commitSeq < c.commitSeq then c else s.cursor.workspace, s.cursor.session, epoch,
          streamSeq)
    else
      var moves := s.cursor.session.None? || s.cursor.session.value.journal.id != c.journal.id
        || s.cursor.session.value.commitSeq < c.commitSeq;
      AppCursor(s.cursor.workspace, if moves then Some(c) else s.cursor.session, epoch, streamSeq)
  }

  function QueueTerminal(s: Sub, t: Item): Sub {
    if s.closed || s.terminal then s else s.(queue := s.queue + [t], terminal := true)
  }

  predicate Renders(e: Envelope) { e.renders && !e.stage.BadStage? }

  /** The queue items of a whole transaction, or none if one event cannot be rendered. */
  function Items(events: seq<Envelope>, at: Cursor, app: AppCursor): Option<seq<Item>> {
    if events == [] then Some([])
    else match Items(events[..|events| - 1], at, app)
      case None => None
      case Some(items) =>
        var last := events[|events| - 1];
        if Renders(last) then Some(items + [Durable(last, at, app)]) else None
  }

  function EnqueueTransaction(s: Sub, events: seq<Envelope>, c: Cursor, epoch: string, streamSeq: nat): Verdict {
    if s.closed || s.terminal || HasCursor(s, c) then Verdict(s, !s.closed && !s.terminal)
    else if |s.queue| + |events| > s.capacity then
      Verdict(QueueTerminal(s, Terminal(SlowConsumer, s.cursor, false)), false)
    else
      var next := CursorAfter(s, c, epoch, streamSeq);
      match Items(events, c, next)
      case None => Verdict(QueueTerminal(s, Terminal(InvalidEvent, s.cursor, true)), false)
      case Some(items) => Verdict(s.(queue := s.queue + items, cursor := next), true)
  }

  function EnqueueEvent(s: Sub, event: Item): Verdict {
    if s.closed || s.terminal then Verdict(s, false)
    else if |s.queue| >= s.capacity then
      Verdict(QueueTerminal(s, Terminal(SlowConsumer, s.cursor, false)), false)
    else Verdict(s.(queue := s.queue + [event]), true)
  }

  /** The four ways the broker visits its registered subscriptions. */
  datatype Action =
    | Commit(journal: JournalRef, events: seq<Envelope>, at: Cursor)
    | NotifyParent(parent: string, notice: string)
    | NotifyAll(notice: string)
    | Gap

  function Act(s: Sub, action: Action, epoch: string, streamSeq: nat): Verdict {
    match action
    case Commit(ref, events, at) =>
      if s.closed || s.terminal || !Accepts(s, ref) || HasCursor(s, at) then Verdict(s, true)
      else EnqueueTransaction(s, events, at, epoch, streamSeq)
    case NotifyParent(parent, notice) =>
      if s.closed || s.terminal || s.selected != parent then Verdict(s, true)
      else EnqueueEvent(s, Transient(notice, s.cursor.(epoch := epoch, streamSeq := streamSeq)))
    case NotifyAll(notice) =>
      if s.closed || s.terminal then Verdict(s, true)
      else EnqueueEvent(s, Transient(notice, s.cursor.(epoch := epoch, streamSeq := streamSeq)))
    case Gap =>
      Verdict(QueueTerminal(s, Terminal(TransientGap, s.cursor.(epoch := epoch, streamSeq := 0), true)), false)
  }

  // ---- the registry ----

  /** Every subscription ever handed out, and those still registered. */
  datatype Hub = Hub(epoch: string, streamSeq: nat, subs: map<nat, Sub>, registered: set<nat>)

  predicate WellRegistered(h: Hub) { h.registered <= h.subs.Keys }

  function Dispatch(h: Hub, action: Action): (r: Hub)
    requires WellRegistered(h)
    ensures WellRegistered(r) && r.subs.Keys == h.subs.Keys
  {
    Hub(h.epoch, h.streamSeq,
      map id | id in h.subs :: if id in h.registered then Act(h.subs[id], action, h.epoch, h.streamSeq).sub
          else h.subs[id],
      set id | id in h.registered && Act(h.subs[id], action, h.epoch, h.streamSeq).keep)
  }

  /** Notices owed to parents by the stages a transaction carries. */
  function ParentStages(events: seq<Envelope>): seq<Envelope> {
    if events == [] then []
    else
      var last := events[|events| - 1];
      ParentStages(events[..|events| - 1]) + if last.stage.Stage? && last.session == last.stage.child then [last]
          else []
  }

  predicate Notified(s: Sub, parent: string) { !s.closed && !s.terminal && s.selected == parent }

  /** One notice: the registry afterwards, and whether it ended the call because it cannot
      be formed although some subscription wants it. */
  function SendStage(h: Hub, e: Envelope): (r: (Hub, bool))
    requires WellRegistered(h) && e.stage.Stage?
    ensures WellRegistered(r.0) && r.0.subs.Keys == h.subs.Keys
  {
    var bumped := h.(streamSeq := h.streamSeq + 1);
    if e.stage.sends then (Dispatch(bumped, NotifyParent(e.stage.parent, e.id)), false)
    else (bumped, exists id :: id in h.registered && Notified(h.subs[id], e.stage.parent))
  }

  /** Notices go out one stage at a time. */
  function SendStages(h: Hub, stages: seq<Envelope>): (r: Hub)
    requires WellRegistered(h) && forall k :: 0 <= k < |stages| ==> stages[k].stage.Stage?
    ensures WellRegistered(r) && r.subs.Keys == h.subs.Keys
    decreases |stages|
  {
    if stages == [] then h
    else
      var (next, ended) := SendStage(h, stages[0]);
      if ended then next else SendStages(next, stages[1..])
  }

  /** No notice ends the call. */
  predicate NoticesForm(h: Hub, stages: seq<Envelope>)
    requires WellRegistered(h) && forall k :: 0 <= k < |stages| ==> stages[k].stage.Stage?
    decreases |stages|
  {
    stages == [] || (!SendStage(h, stages[0]).1 && NoticesForm(SendStage(h, stages[0]).0, stages[1..]))
  }

  lemma {:induction false} StagesAreStages(events: seq<Envelope>)
    ensures forall k :: 0 <= k < |ParentStages(events)| ==> ParentStages(events)[k].stage.Stage?
  {
    if events == [] {
    } else {
      StagesAreStages(events[..|events| - 1]);
    }
  }

  predicate Publishable(ref: JournalRef, c: Cursor, events: seq<Envelope>) {
    && c.Valid() && c.journal == ref
    && (forall k :: 0 <= k < |events| ==>
      events[k].journal == ref && events[k].txn == c.txn && !events[k].stage.BadStage?)
  }

  function PublishCommitted(h: Hub, ref: JournalRef, c: Cursor, events: seq<Envelope>): (r: Hub)
    requires WellRegistered(h)
    ensures WellRegistered(r) && r.subs.Keys == h.subs.Keys
  {
    StagesAreStages(events);
    if !Publishable(ref, c, events) then h else SendStages(Dispatch(h, Commit(ref, events, c)), ParentStages(events))
  }

  /** Whether the call reports no error. */
  predicate PublishesWell(h: Hub, ref: JournalRef, c: Cursor, events: seq<Envelope>)
    requires WellRegistered(h)
  {
    StagesAreStages(events);
    Publishable(ref, c, events) && NoticesForm(Dispatch(h, Commit(ref, events, c)), ParentStages(events))
  }

  function PublishTransient(h: Hub, notice: string, valid: bool): (r: Hub)
    requires WellRegistered(h)
    ensures WellRegistered(r) && r.subs.Keys == h.subs.Keys
  {
    var bumped := h.(streamSeq := h.streamSeq + 1);
    if valid then Dispatch(bumped, NotifyAll(notice)) else bumped
  }

  function RotateEpoch(h: Hub, epoch: string): (r: Hub)
    requires WellRegistered(h)
    ensures WellRegistered(r) && r.subs.Keys == h.subs.Keys
  {
    if epoch == "" || epoch == h.epoch then h else Dispatch(h.(epoch := epoch, streamSeq := 0), Gap)
  }

  /** The item handed to the consumer, and the subscription afterwards. */
  function TakeNext(s: Sub): (Option<Item>, Sub) {
    if s.queue == [] then (None, s)
    else (Some(s.queue[0]), s.(queue := s.queue[1..], closed := s.closed || s.queue[0].Terminal?))
  }

  function Next(h: Hub, id: nat): (r: Hub)
    requires WellRegistered(h) && id in h.subs
    ensures WellRegistered(r)
  {
    var (item, s) := TakeNext(h.subs[id]);
    h.(subs := h.subs[id := s],
      registered := if item.Some? && item.value.Terminal? then h.registered - {id} else h.registered)
  }

  function Close(h: Hub, id: nat): (r: Hub)
    requires WellRegistered(h) && id in h.subs
    ensures WellRegistered(r)
  {
    if h.subs[id].closed then h
    else h.(subs := h.subs[id := h.subs[id].(closed := true, queue := [])], registered := h.registered - {id})
  }

  /** Registers a fresh subscription at the heads the snapshot read. */
  function Subscribe(h: Hub, id: nat, selected: string, capacity: nat, workspace: Cursor,
          session: Option<Cursor>): (r: Hub)
    requires WellRegistered(h) && id !in h.subs
    ensures WellRegistered(r)
  {
    h.(subs := h.subs[id := Sub(selected, capacity, [],
        AppCursor(workspace, session, h.epoch, h.streamSeq), false, false)],
       registered := h.registered + {id})
  }
}
