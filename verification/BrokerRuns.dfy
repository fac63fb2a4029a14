/** Runs of the broker: journals commit at any time, publishes of each journal come in
    commit order, may repeat and may be refused, clients subscribe, read and close as
    they like. */
module BrokerRuns {
  import opened Journals
  import opened Subscriptions

  datatype Txn = Txn(at: Cursor, events: seq<Envelope>)

  /** What a client got: where it started, what it read, what its close threw away. */
  datatype History = History(start: AppCursor, consumed: seq<Item>, dropped: seq<Item>)

  /** `published` counts the transactions offered to the broker, refused ones included. */
  datatype World = World(
    workspace: string, logs: map<JournalRef, seq<Txn>>, published: map<JournalRef, nat>,
    hub: Hub, histories: map<nat, History>)

  datatype Step =
    | Committing(journal: JournalRef, txn: Txn)
    | Publishing(journal: JournalRef, index: nat)
    | Subscribing(id: nat, selected: string, capacity: nat, workspaceAt: nat, sessionAt: nat)
    | Noticing(notice: string, valid: bool)
    | Reading(id: nat)
    | Closing(id: nat)
    | Rotating(epoch: string)

  function Log(w: World, ref: JournalRef): seq<Txn> { if ref in w.logs then w.logs[ref] else [] }

  function Published(w: World, ref: JournalRef): nat { if ref in w.published then w.published[ref] else 0 }

  predicate Known(w: World, ref: JournalRef) {
    ref.Valid() && (ref.WorkspaceControl? ==> ref.id == w.workspace)
  }

  predicate EventsMatch(t: Txn, ref: JournalRef) {
    forall k :: 0 <= k < |t.events| ==> t.events[k].journal == ref && t.events[k].txn == t.at.txn
  }

  predicate Commits(log: seq<Txn>, ref: JournalRef, t: Txn) {
    && t.at.Valid() && t.at.journal == ref
    && (log != [] ==> log[|log| - 1].at.commitSeq < t.at.commitSeq)
    && EventsMatch(t, ref)
  }

  /** A head the snapshot may have read while commits went on outside the lock. */
  predicate ReadHead(w: World, ref: JournalRef, at: nat) {
    Known(w, ref) && 1 <= at && Published(w, ref) <= at <= |Log(w, ref)|
  }

  predicate Enabled(w: World, step: Step) {
    match step
    case Committing(ref, t) => Known(w, ref) && Commits(Log(w, ref), ref, t)
    case Publishing(ref, i) => Known(w, ref) && i < |Log(w, ref)| && i <= Published(w, ref)
    case Subscribing(id, selected, capacity, workspaceAt, sessionAt) =>
      && id !in w.hub.subs && capacity > 0
      && ReadHead(w, WorkspaceControl(w.workspace), workspaceAt)
      && (selected != "" ==> ReadHead(w, Session(selected), sessionAt))
    case Noticing(_, _) => true
    case Reading(id) => id in w.hub.subs && id in w.histories
    case Closing(id) => id in w.hub.subs && id in w.histories
    case Rotating(_) => true
  }

  /** The `i`-th transaction was offered, for the first time or again. */
  function Offered(w: World, ref: JournalRef, i: nat): World {
    w.(published := w.published[ref := if i == Published(w, ref) then i + 1 else Published(w, ref)])
  }

  function Apply(w: World, step: Step): World
    requires WellRegistered(w.hub) && Enabled(w, step)
  {
    match step
    case Committing(ref, t) => w.(logs := w.logs[ref := Log(w, ref) + [t]])
    case Publishing(ref, i) =>
      var t := Log(w, ref)[i];
      Offered(w, ref, i).(hub := PublishCommitted(w.hub, ref, t.at, t.events))
    case Subscribing(id, selected, capacity, workspaceAt, sessionAt) =>
      var workspace := Log(w, WorkspaceControl(w.workspace))[workspaceAt - 1].at;
      var session := if selected == "" then None else Some(Log(w, Session(selected))[sessionAt - 1].at);
      var hub := Subscribe(w.hub, id, selected, capacity, workspace, session);
      w.(hub := hub, histories := w.histories[id := History(hub.subs[id].cursor, [], [])])
    case Noticing(notice, valid) => w.(hub := PublishTransient(w.hub, notice, valid))
    case Reading(id) =>
      var item := TakeNext(w.hub.subs[id]).0;
      var h := w.histories[id];
      w.(hub := Next(w.hub, id),
          histories := w.histories[id := if item.None? then h else h.(consumed := h.consumed + [item.value])])
    case Closing(id) =>
      var s, h := w.hub.subs[id], w.histories[id];
      w.(hub := Close(w.hub, id), histories := w.histories[id := if s.closed then h else h.(dropped := s.queue)])
    case Rotating(epoch) => w.(hub := RotateEpoch(w.hub, epoch))
  }

  // ---- what a client received ----

  function Received(s: Sub, h: History): seq<Item> { h.consumed + s.queue + h.dropped }

  /** The durable events of one journal among some items. */
  function Delivered(items: seq<Item>, ref: JournalRef): seq<Envelope> {
    if items == [] then []
    else
      var last := items[|items| - 1];
      Delivered(items[..|items| - 1], ref) + if last.Durable? && last.at.journal == ref then [last.envelope] else []
  }

  function EventsOf(txns: seq<Txn>): seq<Envelope> {
    if txns == [] then [] else EventsOf(txns[..|txns| - 1]) + txns[|txns| - 1].events
  }

  /** `PublishCommitted` fails on it: the stage of some event cannot be read. */
  predicate Refused(ref: JournalRef, t: Txn) { !Publishable(ref, t.at, t.events) }

  /** The events of the transactions that are not refused. */
  function PublicEvents(ref: JournalRef, txns: seq<Txn>): seq<Envelope> {
    if txns == [] then []
    else PublicEvents(ref, txns[..|txns| - 1]) + if Refused(ref, txns[|txns| - 1]) then [] else txns[|txns| - 1].events
  }

  function CursorIn(app: AppCursor, ref: JournalRef): Option<Cursor> {
    if ref.WorkspaceControl? then Some(app.workspace) else app.session
  }

  /** From its start to its cursor the client got exactly the events of the transactions
      that are not refused, and none was offered since. */
  ghost predicate CoversAt(log: seq<Txn>, ref: JournalRef, floor: nat, start: Option<Cursor>, cursor: Option<Cursor>,
          items: seq<Item>, a: nat, b: nat)
  {
    && 1 <= a <= b <= |log| && floor <= |log|
    && (forall i :: b <= i < floor ==> Refused(ref, log[i]))
    && start == Some(log[a - 1].at) && cursor == Some(log[b - 1].at)
    && Delivered(items, ref) == PublicEvents(ref, log[a..b])
  }

  ghost predicate Covers(log: seq<Txn>, ref: JournalRef, floor: nat, start: Option<Cursor>, cursor: Option<Cursor>,
          items: seq<Item>)
  {
    exists a: nat, b: nat :: CoversAt(log, ref, floor, start, cursor, items, a, b)
  }

  predicate EndsHere(items: seq<Item>, cursor: AppCursor) {
    items != [] && var last := items[|items| - 1];
    last.Terminal? && last.resumeAfter.workspace == cursor.workspace && last.resumeAfter.session == cursor.session
  }

  /** Terminals come last and only once, and name the cursor delivery stopped at. */
  ghost predicate QueueOk(s: Sub, h: History, registered: bool) {
    var items := Received(s, h);
    && |s.queue| <= s.capacity + (if s.terminal then 1 else 0)
    && (registered ==> !s.terminal && !s.closed)
    && (s.closed ==> s.queue == []) && (!s.closed ==> h.dropped == [])
    && (forall k :: 0 <= k < |items| && items[k].Terminal? ==> k == |items| - 1 && s.terminal)
    && (s.terminal ==> EndsHere(items, s.cursor))
  }

  predicate Interested(workspace: string, s: Sub, ref: JournalRef) {
    ref == WorkspaceControl(workspace) || (s.selected != "" && ref == Session(s.selected))
  }

  function Floor(w: World, id: nat, ref: JournalRef): nat {
    if id in w.hub.registered then Published(w, ref) else 0
  }

  ghost predicate ClientOk(w: World, id: nat)
    requires id in w.hub.subs && id in w.histories
  {
    var s, h := w.hub.subs[id], w.histories[id];
    && QueueOk(s, h, id in w.hub.registered)
    && (s.selected == "" ==> s.cursor.session == None)
    && (forall ref :: Interested(w.workspace, s, ref) ==>
      Covers(Log(w, ref), ref, Floor(w, id, ref), CursorIn(h.start, ref), CursorIn(s.cursor, ref), Received(s, h)))
  }

  ghost predicate LogOk(log: seq<Txn>, ref: JournalRef) {
    && (forall i :: 0 <= i < |log| ==> log[i].at.Valid() && log[i].at.journal == ref)
    && (forall i :: 0 <= i < |log| ==> EventsMatch(log[i], ref))
    && (forall i, j :: 0 <= i < j < |log| ==> log[i].at.commitSeq < log[j].at.commitSeq)
  }

  ghost predicate Inv(w: World) {
    && WellRegistered(w.hub) && w.hub.subs.Keys == w.histories.Keys
    && (forall ref :: ref in w.logs ==> Known(w, ref) && LogOk(w.logs[ref], ref))
    && (forall ref :: Published(w, ref) <= |Log(w, ref)|)
    && (forall id :: id in w.hub.subs ==> ClientOk(w, id))
  }

  predicate Fresh(w: World) {
    w.hub.subs == map[] && w.hub.registered == {} && w.histories == map[] && w.published == map[] && w.logs == map[]
  }

  lemma FreshInv(w: World)
    requires Fresh(w)
    ensures Inv(w)
  {
  }

  // ---- one subscription under one action ----

  lemma {:induction false} DeliveredConcat(a: seq<Item>, b: seq<Item>, ref: JournalRef)
    ensures Delivered(a + b, ref) == Delivered(a, ref) + Delivered(b, ref)
  {
    if b == [] {
      assert a + b == a;
    } else {
      assert (a + b)[..|a| + |b| - 1] == a + b[..|b| - 1];
      DeliveredConcat(a, b[..|b| - 1], ref);
    }
  }

  lemma {:induction false} ItemsAre(events: seq<Envelope>, at: Cursor, app: AppCursor)
    requires Items(events, at, app).Some?
    ensures var items := Items(events, at, app).value;
      |items| == |events| && (forall k :: 0 <= k < |items| ==> items[k] == Durable(events[k], at, app))
  {
    if events == [] {
    } else {
      ItemsAre(events[..|events| - 1], at, app);
    }
  }

  lemma {:induction false} DurablesDeliver(items: seq<Item>, events: seq<Envelope>, at: Cursor, app: AppCursor,
          ref: JournalRef)
    requires |items| == |events| && forall k :: 0 <= k < |items| ==> items[k] == Durable(events[k], at, app)
    ensures Delivered(items, ref) == if at.journal == ref then events else []
  {
    if items == [] {
    } else {
      var n := |items| - 1;
      DurablesDeliver(items[..n], events[..n], at, app, ref);
      assert events == events[..n] + [events[n]];
    }
  }

  lemma ItemsDeliver(events: seq<Envelope>, at: Cursor, app: AppCursor, ref: JournalRef)
    requires Items(events, at, app).Some?
    ensures var items := Items(events, at, app).value;
      && |items| == |events| && (forall k :: 0 <= k < |items| ==> items[k] == Durable(events[k], at, app))
      && Delivered(items, ref) == if at.journal == ref then events else []
  {
    ItemsAre(events, at, app);
    DurablesDeliver(Items(events, at, app).value, events, at, app, ref);
  }

  /** What an action appends to an open subscription's queue. */
  lemma ActAppends(s: Sub, action: Action, epoch: string, streamSeq: nat)
    requires !s.closed && !s.terminal && |s.queue| <= s.capacity
    ensures var s' := Act(s, action, epoch, streamSeq).sub;
      var extra := s'.queue[|s.queue|..];
      && s.queue <= s'.queue && s'.capacity == s.capacity && s'.selected == s.selected && !s'.closed
      && |s'.queue| <= s.capacity + (if s'.terminal then 1 else 0)
      && (s'.terminal <==> !Act(s, action, epoch, streamSeq).keep)
      && (s'.terminal ==> |extra| == 1 && EndsHere(extra, s.cursor) && s'.cursor == s.cursor)
      && (!s'.terminal ==> forall k :: 0 <= k < |extra| ==> !extra[k].Terminal?)
  {
    if action.Commit? && Items(action.events, action.at, CursorAfter(s, action.at, epoch, streamSeq)).Some? {
      ItemsDeliver(action.events, action.at, CursorAfter(s, action.at, epoch, streamSeq), action.journal);
    }
  }

  lemma AlreadyHas(s: Sub, ref: JournalRef, t: Txn, cursor: Cursor, epoch: string, streamSeq: nat)
    requires CursorIn(s.cursor, ref) == Some(cursor) && cursor.journal == ref == t.at.journal
    requires t.at.commitSeq <= cursor.commitSeq
    ensures Act(s, Commit(ref, t.events, t.at), epoch, streamSeq) == Verdict(s, true)
  {
  }

  /** Refused transactions add nothing to what is public; the next one adds its events. */
  lemma {:induction false} SkipRefused(log: seq<Txn>, ref: JournalRef, a: nat, b: nat, i: nat)
    requires a <= b <= i < |log| && (forall j :: b <= j < i ==> Refused(ref, log[j]))
    ensures PublicEvents(ref, log[a..i + 1]) ==
      PublicEvents(ref, log[a..b]) + if Refused(ref, log[i]) then [] else log[i].events
  {
    assert log[a..i + 1][..i - a] == log[a..i];
    if b == i {
    } else {
      SkipRefused(log, ref, a, b, i - 1);
    }
  }

  lemma OneTerminal(extra: seq<Item>, ref: JournalRef)
    requires |extra| == 1 && !extra[0].Durable?
    ensures Delivered(extra, ref) == []
  {
    assert extra[..0] == [];
  }

  lemma AppendDelivers(s: Sub, ref: JournalRef, t: Txn, epoch: string, streamSeq: nat)
    requires !s.closed && !s.terminal && Accepts(s, ref) && !HasCursor(s, t.at) && t.at.journal == ref
    ensures var v := Act(s, Commit(ref, t.events, t.at), epoch, streamSeq);
      var extra := v.sub.queue[|s.queue|..];
      && s.queue <= v.sub.queue
      && Delivered(extra, ref) == (if v.keep then t.events else [])
      && CursorIn(v.sub.cursor, ref) == (if v.keep then Some(t.at) else CursorIn(s.cursor, ref))
  {
    var v := Act(s, Commit(ref, t.events, t.at), epoch, streamSeq);
    var extra := v.sub.queue[|s.queue|..];
    var next := CursorAfter(s, t.at, epoch, streamSeq);
    if v.keep {
      ItemsDeliver(t.events, t.at, next, ref);
      assert extra == Items(t.events, t.at, next).value;
    } else {
      OneTerminal(extra, ref);
    }
  }

  lemma ReceivedAppends(s: Sub, s': Sub, h: History, ref: JournalRef)
    requires s.queue <= s'.queue && h.dropped == []
    ensures var extra := s'.queue[|s.queue|..];
      && Received(s', h) == Received(s, h) + extra
      && Delivered(Received(s', h), ref) == Delivered(Received(s, h), ref) + Delivered(extra, ref)
  {
    var extra := s'.queue[|s.queue|..];
    assert Received(s', h) == Received(s, h) + extra;
    DeliveredConcat(Received(s, h), extra, ref);
  }

  lemma AppendCovers(log: seq<Txn>, ref: JournalRef, i: nat, s: Sub, h: History, epoch: string, streamSeq: nat,
          a: nat, b: nat)
    requires !s.closed && !s.terminal && |s.queue| <= s.capacity && h.dropped == [] && LogOk(log, ref)
    requires Accepts(s, ref)
    requires b <= i < |log| && !HasCursor(s, log[i].at) && !Refused(ref, log[i])
    requires CoversAt(log, ref, i, CursorIn(h.start, ref), CursorIn(s.cursor, ref), Received(s, h), a, b)
    ensures var v := Act(s, Commit(ref, log[i].events, log[i].at), epoch, streamSeq);
      Covers(log, ref, if v.keep then i + 1 else 0, CursorIn(h.start, ref), CursorIn(v.sub.cursor, ref),
          Received(v.sub, h))
  {
    var t := log[i];
    var v := Act(s, Commit(ref, t.events, t.at), epoch, streamSeq);
    AppendDelivers(s, ref, t, epoch, streamSeq);
    ReceivedAppends(s, v.sub, h, ref);
    if v.keep {
      SkipRefused(log, ref, a, b, i);
      assert CoversAt(log, ref, i + 1, CursorIn(h.start, ref), CursorIn(v.sub.cursor, ref), Received(v.sub, h), a,
          i + 1);
    } else {
      assert CoversAt(log, ref, 0, CursorIn(h.start, ref), CursorIn(v.sub.cursor, ref), Received(v.sub, h), a, b);
    }
  }

  /** A transaction offered in order is appended whole exactly when none after it was. */
  lemma PublishCovers(log: seq<Txn>, ref: JournalRef, i: nat, floor: nat, s: Sub, h: History, epoch: string,
          streamSeq: nat)
    requires !s.closed && !s.terminal && |s.queue| <= s.capacity && h.dropped == [] && LogOk(log, ref)
    requires Accepts(s, ref)
    requires i < |log| && i <= floor && !Refused(ref, log[i])
    requires Covers(log, ref, floor, CursorIn(h.start, ref), CursorIn(s.cursor, ref), Received(s, h))
    ensures var v := Act(s, Commit(ref, log[i].events, log[i].at), epoch, streamSeq);
      Covers(log, ref, if v.keep then if i == floor then i + 1 else floor else 0, CursorIn(h.start, ref),
          CursorIn(v.sub.cursor, ref), Received(v.sub, h))
  {
    var a: nat, b: nat :|
        CoversAt(log, ref, floor, CursorIn(h.start, ref), CursorIn(s.cursor, ref), Received(s, h), a, b);
    var t := log[i];
    if i < b {
      assert log[i].at.commitSeq <= log[b - 1].at.commitSeq;
      AlreadyHas(s, ref, t, log[b - 1].at, epoch, streamSeq);
      assert CoversAt(log, ref, if i == floor then i + 1 else floor, CursorIn(h.start, ref), CursorIn(s.cursor, ref),
          Received(s, h), a, b);
    } else {
      assert i == floor && log[b - 1].at.commitSeq < t.at.commitSeq;
      assert !HasCursor(s, t.at);
      AppendCovers(log, ref, i, s, h, epoch, streamSeq, a, b);
    }
  }

  lemma OtherDelivers(s: Sub, action: Action, epoch: string, streamSeq: nat, ref: JournalRef)
    requires !s.closed && !s.terminal
    requires action.Commit? ==>
      action.at.journal == action.journal != ref && (action.journal.WorkspaceControl? ==> !ref.WorkspaceControl?)
    requires ref.Session? ==> ref.id == s.selected
    ensures var s' := Act(s, action, epoch, streamSeq).sub;
      && s.queue <= s'.queue && Delivered(s'.queue[|s.queue|..], ref) == []
      && CursorIn(s'.cursor, ref) == CursorIn(s.cursor, ref)
  {
    var s' := Act(s, action, epoch, streamSeq).sub;
    var extra := s'.queue[|s.queue|..];
    if action.Commit? && Items(action.events, action.at, CursorAfter(s, action.at, epoch, streamSeq)).Some? {
      ItemsDeliver(action.events, action.at, CursorAfter(s, action.at, epoch, streamSeq), ref);
      if |extra| == |action.events| && s'.cursor != s.cursor {
        assert extra == Items(action.events, action.at, CursorAfter(s, action.at, epoch, streamSeq)).value;
      } else if |extra| == 1 {
        OneTerminal(extra, ref);
      }
    } else if |extra| == 1 {
      OneTerminal(extra, ref);
    }
  }

  /** An action about something else changes nothing for this journal. */
  lemma OtherCovers(log: seq<Txn>, ref: JournalRef, floor: nat, s: Sub, h: History, action: Action, epoch: string,
          streamSeq: nat)
    requires !s.closed && !s.terminal && h.dropped == [] && |s.queue| <= s.capacity
    requires action.Commit? ==>
      action.at.journal == action.journal != ref && (action.journal.WorkspaceControl? ==> !ref.WorkspaceControl?)
    requires ref.Session? ==> ref.id == s.selected
    requires Covers(log, ref, floor, CursorIn(h.start, ref), CursorIn(s.cursor, ref), Received(s, h))
    ensures var v := Act(s, action, epoch, streamSeq);
      Covers(log, ref, if v.keep then floor else 0, CursorIn(h.start, ref), CursorIn(v.sub.cursor, ref),
          Received(v.sub, h))
  {
    var a: nat, b: nat :|
        CoversAt(log, ref, floor, CursorIn(h.start, ref), CursorIn(s.cursor, ref), Received(s, h), a, b);
    var v := Act(s, action, epoch, streamSeq);
    ActAppends(s, action, epoch, streamSeq);
    ReceivedAppends(s, v.sub, h, ref);
    OtherDelivers(s, action, epoch, streamSeq, ref);
    assert CoversAt(log, ref, if v.keep then floor else 0, CursorIn(h.start, ref), CursorIn(v.sub.cursor, ref),
        Received(v.sub, h), a, b);
  }

  lemma ActQueueOk(s: Sub, h: History, action: Action, epoch: string, streamSeq: nat)
    requires QueueOk(s, h, true)
    ensures var v := Act(s, action, epoch, streamSeq); QueueOk(v.sub, h, v.keep)
  {
    var v := Act(s, action, epoch, streamSeq);
    ActAppends(s, action, epoch, streamSeq);
    var before, extra := Received(s, h), v.sub.queue[|s.queue|..];
    ReceivedAppends(s, v.sub, h, WorkspaceControl(""));
    var items := Received(v.sub, h);
    assert items == before + extra;
    forall k | 0 <= k < |items| && items[k].Terminal? ensures k == |items| - 1 && v.sub.terminal {
      if k >= |before| { assert items[k] == extra[k - |before|]; }
    }
    if v.sub.terminal { assert items[|items| - 1] == extra[0]; }
  }

  lemma ActSelection(s: Sub, action: Action, epoch: string, streamSeq: nat)
    requires s.selected == "" ==> s.cursor.session == None
    requires action.Commit? ==> action.journal.Valid() && action.at.journal == action.journal
    ensures var s' := Act(s, action, epoch, streamSeq).sub;
      s'.selected == s.selected && (s'.selected == "" ==> s'.cursor.session == None)
  {
  }

  // ---- the steps ----

  predicate Quiet(action: Action) { !action.Commit? }

  lemma LogsSame(w: World, w': World)
    requires Inv(w) && w'.logs == w.logs && w'.published == w.published && w'.workspace == w.workspace
    ensures forall ref :: ref in w'.logs ==> Known(w', ref) && LogOk(w'.logs[ref], ref)
    ensures forall ref :: Published(w', ref) <= |Log(w', ref)|
  {
    forall ref ensures Published(w', ref) <= |Log(w', ref)| { assert Published(w, ref) <= |Log(w, ref)|; }
  }

  lemma QuietDispatch(w: World, action: Action)
    requires Inv(w) && Quiet(action)
    ensures Inv(w.(hub := Dispatch(w.hub, action)))
  {
    var w' := w.(hub := Dispatch(w.hub, action));
    forall id | id in w'.hub.subs ensures ClientOk(w', id) {
      assert ClientOk(w, id);
      var s, h := w.hub.subs[id], w.histories[id];
      if id in w.hub.registered {
        var v := Act(s, action, w.hub.epoch, w.hub.streamSeq);
        assert v.keep <==> id in w'.hub.registered;
        ActQueueOk(s, h, action, w.hub.epoch, w.hub.streamSeq);
        ActSelection(s, action, w.hub.epoch, w.hub.streamSeq);
        forall ref | Interested(w.workspace, v.sub, ref)
          ensures Covers(Log(w', ref), ref, Floor(w', id, ref), CursorIn(h.start, ref), CursorIn(v.sub.cursor, ref),
              Received(v.sub, h)) {
          assert Interested(w.workspace, s, ref);
          OtherCovers(Log(w, ref), ref, Published(w, ref), s, h, action, w.hub.epoch, w.hub.streamSeq);
        }
      }
    }
    LogsSame(w, w');
  }

  lemma Restream(w: World, epoch: string, streamSeq: nat)
    requires Inv(w)
    ensures Inv(w.(hub := w.hub.(epoch := epoch, streamSeq := streamSeq)))
  {
    var w' := w.(hub := w.hub.(epoch := epoch, streamSeq := streamSeq));
    LogsSame(w, w');
    forall id | id in w'.hub.subs ensures ClientOk(w', id) {
      assert ClientOk(w, id);
      var s, h := w.hub.subs[id], w.histories[id];
      forall ref | Interested(w.workspace, s, ref)
        ensures Covers(Log(w', ref), ref, Floor(w', id, ref), CursorIn(h.start, ref), CursorIn(s.cursor, ref),
            Received(s, h)) {
        assert Log(w', ref) == Log(w, ref) && Floor(w', id, ref) == Floor(w, id, ref);
      }
    }
  }

  /** A subscription no action reached keeps what it has. */
  lemma ClientUntouched(w: World, w': World, id: nat)
    requires id in w.hub.subs && id in w.histories && ClientOk(w, id) && id !in w.hub.registered
    requires id in w'.hub.subs && id in w'.histories && w'.hub.subs[id] == w.hub.subs[id]
    requires w'.histories[id] == w.histories[id]
    requires id !in w'.hub.registered && w'.workspace == w.workspace && w'.logs == w.logs
    ensures ClientOk(w', id)
  {
    var s, h := w.hub.subs[id], w.histories[id];
    forall ref | Interested(w'.workspace, s, ref)
      ensures Covers(Log(w', ref), ref, Floor(w', id, ref), CursorIn(h.start, ref), CursorIn(s.cursor, ref),
          Received(s, h)) {
      assert Interested(w.workspace, s, ref) && Floor(w', id, ref) == 0 == Floor(w, id, ref);
    }
  }

  lemma LogIsOk(w: World, ref: JournalRef)
    requires Inv(w)
    ensures LogOk(Log(w, ref), ref)
  {
  }

  /** The journal whose transaction is published. */
  lemma PublishToSame(w: World, ref: JournalRef, i: nat, id: nat)
    requires Inv(w) && Known(w, ref) && i < |Log(w, ref)| && i <= Published(w, ref) && id in w.hub.registered
    requires !Refused(ref, Log(w, ref)[i]) && Interested(w.workspace, w.hub.subs[id], ref)
    ensures var t, s, h := Log(w, ref)[i], w.hub.subs[id], w.histories[id];
      var v := Act(s, Commit(ref, t.events, t.at), w.hub.epoch, w.hub.streamSeq);
      Covers(Log(w, ref), ref, if v.keep then Published(Offered(w, ref, i), ref) else 0, CursorIn(h.start, ref),
          CursorIn(v.sub.cursor, ref), Received(v.sub, h))
  {
    assert ClientOk(w, id);
    LogIsOk(w, ref);
    PublishCovers(Log(w, ref), ref, i, Published(w, ref), w.hub.subs[id], w.histories[id], w.hub.epoch,
        w.hub.streamSeq);
  }

  /** Another journal the client follows. */
  lemma PublishToOther(w: World, ref: JournalRef, i: nat, id: nat, other: JournalRef)
    requires Inv(w) && Known(w, ref) && i < |Log(w, ref)| && i <= Published(w, ref) && id in w.hub.registered
    requires other != ref && Interested(w.workspace, w.hub.subs[id], other)
    ensures var t, s, h := Log(w, ref)[i], w.hub.subs[id], w.histories[id];
      var v := Act(s, Commit(ref, t.events, t.at), w.hub.epoch, w.hub.streamSeq);
      Covers(Log(w, other), other, if v.keep then Published(w, other) else 0, CursorIn(h.start, other),
          CursorIn(v.sub.cursor, other), Received(v.sub, h))
  {
    assert ClientOk(w, id);
    LogIsOk(w, ref);
    var t := Log(w, ref)[i];
    OtherCovers(Log(w, other), other, Published(w, other), w.hub.subs[id], w.histories[id],
        Commit(ref, t.events, t.at), w.hub.epoch, w.hub.streamSeq);
  }

  lemma PublishToJournal(w: World, ref: JournalRef, i: nat, id: nat, other: JournalRef)
    requires Inv(w) && Known(w, ref) && i < |Log(w, ref)| && i <= Published(w, ref) && id in w.hub.registered
    requires !Refused(ref, Log(w, ref)[i]) && Interested(w.workspace, w.hub.subs[id], other)
    ensures var t, s, h := Log(w, ref)[i], w.hub.subs[id], w.histories[id];
      var v := Act(s, Commit(ref, t.events, t.at), w.hub.epoch, w.hub.streamSeq);
      var floor := Published(Offered(w, ref, i), other);
      Covers(Log(w, other), other, if v.keep then floor else 0, CursorIn(h.start, other), CursorIn(v.sub.cursor, other),
          Received(v.sub, h))
  {
    if other == ref {
      PublishToSame(w, ref, i, id);
    } else {
      PublishToOther(w, ref, i, id, other);
      assert Published(Offered(w, ref, i), other) == Published(w, other);
    }
  }

  lemma PublishToOne(w: World, w': World, ref: JournalRef, i: nat, id: nat)
    requires Inv(w) && Known(w, ref) && i < |Log(w, ref)| && i <= Published(w, ref) && id in w.hub.registered
    requires !Refused(ref, Log(w, ref)[i])
    requires var t := Log(w, ref)[i];
      w' == Offered(w, ref, i).(hub := Dispatch(w.hub, Commit(ref, t.events, t.at)))
    ensures id in w'.hub.subs && ClientOk(w', id)
  {
    assert ClientOk(w, id);
    var t := Log(w, ref)[i];
    var action := Commit(ref, t.events, t.at);
    var s, h := w.hub.subs[id], w.histories[id];
    var v := Act(s, action, w.hub.epoch, w.hub.streamSeq);
    assert w'.hub.subs[id] == v.sub && (v.keep <==> id in w'.hub.registered);
    ActQueueOk(s, h, action, w.hub.epoch, w.hub.streamSeq);
    ActSelection(s, action, w.hub.epoch, w.hub.streamSeq);
    forall other | Interested(w.workspace, v.sub, other)
      ensures Covers(Log(w', other), other, Floor(w', id, other), CursorIn(h.start, other),
          CursorIn(v.sub.cursor, other), Received(v.sub, h)) {
      PublishToJournal(w, ref, i, id, other);
    }
  }

  /** A transaction offered in order and not refused is delivered to everyone. */
  lemma PublishDispatch(w: World, ref: JournalRef, i: nat)
    requires Inv(w) && Known(w, ref) && i < |Log(w, ref)| && i <= Published(w, ref) && !Refused(ref, Log(w, ref)[i])
    ensures var t := Log(w, ref)[i];
      Inv(Offered(w, ref, i).(hub := Dispatch(w.hub, Commit(ref, t.events, t.at))))
  {
    var t := Log(w, ref)[i];
    var w' := Offered(w, ref, i).(hub := Dispatch(w.hub, Commit(ref, t.events, t.at)));
    forall other ensures Published(w', other) <= |Log(w', other)| { assert Published(w, other) <= |Log(w, other)|; }
    forall id | id in w'.hub.subs ensures ClientOk(w', id) {
      assert ClientOk(w, id);
      if id in w.hub.registered {
        PublishToOne(w, w', ref, i, id);
      } else {
        ClientUntouched(w, w', id);
      }
    }
  }

  lemma RefusedCovers(log: seq<Txn>, ref: JournalRef, i: nat, floor: nat, start: Option<Cursor>,
          cursor: Option<Cursor>, items: seq<Item>)
    requires i < |log| && i <= floor && Refused(ref, log[i]) && Covers(log, ref, floor, start, cursor, items)
    ensures Covers(log, ref, if i == floor then i + 1 else floor, start, cursor, items)
  {
    var a: nat, b: nat :| CoversAt(log, ref, floor, start, cursor, items, a, b);
    assert CoversAt(log, ref, if i == floor then i + 1 else floor, start, cursor, items, a, b);
  }

  /** A refused transaction reaches nobody and moves no cursor. */
  lemma RefusedKeeps(w: World, ref: JournalRef, i: nat)
    requires Inv(w) && Known(w, ref) && i < |Log(w, ref)| && i <= Published(w, ref) && Refused(ref, Log(w, ref)[i])
    ensures Inv(Offered(w, ref, i))
  {
    var w' := Offered(w, ref, i);
    forall other ensures Published(w', other) <= |Log(w', other)| { assert Published(w, other) <= |Log(w, other)|; }
    forall id | id in w'.hub.subs ensures ClientOk(w', id) {
      assert ClientOk(w, id);
      var s, h := w.hub.subs[id], w.histories[id];
      forall other | Interested(w.workspace, s, other)
        ensures Covers(Log(w', other), other, Floor(w', id, other), CursorIn(h.start, other), CursorIn(s.cursor, other),
            Received(s, h)) {
        if other == ref && id in w.hub.registered {
          RefusedCovers(Log(w, ref), ref, i, Published(w, ref), CursorIn(h.start, ref), CursorIn(s.cursor, ref),
              Received(s, h));
        }
      }
    }
  }

  lemma StageKeeps(w: World, e: Envelope)
    requires Inv(w) && e.stage.Stage?
    ensures Inv(w.(hub := SendStage(w.hub, e).0))
  {
    var bumped := w.(hub := w.hub.(streamSeq := w.hub.streamSeq + 1));
    Restream(w, w.hub.epoch, w.hub.streamSeq + 1);
    if e.stage.sends { QuietDispatch(bumped, NotifyParent(e.stage.parent, e.id)); }
  }

  lemma {:induction false} StagesKeep(w: World, stages: seq<Envelope>)
    requires Inv(w) && forall k :: 0 <= k < |stages| ==> stages[k].stage.Stage?
    ensures Inv(w.(hub := SendStages(w.hub, stages)))
    decreases |stages|
  {
    if stages == [] {
    } else {
      var (next, ended) := SendStage(w.hub, stages[0]);
      StageKeeps(w, stages[0]);
      if !ended { StagesKeep(w.(hub := next), stages[1..]); }
    }
  }

  lemma PublishKeeps(w: World, ref: JournalRef, i: nat)
    requires Inv(w) && Enabled(w, Publishing(ref, i))
    ensures Inv(Apply(w, Publishing(ref, i)))
  {
    var t := Log(w, ref)[i];
    if Refused(ref, t) {
      RefusedKeeps(w, ref, i);
    } else {
      PublishDispatch(w, ref, i);
      StagesAreStages(t.events);
      StagesKeep(Offered(w, ref, i).(hub := Dispatch(w.hub, Commit(ref, t.events, t.at))), ParentStages(t.events));
    }
  }

  lemma LongerLogOk(log: seq<Txn>, ref: JournalRef, t: Txn)
    requires LogOk(log, ref) && Commits(log, ref, t)
    ensures LogOk(log + [t], ref)
  {
    forall i | 0 <= i < |log| ensures log[i].at.commitSeq < t.at.commitSeq {
      if i < |log| - 1 { assert log[i].at.commitSeq < log[|log| - 1].at.commitSeq; }
    }
  }

  lemma LongerLog(log: seq<Txn>, longer: seq<Txn>, ref: JournalRef, floor: nat, start: Option<Cursor>,
          cursor: Option<Cursor>, items: seq<Item>)
    requires log <= longer && Covers(log, ref, floor, start, cursor, items)
    ensures Covers(longer, ref, floor, start, cursor, items)
  {
    var a: nat, b: nat :| CoversAt(log, ref, floor, start, cursor, items, a, b);
    assert longer[a..b] == log[a..b];
    assert CoversAt(longer, ref, floor, start, cursor, items, a, b);
  }

  lemma CommitToOne(w: World, w': World, id: nat)
    requires id in w.hub.subs && id in w.histories && ClientOk(w, id)
    requires w' == w.(logs := w'.logs) && forall ref :: Log(w, ref) <= Log(w', ref)
    ensures ClientOk(w', id)
  {
    var s, h := w.hub.subs[id], w.histories[id];
    forall other | Interested(w.workspace, s, other)
      ensures Covers(Log(w', other), other, Floor(w', id, other), CursorIn(h.start, other), CursorIn(s.cursor, other),
          Received(s, h)) {
      LongerLog(Log(w, other), Log(w', other), other, Floor(w, id, other), CursorIn(h.start, other),
          CursorIn(s.cursor, other), Received(s, h));
    }
  }

  /** A commit outside the lock moves no cursor and delivers nothing. */
  lemma CommitKeeps(w: World, ref: JournalRef, t: Txn)
    requires Inv(w) && Enabled(w, Committing(ref, t))
    ensures Inv(Apply(w, Committing(ref, t)))
  {
    var w' := Apply(w, Committing(ref, t));
    assert LogOk(Log(w, ref), ref);
    LongerLogOk(Log(w, ref), ref, t);
    forall other ensures Published(w', other) <= |Log(w', other)| && Log(w, other) <= Log(w', other) {
      assert Published(w, other) <= |Log(w, other)|;
    }
    forall other | other in w'.logs ensures Known(w', other) && LogOk(w'.logs[other], other) {
      if other != ref { assert other in w.logs; }
    }
    forall id | id in w'.hub.subs ensures ClientOk(w', id) {
      assert ClientOk(w, id);
      CommitToOne(w, w', id);
    }
  }

  lemma FreshQueueOk(s: Sub, h: History)
    requires s.queue == [] && !s.terminal && !s.closed && h.consumed == [] && h.dropped == []
    ensures QueueOk(s, h, true) && Received(s, h) == []
  {
  }

  lemma CoversNothing(log: seq<Txn>, ref: JournalRef, floor: nat, at: nat)
    requires 1 <= at <= |log| && floor <= at
    ensures Covers(log, ref, floor, Some(log[at - 1].at), Some(log[at - 1].at), [])
  {
    assert log[at..at] == [];
    assert CoversAt(log, ref, floor, Some(log[at - 1].at), Some(log[at - 1].at), [], at, at);
  }

  /** A fresh subscription has received nothing since the heads it starts at. */
  lemma NewClientOk(w: World, id: nat, selected: string, capacity: nat, workspaceAt: nat, sessionAt: nat)
    requires WellRegistered(w.hub) && Enabled(w, Subscribing(id, selected, capacity, workspaceAt, sessionAt))
    ensures ClientOk(Apply(w, Subscribing(id, selected, capacity, workspaceAt, sessionAt)), id)
  {
    var w' := Apply(w, Subscribing(id, selected, capacity, workspaceAt, sessionAt));
    var s, h := w'.hub.subs[id], w'.histories[id];
    FreshQueueOk(s, h);
    forall ref | Interested(w.workspace, s, ref)
      ensures Covers(Log(w', ref), ref, Floor(w', id, ref), CursorIn(h.start, ref), CursorIn(s.cursor, ref),
          Received(s, h)) {
      var at := if ref.WorkspaceControl? then workspaceAt else sessionAt;
      CoversNothing(Log(w, ref), ref, Published(w, ref), at);
    }
  }

  lemma LowerFloor(log: seq<Txn>, ref: JournalRef, floor: nat, lower: nat, start: Option<Cursor>,
          cursor: Option<Cursor>, items: seq<Item>)
    requires lower <= floor && Covers(log, ref, floor, start, cursor, items)
    ensures Covers(log, ref, lower, start, cursor, items)
  {
    var a: nat, b: nat :| CoversAt(log, ref, floor, start, cursor, items, a, b);
    assert CoversAt(log, ref, lower, start, cursor, items, a, b);
  }

  /** A client whose received items and registration did not change. */
  lemma ClientSame(w: World, w': World, id: nat, s: Sub, h: History)
    requires id in w.hub.subs && id in w.histories && ClientOk(w, id)
    requires id in w'.hub.subs && id in w'.histories && w'.hub.subs[id] == s && w'.histories[id] == h
    requires w'.workspace == w.workspace && w'.logs == w.logs && w'.published == w.published
    requires id in w'.hub.registered ==> id in w.hub.registered
    requires s.selected == w.hub.subs[id].selected && s.cursor == w.hub.subs[id].cursor
    requires h.start == w.histories[id].start
    requires Received(s, h) == Received(w.hub.subs[id], w.histories[id])
    requires QueueOk(s, h, id in w'.hub.registered)
    ensures ClientOk(w', id)
  {
    forall ref | Interested(w.workspace, s, ref)
      ensures Covers(Log(w', ref), ref, Floor(w', id, ref), CursorIn(h.start, ref), CursorIn(s.cursor, ref),
          Received(s, h)) {
      assert Interested(w.workspace, w.hub.subs[id], ref);
      LowerFloor(Log(w, ref), ref, Floor(w, id, ref), Floor(w', id, ref), CursorIn(h.start, ref),
          CursorIn(s.cursor, ref), Received(s, h));
    }
  }

  lemma SubscribeKeeps(w: World, id: nat, selected: string, capacity: nat, workspaceAt: nat, sessionAt: nat)
    requires Inv(w) && Enabled(w, Subscribing(id, selected, capacity, workspaceAt, sessionAt))
    ensures Inv(Apply(w, Subscribing(id, selected, capacity, workspaceAt, sessionAt)))
  {
    var w' := Apply(w, Subscribing(id, selected, capacity, workspaceAt, sessionAt));
    LogsSame(w, w');
    NewClientOk(w, id, selected, capacity, workspaceAt, sessionAt);
    forall other | other in w'.hub.subs ensures ClientOk(w', other) {
      if other != id {
        assert ClientOk(w, other);
        ClientSame(w, w', other, w.hub.subs[other], w.histories[other]);
      }
    }
  }

  lemma TakeKeepsReceived(s: Sub, h: History)
    requires QueueOk(s, h, false) || QueueOk(s, h, true)
    ensures var (item, s') := TakeNext(s);
      var h' := if item.None? then h else h.(consumed := h.consumed + [item.value]);
      && Received(s', h') == Received(s, h) && QueueOk(s', h', false)
      && (QueueOk(s, h, true) && !(item.Some? && item.value.Terminal?) ==> QueueOk(s', h', true))
  {
    if s.queue != [] {
      var (item, s') := TakeNext(s);
      var h' := h.(consumed := h.consumed + [item.value]);
      assert [s.queue[0]] + s.queue[1..] == s.queue;
      assert Received(s', h') == Received(s, h);
      if s.queue[0].Terminal? {
        assert Received(s, h)[|h.consumed|] == s.queue[0];
      }
    }
  }

  lemma ReadKeeps(w: World, id: nat)
    requires Inv(w) && Enabled(w, Reading(id))
    ensures Inv(Apply(w, Reading(id)))
  {
    var w' := Apply(w, Reading(id));
    LogsSame(w, w');
    forall other | other in w'.hub.subs ensures ClientOk(w', other) {
      assert ClientOk(w, other);
      if other == id { TakeKeepsReceived(w.hub.subs[id], w.histories[id]); }
      ClientSame(w, w', other, w'.hub.subs[other], w'.histories[other]);
    }
  }

  lemma CloseKeeps(w: World, id: nat)
    requires Inv(w) && Enabled(w, Closing(id))
    ensures Inv(Apply(w, Closing(id)))
  {
    var w' := Apply(w, Closing(id));
    LogsSame(w, w');
    forall other | other in w'.hub.subs ensures ClientOk(w', other) {
      assert ClientOk(w, other);
      if other == id && !w.hub.subs[id].closed {
        assert Received(w'.hub.subs[id], w'.histories[id]) == Received(w.hub.subs[id], w.histories[id]);
      }
      ClientSame(w, w', other, w'.hub.subs[other], w'.histories[other]);
    }
  }

  lemma NoticeKeeps(w: World, notice: string, valid: bool)
    requires Inv(w)
    ensures Inv(w.(hub := PublishTransient(w.hub, notice, valid)))
  {
    var bumped := w.(hub := w.hub.(streamSeq := w.hub.streamSeq + 1));
    Restream(w, w.hub.epoch, w.hub.streamSeq + 1);
    if valid { QuietDispatch(bumped, NotifyAll(notice)); }
  }

  lemma RotateKeeps(w: World, epoch: string)
    requires Inv(w)
    ensures Inv(w.(hub := RotateEpoch(w.hub, epoch)))
  {
    Restream(w, epoch, 0);
    QuietDispatch(w.(hub := w.hub.(epoch := epoch, streamSeq := 0)), Gap);
  }

  /** Every step keeps every client's account of its journals. */
  lemma StepKeeps(w: World, step: Step)
    requires Inv(w) && Enabled(w, step)
    ensures Inv(Apply(w, step))
  {
    match step
    case Committing(ref, t) => CommitKeeps(w, ref, t);
    case Publishing(ref, i) => PublishKeeps(w, ref, i);
    case Subscribing(id, selected, capacity, workspaceAt, sessionAt) =>
      SubscribeKeeps(w, id, selected, capacity, workspaceAt, sessionAt);
    case Noticing(notice, valid) => NoticeKeeps(w, notice, valid);
    case Reading(id) => ReadKeeps(w, id);
    case Closing(id) => CloseKeeps(w, id);
    case Rotating(epoch) => RotateKeeps(w, epoch);
  }

  // ---- runs ----

  predicate Enables(w: World, steps: seq<Step>)
    requires WellRegistered(w.hub)
    decreases |steps|
  {
    steps == [] || (Enabled(w, steps[0]) && Enables(Apply(w, steps[0]), steps[1..]))
  }

  function Run(w: World, steps: seq<Step>): (r: World)
    requires WellRegistered(w.hub) && Enables(w, steps)
    decreases |steps|
  {
    if steps == [] then w else Run(Apply(w, steps[0]), steps[1..])
  }

  lemma {:induction false} RunKeeps(w: World, steps: seq<Step>)
    requires Inv(w) && Enables(w, steps)
    ensures Inv(Run(w, steps))
    decreases |steps|
  {
    if steps == [] {
    } else {
      StepKeeps(w, steps[0]);
      RunKeeps(Apply(w, steps[0]), steps[1..]);
    }
  }

  // ---- what refused transactions cost ----

  lemma SameFront(x: seq<Envelope>, y: seq<Envelope>, z: seq<Envelope>)
    requires x + z == y + z
    ensures x == y
  {
    assert |x| == |y| && (x + z)[..|x|] == x && (y + z)[..|y|] == y;
  }

  /** A committed transaction is refused for one of its events. */
  lemma RefusedHasEvents(ref: JournalRef, t: Txn)
    requires t.at.Valid() && t.at.journal == ref && EventsMatch(t, ref) && Refused(ref, t)
    ensures t.events != []
  {
  }

  lemma {:induction false} PublicAtMost(ref: JournalRef, txns: seq<Txn>)
    requires LogOk(txns, ref)
    ensures |PublicEvents(ref, txns)| <= |EventsOf(txns)|
    ensures PublicEvents(ref, txns) == EventsOf(txns) <==> forall i :: 0 <= i < |txns| ==> !Refused(ref, txns[i])
  {
    if txns == [] {
    } else {
      var n := |txns| - 1;
      PublicAtMost(ref, txns[..n]);
      if Refused(ref, txns[n]) {
        RefusedHasEvents(ref, txns[n]);
      } else if PublicEvents(ref, txns) == EventsOf(txns) {
        SameFront(PublicEvents(ref, txns[..n]), EventsOf(txns[..n]), txns[n].events);
      }
    }
  }

  /** The items are what is public between positions `a` and `b` of the journal, and
      that is all that was committed there exactly if nothing there is refused. */
  ghost predicate AccountAt(log: seq<Txn>, ref: JournalRef, floor: nat, start: Option<Cursor>, cursor: Option<Cursor>,
          items: seq<Item>, a: nat, b: nat)
  {
    && CoversAt(log, ref, floor, start, cursor, items, a, b)
    && (Delivered(items, ref) == EventsOf(log[a..b]) <==> forall i :: a <= i < b ==> !Refused(ref, log[i]))
  }

  ghost predicate Account(log: seq<Txn>, ref: JournalRef, floor: nat, start: Option<Cursor>, cursor: Option<Cursor>,
          items: seq<Item>)
  {
    exists a: nat, b: nat :: AccountAt(log, ref, floor, start, cursor, items, a, b)
  }

  lemma PublicBetween(log: seq<Txn>, ref: JournalRef, a: nat, b: nat)
    requires LogOk(log, ref) && a <= b <= |log|
    ensures PublicEvents(ref, log[a..b]) == EventsOf(log[a..b]) <==> forall i :: a <= i < b ==> !Refused(ref, log[i])
  {
    var txns := log[a..b];
    PublicAtMost(ref, txns);
    if forall i :: 0 <= i < |txns| ==> !Refused(ref, txns[i]) {
      forall i | a <= i < b ensures !Refused(ref, log[i]) { assert txns[i - a] == log[i]; }
    }
  }

  lemma CoversAccount(log: seq<Txn>, ref: JournalRef, floor: nat, start: Option<Cursor>, cursor: Option<Cursor>,
          items: seq<Item>)
    requires LogOk(log, ref) && Covers(log, ref, floor, start, cursor, items)
    ensures Account(log, ref, floor, start, cursor, items)
  {
    var a: nat, b: nat :| CoversAt(log, ref, floor, start, cursor, items, a, b);
    PublicBetween(log, ref, a, b);
    assert AccountAt(log, ref, floor, start, cursor, items, a, b);
  }

  /** Over every run, what a client read, has queued or threw away of an accepted journal
      is exactly what the transactions between its snapshot and its cursor hold that are
      not refused, in commit order and once each; the refused ones are missing, and only
      they are. */
  lemma ExactlyOnce(w: World, steps: seq<Step>, id: nat, ref: JournalRef)
    requires Fresh(w) && Enables(w, steps)
    requires var end := Run(w, steps); id in end.hub.subs && Interested(end.workspace, end.hub.subs[id], ref)
    ensures var end := Run(w, steps);
      id in end.histories && var s, h := end.hub.subs[id], end.histories[id];
      && Account(Log(end, ref), ref, Floor(end, id, ref), CursorIn(h.start, ref), CursorIn(s.cursor, ref),
          h.consumed + s.queue + h.dropped)
      && (!s.closed ==> h.dropped == [])
  {
    FreshInv(w);
    RunKeeps(w, steps);
    var end := Run(w, steps);
    assert ClientOk(end, id);
    LogIsOk(end, ref);
    var s, h := end.hub.subs[id], end.histories[id];
    CoversAccount(Log(end, ref), ref, Floor(end, id, ref), CursorIn(h.start, ref), CursorIn(s.cursor, ref),
        Received(s, h));
  }

  /** Only a terminal may exceed the capacity, and it is last in the queue. */
  predicate QueueBounded(s: Sub) {
    |s.queue| <= s.capacity + if s.queue != [] && s.queue[|s.queue| - 1].Terminal? then 1 else 0
  }

  lemma BoundedQueue(s: Sub, h: History, registered: bool)
    requires QueueOk(s, h, registered)
    ensures QueueBounded(s)
  {
    var items := Received(s, h);
    if s.terminal && s.queue != [] {
      assert h.dropped == [];
      assert items[|items| - 1] == s.queue[|s.queue| - 1];
    }
  }

  /** Resuming after `resume` completes what the items delivered since `start`, exactly
      if nothing in between was refused. */
  ghost predicate UndeliveredAfter(log: seq<Txn>, ref: JournalRef, start: Option<Cursor>, resume: Option<Cursor>,
          items: seq<Item>, a: nat, b: nat)
  {
    && 1 <= a <= b <= |log| && start == Some(log[a - 1].at) && resume == Some(log[b - 1].at)
    && Delivered(items, ref) == PublicEvents(ref, log[a..b])
    && (Delivered(items, ref) + EventsOf(log[b..]) == EventsOf(log[a..])
      <==> forall i :: a <= i < b ==> !Refused(ref, log[i]))
  }

  ghost predicate Resumable(log: seq<Txn>, ref: JournalRef, start: Option<Cursor>, resume: Option<Cursor>,
          items: seq<Item>)
  {
    exists a: nat, b: nat :: UndeliveredAfter(log, ref, start, resume, items, a, b)
  }

  lemma {:induction false} EventsConcat(x: seq<Txn>, y: seq<Txn>)
    ensures EventsOf(x + y) == EventsOf(x) + EventsOf(y)
  {
    if y == [] {
      assert x + y == x;
    } else {
      assert (x + y)[..|x| + |y| - 1] == x + y[..|y| - 1];
      EventsConcat(x, y[..|y| - 1]);
    }
  }

  lemma SplitEvents(log: seq<Txn>, a: nat, b: nat)
    requires a <= b <= |log|
    ensures EventsOf(log[a..]) == EventsOf(log[a..b]) + EventsOf(log[b..])
  {
    assert log[a..] == log[a..b] + log[b..];
    EventsConcat(log[a..b], log[b..]);
  }

  lemma CoversResumes(log: seq<Txn>, ref: JournalRef, floor: nat, start: Option<Cursor>, cursor: Option<Cursor>,
          items: seq<Item>)
    requires LogOk(log, ref) && Covers(log, ref, floor, start, cursor, items)
    ensures Resumable(log, ref, start, cursor, items)
  {
    var a: nat, b: nat :| CoversAt(log, ref, floor, start, cursor, items, a, b);
    SplitEvents(log, a, b);
    PublicBetween(log, ref, a, b);
    if Delivered(items, ref) + EventsOf(log[b..]) == EventsOf(log[a..]) {
      SameFront(Delivered(items, ref), EventsOf(log[a..b]), EventsOf(log[b..]));
    }
    assert UndeliveredAfter(log, ref, start, cursor, items, a, b);
  }

  lemma ClientResumes(w: World, id: nat, ref: JournalRef)
    requires id in w.hub.subs && id in w.histories && ClientOk(w, id) && Interested(w.workspace, w.hub.subs[id], ref)
    requires LogOk(Log(w, ref), ref)
    ensures var s, h := w.hub.subs[id], w.histories[id]; var items := h.consumed + s.queue + h.dropped;
      && QueueBounded(s)
      && (forall k :: 0 <= k < |items| && items[k].Terminal? ==> k == |items| - 1)
      && (items != [] && items[|items| - 1].Terminal? ==>
        Resumable(Log(w, ref), ref, CursorIn(h.start, ref), CursorIn(items[|items| - 1].resumeAfter, ref), items))
  {
    var s, h := w.hub.subs[id], w.histories[id];
    var items := Received(s, h);
    BoundedQueue(s, h, id in w.hub.registered);
    if items != [] && items[|items| - 1].Terminal? {
      CoversResumes(Log(w, ref), ref, Floor(w, id, ref), CursorIn(h.start, ref), CursorIn(s.cursor, ref), items);
    }
  }

  /** What a client of a reachable state can resume with. */
  ghost predicate Resumes(w: World, id: nat, ref: JournalRef)
    requires id in w.hub.subs
  {
    id in w.histories && var s, h := w.hub.subs[id], w.histories[id];
    var items := h.consumed + s.queue + h.dropped;
    && QueueBounded(s)
    && (forall k :: 0 <= k < |items| && items[k].Terminal? ==> k == |items| - 1)
    && (items != [] && items[|items| - 1].Terminal? ==>
      Resumable(Log(w, ref), ref, CursorIn(h.start, ref), CursorIn(items[|items| - 1].resumeAfter, ref), items))
  }

  lemma ReachedResumes(w: World, id: nat, ref: JournalRef)
    requires Inv(w) && id in w.hub.subs && Interested(w.workspace, w.hub.subs[id], ref)
    ensures Resumes(w, id, ref)
  {
    assert ClientOk(w, id);
    LogIsOk(w, ref);
    ClientResumes(w, id, ref);
  }

  /** Over every run, a terminal is queued at most once and nothing follows it; the queue
      exceeds its capacity by that terminal only; and the journal after the cursor it
      names holds exactly what was not delivered, refused transactions apart. */
  lemma OverflowResumes(w: World, steps: seq<Step>, id: nat, ref: JournalRef)
    requires Fresh(w) && Enables(w, steps)
    requires var end := Run(w, steps); id in end.hub.subs && Interested(end.workspace, end.hub.subs[id], ref)
    ensures Resumes(Run(w, steps), id, ref)
  {
    FreshInv(w);
    RunKeeps(w, steps);
    ReachedResumes(Run(w, steps), id, ref);
  }

  /** Why publishes must come in order: once a later transaction of a journal was enqueued,
      an earlier one is taken for delivered and never is. */
  lemma LaterHidesEarlier(s: Sub, ref: JournalRef, earlier: Txn, later: Txn, epoch: string, streamSeq: nat)
    requires !s.closed && !s.terminal && Accepts(s, ref) && !HasCursor(s, later.at)
    requires earlier.at.journal == later.at.journal == ref && earlier.at.commitSeq <= later.at.commitSeq
    ensures var v := Act(s, Commit(ref, later.events, later.at), epoch, streamSeq);
      v.keep ==> Act(v.sub, Commit(ref, earlier.events, earlier.at), epoch, streamSeq) == Verdict(v.sub, true)
  {
    AppendDelivers(s, ref, later, epoch, streamSeq);
    var v := Act(s, Commit(ref, later.events, later.at), epoch, streamSeq);
    if v.keep { AlreadyHas(v.sub, ref, earlier, later.at, epoch, streamSeq); }
  }
}
