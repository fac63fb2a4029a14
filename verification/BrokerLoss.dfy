/** A run of the broker that loses an event: its transaction is refused, and a later one
    of the same journal moves every cursor past it. */
module BrokerLoss {
  import opened Journals
  import opened Subscriptions
  import opened BrokerRuns

  // ---- the stage of a waiting event ----

  /** A session reports that it waits for a child. */
  datatype Waiting = Waiting(attempt: string, child: string) {
    /** What the recorded event is checked for. */
    predicate Valid() { attempt != "" && child != "" }
  }

  /** `publicSubagentStage` of a waiting event: the session itself is the parent, and a stage
      must join two different sessions. */
  function StageOf(session: string, w: Waiting, sends: bool): Stage {
    if w.attempt == "" || session == "" || w.child == "" || session == w.child then BadStage
    else Stage(session, w.child, sends)
  }

  /** A valid waiting event has no readable stage exactly if it names its own session. */
  lemma WaitingUnreadableIff(session: string, w: Waiting, sends: bool)
    requires session != "" && w.Valid()
    ensures StageOf(session, w, sends).BadStage? <==> w.child == session
  {
  }

  // ---- the run ----

  function LossRef(): JournalRef { Session("s") }

  function BaseRef(): JournalRef { WorkspaceControl("w") }

  function LossTxnId(n: nat): string { if n == 1 then "x1" else if n == 2 then "x2" else "x3" }

  /** The second event says that session s waits for session s. */
  function LossEvent(n: nat): Envelope {
    Envelope("e", LossRef(), LossTxnId(n), "s", "",
             if n == 2 then StageOf("s", Waiting("attempt", "s"), true) else NoStage, true)
  }

  function LossTxn(n: nat): Txn { Txn(Cursor(LossRef(), n, LossTxnId(n)), [LossEvent(n)]) }

  function BaseTxn(): Txn { Txn(Cursor(BaseRef(), 1, "x0"), []) }

  function LossLog(n: nat): seq<Txn> { if n == 0 then [] else LossLog(n - 1) + [LossTxn(n)] }

  /** A client subscribes after the first transaction; the second is refused, the third not. */
  function LossStep(k: nat): Step {
    if k == 0 then Committing(BaseRef(), BaseTxn())
    else if k == 1 then Committing(LossRef(), LossTxn(1))
    else if k == 2 then Publishing(LossRef(), 0)
    else if k == 3 then Subscribing(0, "s", 1, 1, 1)
    else if k == 4 then Committing(LossRef(), LossTxn(2))
    else if k == 5 then Publishing(LossRef(), 1)
    else if k == 6 then Committing(LossRef(), LossTxn(3))
    else Publishing(LossRef(), 2)
  }

  function LossApp(n: nat): AppCursor { AppCursor(BaseTxn().at, Some(LossTxn(n).at), "epoch", 0) }

  function LossSub(n: nat): Sub {
    Sub("s", 1, if n == 1 then [] else [Durable(LossEvent(n), LossTxn(n).at, LossApp(n))], LossApp(n), false, false)
  }

  function Logs(n: nat): map<JournalRef, seq<Txn>> { map[BaseRef() := [BaseTxn()], LossRef() := LossLog(n)] }

  /** The world before step `k`. */
  function LossWorld(k: nat): World {
    var committed := if k < 5 then 1 else if k < 7 then 2 else 3;
    var offered := if k < 6 then 1 else if k < 8 then 2 else 3;
    World(
      "w", if k == 0 then map[] else if k == 1 then map[BaseRef() := [BaseTxn()]] else Logs(committed),
      if k < 3 then map[] else map[LossRef() := offered],
      if k < 4 then Hub("epoch", 0, map[], {}) else Hub("epoch", 0, map[0 := LossSub(if k < 8 then 1 else 3)], {0}),
      if k < 4 then map[] else map[0 := History(LossApp(1), [], [])])
  }

  lemma {:induction false} LossLogAt(n: nat, i: nat)
    requires i < n
    ensures |LossLog(n)| == n && LossLog(n)[i] == LossTxn(i + 1)
  {
    if i == n - 1 {
      if n > 1 { LossLogAt(n - 1, 0); }
    } else {
      LossLogAt(n - 1, i);
    }
  }

  lemma {:induction false} NoStages(n: nat)
    requires n != 2
    ensures ParentStages(LossTxn(n).events) == []
  {
    assert LossTxn(n).events[..0] == [];
    assert ParentStages(LossTxn(n).events[..0]) == [];
  }

  lemma {:induction false} LossStarts(k: nat)
    requires k < 2
    ensures Enabled(LossWorld(k), LossStep(k)) && Apply(LossWorld(k), LossStep(k)) == LossWorld(k + 1)
  {
    var w := LossWorld(k);
    if k == 0 {
      assert [] + [BaseTxn()] == [BaseTxn()];
      assert w.logs[BaseRef() := [BaseTxn()]] == LossWorld(1).logs;
    } else {
      assert LossLog(1) == [] + [LossTxn(1)] == [LossTxn(1)];
      assert w.logs[LossRef() := LossLog(1)] == LossWorld(2).logs;
    }
  }

  lemma {:induction false} LossFirst()
    ensures Enabled(LossWorld(2), LossStep(2)) && Apply(LossWorld(2), LossStep(2)) == LossWorld(3)
  {
    var h := LossWorld(2).hub;
    LossLogAt(1, 0);
    NoStages(1);
    assert Dispatch(h, Commit(LossRef(), LossTxn(1).events, LossTxn(1).at)) == h;
    assert Offered(LossWorld(2), LossRef(), 0).published == LossWorld(3).published;
  }

  lemma {:induction false} LossSubscribes()
    ensures Enabled(LossWorld(3), LossStep(3)) && Apply(LossWorld(3), LossStep(3)) == LossWorld(4)
  {
    var w := LossWorld(3);
    LossLogAt(1, 0);
    assert Log(w, BaseRef()) == [BaseTxn()] && Log(w, LossRef()) == LossLog(1);
    assert Subscribe(w.hub, 0, "s", 1, BaseTxn().at, Some(LossTxn(1).at)) == LossWorld(4).hub;
    assert w.histories[0 := History(LossApp(1), [], [])] == LossWorld(4).histories;
  }

  lemma {:induction false} LossCommits(k: nat, n: nat)
    requires (k == 4 && n == 2) || (k == 6 && n == 3)
    ensures Enabled(LossWorld(k), LossStep(k)) && Apply(LossWorld(k), LossStep(k)) == LossWorld(k + 1)
  {
    var w := LossWorld(k);
    LossLogAt(n - 1, n - 2);
    assert Log(w, LossRef()) == LossLog(n - 1);
    assert Commits(LossLog(n - 1), LossRef(), LossTxn(n));
    assert w.logs[LossRef() := LossLog(n - 1) + [LossTxn(n)]] == LossWorld(k + 1).logs;
  }

  lemma {:induction false} LossRefuses()
    ensures Enabled(LossWorld(5), LossStep(5)) && Apply(LossWorld(5), LossStep(5)) == LossWorld(6)
    ensures Refused(LossRef(), LossTxn(2))
  {
    LossLogAt(2, 1);
    assert LossTxn(2).events[0].stage.BadStage?;
    assert Offered(LossWorld(5), LossRef(), 1).published == LossWorld(6).published;
  }

  lemma {:induction false} LossItems()
    ensures Items(LossTxn(3).events, LossTxn(3).at, LossApp(3)) == Some(LossSub(3).queue)
  {
    var t, app := LossTxn(3), LossApp(3);
    assert t.events[..0] == [];
    assert Items(t.events[..0], t.at, app) == Some([]);
    assert [] + [Durable(LossEvent(3), t.at, app)] == LossSub(3).queue;
  }

  lemma {:induction false} LossActs()
    ensures Act(LossSub(1), Commit(LossRef(), LossTxn(3).events, LossTxn(3).at), "epoch", 0) ==
        Verdict(LossSub(3), true)
  {
    LossItems();
    assert [] + LossSub(3).queue == LossSub(3).queue;
    assert CursorAfter(LossSub(1), LossTxn(3).at, "epoch", 0) == LossApp(3);
  }

  lemma {:induction false} LossDispatches()
    ensures PublishCommitted(LossWorld(7).hub, LossRef(), LossTxn(3).at, LossTxn(3).events) == LossWorld(8).hub
  {
    var h := LossWorld(7).hub;
    NoStages(3);
    LossActs();
    assert Dispatch(h, Commit(LossRef(), LossTxn(3).events, LossTxn(3).at)) == LossWorld(8).hub;
  }

  lemma {:induction false} PublishingApplies(w: World, ref: JournalRef, i: nat, t: Txn, hub: Hub)
    requires WellRegistered(w.hub) && Enabled(w, Publishing(ref, i)) && Log(w, ref)[i] == t
    requires PublishCommitted(w.hub, ref, t.at, t.events) == hub
    ensures Apply(w, Publishing(ref, i)) == Offered(w, ref, i).(hub := hub)
  {
  }

  lemma {:induction false} LossDelivers()
    ensures Enabled(LossWorld(7), LossStep(7)) && Apply(LossWorld(7), LossStep(7)) == LossWorld(8)
  {
    var w := LossWorld(7);
    LossLogAt(3, 2);
    assert Log(w, LossRef()) == LossLog(3);
    LossDispatches();
    PublishingApplies(w, LossRef(), 2, LossTxn(3), LossWorld(8).hub);
    assert Offered(w, LossRef(), 2).published == LossWorld(8).published;
  }

  function LossFrom(k: nat): seq<Step>
    decreases 8 - k
  {
    if k >= 8 then [] else [LossStep(k)] + LossFrom(k + 1)
  }

  lemma {:induction false} LossSteps(k: nat)
    requires k < 8
    ensures Enabled(LossWorld(k), LossStep(k)) && Apply(LossWorld(k), LossStep(k)) == LossWorld(k + 1)
  {
    if k < 2 {
      LossStarts(k);
    } else if k == 2 {
      LossFirst();
    } else if k == 3 {
      LossSubscribes();
    } else if k == 5 {
      LossRefuses();
    } else if k == 7 {
      LossDelivers();
    } else {
      LossCommits(k, if k == 4 then 2 else 3);
    }
  }

  lemma {:induction false} LossRuns(k: nat)
    requires k <= 8
    ensures Enables(LossWorld(k), LossFrom(k)) && Run(LossWorld(k), LossFrom(k)) == LossWorld(8)
    decreases 8 - k
  {
    if k == 8 {
    } else {
      LossRuns(k + 1);
      LossSteps(k);
      assert LossFrom(k)[1..] == LossFrom(k + 1);
    }
  }

  lemma {:induction false} LossReceived()
    ensures Delivered(Received(LossSub(3), History(LossApp(1), [], [])), LossRef()) == [LossEvent(3)]
  {
    var items := Received(LossSub(3), History(LossApp(1), [], []));
    assert items == LossSub(3).queue && items[..0] == [];
    assert Delivered(items[..0], LossRef()) == [];
  }

  lemma {:induction false} LossLogs()
    ensures Log(LossWorld(8), LossRef()) == [LossTxn(1), LossTxn(2), LossTxn(3)]
  {
    LossLogAt(3, 0);
    LossLogAt(3, 1);
    LossLogAt(3, 2);
    assert Log(LossWorld(8), LossRef()) == LossLog(3);
  }

  /** From a fresh world, a run after which the client stands behind the third transaction
      of its session, has its event, and never gets that of the second, which reports that
      the session waits for itself. */
  lemma {:induction false} RefusedIsLost()
    ensures Fresh(LossWorld(0)) && Enables(LossWorld(0), LossFrom(0))
    ensures Run(LossWorld(0), LossFrom(0)) == LossWorld(8)
    ensures Log(LossWorld(8), LossRef()) == [LossTxn(1), LossTxn(2), LossTxn(3)]
    ensures LossWorld(8).histories[0].start.session == Some(LossTxn(1).at)
    ensures LossWorld(8).hub.subs[0].cursor.session == Some(LossTxn(3).at)
    ensures Delivered(Received(LossWorld(8).hub.subs[0], LossWorld(8).histories[0]), LossRef()) == [LossEvent(3)]
  {
    LossRuns(0);
    LossLogs();
    LossReceived();
  }
}
