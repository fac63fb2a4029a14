/** Where the results in a replayed transcript come from: each is one that a tool
    message of the journal carries, or an invented one for a call nobody answered. */
module Results {
  import opened Sequences
  import opened Journals
  import opened Transcript
  import opened ToolIntents
  import opened ExchangeScan
  import opened Coverage
  import opened Adaptation
  import opened Agreement
  import opened Grouping
  import Decimal

  /** No tool message before `i` that answers the message at `a` names the call. */
  ghost predicate UnansweredBefore(events: seq<Event>, a: nat, call: string, i: nat)
    requires i <= |events|
  {
    forall r :: 0 <= r < i && events[r].body.ToolMessage? && Opener(events, r) == Some(a) ==>
      call !in CallIds(events[r].body.results)
  }

  /** The item carries result `k` of the tool message at `r`, which answers `a`: its
      identity is the message's, numbered if there are several results. */
  ghost predicate Carries(events: seq<Event>, a: nat, item: Emitted, r: nat, k: nat) {
    && r < |events| && events[r].body.ToolMessage? && Opener(events, r) == Some(a)
    && var e, results := events[r], events[r].body.results;
      && k < |results|
      && item.position == Some(e.sequence)
      && item.source.id == (if |results| == 1 then e.id else e.id + ":" + Decimal.Itoa(k))
      && item.source.kind == "tool_message" && item.source.provenance == "event_v2"
      && item.source.content == [Outcome(results[k])]
  }

  ghost predicate Real(events: seq<Event>, a: nat, item: Emitted) {
    exists r: nat, k: nat :: Carries(events, a, item, r, k)
  }

  /** The item tells that the outcome of a call of the message at `a` is unknown. */
  ghost predicate TellsUncertain(events: seq<Event>, a: nat, item: Emitted, call: string)
    requires a < |events|
  {
    && item.position == Some(events[a].sequence)
    && item.source.id == events[a].id + ":legacy-tool-result:" + call
    && item.source.kind == "tool_message" && item.source.provenance == "legacy_tool_result"
    && item.source.content == [Outcome(ToolResult(call, "uncertain", true))]
  }

  /** The turn has a name, and ended after the sequence. */
  ghost predicate TurnOver(events: seq<Event>, turn: string, sequence: nat) {
    exists t ::
      && 0 <= t < |events| && events[t].body == TurnTerminal && events[t].turn == turn != ""
      && events[t].sequence > sequence
  }

  ghost predicate Invented(events: seq<Event>, a: nat, item: Emitted)
    requires a < |events|
  {
    TurnOver(events, events[a].turn, events[a].sequence)
    && exists c :: TellsUncertain(events, a, item, c) && UnansweredBefore(events, a, c, |events|)
  }

  /** The source a message itself becomes, unless it is empty. */
  function HeadOf(e: Event): Option<Emitted> {
    match e.body
    case User(content) =>
      if content == "" then None
      else Some(Emitted(ContentSource(e.id, "user_message", "event_v2", [Text(content)]), Some(e.sequence)))
    case Assistant(blocks, intents) =>
      var m := MergeIntents(blocks, intents, false);
      if m.BadIntent? || blocks + UseBlocks(m.extra) == [] then None
      else
        Some(Emitted(ContentSource(e.id, "assistant_message", "event_v2", blocks + UseBlocks(m.extra)),
            Some(e.sequence)))
    case _ => None
  }

  /** The group of the message at `a`: its own source, then results of its calls. */
  ghost predicate GroupAt(events: seq<Event>, g: seq<Emitted>, a: nat) {
    && a < |events| && g != [] && HeadOf(events[a]) == Some(g[0])
    && forall j :: 0 < j < |g| ==> Real(events, a, g[j]) || Invented(events, a, g[j])
  }

  function SummaryGroup(act: Activation): seq<Emitted>
    requires act.Activated?
  {
    [Emitted(act.summary, None)]
  }

  /** A closed group is that of some message, or the summary. */
  ghost predicate Accounted(events: seq<Event>, act: Activation, g: seq<Emitted>) {
    (act.Activated? && g == SummaryGroup(act)) || exists a: nat :: GroupAt(events, g, a)
  }

  ghost predicate OpenGroup(events: seq<Event>, i: nat, p: Pending, open: seq<Emitted>)
    requires i <= |events|
  {
    && p.assistant < i && Opener(events, i) == Some(p.assistant)
    && p.sequence == events[p.assistant].sequence && p.turn == events[p.assistant].turn
    && GroupAt(events, open, p.assistant)
    && forall c :: c in p.remaining ==> UnansweredBefore(events, p.assistant, c, i)
  }

  ghost predicate AllAccounted(events: seq<Event>, act: Activation, i: nat, s: Adaptation)
    requires i <= |events| && s.Adapting?
  {
    && (forall k :: 0 <= k < |s.closed| ==> Accounted(events, act, s.closed[k]))
    && (s.pending.Some? ==> OpenGroup(events, i, s.pending.value, s.open))
  }

  // ---- results that are taken ----

  lemma {:induction false} TakeCarries(events: seq<Event>, a: nat, r: nat, k: nat, ordered: seq<string>,
          remaining: set<string>)
    requires r < |events| && events[r].body.ToolMessage? && Opener(events, r) == Some(a)
    requires k <= |events[r].body.results|
    requires Take(events[r], events[r].body.results, k, ordered, remaining).Took?
    ensures var items := Take(events[r], events[r].body.results, k, ordered, remaining).items;
      && |items| == k
      && forall j: nat :: j < k ==> Carries(events, a, items[j], r, j)
  {
    if k == 0 {
    } else {
      TakeCarries(events, a, r, k - 1, ordered, remaining);
    }
  }

  lemma TakeStrikes(e: Event, results: seq<ToolResult>, ordered: seq<string>, remaining: set<string>)
    requires ValidResults(results) && Take(e, results, |results|, ordered, remaining).Took?
    ensures Take(e, results, |results|, ordered, remaining).remaining == remaining - CallIds(results)
  {
    TakeIsResolve(e, results, |results|, ordered, remaining);
    assert results[..|results|] == results;
    ResolveStrikes(ordered, remaining, results);
  }

  lemma TakeAccounted(events: seq<Event>, i: nat, p: Pending, open: seq<Emitted>)
    requires i < |events| && events[i].body.ToolMessage? && ValidResults(events[i].body.results)
    requires OpenGroup(events, i, p, open)
    requires Take(events[i], events[i].body.results, |events[i].body.results|, p.ordered, p.remaining).Took?
    ensures var t := Take(events[i], events[i].body.results, |events[i].body.results|, p.ordered, p.remaining);
      OpenGroup(events, i + 1, p.(remaining := t.remaining), open + t.items)
  {
    var results := events[i].body.results;
    var t := Take(events[i], results, |results|, p.ordered, p.remaining);
    TakeCarries(events, p.assistant, i, |results|, p.ordered, p.remaining);
    TakeStrikes(events[i], results, p.ordered, p.remaining);
    var g := open + t.items;
    forall j | 0 < j < |g| ensures Real(events, p.assistant, g[j]) || Invented(events, p.assistant, g[j]) {
      if j >= |open| {
        assert g[j] == t.items[j - |open|];
        assert Carries(events, p.assistant, g[j], i, j - |open|);
      }
    }
  }

  // ---- groups that are closed ----

  lemma {:induction false} UncertainItems(assistant: string, ordered: seq<string>, remaining: set<string>,
          sequence: nat)
    ensures forall item :: item in Uncertain(assistant, ordered, remaining, sequence) ==>
      exists c :: c in remaining && item == UncertainSource(assistant, c, sequence)
  {
    if ordered == [] {
    } else {
      UncertainItems(assistant, ordered[1..], remaining, sequence);
    }
  }

  ghost predicate NoneAnswersFrom(events: seq<Event>, i: nat, a: nat) {
    forall r :: i <= r < |events| && events[r].body.ToolMessage? ==> Opener(events, r) != Some(a)
  }

  lemma OverIffEnds(events: seq<Event>, turn: string, sequence: nat)
    ensures TurnOver(events, turn, sequence) <==> EndsAfter(events, turn, sequence)
  {
    assert forall t :: 0 <= t < |events| ==>
      (events[t].Ends(turn) <==> events[t].body == TurnTerminal && events[t].turn == turn != "");
  }

  /** A turn the planner takes for ended did end. */
  lemma EndedIsOver(events: seq<Event>, a: nat)
    requires a < |events| && TerminalSeq(events, events[a].turn) > events[a].sequence
    ensures TurnOver(events, events[a].turn, events[a].sequence)
  {
    TerminalViewsAgree(events, events[a].turn, events[a].sequence);
  }

  lemma CloseAccounted(events: seq<Event>, act: Activation, i: nat, s: Adaptation)
    requires i <= |events| && s.Adapting? && AllAccounted(events, act, i, s) && CloseGroup(events, s).Adapting?
    requires s.pending.Some? ==> NoneAnswersFrom(events, i, s.pending.value.assistant)
    ensures AllAccounted(events, act, i, CloseGroup(events, s))
    ensures s.pending.Some? ==>
      && |CloseGroup(events, s).closed| == |s.closed| + 1
      && s.open <= CloseGroup(events, s).closed[|s.closed|]
      && GroupAt(events, CloseGroup(events, s).closed[|s.closed|], s.pending.value.assistant)
  {
    if s.pending.Some? {
      var p, c := s.pending.value, CloseGroup(events, s);
      var more := Uncertain(events[p.assistant].id, p.ordered, p.remaining, p.sequence);
      UncertainItems(events[p.assistant].id, p.ordered, p.remaining, p.sequence);
      if p.remaining != {} { EndedIsOver(events, p.assistant); }
      forall item | item in more ensures Invented(events, p.assistant, item) {
        var call :| call in p.remaining && item == UncertainSource(events[p.assistant].id, call, p.sequence);
        assert TellsUncertain(events, p.assistant, item, call);
        assert UnansweredBefore(events, p.assistant, call, i);
        assert UnansweredBefore(events, p.assistant, call, |events|);
      }
      assert GroupAt(events, c.closed[|s.closed|], p.assistant);
    }
  }

  lemma {:induction false} OpenerAfter(events: seq<Event>, j: nat, r: nat)
    requires j < r <= |events| && events[j].IsBoundary()
    ensures Opener(events, r).Some? && j <= Opener(events, r).value
    decreases r
  {
    if j == r - 1 {
    } else {
      OpenerAfter(events, j, r - 1);
    }
  }

  lemma {:induction false} NothingOpen(events: seq<Event>, act: Activation, j: nat, i: nat)
    requires act.Activated? && act.index == j < i <= |events| && Opener(events, i) == Opener(events, j)
    requires AdaptTo(events, act, i).Adapting?
    ensures AdaptTo(events, act, i).pending.None?
    decreases i
  {
    if j == i - 1 {
    } else {
      NothingOpen(events, act, j, i - 1);
    }
  }

  /** Once its exchange is closed, nothing answers a message any more. */
  lemma {:induction false} ClosedForGood(events: seq<Event>, act: Activation, j: nat, r: nat)
    requires j <= r < |events| && events[r].body.ToolMessage? && AdaptTo(events, act, r + 1).Adapting?
    requires events[j].IsBoundary() || (act.Activated? && act.index == j && !events[j].IsMessage())
    ensures Opener(events, r) != Opener(events, j)
  {
    if events[j].IsBoundary() {
      OpenerAfter(events, j, r);
    } else if Opener(events, r) == Opener(events, j) {
      NothingOpen(events, act, j, r);
    }
  }

  // ---- the whole replay ----

  lemma DeliverAccounted(events: seq<Event>, act: Activation, i: nat, c: Adaptation)
    requires i < |events| && events[i].IsBoundary() && c.Adapting? && c.pending.None? && AllAccounted(events, act, i, c)
    requires Deliver(i, events[i], c).Adapting?
    ensures AllAccounted(events, act, i + 1, Deliver(i, events[i], c))
  {
    var d := Deliver(i, events[i], c);
    if |d.closed| > |c.closed| {
      assert GroupAt(events, d.closed[|c.closed|], i);
    }
  }

  /** The activating event is no message. */
  ghost predicate ActivatedByEvent(events: seq<Event>, act: Activation) {
    act.Activated? && act.index < |events| ==> !events[act.index].IsMessage()
  }

  ghost predicate Accepted(events: seq<Event>, act: Activation) { Adapted(events, act).Adapting? }

  lemma {:induction false} AcceptedSoFar(events: seq<Event>, act: Activation, i: nat)
    requires i <= |events| && Accepted(events, act)
    ensures AdaptTo(events, act, i).Adapting?
  {
    if AdaptTo(events, act, i).Failed? { FailureSticks(events, act, i); }
  }

  /** The places where the replay closes the open exchange. */
  predicate ClosesAt(events: seq<Event>, act: Activation, i: nat) {
    i < |events| ==> events[i].IsBoundary() || (act.Activated? && act.index == i && !events[i].IsMessage())
  }

  lemma NoneAnswersLater(events: seq<Event>, act: Activation, i: nat, a: nat)
    requires i <= |events| && Accepted(events, act) && ClosesAt(events, act, i) && Opener(events, i) == Some(a)
    ensures NoneAnswersFrom(events, i, a)
  {
    forall r | i <= r < |events| && events[r].body.ToolMessage? ensures Opener(events, r) != Some(a) {
      AcceptedSoFar(events, act, r + 1);
      ClosedForGood(events, act, i, r);
    }
  }

  lemma ClosesWell(events: seq<Event>, act: Activation, i: nat)
    requires i <= |events| && Accepted(events, act) && ClosesAt(events, act, i)
    ensures CloseGroup(events, AdaptTo(events, act, i)).Adapting?
  {
    if i < |events| { AcceptedSoFar(events, act, i + 1); }
  }

  lemma CloseAt(events: seq<Event>, act: Activation, i: nat)
    requires i <= |events| && Accepted(events, act) && ClosesAt(events, act, i)
    requires AdaptTo(events, act, i).Adapting? && AllAccounted(events, act, i, AdaptTo(events, act, i))
    ensures CloseGroup(events, AdaptTo(events, act, i)).Adapting?
    ensures AllAccounted(events, act, i, CloseGroup(events, AdaptTo(events, act, i)))
  {
    var s := AdaptTo(events, act, i);
    ClosesWell(events, act, i);
    if s.pending.Some? {
      NoneAnswersLater(events, act, i, s.pending.value.assistant);
    }
    CloseAccounted(events, act, i, s);
  }

  lemma ClosingStep(events: seq<Event>, act: Activation, i: nat)
    requires i < |events| && ClosesAt(events, act, i) && CloseGroup(events, AdaptTo(events, act, i)).Adapting?
    ensures var c := CloseGroup(events, AdaptTo(events, act, i));
      AdaptTo(events, act, i + 1) ==
        if act.Activated? && act.index == i then AppendGroup(c, SummaryGroup(act)) else Deliver(i, events[i], c)
  {
  }

  lemma ActivationAccounted(events: seq<Event>, act: Activation, i: nat, c: Adaptation)
    requires act.Activated? && i < |events| && c.Adapting? && c.pending.None? && AllAccounted(events, act, i, c)
    ensures AllAccounted(events, act, i + 1, AppendGroup(c, SummaryGroup(act)))
  {
  }

  lemma ClosingStepAccounted(events: seq<Event>, act: Activation, i: nat)
    requires i < |events| && Accepted(events, act) && ClosesAt(events, act, i)
    requires AdaptTo(events, act, i).Adapting? && AllAccounted(events, act, i, AdaptTo(events, act, i))
    requires AdaptTo(events, act, i + 1).Adapting?
    ensures AllAccounted(events, act, i + 1, AdaptTo(events, act, i + 1))
  {
    var c := CloseGroup(events, AdaptTo(events, act, i));
    CloseAt(events, act, i);
    ClosingStep(events, act, i);
    if act.Activated? && act.index == i {
      ActivationAccounted(events, act, i, c);
    } else {
      DeliverAccounted(events, act, i, c);
    }
  }

  lemma TakingStep(events: seq<Event>, act: Activation, i: nat)
    requires i < |events| && events[i].body.ToolMessage? && ActivatedByEvent(events, act)
    requires AdaptTo(events, act, i).Adapting?
    ensures AdaptTo(events, act, i + 1) == TakeMessage(AdaptTo(events, act, i), events[i], events[i].body.results)
  {
  }

  lemma TakingStepAccounted(events: seq<Event>, act: Activation, i: nat, s: Adaptation)
    requires i < |events| && events[i].body.ToolMessage? && s.Adapting? && AllAccounted(events, act, i, s)
    requires TakeMessage(s, events[i], events[i].body.results).Adapting?
    ensures AllAccounted(events, act, i + 1, TakeMessage(s, events[i], events[i].body.results))
  {
    TakeAccounted(events, i, s.pending.value, s.open);
  }

  lemma IdleStepAccounted(events: seq<Event>, act: Activation, i: nat, s: Adaptation)
    requires i < |events| && !events[i].IsMessage() && s.Adapting? && AllAccounted(events, act, i, s)
    ensures AllAccounted(events, act, i + 1, s)
  {
  }

  lemma StepAccounted(events: seq<Event>, act: Activation, i: nat)
    requires i < |events| && Accepted(events, act) && ActivatedByEvent(events, act)
    requires AdaptTo(events, act, i).Adapting? && AllAccounted(events, act, i, AdaptTo(events, act, i))
    ensures AdaptTo(events, act, i + 1).Adapting?
    ensures AllAccounted(events, act, i + 1, AdaptTo(events, act, i + 1))
  {
    AcceptedSoFar(events, act, i + 1);
    if ClosesAt(events, act, i) {
      ClosingStepAccounted(events, act, i);
    } else if events[i].body.ToolMessage? {
      TakingStep(events, act, i);
      TakingStepAccounted(events, act, i, AdaptTo(events, act, i));
    } else {
      IdleStepAccounted(events, act, i, AdaptTo(events, act, i));
    }
  }

  lemma {:induction false} ReplayAccounted(events: seq<Event>, act: Activation, i: nat)
    requires i <= |events| && Accepted(events, act) && ActivatedByEvent(events, act)
    ensures AdaptTo(events, act, i).Adapting? && AllAccounted(events, act, i, AdaptTo(events, act, i))
  {
    AcceptedSoFar(events, act, i);
    if i == 0 {
    } else {
      ReplayAccounted(events, act, i - 1);
      StepAccounted(events, act, i - 1);
    }
  }

  /** In an accepted replay, with or without a compaction, every group is the summary,
      or the source of one message followed directly by exactly one result for each
      call it opens; each result was carried by a tool message that answers it, or is
      invented for a call that none does. */
  lemma OneResultPerCall(events: seq<Event>, act: Activation, k: nat)
    requires Accepted(events, act) && PlainSummary(act) && ActivatedByEvent(events, act)
    requires k < |Adapted(events, act).closed|
    ensures Accounted(events, act, Adapted(events, act).closed[k])
    ensures var g := SourcesOf(Adapted(events, act).closed[k]);
      && g != []
      && Distinct(ResultCalls(g[1..])) && |ResultCalls(g[1..])| == |g| - 1
      && AsSet(ResultCalls(g[1..])) == AsSet(Calls(g[0]))
  {
    ReplayAccounted(events, act, |events|);
    CloseAt(events, act, |events|);
    AdaptedComplete(events, act);
    var g := SourcesOf(Adapted(events, act).closed[k]);
    if Calls(g[0]) == [] {
      assert g[1..] == [];
    } else {
      AnswersOncePerCall(g[1..], AsSet(Calls(g[0])), {});
    }
  }

  // ---- nothing is lost ----

  function Groups(s: Adaptation): seq<seq<Emitted>>
    requires s.Adapting?
  {
    if s.pending.Some? then s.closed + [s.open] else s.closed
  }

  /** The item stands in the group of the message at `a`. */
  ghost predicate Placed(events: seq<Event>, s: Adaptation, a: nat, item: Emitted)
    requires s.Adapting?
  {
    exists g :: g in Groups(s) && GroupAt(events, g, a) && item in g
  }

  ghost predicate KeepsPlaces(events: seq<Event>, s: Adaptation, s': Adaptation)
    requires s.Adapting? && s'.Adapting?
  {
    forall a: nat, item :: Placed(events, s, a, item) ==> Placed(events, s', a, item)
  }

  /** Each group of `s` is continued by one of `s'` that belongs to the same message. */
  lemma ContinuedPlaces(events: seq<Event>, s: Adaptation, s': Adaptation)
    requires s.Adapting? && s'.Adapting?
    requires forall g, a: nat :: g in Groups(s) && GroupAt(events, g, a) ==>
      exists h :: h in Groups(s') && GroupAt(events, h, a) && g <= h
    ensures KeepsPlaces(events, s, s')
  {
    forall a: nat, item | Placed(events, s, a, item) ensures Placed(events, s', a, item) {
      var g :| g in Groups(s) && GroupAt(events, g, a) && item in g;
      var h :| h in Groups(s') && GroupAt(events, h, a) && g <= h;
      var k :| 0 <= k < |g| && g[k] == item;
      assert h[k] == item;
    }
  }

  lemma OneMessage(events: seq<Event>, g: seq<Emitted>, a: nat, b: nat)
    requires Increasing(events) && GroupAt(events, g, a) && GroupAt(events, g, b)
    ensures a == b
  {
    assert events[a].sequence == events[b].sequence;
  }

  lemma CloseKeepsPlaces(events: seq<Event>, act: Activation, i: nat)
    requires Increasing(events) && i <= |events| && Accepted(events, act) && ClosesAt(events, act, i)
    requires AdaptTo(events, act, i).Adapting? && AllAccounted(events, act, i, AdaptTo(events, act, i))
    ensures CloseGroup(events, AdaptTo(events, act, i)).Adapting?
    ensures KeepsPlaces(events, AdaptTo(events, act, i), CloseGroup(events, AdaptTo(events, act, i)))
  {
    var s := AdaptTo(events, act, i);
    ClosesWell(events, act, i);
    if s.pending.Some? {
      NoneAnswersLater(events, act, i, s.pending.value.assistant);
      CloseAccounted(events, act, i, s);
      var c := CloseGroup(events, s);
      forall g, a: nat | g in Groups(s) && GroupAt(events, g, a)
        ensures exists h :: h in Groups(c) && GroupAt(events, h, a) && g <= h
      {
        if g in s.closed {
          assert g in Groups(c) && g <= g;
        } else {
          OneMessage(events, g, a, s.pending.value.assistant);
          assert c.closed[|s.closed|] in Groups(c);
        }
      }
      ContinuedPlaces(events, s, c);
    }
  }

  lemma TakeKeepsPlaces(events: seq<Event>, i: nat, s: Adaptation)
    requires Increasing(events) && i < |events| && events[i].body.ToolMessage? && s.Adapting? && s.pending.Some?
    requires OpenGroup(events, i, s.pending.value, s.open)
    requires TakeMessage(s, events[i], events[i].body.results).Adapting?
    ensures KeepsPlaces(events, s, TakeMessage(s, events[i], events[i].body.results))
  {
    var s', p := TakeMessage(s, events[i], events[i].body.results), s.pending.value;
    TakeAccounted(events, i, p, s.open);
    forall g, a: nat | g in Groups(s) && GroupAt(events, g, a)
      ensures exists h :: h in Groups(s') && GroupAt(events, h, a) && g <= h
    {
      if g in s.closed {
        assert g in Groups(s') && g <= g;
      } else {
        OneMessage(events, g, a, p.assistant);
        assert s'.open in Groups(s') && g <= s'.open;
      }
    }
    ContinuedPlaces(events, s, s');
  }

  /** Results taken at `i` stand in the open group. */
  lemma TakePlaces(events: seq<Event>, i: nat, s: Adaptation, k: nat)
    requires i < |events| && events[i].body.ToolMessage? && s.Adapting? && s.pending.Some?
    requires OpenGroup(events, i, s.pending.value, s.open)
    requires TakeMessage(s, events[i], events[i].body.results).Adapting?
    requires k < |events[i].body.results|
    ensures Placed(events, TakeMessage(s, events[i], events[i].body.results), s.pending.value.assistant,
                   ResultSource(events[i], |events[i].body.results|, k, events[i].body.results[k]))
  {
    var results, p := events[i].body.results, s.pending.value;
    var s' := TakeMessage(s, events[i], results);
    TakeAccounted(events, i, p, s.open);
    TakeCarries(events, p.assistant, i, |results|, p.ordered, p.remaining);
    var t := Take(events[i], results, |results|, p.ordered, p.remaining);
    assert s'.open[|s.open| + k] == t.items[k];
    assert s'.open in Groups(s');
  }

  lemma DeliverPlaces(events: seq<Event>, i: nat, c: Adaptation)
    requires i < |events| && events[i].IsBoundary() && c.Adapting? && c.pending.None?
    requires Deliver(i, events[i], c).Adapting?
    ensures KeepsPlaces(events, c, Deliver(i, events[i], c))
    ensures HeadOf(events[i]).Some? ==> Placed(events, Deliver(i, events[i], c), i, HeadOf(events[i]).value)
  {
    var d := Deliver(i, events[i], c);
    forall g, a: nat | g in Groups(c) && GroupAt(events, g, a)
      ensures exists h :: h in Groups(d) && GroupAt(events, h, a) && g <= h
    {
      assert g in Groups(d) && g <= g;
    }
    ContinuedPlaces(events, c, d);
    if HeadOf(events[i]).Some? {
      var g := [HeadOf(events[i]).value];
      assert g in Groups(d) && GroupAt(events, g, i);
    }
  }

  ghost predicate ResultPlaced(events: seq<Event>, s: Adaptation, r: nat, k: nat)
    requires s.Adapting?
  {
    exists a: nat, item :: Carries(events, a, item, r, k) && Placed(events, s, a, item)
  }

  ghost predicate ResultsPlaced(events: seq<Event>, s: Adaptation, r: nat)
    requires r < |events| && events[r].body.ToolMessage? && s.Adapting?
  {
    var results := events[r].body.results;
    && Opener(events, r).Some?
    && forall k: nat :: k < |results| ==> ResultPlaced(events, s, r, k)
  }

  /** Everything before `i` that becomes a source stands in its message's group. */
  ghost predicate AllPlaced(events: seq<Event>, i: nat, s: Adaptation)
    requires i <= |events| && s.Adapting?
  {
    && (forall a: nat :: a < i && HeadOf(events[a]).Some? ==> Placed(events, s, a, HeadOf(events[a]).value))
    && (forall r: nat :: r < i && events[r].body.ToolMessage? ==> ResultsPlaced(events, s, r))
  }

  lemma StillPlaced(events: seq<Event>, i: nat, s: Adaptation, s': Adaptation)
    requires i <= |events| && s.Adapting? && s'.Adapting? && AllPlaced(events, i, s) && KeepsPlaces(events, s, s')
    ensures AllPlaced(events, i, s')
  {
    forall r: nat | r < i && events[r].body.ToolMessage? ensures ResultsPlaced(events, s', r) {
      assert ResultsPlaced(events, s, r);
      forall k: nat | k < |events[r].body.results| ensures ResultPlaced(events, s', r, k) {
        assert ResultPlaced(events, s, r, k);
        var a: nat, item :| Carries(events, a, item, r, k) && Placed(events, s, a, item);
        assert Placed(events, s', a, item);
      }
    }
  }

  lemma AppendKeepsPlaces(events: seq<Event>, s: Adaptation, g: seq<Emitted>)
    requires s.Adapting? && s.pending.None?
    ensures KeepsPlaces(events, s, AppendGroup(s, g))
  {
    forall h, a: nat | h in Groups(s) && GroupAt(events, h, a)
      ensures exists h' :: h' in Groups(AppendGroup(s, g)) && GroupAt(events, h', a) && h <= h'
    {
      assert h in Groups(AppendGroup(s, g)) && h <= h;
    }
    ContinuedPlaces(events, s, AppendGroup(s, g));
  }

  /** What event `i` becomes is all that is left to place. */
  lemma OneMorePlaced(events: seq<Event>, i: nat, s: Adaptation)
    requires i < |events| && s.Adapting? && AllPlaced(events, i, s)
    requires HeadOf(events[i]).Some? ==> Placed(events, s, i, HeadOf(events[i]).value)
    requires events[i].body.ToolMessage? ==> ResultsPlaced(events, s, i)
    ensures AllPlaced(events, i + 1, s)
  {
  }

  lemma ActivationPlaced(events: seq<Event>, act: Activation, i: nat, c: Adaptation)
    requires act.Activated? && i < |events| && !events[i].IsMessage()
    requires c.Adapting? && c.pending.None? && AllPlaced(events, i, c)
    ensures AllPlaced(events, i + 1, AppendGroup(c, SummaryGroup(act)))
  {
    var s' := AppendGroup(c, SummaryGroup(act));
    AppendKeepsPlaces(events, c, SummaryGroup(act));
    StillPlaced(events, i, c, s');
    OneMorePlaced(events, i, s');
  }

  lemma DeliveryPlaced(events: seq<Event>, i: nat, c: Adaptation)
    requires i < |events| && events[i].IsBoundary() && c.Adapting? && c.pending.None?
    requires Deliver(i, events[i], c).Adapting? && AllPlaced(events, i, c)
    ensures AllPlaced(events, i + 1, Deliver(i, events[i], c))
  {
    DeliverPlaces(events, i, c);
    StillPlaced(events, i, c, Deliver(i, events[i], c));
    OneMorePlaced(events, i, Deliver(i, events[i], c));
  }

  lemma ClosePlaced(events: seq<Event>, act: Activation, i: nat)
    requires Increasing(events) && i <= |events| && Accepted(events, act) && ClosesAt(events, act, i)
    requires AdaptTo(events, act, i).Adapting? && AllAccounted(events, act, i, AdaptTo(events, act, i))
    requires AllPlaced(events, i, AdaptTo(events, act, i))
    ensures var c := CloseGroup(events, AdaptTo(events, act, i));
      c.Adapting? && c.pending.None? && AllPlaced(events, i, c)
  {
    CloseKeepsPlaces(events, act, i);
    StillPlaced(events, i, AdaptTo(events, act, i), CloseGroup(events, AdaptTo(events, act, i)));
  }

  lemma ClosingStepPlaced(events: seq<Event>, act: Activation, i: nat)
    requires Increasing(events) && i < |events| && Accepted(events, act) && ActivatedByEvent(events, act)
    requires ClosesAt(events, act, i) && AdaptTo(events, act, i).Adapting?
    requires AllAccounted(events, act, i, AdaptTo(events, act, i)) && AllPlaced(events, i, AdaptTo(events, act, i))
    requires AdaptTo(events, act, i + 1).Adapting?
    ensures AllPlaced(events, i + 1, AdaptTo(events, act, i + 1))
  {
    var c := CloseGroup(events, AdaptTo(events, act, i));
    ClosePlaced(events, act, i);
    ClosingStep(events, act, i);
    if act.Activated? && act.index == i {
      ActivationPlaced(events, act, i, c);
    } else {
      DeliveryPlaced(events, i, c);
    }
  }

  lemma TakenPlaced(events: seq<Event>, i: nat, s: Adaptation)
    requires i < |events| && events[i].body.ToolMessage? && s.Adapting? && s.pending.Some?
    requires OpenGroup(events, i, s.pending.value, s.open)
    requires TakeMessage(s, events[i], events[i].body.results).Adapting?
    ensures ResultsPlaced(events, TakeMessage(s, events[i], events[i].body.results), i)
  {
    var results := events[i].body.results;
    var s' := TakeMessage(s, events[i], results);
    forall k: nat | k < |results| ensures ResultPlaced(events, s', i, k) {
      TakePlaces(events, i, s, k);
      assert Carries(events, s.pending.value.assistant, ResultSource(events[i], |results|, k, results[k]), i, k);
    }
  }

  lemma TakingStepPlaced(events: seq<Event>, act: Activation, i: nat)
    requires Increasing(events) && i < |events| && events[i].body.ToolMessage? && !ClosesAt(events, act, i)
    requires AdaptTo(events, act, i).Adapting? && AdaptTo(events, act, i + 1).Adapting? && ActivatedByEvent(events, act)
    requires AllAccounted(events, act, i, AdaptTo(events, act, i)) && AllPlaced(events, i, AdaptTo(events, act, i))
    ensures AllPlaced(events, i + 1, AdaptTo(events, act, i + 1))
  {
    var s, s' := AdaptTo(events, act, i), AdaptTo(events, act, i + 1);
    assert s' == TakeMessage(s, events[i], events[i].body.results);
    TakenPlaced(events, i, s);
    TakeKeepsPlaces(events, i, s);
    StillPlaced(events, i, s, s');
    OneMorePlaced(events, i, s');
  }

  lemma StepPlaced(events: seq<Event>, act: Activation, i: nat)
    requires Increasing(events) && i < |events| && Accepted(events, act) && ActivatedByEvent(events, act)
    requires AdaptTo(events, act, i).Adapting? && AllAccounted(events, act, i, AdaptTo(events, act, i))
    requires AdaptTo(events, act, i + 1).Adapting? && AllPlaced(events, i, AdaptTo(events, act, i))
    ensures AllPlaced(events, i + 1, AdaptTo(events, act, i + 1))
  {
    if ClosesAt(events, act, i) {
      ClosingStepPlaced(events, act, i);
    } else if events[i].body.ToolMessage? {
      TakingStepPlaced(events, act, i);
    } else {
      OneMorePlaced(events, i, AdaptTo(events, act, i));
    }
  }

  lemma {:induction false} ReplayPlaced(events: seq<Event>, act: Activation, i: nat)
    requires Increasing(events) && i <= |events| && Accepted(events, act) && ActivatedByEvent(events, act)
    ensures AdaptTo(events, act, i).Adapting? && AllPlaced(events, i, AdaptTo(events, act, i))
  {
    AcceptedSoFar(events, act, i);
    if i == 0 {
    } else {
      ReplayPlaced(events, act, i - 1);
      ReplayAccounted(events, act, i - 1);
      StepPlaced(events, act, i - 1);
    }
  }

  /** An accepted replay loses no message and no result: each stands in the group of
      its own message. */
  lemma NothingLost(events: seq<Event>, act: Activation)
    requires Increasing(events) && Accepted(events, act) && ActivatedByEvent(events, act)
    ensures AllPlaced(events, |events|, Adapted(events, act))
  {
    var n := |events|;
    ReplayPlaced(events, act, n);
    ReplayAccounted(events, act, n);
    CloseKeepsPlaces(events, act, n);
    StillPlaced(events, n, AdaptTo(events, act, n), Adapted(events, act));
  }

  // ---- calls without an answer ----

  lemma GroupOfMessage(events: seq<Event>, act: Activation, a: nat) returns (k: nat, g: seq<Emitted>)
    requires Increasing(events) && Accepted(events, act) && ActivatedByEvent(events, act)
    requires a < |events| && HeadOf(events[a]).Some?
    ensures k < |Adapted(events, act).closed| && Adapted(events, act).closed[k] == g && GroupAt(events, g, a)
  {
    NothingLost(events, act);
    assert Placed(events, Adapted(events, act), a, HeadOf(events[a]).value);
    g :| g in Groups(Adapted(events, act)) && GroupAt(events, g, a) && HeadOf(events[a]).value in g;
    k :| 0 <= k < |Adapted(events, act).closed| && Adapted(events, act).closed[k] == g;
  }

  function OutcomeCall(item: Emitted): Option<string> {
    if item.source.content != [] && item.source.content[0].Outcome?
    then Some(item.source.content[0].result.callId) else None
  }

  /** If every item has a call, they stand in the items' order. */
  lemma {:induction false} CallsInPlace(items: seq<Emitted>)
    ensures var calls := ResultCalls(SourcesOf(items));
      && |calls| <= |items|
      && (|calls| == |items| ==> forall i :: 0 <= i < |items| ==> OutcomeCall(items[i]) == Some(calls[i]))
  {
    if items == [] {
    } else {
      var n := |items| - 1;
      CallsInPlace(items[..n]);
      assert SourcesOf(items)[..n] == SourcesOf(items[..n]);
      assert forall i :: 0 <= i < n ==> items[..n][i] == items[i];
    }
  }

  /** A result for a call nobody answers is an invented one. */
  lemma OnlyInvented(events: seq<Event>, a: nat, g: seq<Emitted>, j: nat, call: string)
    requires GroupAt(events, g, a) && 0 < j < |g| && OutcomeCall(g[j]) == Some(call)
    requires UnansweredBefore(events, a, call, |events|)
    ensures TellsUncertain(events, a, g[j], call) && TurnOver(events, events[a].turn, events[a].sequence)
  {
    assert Real(events, a, g[j]) || Invented(events, a, g[j]);
  }

  /** Each call has its one result in the group. */
  lemma OneForCall(items: seq<Emitted>, call: string) returns (j: nat)
    requires items != []
    requires var calls := ResultCalls(SourcesOf(items)[1..]);
      Distinct(calls) && |calls| == |items| - 1 && call in calls
    ensures 0 < j < |items| && OutcomeCall(items[j]) == Some(call)
    ensures forall i :: 0 < i < |items| && OutcomeCall(items[i]) == Some(call) ==> i == j
  {
    var rest, calls := items[1..], ResultCalls(SourcesOf(items)[1..]);
    assert SourcesOf(items)[1..] == SourcesOf(rest);
    CallsInPlace(rest);
    var m :| 0 <= m < |calls| && calls[m] == call;
    j := m + 1;
    assert rest[m] == items[j];
    forall i | 0 < i < |items| && OutcomeCall(items[i]) == Some(call) ensures i == j {
      assert rest[i - 1] == items[i] && OutcomeCall(rest[i - 1]) == Some(calls[i - 1]);
    }
  }

  /** In an accepted replay each call that no tool message answers is told to be uncertain,
      by exactly one item of its message's group, and its turn has ended. */
  lemma UnansweredIsUncertain(events: seq<Event>, act: Activation, a: nat, call: string) returns (k: nat, j: nat)
    requires Increasing(events) && Accepted(events, act) && PlainSummary(act) && ActivatedByEvent(events, act)
    requires a < |events| && HeadOf(events[a]).Some? && call in Calls(HeadOf(events[a]).value.source)
    requires UnansweredBefore(events, a, call, |events|)
    ensures k < |Adapted(events, act).closed|
    ensures var g := Adapted(events, act).closed[k];
      && GroupAt(events, g, a) && 0 < j < |g| && TellsUncertain(events, a, g[j], call)
      && TurnOver(events, events[a].turn, events[a].sequence)
      && forall i :: 0 < i < |g| && OutcomeCall(g[i]) == Some(call) ==> i == j
  {
    var g: seq<Emitted>;
    k, g := GroupOfMessage(events, act, a);
    OneResultPerCall(events, act, k);
    assert call in AsSet(Calls(g[0].source));
    assert call in AsSet(ResultCalls(SourcesOf(g)[1..]));
    j := OneForCall(g, call);
    OnlyInvented(events, a, g, j, call);
  }
}
