/** The context planner's replay of the journal into content sources. The loop of
    `adaptEventSuffix` emits a flat list; the specification here is the grouped
    transcript it flattens: one group per message, an assistant message with calls
    together with all of its results. */
module Adaptation {
  import opened Sequences
  import opened Journals
  import opened Transcript
  import opened ToolIntents
  import opened ExchangeScan
  import Decimal

  const USER_MESSAGE := "user_message"
  const ASSISTANT_MESSAGE := "assistant_message"
  const TOOL_MESSAGE := "tool_message"
  const COMPACTION_SUMMARY := "compaction_summary"

  datatype ContentSource = ContentSource(id: string, kind: string, provenance: string, content: seq<Block>) {
    predicate Valid() {
      id != "" && kind != "" && provenance != "" && content != []
      && forall k :: 0 <= k < |content| ==> content[k].Valid()
    }
  }

  /** A source and the journal sequence it stands at; a summary stands nowhere. */
  datatype Emitted = Emitted(source: ContentSource, position: Option<nat>)

  datatype PlanFault = Structural(fault: Fault) | InvalidSource(id: string)

  datatype Adaptation =
    | Failed(fault: PlanFault)
    | Adapting(closed: seq<seq<Emitted>>, pending: Option<Pending>, open: seq<Emitted>)

  datatype Activation = NoCompaction | Activated(index: nat, from: nat, through: nat, summary: ContentSource)

  function MessageSource(e: Event, kind: string, content: seq<Block>): Emitted {
    Emitted(ContentSource(e.id, kind, "event_v2", content), Some(e.sequence))
  }

  function ResultId(e: Event, count: nat, k: nat): string {
    if count > 1 then e.id + ":" + Decimal.Itoa(k) else e.id
  }

  function ResultSource(e: Event, count: nat, k: nat, r: ToolResult): Emitted {
    Emitted(ContentSource(ResultId(e, count, k), TOOL_MESSAGE, "event_v2", [Outcome(r)]), Some(e.sequence))
  }

  /** The invented result for a call whose turn ended without an answer. */
  function UncertainSource(assistant: string, call: string, sequence: nat): Emitted {
    Emitted(
      ContentSource(assistant + ":legacy-tool-result:" + call, TOOL_MESSAGE, "legacy_tool_result",
                    [Outcome(ToolResult(call, "uncertain", true))]),
      Some(sequence))
  }

  function Uncertain(assistant: string, ordered: seq<string>, remaining: set<string>, sequence: nat): seq<Emitted> {
    if ordered == [] then []
    else
      (if ordered[0] in remaining then [UncertainSource(assistant, ordered[0], sequence)] else [])
      + Uncertain(assistant, ordered[1..], remaining, sequence)
  }

  function CloseGroup(events: seq<Event>, s: Adaptation): Adaptation {
    if s.Failed? || s.pending.None? then s
    else
      var p := s.pending.value;
      if p.remaining == {} then Adapting(s.closed + [s.open], None, [])
      else if p.assistant >= |events| || TerminalSeq(events, p.turn) <= p.sequence
      then Failed(Structural(Unresolved(FirstMissing(p.ordered, p.remaining))))
      else Adapting(s.closed + [s.open + Uncertain(events[p.assistant].id, p.ordered, p.remaining, p.sequence)], None,
          [])
  }

  function AppendGroup(s: Adaptation, g: seq<Emitted>): Adaptation {
    if s.Failed? then s else s.(closed := s.closed + [g])
  }

  function FirstDuplicate(results: seq<ToolResult>): Option<string> {
    if results == [] then None
    else
      var n := |results| - 1;
      match FirstDuplicate(results[..n])
      case Some(c) => Some(c)
      case None =>
        if exists k :: 0 <= k < n && results[k].callId == results[n].callId then Some(results[n].callId) else None
  }

  datatype Taking = TakeFault(fault: PlanFault) | Took(remaining: set<string>, items: seq<Emitted>)

  function TakeOne(e: Event, count: nat, k: nat, ordered: seq<string>, t: Taking, r: ToolResult): Taking {
    if t.TakeFault? then t
    else match ResolveOne(ordered, Resolved(t.remaining), r.callId)
      case Faulted(f) => TakeFault(Structural(f))
      case Resolved(left) =>
        var item := ResultSource(e, count, k, r);
        if item.source.Valid() then Took(left, t.items + [item]) else TakeFault(InvalidSource(item.source.id))
  }

  /** The first `k` results of a tool message, each checked and emitted in turn. */
  function Take(e: Event, results: seq<ToolResult>, k: nat, ordered: seq<string>, remaining: set<string>): Taking
    requires k <= |results|
  {
    if k == 0 then Took(remaining, [])
    else TakeOne(e, |results|, k - 1, ordered, Take(e, results, k - 1, ordered, remaining), results[k - 1])
  }

  function TakeMessage(s: Adaptation, e: Event, results: seq<ToolResult>): Adaptation
    requires s.Adapting?
  {
    var d := FirstDuplicate(results);
    if d.Some? then Failed(Structural(Duplicate(d.value)))
    else if !ValidResults(results) then Failed(Structural(InvalidMessage))
    else if s.pending.None? then Failed(Structural(Late(results[0].callId)))
    else
      var p := s.pending.value;
      match Take(e, results, |results|, p.ordered, p.remaining)
      case TakeFault(f) => Failed(f)
      case Took(left, items) => Adapting(s.closed, Some(p.(remaining := left)), s.open + items)
  }

  function AdaptAssistant(i: nat, e: Event, s: Adaptation, blocks: seq<Block>, intents: seq<ToolUse>): Adaptation
    requires s.Adapting?
  {
    var m := MergeIntents(blocks, intents, false);
    if m.BadIntent? then Failed(Structural(InvalidMessage))
    else
      var canonical := blocks + UseBlocks(m.extra);
      var item := MessageSource(e, ASSISTANT_MESSAGE, canonical);
      if canonical == [] then s
      else if !item.source.Valid() then Failed(InvalidSource(e.id))
      else
        var calls := ToolCallIds(canonical);
        if calls == [] then AppendGroup(s, [item])
        else Adapting(s.closed, Some(Open(i, e, calls)), [item])
  }

  /** A user or assistant message delivered once the previous group is closed. */
  function Deliver(i: nat, e: Event, c: Adaptation): Adaptation
    requires c.Adapting? && e.IsBoundary()
  {
    match e.body
    case User(content) =>
      var item := MessageSource(e, USER_MESSAGE, [Text(content)]);
      if content == "" then c
      else if !item.source.Valid() then Failed(InvalidSource(e.id))
      else AppendGroup(c, [item])
    case Assistant(blocks, intents) => AdaptAssistant(i, e, c, blocks, intents)
    case _ => c
  }

  function AdaptStep(events: seq<Event>, act: Activation, i: nat, s: Adaptation): Adaptation
    requires i < |events|
  {
    var e := events[i];
    if s.Failed? then s
    else if act.Activated? && act.index == i then
      AppendGroup(CloseGroup(events, s), [Emitted(act.summary, None)])
    else if e.IsBoundary() then
      var c := CloseGroup(events, s);
      if c.Failed? then c else Deliver(i, e, c)
    else match e.body
      case ToolMessage(results) => TakeMessage(s, e, results)
      case UndecodableToolMessage => Failed(Structural(InvalidMessage))
      case _ => s
  }

  function AdaptTo(events: seq<Event>, act: Activation, i: nat): Adaptation
    requires i <= |events|
  {
    if i == 0 then Adapting([], None, []) else AdaptStep(events, act, i - 1, AdaptTo(events, act, i - 1))
  }

  /** The grouped transcript of a journal. */
  function Adapted(events: seq<Event>, act: Activation): Adaptation {
    CloseGroup(events, AdaptTo(events, act, |events|))
  }

  // ---- flattening and the compacted range ----

  predicate Dropped(item: Emitted, act: Activation) {
    act.Activated? && item.position.Some? && act.from <= item.position.value <= act.through
  }

  function KeptSources(items: seq<Emitted>, act: Activation): seq<ContentSource> {
    if items == [] then []
    else
      var n := |items| - 1;
      KeptSources(items[..n], act) + (if Dropped(items[n], act) then [] else [items[n].source])
  }

  function DroppedIds(items: seq<Emitted>, act: Activation): seq<string> {
    if items == [] then []
    else
      var n := |items| - 1;
      DroppedIds(items[..n], act) + (if Dropped(items[n], act) then [items[n].source.id] else [])
  }

  lemma {:induction false} KeptConcat(a: seq<Emitted>, b: seq<Emitted>, act: Activation)
    ensures KeptSources(a + b, act) == KeptSources(a, act) + KeptSources(b, act)
    ensures DroppedIds(a + b, act) == DroppedIds(a, act) + DroppedIds(b, act)
  {
    if b == [] {
      assert a + b == a;
    } else {
      var n := |b| - 1;
      assert (a + b)[..|a| + n] == a + b[..n];
      KeptConcat(a, b[..n], act);
    }
  }

  // ---- the imperative replay ----

  lemma {:induction false} FailureSticks(events: seq<Event>, act: Activation, i: nat)
    requires i <= |events| && AdaptTo(events, act, i).Failed?
    ensures Adapted(events, act) == AdaptTo(events, act, i)
    decreases |events| - i
  {
    if i == |events| {
    } else {
      FailureSticks(events, act, i + 1);
    }
  }

  lemma {:induction false} TakeFaultSticks(e: Event, results: seq<ToolResult>, k: nat, ordered: seq<string>,
          remaining: set<string>)
    requires k <= |results| && Take(e, results, k, ordered, remaining).TakeFault?
    ensures Take(e, results, |results|, ordered, remaining) == Take(e, results, k, ordered, remaining)
    decreases |results| - k
  {
    if k == |results| {
    } else {
      TakeFaultSticks(e, results, k + 1, ordered, remaining);
    }
  }

  lemma {:induction false} DuplicateSticks(results: seq<ToolResult>, k: nat)
    requires k <= |results| && FirstDuplicate(results[..k]).Some?
    ensures FirstDuplicate(results) == FirstDuplicate(results[..k])
    decreases |results| - k
  {
    if k == |results| {
      assert results[..k] == results;
    } else {
      assert results[..k + 1][..k] == results[..k];
      DuplicateSticks(results, k + 1);
    }
  }

  method FindDuplicate(results: seq<ToolResult>) returns (duplicate: Option<string>)
    ensures duplicate == FirstDuplicate(results)
  {
    var seen: set<string> := {};
    for k := 0 to |results|
      invariant FirstDuplicate(results[..k]).None?
      invariant forall c :: c in seen <==> exists j :: 0 <= j < k && results[j].callId == c
    {
      assert results[..k + 1][..k] == results[..k];
      var call := results[k].callId;
      if call in seen {
        var j :| 0 <= j < k && results[j].callId == call;
        assert results[..k + 1][j].callId == results[..k + 1][k].callId;
        DuplicateSticks(results, k + 1);
        return Some(call);
      }
      seen := seen + {call};
    }
    assert results[..|results|] == results;
    duplicate := None;
  }

  /** The sources of a replay so far, split by the compacted range. */
  ghost predicate Reflects(items: seq<Emitted>, act: Activation, sources: seq<ContentSource>, excluded: seq<string>) {
    sources == KeptSources(items, act) && excluded == DroppedIds(items, act)
  }

  /** The `appendSource` closure. */
  method AppendSource(item: Emitted, act: Activation, sources: seq<ContentSource>, excluded: seq<string>,
          ghost items: seq<Emitted>)
    returns (sources': seq<ContentSource>, excluded': seq<string>)
    requires Reflects(items, act, sources, excluded)
    ensures Reflects(items + [item], act, sources', excluded')
  {
    assert (items + [item])[..|items|] == items;
    if Dropped(item, act) {
      sources', excluded' := sources, excluded + [item.source.id];
    } else {
      sources', excluded' := sources + [item.source], excluded;
    }
  }

  /** The first unanswered call of an exchange whose turn has not ended. */
  method FirstUnresolved(p: Pending) returns (call: string)
    requires p.remaining != {} && forall c :: c in p.remaining ==> c in p.ordered
    ensures call == FirstMissing(p.ordered, p.remaining)
  {
    for k := 0 to |p.ordered|
      invariant FirstMissing(p.ordered, p.remaining) == FirstMissing(p.ordered[k..], p.remaining)
      invariant forall j :: 0 <= j < k ==> p.ordered[j] !in p.remaining
    {
      if p.ordered[k] in p.remaining {
        return p.ordered[k];
      }
    }
    assert false;
  }

  /** Results invented for the unanswered calls of an ended turn. */
  method InventResults(assistant: string, p: Pending, act: Activation, sources: seq<ContentSource>,
          excluded: seq<string>, ghost items: seq<Emitted>)
    returns (sources': seq<ContentSource>, excluded': seq<string>)
    requires Reflects(items, act, sources, excluded)
    ensures Reflects(items + Uncertain(assistant, p.ordered, p.remaining, p.sequence), act, sources', excluded')
  {
    sources', excluded' := sources, excluded;
    ghost var done: seq<Emitted> := [];
    assert items + done == items;
    for k := 0 to |p.ordered|
      invariant Uncertain(assistant, p.ordered, p.remaining, p.sequence) ==
          done + Uncertain(assistant, p.ordered[k..], p.remaining, p.sequence)
      invariant Reflects(items + done, act, sources', excluded')
    {
      if p.ordered[k] in p.remaining {
        var item := UncertainSource(assistant, p.ordered[k], p.sequence);
        sources', excluded' := AppendSource(item, act, sources', excluded', items + done);
        assert items + done + [item] == items + (done + [item]);
        done := done + [item];
      }
    }
    assert Uncertain(assistant, p.ordered, p.remaining, p.sequence) == done;
  }

  /** The `flushPending` closure. */
  method FlushPending(events: seq<Event>, terminals: map<string, nat>, act: Activation, p: Pending,
          sources: seq<ContentSource>, excluded: seq<string>, ghost closed: seq<seq<Emitted>>,
          ghost open: seq<Emitted>)
    returns (fault: Option<PlanFault>, sources': seq<ContentSource>, excluded': seq<string>)
    requires p.assistant < |events|
    requires forall turn :: TerminalSeq(events, turn) == (if turn in terminals then terminals[turn] else 0)
    requires forall c :: c in p.remaining ==> c in p.ordered
    requires Reflects(Flatten(closed) + open, act, sources, excluded)
    ensures var c := CloseGroup(events, Adapting(closed, Some(p), open));
      if c.Failed? then fault == Some(c.fault)
      else fault.None? && Reflects(Flatten(c.closed), act, sources', excluded')
  {
    fault, sources', excluded' := None, sources, excluded;
    if p.remaining == {} {
      return;
    }
    if p.turn !in terminals || terminals[p.turn] <= p.sequence {
      var call := FirstUnresolved(p);
      fault := Some(Structural(Unresolved(call)));
      return;
    }
    ghost var all := Uncertain(events[p.assistant].id, p.ordered, p.remaining, p.sequence);
    sources', excluded' := InventResults(events[p.assistant].id, p, act, sources, excluded, Flatten(closed) + open);
    assert Flatten(closed) + (open + all) == Flatten(closed) + open + all;
  }

  /** The loop over one tool message's results. */
  method TakeResults(e: Event, results: seq<ToolResult>, p: Pending, act: Activation, sources: seq<ContentSource>,
          excluded: seq<string>, ghost items: seq<Emitted>)
    returns (fault: Option<PlanFault>, remaining: set<string>, sources': seq<ContentSource>, excluded': seq<string>)
    requires Reflects(items, act, sources, excluded)
    ensures match Take(e, results, |results|, p.ordered, p.remaining)
      case TakeFault(f) => fault == Some(f)
      case Took(left, taken) => fault.None? && remaining == left && Reflects(items + taken, act, sources', excluded')
  {
    sources', excluded', remaining := sources, excluded, p.remaining;
    ghost var taken: seq<Emitted> := [];
    assert items + taken == items;
    for k := 0 to |results|
      invariant Take(e, results, k, p.ordered, p.remaining) == Took(remaining, taken)
      invariant Reflects(items + taken, act, sources', excluded')
    {
      var r := results[k];
      if r.callId !in remaining {
        TakeFaultSticks(e, results, k + 1, p.ordered, p.remaining);
        if r.callId in p.ordered {
          return Some(Structural(Duplicate(r.callId))), remaining, sources', excluded';
        }
        return Some(Structural(Unknown(r.callId))), remaining, sources', excluded';
      }
      var item := ResultSource(e, |results|, k, r);
      if !item.source.Valid() {
        TakeFaultSticks(e, results, k + 1, p.ordered, p.remaining);
        return Some(InvalidSource(item.source.id)), remaining, sources', excluded';
      }
      sources', excluded' := AppendSource(item, act, sources', excluded', items + taken);
      assert items + taken + [item] == items + (taken + [item]);
      taken := taken + [item];
      remaining := remaining - {r.callId};
    }
    fault := None;
  }

  ghost predicate PendingFits(events: seq<Event>, i: nat, s: Adaptation) {
    && (s.Adapting? && s.pending.None? ==> s.open == [])
    && (s.Adapting? && s.pending.Some? ==> s.pending.value.assistant < i <= |events|)
    && (s.Adapting? && s.pending.Some? ==> forall c :: c in s.pending.value.remaining ==> c in s.pending.value.ordered)
  }

  lemma {:induction false} TakeShrinks(e: Event, results: seq<ToolResult>, k: nat, ordered: seq<string>,
          remaining: set<string>)
    requires k <= |results| && Take(e, results, k, ordered, remaining).Took?
    ensures Take(e, results, k, ordered, remaining).remaining <= remaining
  {
    if k == 0 {
    } else {
      TakeShrinks(e, results, k - 1, ordered, remaining);
    }
  }

  lemma DeliverFits(events: seq<Event>, i: nat, c: Adaptation)
    requires i < |events| && events[i].IsBoundary() && c.Adapting? && c.pending.None? && c.open == []
    ensures PendingFits(events, i + 1, Deliver(i, events[i], c))
  {
  }

  lemma TakeFits(events: seq<Event>, i: nat, s: Adaptation, results: seq<ToolResult>)
    requires i < |events| && s.Adapting? && PendingFits(events, i, s)
    ensures PendingFits(events, i + 1, TakeMessage(s, events[i], results))
  {
    if s.pending.Some? && ValidResults(results) {
      var p := s.pending.value;
      if Take(events[i], results, |results|, p.ordered, p.remaining).Took? {
        TakeShrinks(events[i], results, |results|, p.ordered, p.remaining);
      }
    }
  }

  lemma StepFits(events: seq<Event>, act: Activation, i: nat, s: Adaptation)
    requires i < |events| && s.Adapting? && PendingFits(events, i, s)
    ensures PendingFits(events, i + 1, AdaptStep(events, act, i, s))
  {
    var e := events[i];
    if act.Activated? && act.index == i {
    } else if e.IsBoundary() {
      var c := CloseGroup(events, s);
      if c.Adapting? { DeliverFits(events, i, c); }
    } else if e.body.ToolMessage? {
      TakeFits(events, i, s, e.body.results);
    }
  }

  lemma {:induction false} PendingAlwaysFits(events: seq<Event>, act: Activation, i: nat)
    requires i <= |events|
    ensures PendingFits(events, i, AdaptTo(events, act, i))
  {
    if i == 0 {
    } else {
      PendingAlwaysFits(events, act, i - 1);
      if AdaptTo(events, act, i - 1).Adapting? { StepFits(events, act, i - 1, AdaptTo(events, act, i - 1)); }
    }
  }

  /** The message part of the user and assistant cases. */
  method DeliverMessage(i: nat, e: Event, act: Activation, sources: seq<ContentSource>, excluded: seq<string>,
          ghost c: Adaptation)
    returns (fault: Option<PlanFault>, pending: Option<Pending>, sources': seq<ContentSource>, excluded': seq<string>)
    requires e.IsBoundary() && c.Adapting? && c.pending.None? && c.open == []
    requires Reflects(Flatten(c.closed), act, sources, excluded)
    ensures var n := Deliver(i, e, c);
      if n.Failed? then fault == Some(n.fault)
      else fault.None? && n.pending == pending && Reflects(Flatten(n.closed) + n.open, act, sources', excluded')
  {
    fault, pending, sources', excluded' := None, None, sources, excluded;
    assert Flatten(c.closed) + [] == Flatten(c.closed);
    var item: Emitted;
    if e.body.User? {
      if e.body.content == "" {
        return;
      }
      item := MessageSource(e, USER_MESSAGE, [Text(e.body.content)]);
    } else if e.body.Assistant? {
      var ok, canonical := CanonicalAssistantBlocks(e.body.blocks, e.body.intents);
      if !ok {
        return Some(Structural(InvalidMessage)), None, sources, excluded;
      }
      if canonical == [] {
        return;
      }
      item := MessageSource(e, ASSISTANT_MESSAGE, canonical);
      var calls := ToolCallIds(canonical);
      if calls != [] {
        pending := Some(Open(i, e, calls));
      }
    } else {
      return;
    }
    if !item.source.Valid() {
      return Some(InvalidSource(e.id)), None, sources, excluded;
    }
    assert Flatten(c.closed + [[item]]) + [] == Flatten(c.closed) + [item];
    sources', excluded' := AppendSource(item, act, sources, excluded, Flatten(c.closed));
  }

  lemma OpenGrows(closed: seq<seq<Emitted>>, open: seq<Emitted>, taken: seq<Emitted>)
    ensures Flatten(closed) + open + taken == Flatten(closed) + (open + taken)
  {
  }

  /** A tool message whose results passed the message checks. */
  method TakeCheckedResults(e: Event, act: Activation, p: Pending, sources: seq<ContentSource>, excluded: seq<string>,
          ghost s: Adaptation)
    returns (fault: Option<PlanFault>, pending': Option<Pending>, sources': seq<ContentSource>, excluded': seq<string>)
    requires e.body.ToolMessage? && s.Adapting? && s.pending == Some(p)
    requires Reflects(Flatten(s.closed) + s.open, act, sources, excluded)
    ensures match Take(e, e.body.results, |e.body.results|, p.ordered, p.remaining)
      case TakeFault(f) => fault == Some(f)
      case Took(left, items) =>
        fault.None? && pending' == Some(p.(remaining := left))
          && Reflects(Flatten(s.closed) + (s.open + items), act, sources', excluded')
  {
    var left;
    ghost var t := Take(e, e.body.results, |e.body.results|, p.ordered, p.remaining);
    if t.Took? {
      OpenGrows(s.closed, s.open, t.items);
    }
    fault, left, sources', excluded' :=
        TakeResults(e, e.body.results, p, act, sources, excluded, Flatten(s.closed) + s.open);
    pending' := Some(p.(remaining := left));
  }

  /** The tool message case. */
  method TakeToolMessage(e: Event, act: Activation, pending: Option<Pending>, sources: seq<ContentSource>,
          excluded: seq<string>, ghost s: Adaptation)
    returns (fault: Option<PlanFault>, pending': Option<Pending>, sources': seq<ContentSource>, excluded': seq<string>)
    requires e.body.ToolMessage? && s.Adapting? && s.pending == pending
    requires Reflects(Flatten(s.closed) + s.open, act, sources, excluded)
    ensures var n := TakeMessage(s, e, e.body.results);
      if n.Failed? then fault == Some(n.fault)
      else fault.None? && n.pending == pending' && Reflects(Flatten(n.closed) + n.open, act, sources', excluded')
  {
    fault, pending', sources', excluded' := None, pending, sources, excluded;
    var results := e.body.results;
    var duplicate := FindDuplicate(results);
    if duplicate.Some? {
      return Some(Structural(Duplicate(duplicate.value))), pending, sources, excluded;
    }
    if !ValidResults(results) {
      return Some(Structural(InvalidMessage)), pending, sources, excluded;
    }
    if pending.None? {
      return Some(Structural(Late(results[0].callId))), pending, sources, excluded;
    }
    fault, pending', sources', excluded' := TakeCheckedResults(e, act, pending.value, sources, excluded, s);
  }

  /** One event that is not the activating compaction. */
  method AdaptEvent(events: seq<Event>, i: nat, terminals: map<string, nat>, act: Activation,
          pending: Option<Pending>, sources: seq<ContentSource>, excluded: seq<string>, ghost s: Adaptation)
    returns (fault: Option<PlanFault>, pending': Option<Pending>, sources': seq<ContentSource>, excluded': seq<string>)
    requires i < |events| && s.Adapting? && s.pending == pending && PendingFits(events, i, s)
    requires forall turn :: TerminalSeq(events, turn) == (if turn in terminals then terminals[turn] else 0)
    requires !(act.Activated? && act.index == i)
    requires Reflects(Flatten(s.closed) + s.open, act, sources, excluded)
    ensures var n := AdaptStep(events, act, i, s);
      if n.Failed? then fault == Some(n.fault)
      else fault.None? && n.pending == pending' && Reflects(Flatten(n.closed) + n.open, act, sources', excluded')
  {
    fault, pending', sources', excluded' := None, pending, sources, excluded;
    var e := events[i];
    if e.IsBoundary() {
      ghost var c := CloseGroup(events, s);
      if pending.Some? {
        fault, sources', excluded' :=
            FlushPending(events, terminals, act, pending.value, sources, excluded, s.closed, s.open);
        if fault.Some? {
          return;
        }
      } else {
        assert Flatten(s.closed) + s.open == Flatten(c.closed);
      }
      fault, pending', sources', excluded' := DeliverMessage(i, e, act, sources', excluded', c);
    } else if e.body.ToolMessage? {
      fault, pending', sources', excluded' := TakeToolMessage(e, act, pending, sources, excluded, s);
    } else if e.body.UndecodableToolMessage? {
      fault := Some(Structural(InvalidMessage));
    }
  }

  /** The activating compaction: the exchange before it is closed, then the summary follows. */
  method ActivateSummary(events: seq<Event>, terminals: map<string, nat>, act: Activation, pending: Option<Pending>,
          sources: seq<ContentSource>, excluded: seq<string>, ghost s: Adaptation)
    returns (fault: Option<PlanFault>, sources': seq<ContentSource>, excluded': seq<string>)
    requires act.Activated? && act.index < |events| && s.Adapting? && s.pending == pending
    requires PendingFits(events, act.index, s)
    requires forall turn :: TerminalSeq(events, turn) == (if turn in terminals then terminals[turn] else 0)
    requires Reflects(Flatten(s.closed) + s.open, act, sources, excluded)
    ensures var n := AdaptStep(events, act, act.index, s);
      if n.Failed? then fault == Some(n.fault)
      else fault.None? && n.pending.None? && Reflects(Flatten(n.closed) + n.open, act, sources', excluded')
  {
    fault, sources', excluded' := None, sources, excluded;
    ghost var c := CloseGroup(events, s);
    if pending.Some? {
      fault, sources', excluded' :=
          FlushPending(events, terminals, act, pending.value, sources, excluded, s.closed, s.open);
      if fault.Some? {
        return;
      }
    } else {
      assert Flatten(s.closed) + s.open == Flatten(c.closed);
    }
    ghost var item := Emitted(act.summary, None);
    assert Flatten(c.closed + [[item]]) + [] == Flatten(c.closed) + [item];
    sources', excluded' := AppendSource(Emitted(act.summary, None), act, sources', excluded', Flatten(c.closed));
  }

  /** `adaptEventSuffix`: the flat sources and exclusions are those of the grouped transcript. */
  method AdaptEventSuffix(events: seq<Event>, act: Activation)
    returns (fault: Option<PlanFault>, sources: seq<ContentSource>, excluded: seq<string>)
    ensures var a := Adapted(events, act);
      if a.Failed? then fault == Some(a.fault)
      else fault.None? && Reflects(Flatten(a.closed), act, sources, excluded)
  {
    var terminals := TerminalTurns(events);
    var pending: Option<Pending> := None;
    fault, sources, excluded := None, [], [];
    ghost var s := AdaptTo(events, act, 0);
    for i := 0 to |events|
      invariant fault.None? && s == AdaptTo(events, act, i) && s.Adapting? && s.pending == pending
      invariant Reflects(Flatten(s.closed) + s.open, act, sources, excluded)
    {
      PendingAlwaysFits(events, act, i);
      if AdaptStep(events, act, i, s).Failed? {
        FailureSticks(events, act, i + 1);
      }
      if act.Activated? && act.index == i {
        fault, sources, excluded := ActivateSummary(events, terminals, act, pending, sources, excluded, s);
        pending := None;
      } else {
        fault, pending, sources, excluded := AdaptEvent(events, i, terminals, act, pending, sources, excluded, s);
      }
      if fault.Some? {
        return;
      }
      s := AdaptTo(events, act, i + 1);
    }
    PendingAlwaysFits(events, act, |events|);
    if pending.Some? {
      fault, sources, excluded :=
          FlushPending(events, terminals, act, pending.value, sources, excluded, s.closed, s.open);
    } else {
      assert Flatten(s.closed) + s.open == Flatten(s.closed);
    }
  }
}
