/** The compaction selector's exchange tracking: which runs of events hold a tool
    exchange (an assistant message with calls, up to its last result or, when
    results are missing, up to the end of its turn). */
module ExchangeScan {
  import opened Journals
  import opened Transcript
  import opened ToolIntents

  datatype Fault =
    | InvalidMessage
    | Unresolved(call: string)
    | Late(call: string)
    | Duplicate(call: string)
    | Unknown(call: string)

  /** The exchange waiting for results; `assistant` is the index of its message. */
  datatype Pending = Pending(assistant: nat, turn: string, sequence: nat, ordered: seq<string>, remaining: set<string>)

  datatype Range = Range(assistant: nat, result: nat)

  datatype ScanState = Rejected(fault: Fault) | Scanning(pending: Option<Pending>, ranges: seq<Range>)

  datatype Resolution = Faulted(fault: Fault) | Resolved(remaining: set<string>)

  function FirstMissing(ordered: seq<string>, remaining: set<string>): string {
    if ordered == [] then ""
    else if ordered[0] in remaining then ordered[0]
    else FirstMissing(ordered[1..], remaining)
  }

  function ResolveOne(ordered: seq<string>, r: Resolution, call: string): Resolution {
    if r.Faulted? then r
    else if call in r.remaining then Resolved(r.remaining - {call})
    else if call in ordered then Faulted(Duplicate(call))
    else Faulted(Unknown(call))
  }

  /** Results strike their calls off, in order. */
  function Resolve(ordered: seq<string>, remaining: set<string>, results: seq<ToolResult>): Resolution {
    if results == [] then Resolved(remaining)
    else ResolveOne(ordered, Resolve(ordered, remaining, results[..|results| - 1]), results[|results| - 1].callId)
  }

  function Open(i: nat, e: Event, calls: seq<string>): Pending {
    Pending(i, e.turn, e.sequence, calls, set c | c in calls)
  }

  /** A message boundary closes the pending exchange: unanswered calls are accepted
      only if the turn has ended since. */
  function Flush(events: seq<Event>, s: ScanState): ScanState {
    if s.Rejected? || s.pending.None? then s
    else
      var p := s.pending.value;
      var t := TerminalIndex(events, p.turn);
      if t.Some? && events[t.value].sequence > p.sequence
      then Scanning(None, s.ranges + [Range(p.assistant, t.value)])
      else Rejected(Unresolved(FirstMissing(p.ordered, p.remaining)))
  }

  function Answer(i: nat, s: ScanState, results: seq<ToolResult>): ScanState
    requires s.Scanning?
  {
    if !ValidResults(results) then Rejected(InvalidMessage)
    else if s.pending.None? then Rejected(Late(results[0].callId))
    else
      var p := s.pending.value;
      match Resolve(p.ordered, p.remaining, results)
      case Faulted(f) => Rejected(f)
      case Resolved(left) =>
        if left == {} then Scanning(None, s.ranges + [Range(p.assistant, i)])
        else s.(pending := Some(p.(remaining := left)))
  }

  function ScanStep(events: seq<Event>, i: nat, s: ScanState): ScanState
    requires i < |events|
  {
    if s.Rejected? then s
    else match events[i].body
      case User(_) => Flush(events, s)
      case Assistant(blocks, intents) =>
        var f := Flush(events, s);
        if f.Rejected? then f
        else
          var m := MergeIntents(blocks, intents, true);
          if m.BadIntent? then Rejected(InvalidMessage)
          else
            var calls := MergedCalls(blocks, m.extra);
            if calls == [] then f else f.(pending := Some(Open(i, events[i], calls)))
      case UndecodableAssistant =>
        var f := Flush(events, s);
        if f.Rejected? then f else Rejected(InvalidMessage)
      case ToolMessage(results) => Answer(i, s, results)
      case UndecodableToolMessage => Rejected(InvalidMessage)
      case _ => s
  }

  /** State after the first `i` events; turn terminals are looked up in all of them. */
  function Scan(events: seq<Event>, i: nat): ScanState
    requires i <= |events|
  {
    if i == 0 then Scanning(None, []) else ScanStep(events, i - 1, Scan(events, i - 1))
  }

  function Exchanges(events: seq<Event>): ScanState { Flush(events, Scan(events, |events|)) }

  /** The message whose exchange a tool message at `k` answers. */
  function Opener(events: seq<Event>, k: nat): (a: Option<nat>)
    requires k <= |events|
    ensures a.Some? ==> a.value < k && events[a.value].IsBoundary()
  {
    if k == 0 then None else if events[k - 1].IsBoundary() then Some(k - 1) else Opener(events, k - 1)
  }

  ghost predicate PendingOk(events: seq<Event>, i: nat, p: Pending)
    requires i <= |events|
  {
    && p.assistant < i
    && events[p.assistant].body.Assistant?
    && p.turn == events[p.assistant].turn
    && p.sequence == events[p.assistant].sequence
    && Opener(events, i) == Some(p.assistant)
    && Distinct(p.ordered)
    && p.remaining != {}
    && (forall c :: c in p.remaining ==> c in p.ordered)
  }

  lemma {:induction false} ResolveShrinks(ordered: seq<string>, remaining: set<string>, results: seq<ToolResult>)
    ensures Resolve(ordered, remaining, results).Resolved? ==>
      Resolve(ordered, remaining, results).remaining <= remaining
  {
    if results == [] {
    } else {
      ResolveShrinks(ordered, remaining, results[..|results| - 1]);
    }
  }

  lemma OpenIsOk(events: seq<Event>, i: nat, blocks: seq<Block>, intents: seq<ToolUse>)
    requires i < |events| && events[i].body == Assistant(blocks, intents) && MergeIntents(blocks, intents, true).Merge?
    ensures var calls := MergedCalls(blocks, MergeIntents(blocks, intents, true).extra);
      calls != [] ==> PendingOk(events, i + 1, Open(i, events[i], calls))
  {
    MergedCallsAreExact(blocks, intents, true);
    var calls := MergedCalls(blocks, MergeIntents(blocks, intents, true).extra);
    if calls != [] {
      assert calls[0] in Open(i, events[i], calls).remaining;
    }
  }

  lemma {:induction false} PendingStaysOk(events: seq<Event>, i: nat)
    requires i <= |events|
    ensures Scan(events, i).Scanning? && Scan(events, i).pending.Some? ==>
      PendingOk(events, i, Scan(events, i).pending.value)
  {
    if i == 0 {
    } else {
      PendingStaysOk(events, i - 1);
      var s := Scan(events, i - 1);
      if s.Scanning? {
        match events[i - 1].body {
          case Assistant(blocks, intents) =>
            if MergeIntents(blocks, intents, true).Merge? { OpenIsOk(events, i - 1, blocks, intents); }
          case ToolMessage(results) =>
            if s.pending.Some? { ResolveShrinks(s.pending.value.ordered, s.pending.value.remaining, results); }
          case _ =>
        }
      }
    }
  }

  ghost predicate InBounds(events: seq<Event>, ranges: seq<Range>) {
    forall k :: 0 <= k < |ranges| ==> ranges[k].assistant < ranges[k].result < |events|
  }

  lemma LaterIndex(events: seq<Event>, a: nat, t: nat)
    requires Increasing(events) && a < |events| && t < |events| && events[a].sequence < events[t].sequence
    ensures a < t
  {
  }

  lemma FlushInBounds(events: seq<Event>, i: nat, s: ScanState)
    requires Increasing(events) && i <= |events| && s.Scanning? && InBounds(events, s.ranges)
    requires s.pending.Some? ==> PendingOk(events, i, s.pending.value)
    ensures Flush(events, s).Scanning? ==> InBounds(events, Flush(events, s).ranges)
  {
    if s.pending.Some? && Flush(events, s).Scanning? {
      LaterIndex(events, s.pending.value.assistant, TerminalIndex(events, s.pending.value.turn).value);
    }
  }

  lemma {:induction false} RangesInBounds(events: seq<Event>, i: nat)
    requires Increasing(events) && i <= |events|
    ensures Scan(events, i).Scanning? ==> InBounds(events, Scan(events, i).ranges)
  {
    if i == 0 {
    } else {
      RangesInBounds(events, i - 1);
      PendingStaysOk(events, i - 1);
      if Scan(events, i - 1).Scanning? { FlushInBounds(events, i - 1, Scan(events, i - 1)); }
    }
  }

  lemma ExchangesInBounds(events: seq<Event>)
    requires Increasing(events) && Exchanges(events).Scanning?
    ensures InBounds(events, Exchanges(events).ranges)
  {
    RangesInBounds(events, |events|);
    PendingStaysOk(events, |events|);
    FlushInBounds(events, |events|, Scan(events, |events|));
  }

  lemma {:induction false} RejectionSticks(events: seq<Event>, i: nat)
    requires i <= |events| && Scan(events, i).Rejected?
    ensures Exchanges(events) == Scan(events, i)
    decreases |events| - i
  {
    if i == |events| {
    } else {
      RejectionSticks(events, i + 1);
    }
  }

  lemma ResolveFails(ordered: seq<string>, remaining: set<string>, results: seq<ToolResult>, j: nat)
    requires j <= |results| && Resolve(ordered, remaining, results[..j]).Faulted?
    ensures Resolve(ordered, remaining, results) == Resolve(ordered, remaining, results[..j])
    decreases |results| - j
  {
    if j == |results| {
      assert results[..j] == results;
    } else {
      assert results[..j + 1][..j] == results[..j];
      ResolveFails(ordered, remaining, results, j + 1);
    }
  }

  /** The flush closure of `toolExchangeRanges`. */
  method FlushPending(events: seq<Event>, terminals: map<string, nat>,
          p: Pending) returns (fault: Option<Fault>, result: nat)
    requires forall turn :: turn in terminals <==> TerminalIndex(events, turn).Some?
    requires forall turn :: turn in terminals ==> TerminalIndex(events, turn) == Some(terminals[turn])
    requires p.remaining != {} && forall c :: c in p.remaining ==> c in p.ordered
    ensures var f := Flush(events, Scanning(Some(p), []));
      if f.Rejected? then fault == Some(f.fault) else fault == None && f.ranges == [Range(p.assistant, result)]
  {
    result := 0;
    if p.turn !in terminals || events[terminals[p.turn]].sequence <= p.sequence {
      for k := 0 to |p.ordered|
        invariant FirstMissing(p.ordered, p.remaining) == FirstMissing(p.ordered[k..], p.remaining)
        invariant forall j :: 0 <= j < k ==> p.ordered[j] !in p.remaining
      {
        if p.ordered[k] in p.remaining {
          return Some(Unresolved(p.ordered[k])), result;
        }
      }
      assert false;
    }
    return None, terminals[p.turn];
  }

  /** The inner loop over one tool message's results. */
  method StrikeOff(p: Pending, results: seq<ToolResult>) returns (fault: Option<Fault>, remaining: set<string>)
    ensures var r := Resolve(p.ordered, p.remaining, results);
      if r.Faulted? then fault == Some(r.fault) else fault == None && remaining == r.remaining
  {
    remaining := p.remaining;
    for j := 0 to |results|
      invariant Resolve(p.ordered, p.remaining, results[..j]) == Resolved(remaining)
    {
      assert results[..j + 1][..j] == results[..j];
      var call := results[j].callId;
      if call !in remaining {
        ResolveFails(p.ordered, p.remaining, results, j + 1);
        if call in p.ordered {
          return Some(Duplicate(call)), remaining;
        }
        return Some(Unknown(call)), remaining;
      }
      remaining := remaining - {call};
    }
    assert results[..|results|] == results;
    fault := None;
  }

  /** The user and assistant message cases. */
  method ScanBoundary(events: seq<Event>, i: nat, terminals: map<string, nat>, pending: Option<Pending>,
          ranges: seq<Range>)
    returns (fault: Option<Fault>, pending': Option<Pending>, ranges': seq<Range>)
    requires i < |events| && events[i].IsBoundary()
    requires forall turn :: turn in terminals <==> TerminalIndex(events, turn).Some?
    requires forall turn :: turn in terminals ==> TerminalIndex(events, turn) == Some(terminals[turn])
    requires pending.Some? ==> PendingOk(events, i, pending.value)
    ensures var n := ScanStep(events, i, Scanning(pending, ranges));
      if n.Rejected? then fault == Some(n.fault) else fault.None? && n == Scanning(pending', ranges')
  {
    fault, pending', ranges' := None, None, ranges;
    var e := events[i];
    if pending.Some? {
      var result;
      fault, result := FlushPending(events, terminals, pending.value);
      if fault.Some? {
        return;
      }
      ranges' := ranges + [Range(pending.value.assistant, result)];
    }
    if e.body.UndecodableAssistant? {
      fault := Some(InvalidMessage);
    } else if e.body.Assistant? {
      var ok, calls := AssistantToolCallIds(e.body.blocks, e.body.intents);
      if !ok {
        fault := Some(InvalidMessage);
      } else if calls != [] {
        pending' := Some(Open(i, e, calls));
      }
    }
  }

  /** The tool message case. */
  method ScanToolMessage(i: nat, results: seq<ToolResult>, pending: Option<Pending>, ranges: seq<Range>)
    returns (fault: Option<Fault>, pending': Option<Pending>, ranges': seq<Range>)
    ensures var n := Answer(i, Scanning(pending, ranges), results);
      if n.Rejected? then fault == Some(n.fault) else fault.None? && n == Scanning(pending', ranges')
  {
    fault, pending', ranges' := None, None, ranges;
    if !ValidResults(results) {
      fault := Some(InvalidMessage);
    } else if pending.None? {
      fault := Some(Late(results[0].callId));
    } else {
      var p, left := pending.value, pending.value.remaining;
      fault, left := StrikeOff(p, results);
      if fault.None? {
        if left == {} {
          ranges' := ranges + [Range(p.assistant, i)];
        } else {
          pending' := Some(p.(remaining := left));
        }
      }
    }
  }

  /** `toolExchangeRanges` up to the final merge. */
  method ScanExchanges(events: seq<Event>) returns (fault: Option<Fault>, ranges: seq<Range>)
    ensures var x := Exchanges(events);
      if x.Rejected? then fault == Some(x.fault) else fault == None && ranges == x.ranges
  {
    var terminals := TerminalTurnIndexes(events);
    var pending: Option<Pending> := None;
    fault, ranges := None, [];
    for i := 0 to |events|
      invariant fault.None? && Scan(events, i) == Scanning(pending, ranges)
    {
      PendingStaysOk(events, i);
      if Scan(events, i + 1).Rejected? {
        RejectionSticks(events, i + 1);
      }
      var e := events[i];
      if e.IsBoundary() {
        fault, pending, ranges := ScanBoundary(events, i, terminals, pending, ranges);
      } else if e.body.ToolMessage? {
        fault, pending, ranges := ScanToolMessage(i, e.body.results, pending, ranges);
      } else if e.body.UndecodableToolMessage? {
        fault := Some(InvalidMessage);
      }
      if fault.Some? {
        return;
      }
    }
    if pending.Some? {
      PendingStaysOk(events, |events|);
      var result;
      fault, result := FlushPending(events, terminals, pending.value);
      ranges := ranges + [Range(pending.value.assistant, result)];
    }
  }
}
