/** `groupContextSources`: the flat source list is cut back into whole exchanges. */
module Grouping {
  import opened Sequences
  import opened Journals
  import opened Transcript
  import opened ToolIntents
  import opened ExchangeScan
  import opened Adaptation

  datatype GroupingResult = Ungrouped | Grouped(groups: seq<seq<ContentSource>>)

  /** Calls an assistant source opens; other sources open none. */
  function Calls(s: ContentSource): seq<string> { if s.kind == ASSISTANT_MESSAGE then ToolCallIds(s.content) else [] }

  function AsSet(ids: seq<string>): set<string> { set c | c in ids }

  /** Result blocks strike expected calls off. */
  function StrikeBlocks(content: seq<Block>, remaining: set<string>): Option<set<string>> {
    if content == [] then Some(remaining)
    else match StrikeBlocks(content[..|content| - 1], remaining)
      case None => None
      case Some(left) =>
        var b := content[|content| - 1];
        if b.Outcome? && b.result.callId in left then Some(left - {b.result.callId}) else None
  }

  /** How many following sources answer the remaining calls. */
  function ResultCount(sources: seq<ContentSource>, remaining: set<string>): Option<nat> {
    if remaining == {} then Some(0)
    else if sources == [] || sources[0].kind != TOOL_MESSAGE then None
    else match StrikeBlocks(sources[0].content, remaining)
      case None => None
      case Some(left) =>
        match ResultCount(sources[1..], left)
        case None => None
        case Some(n) => Some(n + 1)
  }

  lemma {:induction false} ResultCountBounded(sources: seq<ContentSource>, remaining: set<string>)
    ensures ResultCount(sources, remaining).Some? ==> ResultCount(sources, remaining).value <= |sources|
  {
    if remaining != {} && sources != [] && sources[0].kind == TOOL_MESSAGE
      && StrikeBlocks(sources[0].content, remaining).Some? {
      ResultCountBounded(sources[1..], StrikeBlocks(sources[0].content, remaining).value);
    }
  }

  function Prepend(g: seq<ContentSource>, r: GroupingResult): GroupingResult {
    if r.Ungrouped? then r else Grouped([g] + r.groups)
  }

  /** Length of the group at the front, if one can be formed. */
  function FirstGroup(sources: seq<ContentSource>): (n: Option<nat>)
    requires sources != []
    ensures n.Some? ==> 1 <= n.value <= |sources|
  {
    ResultCountBounded(sources[1..], AsSet(Calls(sources[0])));
    var calls := Calls(sources[0]);
    if sources[0].kind == TOOL_MESSAGE then None
    else if calls == [] then Some(1)
    else if !Distinct(calls) then None
    else match ResultCount(sources[1..], AsSet(calls))
      case None => None
      case Some(k) => Some(k + 1)
  }

  function GroupSources(sources: seq<ContentSource>): GroupingResult {
    if sources == [] then Grouped([])
    else match FirstGroup(sources)
      case None => Ungrouped
      case Some(n) => Prepend(sources[..n], GroupSources(sources[n..]))
  }

  /** A source alone, or an assistant source with exactly its results. */
  predicate WholeExchange(g: seq<ContentSource>) { g != [] && FirstGroup(g) == Some(|g|) }

  lemma {:induction false} ResultCountPrefix(a: seq<ContentSource>, b: seq<ContentSource>, remaining: set<string>)
    requires ResultCount(a, remaining) == Some(|a|)
    ensures ResultCount(a + b, remaining) == Some(|a|)
  {
    if remaining == {} {
    } else {
      assert (a + b)[0] == a[0] && (a + b)[1..] == a[1..] + b;
      ResultCountPrefix(a[1..], b, StrikeBlocks(a[0].content, remaining).value);
    }
  }

  lemma FirstGroupPrefix(g: seq<ContentSource>, rest: seq<ContentSource>)
    requires WholeExchange(g)
    ensures FirstGroup(g + rest) == Some(|g|)
  {
    assert (g + rest)[0] == g[0] && (g + rest)[1..] == g[1..] + rest;
    if Calls(g[0]) != [] {
      ResultCountPrefix(g[1..], rest, AsSet(Calls(g[0])));
    }
  }

  /** Grouping recovers any list of whole exchanges from its flattening. */
  lemma {:induction false} GroupingRecovers(groups: seq<seq<ContentSource>>)
    requires forall k :: 0 <= k < |groups| ==> WholeExchange(groups[k])
    ensures GroupSources(FlattenFront(groups)) == Grouped(groups)
  {
    if groups == [] {
    } else {
      var rest := FlattenFront(groups[1..]);
      FirstGroupPrefix(groups[0], rest);
      assert (groups[0] + rest)[..|groups[0]|] == groups[0];
      assert (groups[0] + rest)[|groups[0]|..] == rest;
      GroupingRecovers(groups[1..]);
    }
  }

  lemma {:induction false} ResultCountTaken(a: seq<ContentSource>, remaining: set<string>)
    requires ResultCount(a, remaining).Some? && ResultCount(a, remaining).value <= |a|
    ensures ResultCount(a[..ResultCount(a, remaining).value], remaining) == ResultCount(a, remaining)
  {
    if remaining == {} {
    } else {
      var left := StrikeBlocks(a[0].content, remaining).value;
      var n := ResultCount(a[1..], left).value;
      ResultCountBounded(a[1..], left);
      ResultCountTaken(a[1..], left);
      assert a[..n + 1][1..] == a[1..][..n];
    }
  }

  lemma FirstIsWhole(sources: seq<ContentSource>)
    requires sources != [] && FirstGroup(sources).Some?
    ensures WholeExchange(sources[..FirstGroup(sources).value])
  {
    var n := FirstGroup(sources).value;
    assert sources[..n][1..] == sources[1..][..n - 1];
    if Calls(sources[0]) != [] {
      ResultCountTaken(sources[1..], AsSet(Calls(sources[0])));
    }
  }

  lemma OneGroupMore(g: seq<ContentSource>, rest: seq<seq<ContentSource>>)
    ensures FlattenFront([g] + rest) == g + FlattenFront(rest)
  {
    assert ([g] + rest)[1..] == rest;
  }

  lemma StillWhole(g: seq<ContentSource>, rest: seq<seq<ContentSource>>)
    requires WholeExchange(g) && forall k :: 0 <= k < |rest| ==> WholeExchange(rest[k])
    ensures forall k :: 0 <= k < |[g] + rest| ==> WholeExchange(([g] + rest)[k])
  {
    forall k | 0 <= k < |[g] + rest| ensures WholeExchange(([g] + rest)[k]) {
      assert ([g] + rest)[k] == if k == 0 then g else rest[k - 1];
    }
  }

  /** A successful grouping loses nothing and yields whole exchanges only. */
  lemma {:induction false} GroupingIsExact(sources: seq<ContentSource>)
    requires GroupSources(sources).Grouped?
    ensures FlattenFront(GroupSources(sources).groups) == sources
    ensures forall k :: 0 <= k < |GroupSources(sources).groups| ==> WholeExchange(GroupSources(sources).groups[k])
  {
    if sources == [] {
    } else {
      var n := FirstGroup(sources).value;
      var g, more := sources[..n], GroupSources(sources[n..]).groups;
      GroupingIsExact(sources[n..]);
      FirstIsWhole(sources);
      assert GroupSources(sources).groups == [g] + more;
      OneGroupMore(g, more);
      StillWhole(g, more);
      assert g + sources[n..] == sources;
    }
  }

  lemma {:induction false} StrikeFails(content: seq<Block>, k: nat, remaining: set<string>)
    requires k <= |content| && StrikeBlocks(content[..k], remaining).None?
    ensures StrikeBlocks(content, remaining).None?
  {
    if k == |content| {
      assert content[..k] == content;
    } else {
      assert content[..|content| - 1][..k] == content[..k];
      StrikeFails(content[..|content| - 1], k, remaining);
    }
  }

  method CountResults(sources: seq<ContentSource>, at: nat, calls: set<string>) returns (count: Option<nat>)
    requires at <= |sources|
    ensures count == ResultCount(sources[at..], calls)
  {
    var remaining, index := calls, at;
    while remaining != {}
      invariant at <= index <= |sources|
      invariant ResultCount(sources[at..], calls) == match ResultCount(sources[index..], remaining) {
        case None => None
        case Some(n) => Some(n + (index - at))
      }
      decreases |sources| - index
    {
      if index >= |sources| {
        return None;
      }
      var source := sources[index];
      if source.kind != TOOL_MESSAGE {
        return None;
      }
      var left := remaining;
      for k := 0 to |source.content|
        invariant StrikeBlocks(source.content[..k], remaining) == Some(left)
      {
        assert source.content[..k + 1][..k] == source.content[..k];
        var b := source.content[k];
        if !b.Outcome? || b.result.callId !in left {
          StrikeFails(source.content, k + 1, remaining);
          return None;
        }
        left := left - {b.result.callId};
      }
      assert source.content[..|source.content|] == source.content;
      assert sources[index..][1..] == sources[index + 1..];
      remaining, index := left, index + 1;
    }
    count := Some(index - at);
  }

  /** The size of the group that starts at `index`. */
  method MeasureGroup(sources: seq<ContentSource>, index: nat) returns (size: Option<nat>)
    requires index < |sources|
    ensures size == FirstGroup(sources[index..])
  {
    var source := sources[index];
    assert sources[index..][1..] == sources[index + 1..];
    if source.kind == TOOL_MESSAGE {
      return None;
    }
    var calls := Calls(source);
    if calls == [] {
      return Some(1);
    }
    if !Distinct(calls) {
      return None;
    }
    var count := CountResults(sources, index + 1, AsSet(calls));
    size := if count.None? then None else Some(count.value + 1);
  }

  ghost predicate AllWhole(groups: seq<seq<ContentSource>>) {
    forall k :: 0 <= k < |groups| ==> WholeExchange(groups[k])
  }

  /** A whole exchange at the front is cut off as a group. */
  lemma WholeFirst(g: seq<ContentSource>, rest: seq<ContentSource>)
    requires WholeExchange(g)
    ensures GroupSources(g + rest) == Prepend(g, GroupSources(rest))
  {
    FirstGroupPrefix(g, rest);
    assert (g + rest)[..|g|] == g && (g + rest)[|g|..] == rest;
  }

  /** Behind whole exchanges, a list no group can start fails the grouping. */
  lemma {:induction false} GroupingStops(groups: seq<seq<ContentSource>>, rest: seq<ContentSource>)
    requires AllWhole(groups) && rest != [] && FirstGroup(rest).None?
    ensures GroupSources(FlattenFront(groups) + rest) == Ungrouped
  {
    if groups == [] {
      assert [] + rest == rest;
    } else {
      var g, tail := groups[0], FlattenFront(groups[1..]);
      GroupingStops(groups[1..], rest);
      assert g + tail + rest == g + (tail + rest);
      WholeFirst(g, tail + rest);
    }
  }

  lemma WholeSnoc(groups: seq<seq<ContentSource>>, g: seq<ContentSource>)
    requires AllWhole(groups) && WholeExchange(g)
    ensures AllWhole(groups + [g])
  {
  }

  /** One turn of the loop: the group that starts at `index`. */
  method TakeGroup(sources: seq<ContentSource>, index: nat) returns (group: Option<seq<ContentSource>>)
    requires index < |sources|
    ensures group.None? ==> FirstGroup(sources[index..]).None?
    ensures group.Some? ==> WholeExchange(group.value) && group.value <= sources[index..]
  {
    var size := MeasureGroup(sources, index);
    if size.None? {
      return None;
    }
    FirstIsWhole(sources[index..]);
    assert sources[index..][..size.value] == sources[index..index + size.value];
    group := Some(sources[index..index + size.value]);
  }

  /** The loop of `groupContextSources`. */
  method GroupContextSources(sources: seq<ContentSource>) returns (grouped: GroupingResult)
    ensures grouped == GroupSources(sources)
  {
    var groups: seq<seq<ContentSource>> := [];
    var index := 0;
    while index < |sources|
      invariant 0 <= index <= |sources|
      invariant AllWhole(groups) && FlattenFront(groups) == sources[..index]
    {
      var group := TakeGroup(sources, index);
      if group.None? {
        GroupingStops(groups, sources[index..]);
        assert sources[..index] + sources[index..] == sources;
        return Ungrouped;
      }
      WholeSnoc(groups, group.value);
      FlattenFrontSnoc(groups, group.value);
      assert sources[..index] + group.value == sources[..index + |group.value|];
      groups, index := groups + [group.value], index + |group.value|;
    }
    assert sources[..|sources|] == sources;
    GroupingRecovers(groups);
    grouped := Grouped(groups);
  }

  // ---- the transcript's groups are whole exchanges ----

  function SourcesOf(items: seq<Emitted>): seq<ContentSource> {
    seq(|items|, i requires 0 <= i < |items| => items[i].source)
  }

  lemma SourcesOfConcat(a: seq<Emitted>, b: seq<Emitted>)
    ensures SourcesOf(a + b) == SourcesOf(a) + SourcesOf(b)
    ensures a != [] ==> SourcesOf(a + b)[0] == a[0].source && SourcesOf(a + b)[1..] == SourcesOf(a)[1..] + SourcesOf(b)
  {
  }

  function SourceGroups(groups: seq<seq<Emitted>>): seq<seq<ContentSource>> {
    seq(|groups|, i requires 0 <= i < |groups| => SourcesOf(groups[i]))
  }

  /** Every item is a result source for one call; striking them off leaves `left`. */
  ghost predicate Answers(items: seq<ContentSource>, before: set<string>, left: set<string>)
    decreases |items|
  {
    if items == [] then before == left
    else
      var n := |items| - 1;
      var b := items[n];
      && b.kind == TOOL_MESSAGE && |b.content| == 1 && b.content[0].Outcome?
      && exists middle ::
        Answers(items[..n], before, middle) && b.content[0].result.callId in middle
          && left == middle - {b.content[0].result.callId}
  }

  lemma {:induction false} AnswersFront(items: seq<ContentSource>, before: set<string>, left: set<string>)
    requires items != [] && Answers(items, before, left)
    ensures items[0].kind == TOOL_MESSAGE && |items[0].content| == 1 && items[0].content[0].Outcome?
    ensures items[0].content[0].result.callId in before
    ensures Answers(items[1..], before - {items[0].content[0].result.callId}, left)
  {
    var n := |items| - 1;
    var middle :| Answers(items[..n], before, middle)
      && items[n].content[0].result.callId in middle && left == middle - {items[n].content[0].result.callId};
    if n == 0 {
      assert items[1..] == [];
    } else {
      AnswersFront(items[..n], before, middle);
      assert items[..n][1..] + [items[n]] == items[1..];
    }
  }

  lemma OneResult(b: ContentSource, remaining: set<string>)
    requires |b.content| == 1 && b.content[0].Outcome? && b.content[0].result.callId in remaining
    ensures StrikeBlocks(b.content, remaining) == Some(remaining - {b.content[0].result.callId})
  {
    assert b.content[..0] == [];
    assert StrikeBlocks(b.content[..0], remaining) == Some(remaining);
  }

  lemma {:induction false} AnswersAreCounted(items: seq<ContentSource>, before: set<string>)
    requires Answers(items, before, {})
    ensures ResultCount(items, before) == Some(|items|)
  {
    if items == [] {
    } else {
      AnswersFront(items, before, {});
      OneResult(items[0], before);
      AnswersAreCounted(items[1..], before - {items[0].content[0].result.callId});
    }
  }

  lemma {:induction false} AnswersConcat(a: seq<ContentSource>, b: seq<ContentSource>, before: set<string>,
          middle: set<string>, left: set<string>)
    requires Answers(a, before, middle) && Answers(b, middle, left)
    ensures Answers(a + b, before, left)
  {
    if b == [] {
      assert a + b == a;
    } else {
      var n := |b| - 1;
      var m :| Answers(b[..n], middle, m) && b[n].content[0].result.callId in m
        && left == m - {b[n].content[0].result.callId};
      AnswersConcat(a, b[..n], before, middle, m);
      assert a + b[..n] + [b[n]] == a + b;
    }
  }

  lemma UncertainHead(item: Emitted, tail: seq<Emitted>, remaining: set<string>, left: set<string>)
    requires item.source.kind == TOOL_MESSAGE && |item.source.content| == 1 && item.source.content[0].Outcome?
    requires item.source.content[0].result.callId in remaining
    requires Answers(SourcesOf(tail), remaining - {item.source.content[0].result.callId}, left)
    ensures Answers(SourcesOf([item] + tail), remaining, left)
  {
    AnswersConcat([item.source], SourcesOf(tail), remaining, remaining - {item.source.content[0].result.callId}, left);
    assert [item.source] + SourcesOf(tail) == SourcesOf([item] + tail);
  }

  lemma {:induction false} UncertainSame(assistant: string, ordered: seq<string>, a: set<string>, b: set<string>,
          sequence: nat)
    requires forall c :: c in ordered ==> (c in a <==> c in b)
    ensures Uncertain(assistant, ordered, a, sequence) == Uncertain(assistant, ordered, b, sequence)
  {
    if ordered == [] {
    } else {
      UncertainSame(assistant, ordered[1..], a, b, sequence);
    }
  }

  /** The invented results answer exactly what was left. */
  lemma {:induction false} UncertainAnswers(assistant: string, ordered: seq<string>, remaining: set<string>,
          sequence: nat)
    requires Distinct(ordered)
    ensures Answers(SourcesOf(Uncertain(assistant, ordered, remaining, sequence)), remaining,
        remaining - AsSet(ordered))
    decreases |ordered|
  {
    var left := remaining - AsSet(ordered);
    if ordered == [] {
      assert left == remaining;
    } else {
      var call, rest := ordered[0], ordered[1..];
      var tail := Uncertain(assistant, rest, remaining, sequence);
      UncertainSame(assistant, rest, remaining, remaining - {call}, sequence);
      UncertainAnswers(assistant, rest, remaining - {call}, sequence);
      assert Answers(SourcesOf(tail), remaining - {call}, left);
      if call in remaining {
        UncertainHead(UncertainSource(assistant, call, sequence), tail, remaining, left);
      } else {
        assert remaining - {call} == remaining;
        assert [] + tail == tail;
      }
    }
  }

  /** The open group: the assistant source and answers to all but the remaining calls. */
  ghost predicate OpenExchange(open: seq<Emitted>, p: Pending) {
    && open != [] && Distinct(p.ordered) && p.ordered != []
    && open[0].source.kind == ASSISTANT_MESSAGE && Calls(open[0].source) == p.ordered
    && Answers(SourcesOf(open)[1..], AsSet(p.ordered), p.remaining)
    && p.remaining <= AsSet(p.ordered)
  }

  /** A plain source alone, or an assistant source and one answer to each of its calls. */
  ghost predicate Complete(g: seq<ContentSource>) {
    && g != [] && g[0].kind != TOOL_MESSAGE
    && (Calls(g[0]) == [] ==> |g| == 1)
    && (Calls(g[0]) != [] ==> Distinct(Calls(g[0])) && Answers(g[1..], AsSet(Calls(g[0])), {}))
  }

  lemma CompleteIsWhole(g: seq<ContentSource>)
    requires Complete(g)
    ensures WholeExchange(g)
  {
    if Calls(g[0]) != [] { AnswersAreCounted(g[1..], AsSet(Calls(g[0]))); }
  }

  ghost predicate GroupsComplete(s: Adaptation) {
    && (s.Adapting? ==> forall k :: 0 <= k < |s.closed| ==> Complete(SourcesOf(s.closed[k])))
    && (s.Adapting? && s.pending.Some? ==> OpenExchange(s.open, s.pending.value))
  }

  /** Inventing the missing answers completes an open exchange. */
  lemma InventingCompletes(open: seq<Emitted>, p: Pending, assistant: string)
    requires OpenExchange(open, p)
    ensures Complete(SourcesOf(open + Uncertain(assistant, p.ordered, p.remaining, p.sequence)))
  {
    var all := Uncertain(assistant, p.ordered, p.remaining, p.sequence);
    UncertainAnswers(assistant, p.ordered, p.remaining, p.sequence);
    assert p.remaining - AsSet(p.ordered) == {};
    AnswersConcat(SourcesOf(open)[1..], SourcesOf(all), AsSet(p.ordered), p.remaining, {});
    SourcesOfConcat(open, all);
  }

  lemma CloseComplete(events: seq<Event>, s: Adaptation)
    requires GroupsComplete(s)
    ensures GroupsComplete(CloseGroup(events, s))
  {
    if s.Adapting? && CloseGroup(events, s).Adapting? && s.pending.Some? && s.pending.value.remaining != {} {
      InventingCompletes(s.open, s.pending.value, events[s.pending.value.assistant].id);
    }
  }

  lemma {:induction false} TakenAnswers(e: Event, results: seq<ToolResult>, k: nat, ordered: seq<string>,
          remaining: set<string>)
    requires k <= |results| && Take(e, results, k, ordered, remaining).Took?
    ensures var t := Take(e, results, k, ordered, remaining); Answers(SourcesOf(t.items), remaining, t.remaining)
  {
    if k == 0 {
    } else {
      TakenAnswers(e, results, k - 1, ordered, remaining);
      var t := Take(e, results, k - 1, ordered, remaining);
      var item := ResultSource(e, |results|, k - 1, results[k - 1]);
      SourcesOfConcat(t.items, [item]);
      assert SourcesOf([item]) == [item.source];
    }
  }

  lemma TakeKeepsOpen(open: seq<Emitted>, p: Pending, e: Event, results: seq<ToolResult>)
    requires OpenExchange(open, p) && Take(e, results, |results|, p.ordered, p.remaining).Took?
    ensures var t := Take(e, results, |results|, p.ordered, p.remaining);
      OpenExchange(open + t.items, p.(remaining := t.remaining))
  {
    var t := Take(e, results, |results|, p.ordered, p.remaining);
    TakenAnswers(e, results, |results|, p.ordered, p.remaining);
    AnswersConcat(SourcesOf(open)[1..], SourcesOf(t.items), AsSet(p.ordered), p.remaining, t.remaining);
    TakeShrinks(e, results, |results|, p.ordered, p.remaining);
    SourcesOfConcat(open, t.items);
  }

  lemma TakeComplete(s: Adaptation, e: Event, results: seq<ToolResult>)
    requires s.Adapting? && GroupsComplete(s)
    ensures GroupsComplete(TakeMessage(s, e, results))
  {
    if TakeMessage(s, e, results).Adapting? {
      TakeKeepsOpen(s.open, s.pending.value, e, results);
    }
  }

  lemma OpensExchange(i: nat, e: Event, blocks: seq<Block>, intents: seq<ToolUse>)
    requires MergeIntents(blocks, intents, false).Merge?
    ensures var item := MessageSource(e, ASSISTANT_MESSAGE,
        blocks + UseBlocks(MergeIntents(blocks, intents, false).extra));
      Calls(item.source) != [] ==> OpenExchange([item], Open(i, e, Calls(item.source)))
  {
    var item := MessageSource(e, ASSISTANT_MESSAGE, blocks + UseBlocks(MergeIntents(blocks, intents, false).extra));
    MergedCallsAreExact(blocks, intents, false);
    assert SourcesOf([item])[1..] == [];
  }

  lemma DeliverComplete(i: nat, e: Event, c: Adaptation)
    requires e.IsBoundary() && c.Adapting? && c.pending.None? && GroupsComplete(c)
    ensures GroupsComplete(Deliver(i, e, c))
  {
    if e.body.Assistant? && MergeIntents(e.body.blocks, e.body.intents, false).Merge? {
      OpensExchange(i, e, e.body.blocks, e.body.intents);
    }
  }

  /** The summary is an ordinary source: neither a result nor a caller. */
  predicate PlainSummary(act: Activation) {
    act.Activated? ==> act.summary.kind == COMPACTION_SUMMARY
  }

  lemma {:induction false} TranscriptComplete(events: seq<Event>, act: Activation, i: nat)
    requires i <= |events| && PlainSummary(act)
    ensures GroupsComplete(AdaptTo(events, act, i))
  {
    if i == 0 {
    } else {
      TranscriptComplete(events, act, i - 1);
      var s, e := AdaptTo(events, act, i - 1), events[i - 1];
      if s.Adapting? {
        CloseComplete(events, s);
        if act.Activated? && act.index == i - 1 {
        } else if e.IsBoundary() {
          if CloseGroup(events, s).Adapting? { DeliverComplete(i - 1, e, CloseGroup(events, s)); }
        } else if e.body.ToolMessage? {
          TakeComplete(s, e, e.body.results);
        }
      }
    }
  }

  lemma AdaptedComplete(events: seq<Event>, act: Activation)
    requires PlainSummary(act)
    ensures GroupsComplete(Adapted(events, act))
  {
    TranscriptComplete(events, act, |events|);
    CloseComplete(events, AdaptTo(events, act, |events|));
  }

  lemma {:induction false} KeepAll(items: seq<Emitted>)
    ensures KeptSources(items, NoCompaction) == SourcesOf(items)
  {
    if items == [] {
    } else {
      KeepAll(items[..|items| - 1]);
    }
  }

  lemma {:induction false} SourcesOfFlatten(groups: seq<seq<Emitted>>)
    ensures SourcesOf(FlattenFront(groups)) == FlattenFront(SourceGroups(groups))
  {
    if groups == [] {
    } else {
      SourcesOfFlatten(groups[1..]);
      assert SourceGroups(groups)[1..] == SourceGroups(groups[1..]);
      assert SourcesOf(groups[0] + FlattenFront(groups[1..])) ==
          SourcesOf(groups[0]) + SourcesOf(FlattenFront(groups[1..]));
    }
  }

  /** Every group of an accepted transcript is a whole exchange, so cutting the flat
      list back into groups succeeds and yields those groups. */
  lemma TranscriptGroupsRecovered(events: seq<Event>)
    requires Adapted(events, NoCompaction).Adapting?
    ensures var groups := Adapted(events, NoCompaction).closed;
      GroupSources(KeptSources(Flatten(groups), NoCompaction)) == Grouped(SourceGroups(groups))
  {
    AdaptedComplete(events, NoCompaction);
    var groups := Adapted(events, NoCompaction).closed;
    forall k | 0 <= k < |groups| ensures WholeExchange(SourceGroups(groups)[k]) {
      CompleteIsWhole(SourcesOf(groups[k]));
    }
    KeepAll(Flatten(groups));
    FlattensAgree(groups);
    SourcesOfFlatten(groups);
    GroupingRecovers(SourceGroups(groups));
  }

  // ---- one result per call ----

  function ResultCalls(items: seq<ContentSource>): seq<string> {
    if items == [] then []
    else
      var n := |items| - 1;
      var content := items[n].content;
      ResultCalls(items[..n]) + (if content != [] && content[0].Outcome? then [content[0].result.callId] else [])
  }

  lemma {:induction false} AnswersOncePerCall(items: seq<ContentSource>, before: set<string>, left: set<string>)
    requires Answers(items, before, left)
    ensures left <= before
    ensures Distinct(ResultCalls(items)) && AsSet(ResultCalls(items)) == before - left
    ensures |ResultCalls(items)| == |items|
  {
    if items == [] {
    } else {
      var n := |items| - 1;
      var call := items[n].content[0].result.callId;
      var middle :| Answers(items[..n], before, middle) && call in middle && left == middle - {call};
      AnswersOncePerCall(items[..n], before, middle);
      var earlier := ResultCalls(items[..n]);
      assert ResultCalls(items) == earlier + [call];
      assert forall c :: c in earlier <==> c in AsSet(earlier);
      assert AsSet(earlier + [call]) == AsSet(earlier) + {call};
    }
  }
}
