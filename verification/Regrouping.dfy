/** When the sources an activated compaction leaves can be cut back into exchanges. */
module Regrouping {
  import opened Sequences
  import opened Journals
  import opened Transcript
  import opened ToolIntents
  import opened ExchangeScan
  import opened Adaptation
  import opened Grouping
  import opened Results
  import opened Composition

  // ---- what a successful grouping says about calls ----

  predicate Names(s: ContentSource, call: string) {
    exists k :: 0 <= k < |s.content| && s.content[k].Outcome? && s.content[k].result.callId == call
  }

  lemma {:induction false} StruckBlocks(content: seq<Block>, remaining: set<string>)
    requires StrikeBlocks(content, remaining).Some?
    ensures var left := StrikeBlocks(content, remaining).value;
      && left <= remaining
      && (forall k :: 0 <= k < |content| ==> content[k].Outcome? && content[k].result.callId in remaining)
      && (forall c :: c in remaining && c !in left ==>
        exists k :: 0 <= k < |content| && content[k].Outcome? && content[k].result.callId == c)
  {
    if content == [] {
    } else {
      var n := |content| - 1;
      StruckBlocks(content[..n], remaining);
      var before, left := StrikeBlocks(content[..n], remaining).value, StrikeBlocks(content, remaining).value;
      forall c | c in remaining && c !in left
        ensures exists k :: 0 <= k < |content| && content[k].Outcome? && content[k].result.callId == c
      {
        if c in before {
          assert content[n].result.callId == c;
        } else {
          var k :| 0 <= k < n && content[..n][k].Outcome? && content[..n][k].result.callId == c;
          assert content[k].result.callId == c;
        }
      }
    }
  }

  lemma {:induction false} CountedAnswers(a: seq<ContentSource>, remaining: set<string>)
    requires ResultCount(a, remaining) == Some(|a|)
    ensures forall j :: 0 <= j < |a| ==> a[j].kind == TOOL_MESSAGE
    ensures forall j, c :: 0 <= j < |a| && Names(a[j], c) ==> c in remaining
    ensures forall c :: c in remaining ==> exists j :: 0 <= j < |a| && Names(a[j], c)
  {
    if remaining == {} {
    } else {
      var left := StrikeBlocks(a[0].content, remaining).value;
      StruckBlocks(a[0].content, remaining);
      CountedAnswers(a[1..], left);
      forall j, c | 0 <= j < |a| && Names(a[j], c) ensures c in remaining {
        if j > 0 { assert Names(a[1..][j - 1], c); }
      }
      forall j | 0 <= j < |a| ensures a[j].kind == TOOL_MESSAGE {
        if j > 0 { assert a[j] == a[1..][j - 1]; }
      }
      forall c | c in remaining ensures exists j :: 0 <= j < |a| && Names(a[j], c) {
        if c in left {
          var j :| 0 <= j < |a[1..]| && Names(a[1..][j], c);
          assert Names(a[j + 1], c);
        } else {
          assert Names(a[0], c);
        }
      }
    }
  }

  /** Behind the first source of a whole exchange come results for exactly its calls. */
  lemma WholeAnswers(g: seq<ContentSource>)
    requires WholeExchange(g)
    ensures g[0].kind != TOOL_MESSAGE
    ensures forall j :: 1 <= j < |g| ==> g[j].kind == TOOL_MESSAGE
    ensures forall j, c :: 1 <= j < |g| && Names(g[j], c) ==> c in Calls(g[0])
    ensures forall c :: c in Calls(g[0]) ==> exists j :: 1 <= j < |g| && Names(g[j], c)
  {
    if Calls(g[0]) != [] {
      CountedAnswers(g[1..], AsSet(Calls(g[0])));
      forall j | 1 <= j < |g| ensures g[j].kind == TOOL_MESSAGE { assert g[j] == g[1..][j - 1]; }
      forall j, c | 1 <= j < |g| && Names(g[j], c) ensures c in Calls(g[0]) {
        assert g[j] == g[1..][j - 1] && Names(g[1..][j - 1], c);
        assert c in AsSet(Calls(g[0]));
      }
      forall c | c in Calls(g[0]) ensures exists j :: 1 <= j < |g| && Names(g[j], c) {
        assert c in AsSet(Calls(g[0]));
        var j :| 0 <= j < |g[1..]| && Names(g[1..][j], c);
        var m := j + 1;
        assert g[m] == g[1..][j];
        assert 1 <= m < |g| && Names(g[m], c);
      }
    }
  }

  // ---- members of flat lists ----

  lemma {:induction false} InFlatFront(groups: seq<seq<ContentSource>>, x: ContentSource)
    ensures x in FlattenFront(groups) <==> exists k :: 0 <= k < |groups| && x in groups[k]
  {
    if groups == [] {
    } else {
      InFlatFront(groups[1..], x);
      if x in FlattenFront(groups[1..]) {
        var k :| 0 <= k < |groups[1..]| && x in groups[1..][k];
        assert x in groups[k + 1];
      }
      if k :| 0 <= k < |groups| && x in groups[k] {
        if k > 0 { assert x in groups[1..][k - 1]; }
      }
    }
  }

  lemma {:induction false} InFlat(groups: seq<seq<Emitted>>, x: Emitted)
    ensures x in Flatten(groups) <==> exists k :: 0 <= k < |groups| && x in groups[k]
  {
    if groups == [] {
    } else {
      var n := |groups| - 1;
      InFlat(groups[..n], x);
      if x in Flatten(groups[..n]) {
        var k :| 0 <= k < n && x in groups[..n][k];
        assert x in groups[k];
      }
      if k :| 0 <= k < |groups| && x in groups[k] {
        if k < n { assert x in groups[..n][k]; }
      }
    }
  }

  lemma {:induction false} KeptHas(items: seq<Emitted>, act: Activation, i: nat)
    requires i < |items| && !Dropped(items[i], act)
    ensures items[i].source in KeptSources(items, act)
  {
    var n := |items| - 1;
    if i == n {
    } else {
      KeptHas(items[..n], act, i);
    }
  }

  lemma {:induction false} KeptFrom(items: seq<Emitted>, act: Activation, x: ContentSource) returns (i: nat)
    requires x in KeptSources(items, act)
    ensures i < |items| && !Dropped(items[i], act) && items[i].source == x
  {
    var n := |items| - 1;
    if x in KeptSources(items[..n], act) {
      i := KeptFrom(items[..n], act, x);
    } else {
      i := n;
    }
  }

  // ---- one group per message ----

  /** The group begins at a message before `i`. */
  ghost predicate BeginsBefore(events: seq<Event>, g: seq<Emitted>, i: nat) {
    g != [] && exists a: nat :: a < i && a < |events| && g[0].position == Some(events[a].sequence)
  }

  predicate Earlier(g: seq<Emitted>, h: seq<Emitted>) {
    && g != [] && h != [] && g[0].position.Some? && h[0].position.Some?
    && g[0].position.value < h[0].position.value
  }

  ghost predicate GroupsOrdered(events: seq<Event>, i: nat, groups: seq<seq<Emitted>>) {
    && (forall k :: 0 <= k < |groups| ==> BeginsBefore(events, groups[k], i))
    && (forall j, k :: 0 <= j < k < |groups| ==> Earlier(groups[j], groups[k]))
  }

  lemma BeginsBeforeMore(events: seq<Event>, g: seq<Emitted>, i: nat)
    requires BeginsBefore(events, g, i)
    ensures BeginsBefore(events, g, i + 1)
  {
    var a: nat :| a < i && a < |events| && g[0].position == Some(events[a].sequence);
    assert a < i + 1;
  }

  lemma OrderedMore(events: seq<Event>, i: nat, groups: seq<seq<Emitted>>)
    requires GroupsOrdered(events, i, groups)
    ensures GroupsOrdered(events, i + 1, groups)
  {
    forall k | 0 <= k < |groups| ensures BeginsBefore(events, groups[k], i + 1) {
      BeginsBeforeMore(events, groups[k], i);
    }
  }

  /** The last group grows at its end. */
  lemma OrderedGrows(events: seq<Event>, i: nat, groups: seq<seq<Emitted>>, g: seq<Emitted>, more: seq<Emitted>)
    requires GroupsOrdered(events, i, groups + [g])
    ensures GroupsOrdered(events, i, groups + [g + more])
  {
    var before: seq<seq<Emitted>> := groups + [g];
    var after: seq<seq<Emitted>> := groups + [g + more];
    forall k | 0 <= k < |after|
      ensures BeginsBefore(events, after[k], i) && before[k] != [] && after[k][0] == before[k][0]
    {
      assert BeginsBefore(events, before[k], i);
      var a: nat :| a < i && a < |events| && before[k][0].position == Some(events[a].sequence);
      assert after[k][0] == before[k][0];
    }
    forall j, k | 0 <= j < k < |after| ensures Earlier(after[j], after[k]) { assert Earlier(before[j], before[k]); }
  }

  /** A group that begins at event `i` comes behind all that begin before. */
  lemma OrderedAppends(events: seq<Event>, i: nat, groups: seq<seq<Emitted>>, g: seq<Emitted>)
    requires Increasing(events) && i < |events| && GroupsOrdered(events, i, groups)
    requires g != [] && g[0].position == Some(events[i].sequence)
    ensures GroupsOrdered(events, i + 1, groups + [g])
  {
    var all := groups + [g];
    OrderedMore(events, i, groups);
    assert BeginsBefore(events, g, i + 1);
    forall k | 0 <= k < |all| ensures BeginsBefore(events, all[k], i + 1) {
      if k < |groups| { assert all[k] == groups[k]; }
    }
    forall j, k | 0 <= j < k < |all| ensures Earlier(all[j], all[k]) {
      if k == |groups| {
        assert BeginsBefore(events, groups[j], i);
      } else {
        assert Earlier(groups[j], groups[k]);
      }
    }
  }

  lemma CloseOrdered(events: seq<Event>, i: nat, s: Adaptation)
    requires s.Adapting? && CloseGroup(events, s).Adapting? && GroupsOrdered(events, i, Groups(s))
    ensures CloseGroup(events, s).pending.None? && GroupsOrdered(events, i, Groups(CloseGroup(events, s)))
  {
    if s.pending.Some? && s.pending.value.remaining != {} {
      var p := s.pending.value;
      OrderedGrows(events, i, s.closed, s.open, Uncertain(events[p.assistant].id, p.ordered, p.remaining, p.sequence));
    }
  }

  lemma DeliverOrdered(events: seq<Event>, i: nat, c: Adaptation)
    requires Increasing(events) && i < |events| && events[i].IsBoundary() && c.Adapting? && c.pending.None?
    requires Deliver(i, events[i], c).Adapting? && GroupsOrdered(events, i, Groups(c))
    ensures GroupsOrdered(events, i + 1, Groups(Deliver(i, events[i], c)))
  {
    var d := Deliver(i, events[i], c);
    if Groups(d) == Groups(c) {
      OrderedMore(events, i, Groups(c));
    } else {
      var g := Groups(d)[|c.closed|];
      assert Groups(d) == Groups(c) + [g];
      OrderedAppends(events, i, Groups(c), g);
    }
  }

  lemma TakeOrdered(events: seq<Event>, i: nat, s: Adaptation)
    requires i < |events| && events[i].body.ToolMessage? && s.Adapting? && GroupsOrdered(events, i, Groups(s))
    requires TakeMessage(s, events[i], events[i].body.results).Adapting?
    ensures GroupsOrdered(events, i + 1, Groups(TakeMessage(s, events[i], events[i].body.results)))
  {
    var results, p := events[i].body.results, s.pending.value;
    OrderedGrows(events, i, s.closed, s.open, Take(events[i], results, |results|, p.ordered, p.remaining).items);
    OrderedMore(events, i, Groups(TakeMessage(s, events[i], results)));
  }

  lemma {:induction false} ReplayOrdered(events: seq<Event>, i: nat)
    requires Increasing(events) && i <= |events| && AdaptTo(events, NoCompaction, i).Adapting?
    ensures GroupsOrdered(events, i, Groups(AdaptTo(events, NoCompaction, i)))
  {
    if i == 0 {
    } else {
      var s, e := AdaptTo(events, NoCompaction, i - 1), events[i - 1];
      ReplayOrdered(events, i - 1);
      if e.IsBoundary() {
        CloseOrdered(events, i - 1, s);
        DeliverOrdered(events, i - 1, CloseGroup(events, s));
      } else if e.body.ToolMessage? {
        TakeOrdered(events, i - 1, s);
      } else {
        OrderedMore(events, i - 1, Groups(s));
      }
    }
  }

  /** Two groups of an accepted replay that begin at the same message are one. */
  lemma OneGroupPerMessage(events: seq<Event>, j: nat, k: nat)
    requires Increasing(events) && Accepted(events, NoCompaction)
    requires j < |Adapted(events, NoCompaction).closed| && k < |Adapted(events, NoCompaction).closed|
    ensures var groups := Adapted(events, NoCompaction).closed;
      groups[j] != [] && groups[k] != [] && (groups[j][0].position == groups[k][0].position ==> j == k)
  {
    var n := |events|;
    AcceptedSoFar(events, NoCompaction, n);
    ReplayOrdered(events, n);
    CloseOrdered(events, n, AdaptTo(events, NoCompaction, n));
    var groups := Adapted(events, NoCompaction).closed;
    assert BeginsBefore(events, groups[j], n) && BeginsBefore(events, groups[k], n);
    if j < k { assert Earlier(groups[j], groups[k]); }
    if k < j { assert Earlier(groups[k], groups[j]); }
  }

  // ---- calls used once ----

  /** The calls a message opens once replayed. */
  function HeadCalls(e: Event): seq<string> { if HeadOf(e).Some? then Calls(HeadOf(e).value.source) else [] }

  /** No two messages open the same call. */
  ghost predicate CallsOnce(events: seq<Event>) {
    forall a, b, c :: 0 <= a < b < |events| && c in HeadCalls(events[a]) ==> c !in HeadCalls(events[b])
  }

  /** A whole group's results name exactly the calls of its first item. */
  lemma GroupNames(events: seq<Event>, k: nat, i: nat, c: string)
    requires Accepted(events, NoCompaction) && k < |Adapted(events, NoCompaction).closed|
    requires i < |Adapted(events, NoCompaction).closed[k]|
    ensures var g := Adapted(events, NoCompaction).closed[k];
      && (i > 0 ==> g[i].source.kind == TOOL_MESSAGE && |g[i].source.content| == 1 && g[i].source.content[0].Outcome?)
      && (i > 0 && Names(g[i].source, c) ==> c in Calls(g[0].source))
      && (i == 0 ==> g[i].source.kind != TOOL_MESSAGE)
  {
    var g := Adapted(events, NoCompaction).closed[k];
    var sources := SourcesOf(g);
    AdaptedComplete(events, NoCompaction);
    CompleteIsWhole(sources);
    WholeAnswers(sources);
    assert sources[i] == g[i].source;
    if i > 0 { AnswersAreResults(sources[1..], AsSet(Calls(sources[0])), {}, i - 1); }
  }

  lemma {:induction false} AnswersAreResults(items: seq<ContentSource>, before: set<string>, left: set<string>, k: nat)
    requires Answers(items, before, left) && k < |items|
    ensures items[k].kind == TOOL_MESSAGE && |items[k].content| == 1 && items[k].content[0].Outcome?
  {
    var n := |items| - 1;
    if k == n {
    } else {
      var middle :| Answers(items[..n], before, middle)
        && items[n].content[0].result.callId in middle && left == middle - {items[n].content[0].result.callId};
      AnswersAreResults(items[..n], before, middle, k);
    }
  }

  /** Groups of a plain replay whose first items open the same call are the same. */
  lemma SameCallSameGroup(events: seq<Event>, j: nat, k: nat, c: string)
    requires Increasing(events) && Accepted(events, NoCompaction) && CallsOnce(events)
    requires j < |Adapted(events, NoCompaction).closed| && k < |Adapted(events, NoCompaction).closed|
    requires Adapted(events, NoCompaction).closed[j] != []
    requires c in Calls(Adapted(events, NoCompaction).closed[j][0].source)
    requires Adapted(events, NoCompaction).closed[k] != []
    requires c in Calls(Adapted(events, NoCompaction).closed[k][0].source)
    ensures j == k
  {
    var groups := Adapted(events, NoCompaction).closed;
    OneResultPerCall(events, NoCompaction, j);
    OneResultPerCall(events, NoCompaction, k);
    var a: nat :| GroupAt(events, groups[j], a);
    var b: nat :| GroupAt(events, groups[k], b);
    assert c in HeadCalls(events[a]) && c in HeadCalls(events[b]);
    assert a == b;
    OneGroupPerMessage(events, j, k);
  }

  lemma {:induction false} CallAt(items: seq<ContentSource>, before: set<string>, left: set<string>, k: nat)
    requires Answers(items, before, left) && k < |items|
    ensures |ResultCalls(items)| == |items| && |items[k].content| == 1 && items[k].content[0].Outcome?
    ensures ResultCalls(items)[k] == items[k].content[0].result.callId
  {
    var n := |items| - 1;
    var middle :| Answers(items[..n], before, middle)
      && items[n].content[0].result.callId in middle && left == middle - {items[n].content[0].result.callId};
    AnswersOncePerCall(items[..n], before, middle);
    if k == n {
    } else {
      CallAt(items[..n], before, middle, k);
    }
  }

  lemma ResultAt(events: seq<Event>, k: nat, i: nat, c: string)
    requires Accepted(events, NoCompaction) && k < |Adapted(events, NoCompaction).closed|
    requires 0 < i < |Adapted(events, NoCompaction).closed[k]|
    requires Names(Adapted(events, NoCompaction).closed[k][i].source, c)
    ensures var calls := ResultCalls(SourcesOf(Adapted(events, NoCompaction).closed[k])[1..]);
      i - 1 < |calls| && calls[i - 1] == c
  {
    var sources := SourcesOf(Adapted(events, NoCompaction).closed[k]);
    GroupNames(events, k, i, c);
    AdaptedComplete(events, NoCompaction);
    assert sources[1..] != [] && sources[1..][i - 1] == Adapted(events, NoCompaction).closed[k][i].source;
    CallAt(sources[1..], AsSet(Calls(sources[0])), {}, i - 1);
  }

  /** A group's results name different calls. */
  lemma OnePerCall(events: seq<Event>, k: nat, i: nat, j: nat, c: string)
    requires Accepted(events, NoCompaction) && k < |Adapted(events, NoCompaction).closed|
    requires 0 < i < |Adapted(events, NoCompaction).closed[k]| && 0 < j < |Adapted(events, NoCompaction).closed[k]|
    requires Names(Adapted(events, NoCompaction).closed[k][i].source, c)
    requires Names(Adapted(events, NoCompaction).closed[k][j].source, c)
    ensures i == j
  {
    ResultAt(events, k, i, c);
    ResultAt(events, k, j, c);
    OneResultPerCall(events, NoCompaction, k);
  }

  // ---- grouping succeeds only if nothing is split ----

  /** What the replay is left with, and how it groups. */
  function Left(events: seq<Event>, act: Activation): seq<ContentSource>
    requires Accepted(events, act)
  {
    KeptSources(Flatten(Adapted(events, act).closed), act)
  }

  /** A kept source other than the summary comes from a kept item of the plain replay. */
  lemma KeptComesFrom(events: seq<Event>, act: Activation, x: ContentSource) returns (k: nat, i: nat)
    requires Accepted(events, act) && Accepted(events, NoCompaction) && act.Activated? && x in Left(events, act)
    requires act.index < |events|
    requires Inserted(Adapted(events, NoCompaction), Adapted(events, act), Place(ClosedAt(events, act.index)),
        SummaryGroup(act))
    requires x.kind != COMPACTION_SUMMARY && act.summary.kind == COMPACTION_SUMMARY
    ensures k < |Adapted(events, NoCompaction).closed| && i < |Adapted(events, NoCompaction).closed[k]|
    ensures var item := Adapted(events, NoCompaction).closed[k][i]; item.source == x && !Dropped(item, act)
  {
    var groups, plain := Adapted(events, act).closed, Adapted(events, NoCompaction).closed;
    var b := Place(ClosedAt(events, act.index));
    var summary := Emitted(act.summary, None);
    var n := KeptFrom(Flatten(groups), act, x);
    var item := Flatten(groups)[n];
    InFlat(groups, item);
    var m :| 0 <= m < |groups| && item in groups[m];
    assert groups[m] == if m < b then plain[m] else if m > b then plain[m - 1] else [summary];
    assert m != b;
    k := if m < b then m else m - 1;
    i :| 0 <= i < |plain[k]| && plain[k][i] == item;
  }

  lemma KeptIsLeft(events: seq<Event>, act: Activation, k: nat, i: nat)
    requires Accepted(events, act) && Accepted(events, NoCompaction) && act.Activated? && act.index < |events|
    requires Inserted(Adapted(events, NoCompaction), Adapted(events, act), Place(ClosedAt(events, act.index)),
        SummaryGroup(act))
    requires k < |Adapted(events, NoCompaction).closed| && i < |Adapted(events, NoCompaction).closed[k]|
    requires !Dropped(Adapted(events, NoCompaction).closed[k][i], act)
    ensures Adapted(events, NoCompaction).closed[k][i].source in Left(events, act)
  {
    var groups, plain := Adapted(events, act).closed, Adapted(events, NoCompaction).closed;
    var b := Place(ClosedAt(events, act.index));
    var item, m := plain[k][i], if k < b then k else k + 1;
    assert groups[m] == plain[k];
    assert item in groups[m];
    InFlat(groups, item);
    var n :| 0 <= n < |Flatten(groups)| && Flatten(groups)[n] == item;
    KeptHas(Flatten(groups), act, n);
  }

  /** An answer and the place of its result in the plain replay. */
  lemma AnswerAt(events: seq<Event>, r: nat) returns (k: nat, i: nat, c: string)
    requires Increasing(events) && Accepted(events, NoCompaction) && r < |events| && events[r].IsToolMessage()
    ensures Opener(events, r).Some? && k < |Adapted(events, NoCompaction).closed|
    ensures var g := Adapted(events, NoCompaction).closed[k];
      && 0 < i < |g| && GroupAt(events, g, Opener(events, r).value)
      && g[i].position == Some(events[r].sequence) && Names(g[i].source, c) && c in Calls(g[0].source)
  {
    var g;
    g, i := GroupOfAnswer(events, r);
    var groups := Adapted(events, NoCompaction).closed;
    k :| 0 <= k < |groups| && groups[k] == g;
    c := g[i].source.content[0].result.callId;
    GroupNames(events, k, i, c);
  }

  /** A replay with an activated compaction whose leftovers group. */
  ghost predicate LeftGroups(events: seq<Event>, act: Activation) {
    && act.Activated? && act.index < |events| && act.summary.kind == COMPACTION_SUMMARY
    && Accepted(events, act) && Accepted(events, NoCompaction)
    && Inserted(Adapted(events, NoCompaction), Adapted(events, act), Place(ClosedAt(events, act.index)),
        SummaryGroup(act))
    && GroupSources(Left(events, act)).Grouped?
  }

  /** The whole exchange among the leftovers that a kept item lies in. */
  lemma ExchangeOfKept(events: seq<Event>, act: Activation, k: nat, i: nat)
    returns (g: seq<ContentSource>, p: nat)
    requires LeftGroups(events, act)
    requires k < |Adapted(events, NoCompaction).closed| && i < |Adapted(events, NoCompaction).closed[k]|
    requires !Dropped(Adapted(events, NoCompaction).closed[k][i], act)
    ensures WholeExchange(g) && p < |g| && g[p] == Adapted(events, NoCompaction).closed[k][i].source
    ensures forall x :: x in g ==> x in Left(events, act)
  {
    var x := Adapted(events, NoCompaction).closed[k][i].source;
    var groups := GroupSources(Left(events, act)).groups;
    KeptIsLeft(events, act, k, i);
    GroupingIsExact(Left(events, act));
    InFlatFront(groups, x);
    var j :| 0 <= j < |groups| && x in groups[j];
    g := groups[j];
    p :| 0 <= p < |g| && g[p] == x;
    forall y | y in g ensures y in Left(events, act) { InFlatFront(groups, y); }
  }

  lemma CallOfAnswer(g: seq<ContentSource>, p: nat, c: string)
    requires WholeExchange(g) && p < |g| && g[p].kind == TOOL_MESSAGE && Names(g[p], c)
    ensures g != [] && c in Calls(g[0])
  {
    WholeAnswers(g);
  }

  /** If an answer is kept, so is the message it answers. */
  lemma AnswerKeepsMessage(events: seq<Event>, act: Activation, k: nat, i: nat, c: string)
    requires Increasing(events) && CallsOnce(events) && LeftGroups(events, act)
    requires k < |Adapted(events, NoCompaction).closed| && 0 < i < |Adapted(events, NoCompaction).closed[k]|
    requires Names(Adapted(events, NoCompaction).closed[k][i].source, c)
    requires !Dropped(Adapted(events, NoCompaction).closed[k][i], act)
    ensures !Dropped(Adapted(events, NoCompaction).closed[k][0], act)
  {
    var g, p := ExchangeOfKept(events, act, k, i);
    GroupNames(events, k, i, c);
    CallOfAnswer(g, p, c);
    assert g[0] in g;
    var k', i' := KeptComesFrom(events, act, g[0]);
    GroupNames(events, k', i', c);
    SameCallSameGroup(events, k', k, c);
  }

  /** If a message is kept, so are its answers. */
  lemma MessageKeepsAnswer(events: seq<Event>, act: Activation, k: nat, i: nat, c: string)
    requires Increasing(events) && CallsOnce(events) && LeftGroups(events, act)
    requires k < |Adapted(events, NoCompaction).closed| && 0 < i < |Adapted(events, NoCompaction).closed[k]|
    requires Names(Adapted(events, NoCompaction).closed[k][i].source, c)
    requires !Dropped(Adapted(events, NoCompaction).closed[k][0], act)
    ensures !Dropped(Adapted(events, NoCompaction).closed[k][i], act)
  {
    var g, p := ExchangeOfKept(events, act, k, 0);
    GroupNames(events, k, 0, c);
    GroupNames(events, k, i, c);
    WholeAnswers(g);
    assert p == 0;
    var q :| 1 <= q < |g| && Names(g[q], c);
    var k', i' := KeptComesFrom(events, act, g[q]);
    GroupNames(events, k', i', c);
    SameCallSameGroup(events, k', k, c);
    OnePerCall(events, k, i', i, c);
  }

  lemma {:induction false} LeftIsUncut(events: seq<Event>, act: Activation, from: nat, cutoff: nat, r: nat)
    requires Increasing(events) && CallsOnce(events) && LeftGroups(events, act) && Covering(events, act, from, cutoff)
    requires r < |events| && events[r].IsToolMessage() && Opener(events, r).Some?
    ensures from <= Opener(events, r).value <= cutoff <==> from <= r <= cutoff
  {
    var k, i, c := AnswerAt(events, r);
    var g := Adapted(events, NoCompaction).closed[k];
    if Dropped(g[0], act) {
      if !Dropped(g[i], act) { AnswerKeepsMessage(events, act, k, i, c); }
    } else {
      MessageKeepsAnswer(events, act, k, i, c);
    }
    PositionInRange(events, from, cutoff, Opener(events, r).value);
    PositionInRange(events, from, cutoff, r);
  }

  lemma {:induction false} InsertedUniform(plain: seq<seq<Emitted>>, b: nat, act: Activation)
    requires b <= |plain| && act.Activated?
    ensures AllUniform(plain[..b] + [SummaryGroup(act)] + plain[b..], act) <==> AllUniform(plain, act)
  {
    var all := plain[..b] + [SummaryGroup(act)] + plain[b..];
    if AllUniform(plain, act) {
      forall k | 0 <= k < |all| ensures Uniform(all[k], act) {
        assert all[k] == if k < b then plain[k] else if k == b then SummaryGroup(act) else plain[k - 1];
      }
    }
    if AllUniform(all, act) {
      forall k | 0 <= k < |plain| ensures Uniform(plain[k], act) {
        var m := if k < b then k else k + 1;
        assert all[m] == plain[k] && Uniform(all[m], act);
      }
    }
  }

  /** An activation leaves whole groups, and they are what the flat list is cut back into. */
  ghost predicate Intact(events: seq<Event>, act: Activation) {
    && Accepted(events, act) && AllUniform(Adapted(events, act).closed, act)
    && GroupSources(Left(events, act)) == Grouped(SourceGroups(GroupsBySide(Adapted(events, act).closed, act, false)))
  }

  /** Activating a compaction keeps whole exchanges that group into themselves, exactly if
      the plain replay succeeds, no tool message comes next, and the range cuts through no
      exchange. */
  lemma IntactIff(events: seq<Event>, act: Activation, from: nat, cutoff: nat)
    requires Increasing(events) && Covering(events, act, from, cutoff)
    requires act.index < |events| && !events[act.index].IsMessage() && act.summary.kind == COMPACTION_SUMMARY
    ensures Intact(events, act) <==>
      Accepted(events, NoCompaction) && !NextIsTool(events, act.index + 1) && Uncut(events, from, cutoff)
  {
    ActivationAccepted(events, act);
    if Accepted(events, act) {
      SummaryInserted(events, act);
      WholeIff(events, act, from, cutoff);
      InsertedUniform(Adapted(events, NoCompaction).closed, Place(ClosedAt(events, act.index)), act);
      if AllUniform(Adapted(events, act).closed, act) { WholeGroupsRecovered(events, act); }
    }
  }

  /** If no call is opened twice, what an accepted activation leaves groups at all exactly
      if the range cuts through no exchange. */
  lemma LeftGroupsIff(events: seq<Event>, act: Activation, from: nat, cutoff: nat)
    requires Increasing(events) && CallsOnce(events) && Covering(events, act, from, cutoff)
    requires act.index < |events| && !events[act.index].IsMessage() && act.summary.kind == COMPACTION_SUMMARY
    requires Accepted(events, act)
    ensures GroupSources(Left(events, act)).Grouped? <==> Uncut(events, from, cutoff)
  {
    ActivationAccepted(events, act);
    if Uncut(events, from, cutoff) {
      IntactIff(events, act, from, cutoff);
    } else if GroupSources(Left(events, act)).Grouped? {
      SummaryInserted(events, act);
      forall r | 0 <= r < |events| && events[r].IsToolMessage() && Opener(events, r).Some?
        ensures from <= Opener(events, r).value <= cutoff <==> from <= r <= cutoff
      {
        LeftIsUncut(events, act, from, cutoff, r);
      }
    }
  }
}
