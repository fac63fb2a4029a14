/** Selecting a range in one journal state and replaying the journal later, after the
    range was activated, fit together: only whole exchanges disappear, one summary
    takes their place, and the result still groups. */
module Composition {
  import opened Sequences
  import opened Journals
  import opened Transcript
  import opened ToolIntents
  import opened ExchangeScan
  import opened SafeBoundaries
  import opened Coverage
  import opened Selector
  import opened Adaptation
  import opened Agreement
  import opened Grouping
  import opened Results

  // ---- inserting the summary ----

  /** The first message at or after `i` answers an exchange begun before. */
  predicate NextIsTool(events: seq<Event>, i: nat)
    decreases |events| - i
  {
    i < |events| && if events[i].IsMessage() then events[i].IsToolMessage() else NextIsTool(events, i + 1)
  }

  /** `t'` is `t` with one more group at place `b`. */
  ghost predicate Inserted(t: Adaptation, t': Adaptation, b: nat, g: seq<Emitted>) {
    && (t.Failed? <==> t'.Failed?)
    && (t.Adapting? ==> t'.pending == t.pending && t'.open == t.open && b <= |t.closed|)
    && (t.Adapting? ==> t'.closed == t.closed[..b] + [g] + t.closed[b..])
  }

  lemma InsertedAppend(groups: seq<seq<Emitted>>, b: nat, g: seq<Emitted>, h: seq<Emitted>)
    requires b <= |groups|
    ensures (groups + [h])[..b] + [g] + (groups + [h])[b..] == groups[..b] + [g] + groups[b..] + [h]
  {
    assert (groups + [h])[..b] == groups[..b] && (groups + [h])[b..] == groups[b..] + [h];
  }

  lemma CloseInserted(events: seq<Event>, t: Adaptation, t': Adaptation, b: nat, g: seq<Emitted>)
    requires Inserted(t, t', b, g)
    ensures Inserted(CloseGroup(events, t), CloseGroup(events, t'), b, g)
  {
    if t.Adapting? && t.pending.Some? {
      var c := CloseGroup(events, t);
      if c.Adapting? {
        InsertedAppend(t.closed, b, g, c.closed[|t.closed|]);
      }
    }
  }

  lemma DeliverInserted(i: nat, e: Event, t: Adaptation, t': Adaptation, b: nat, g: seq<Emitted>)
    requires e.IsBoundary() && t.Adapting? && Inserted(t, t', b, g)
    ensures Inserted(Deliver(i, e, t), Deliver(i, e, t'), b, g)
  {
    var d := Deliver(i, e, t);
    if d.Adapting? && |d.closed| > |t.closed| {
      InsertedAppend(t.closed, b, g, d.closed[|t.closed|]);
    }
  }

  lemma StepInserted(events: seq<Event>, act: Activation, i: nat, t: Adaptation, t': Adaptation, b: nat,
          g: seq<Emitted>)
    requires i < |events| && act.Activated? && act.index != i && Inserted(t, t', b, g)
    ensures Inserted(AdaptStep(events, NoCompaction, i, t), AdaptStep(events, act, i, t'), b, g)
  {
    if t.Adapting? && events[i].IsBoundary() {
      CloseInserted(events, t, t', b, g);
      if CloseGroup(events, t).Adapting? {
        DeliverInserted(i, events[i], CloseGroup(events, t), CloseGroup(events, t'), b, g);
      }
    }
  }

  lemma {:induction false} SameBefore(events: seq<Event>, act: Activation, i: nat)
    requires act.Activated? && i <= act.index && i <= |events|
    ensures AdaptTo(events, act, i) == AdaptTo(events, NoCompaction, i)
  {
    if i == 0 {
    } else {
      SameBefore(events, act, i - 1);
    }
  }

  /** The transcript up to the activation, its last exchange closed there. */
  function ClosedAt(events: seq<Event>, c: nat): Adaptation
    requires c <= |events|
  {
    CloseGroup(events, AdaptTo(events, NoCompaction, c))
  }

  lemma ActivationStep(events: seq<Event>, act: Activation)
    requires act.Activated? && act.index < |events|
    ensures AdaptTo(events, act, act.index + 1) == AppendGroup(ClosedAt(events, act.index), SummaryGroup(act))
  {
    SameBefore(events, act, act.index);
  }

  /** While no message follows the activation, neither replay moves. */
  lemma {:induction false} Quiet(events: seq<Event>, act: Activation, i: nat)
    requires act.Activated? && act.index < i <= |events|
    requires forall k :: act.index <= k < i ==> !events[k].IsMessage()
    ensures AdaptTo(events, NoCompaction, i) == AdaptTo(events, NoCompaction, act.index)
    ensures AdaptTo(events, act, i) == AppendGroup(ClosedAt(events, act.index), SummaryGroup(act))
  {
    ActivationStep(events, act);
    if i - 1 == act.index {
    } else {
      Quiet(events, act, i - 1);
    }
  }

  lemma AppendIsInserted(z: Adaptation, g: seq<Emitted>)
    requires z.Adapting? ==> z.pending.None?
    ensures Inserted(z, AppendGroup(z, g), if z.Failed? then 0 else |z.closed|, g)
  {
    if z.Adapting? {
      assert z.closed[..|z.closed|] == z.closed && z.closed[|z.closed|..] == [];
    }
  }

  function Place(z: Adaptation): nat { if z.Failed? then 0 else |z.closed| }

  lemma NextIsBoundary(events: seq<Event>, i: nat, m: nat)
    requires i <= m < |events| && events[m].IsMessage() && !NextIsTool(events, i)
    requires forall k :: i <= k < m ==> !events[k].IsMessage()
    ensures events[m].IsBoundary()
    decreases m - i
  {
    if i < m { NextIsBoundary(events, i + 1, m); }
  }

  lemma InsertedAtBoundary(events: seq<Event>, act: Activation, m: nat)
    requires act.Activated? && act.index < m < |events|
    requires events[m].IsBoundary() && forall k :: act.index <= k < m ==> !events[k].IsMessage()
    ensures Inserted(AdaptTo(events, NoCompaction, m + 1), AdaptTo(events, act, m + 1),
        Place(ClosedAt(events, act.index)), SummaryGroup(act))
  {
    var z, g := ClosedAt(events, act.index), SummaryGroup(act);
    Quiet(events, act, m);
    AppendIsInserted(z, g);
    if AdaptTo(events, NoCompaction, act.index).Adapting? && z.Adapting? {
      DeliverInserted(m, events[m], z, AppendGroup(z, g), Place(z), g);
    }
  }

  lemma NextInserted(events: seq<Event>, act: Activation, i: nat, b: nat, g: seq<Emitted>)
    requires i < |events| && act.Activated? && act.index != i
    requires Inserted(AdaptTo(events, NoCompaction, i), AdaptTo(events, act, i), b, g)
    ensures Inserted(AdaptTo(events, NoCompaction, i + 1), AdaptTo(events, act, i + 1), b, g)
  {
    StepInserted(events, act, i, AdaptTo(events, NoCompaction, i), AdaptTo(events, act, i), b, g);
  }

  /** From the first message after the activation on, the replays differ by the summary group. */
  lemma {:induction false} InsertedAfter(events: seq<Event>, act: Activation, m: nat, i: nat)
    requires act.Activated? && act.index < m < i <= |events|
    requires events[m].IsBoundary() && forall k :: act.index <= k < m ==> !events[k].IsMessage()
    ensures Inserted(AdaptTo(events, NoCompaction, i), AdaptTo(events, act, i), Place(ClosedAt(events, act.index)),
        SummaryGroup(act))
  {
    if i == m + 1 {
      InsertedAtBoundary(events, act, m);
    } else {
      InsertedAfter(events, act, m, i - 1);
      NextInserted(events, act, i - 1, Place(ClosedAt(events, act.index)), SummaryGroup(act));
    }
  }

  lemma {:induction false} NoMessages(events: seq<Event>, c: nat, i: nat)
    requires c < i <= |events| && !events[c].IsMessage()
    requires !exists m :: c < m < |events| && events[m].IsMessage() && forall k :: c <= k < m ==> !events[k].IsMessage()
    ensures forall k :: c <= k < i ==> !events[k].IsMessage()
  {
    if i - 1 == c {
    } else {
      NoMessages(events, c, i - 1);
    }
  }

  /** Unless a tool message comes next, activating a compaction only adds the summary
      group, behind everything that was begun before it. */
  lemma SummaryInserted(events: seq<Event>, act: Activation)
    requires act.Activated? && act.index < |events| && !events[act.index].IsMessage()
    requires !NextIsTool(events, act.index + 1)
    ensures Inserted(Adapted(events, NoCompaction), Adapted(events, act), Place(ClosedAt(events, act.index)),
        SummaryGroup(act))
  {
    var z, g, n := ClosedAt(events, act.index), SummaryGroup(act), |events|;
    if m :| act.index < m < n && events[m].IsMessage() && forall k :: act.index <= k < m ==> !events[k].IsMessage() {
      NextIsBoundary(events, act.index + 1, m);
      InsertedAfter(events, act, m, n);
      CloseInserted(events, AdaptTo(events, NoCompaction, n), AdaptTo(events, act, n), Place(z), g);
    } else {
      NoMessages(events, act.index, n);
      Quiet(events, act, n);
      AppendIsInserted(z, g);
    }
  }

  lemma {:induction false} ToolAfterActivationFails(events: seq<Event>, act: Activation, i: nat)
    requires act.Activated? && act.index < i <= |events| && NextIsTool(events, i)
    requires forall k :: act.index <= k < i ==> !events[k].IsMessage()
    ensures Adapted(events, act).Failed?
    decreases |events| - i
  {
    if events[i].IsMessage() {
      Quiet(events, act, i);
      FailureSticks(events, act, i + 1);
    } else {
      ToolAfterActivationFails(events, act, i + 1);
    }
  }

  /** A replay with an activated compaction succeeds iff the plain replay does and the
      next message does not answer an exchange left open across the activation. */
  lemma ActivationAccepted(events: seq<Event>, act: Activation)
    requires act.Activated? && act.index < |events| && !events[act.index].IsMessage()
    ensures Adapted(events, act).Adapting?
      <==> Adapted(events, NoCompaction).Adapting? && !NextIsTool(events, act.index + 1)
  {
    if NextIsTool(events, act.index + 1) {
      ToolAfterActivationFails(events, act, act.index + 1);
    } else {
      SummaryInserted(events, act);
    }
  }

  // ---- where the items of a group stand ----

  ghost predicate StandsAtAnswer(events: seq<Event>, a: nat, item: Emitted) {
    exists r: nat ::
      && r < |events| && events[r].IsToolMessage()
      && Opener(events, r) == Some(a) && item.position == Some(events[r].sequence)
  }

  ghost predicate StandsWith(events: seq<Event>, a: nat, item: Emitted)
    requires a < |events|
  {
    item.position == Some(events[a].sequence) || StandsAtAnswer(events, a, item)
  }

  lemma GroupStands(events: seq<Event>, g: seq<Emitted>, a: nat, k: nat)
    requires GroupAt(events, g, a) && k < |g|
    ensures StandsWith(events, a, g[k])
  {
    if k > 0 && Real(events, a, g[k]) {
      var r: nat, j: nat :| Carries(events, a, g[k], r, j);
      assert events[r].IsToolMessage() && g[k].position == Some(events[r].sequence);
    }
  }

  // ---- a selected range cuts through no exchange ----

  lemma {:induction false} OpenerPrefix(events: seq<Event>, n: nat, k: nat)
    requires k <= n <= |events|
    ensures Opener(events[..n], k) == Opener(events, k)
  {
    if k == 0 {
    } else {
      OpenerPrefix(events, n, k - 1);
    }
  }

  lemma NextRelated(prefix: seq<Event>, events: seq<Event>, i: nat, s: ScanState, t: Adaptation)
    requires i < |prefix| <= |events| && prefix[i] == events[i] && Related(s, t)
    requires ScanStep(prefix, i, s).Scanning? && AdaptStep(events, NoCompaction, i, t).Adapting?
    ensures Related(ScanStep(prefix, i, s), AdaptStep(events, NoCompaction, i, t))
  {
    var e := events[i];
    if e.body.Assistant? {
      AssistantAgrees(events, i, Flush(prefix, s), CloseGroup(events, t));
    } else if e.body.ToolMessage? {
      ToolAgrees(i, e, s, t);
    }
  }

  /** While the selector follows a prefix and the planner the whole journal, neither
      failing, they see the same open exchange. */
  lemma {:induction false} PrefixRelated(prefix: seq<Event>, events: seq<Event>, i: nat)
    requires i <= |prefix| <= |events| && prefix == events[..|prefix|]
    requires Scan(prefix, i).Scanning? && AdaptTo(events, NoCompaction, i).Adapting?
    ensures Related(Scan(prefix, i), AdaptTo(events, NoCompaction, i))
  {
    if i == 0 {
    } else {
      PrefixRelated(prefix, events, i - 1);
      NextRelated(prefix, events, i - 1, Scan(prefix, i - 1), AdaptTo(events, NoCompaction, i - 1));
    }
  }

  ghost predicate OpenAt(events: seq<Event>, i: nat, a: nat)
    requires i <= |events|
  {
    var s := AdaptTo(events, NoCompaction, i);
    s.Adapting? && s.pending.Some? && s.pending.value.assistant == a && s.pending.value.remaining != {}
  }

  lemma {:induction false} EmptyTakesNothing(e: Event, results: seq<ToolResult>, k: nat, ordered: seq<string>)
    requires 0 < k <= |results|
    ensures Take(e, results, k, ordered, {}).TakeFault?
  {
    if k == 1 {
    } else {
      EmptyTakesNothing(e, results, k - 1, ordered);
    }
  }

  /** An answer finds the exchange of its message open. */
  lemma AnswerFindsOpen(events: seq<Event>, r: nat)
    requires Accepted(events, NoCompaction) && r < |events| && events[r].IsToolMessage()
    ensures events[r].body.ToolMessage? && events[r].body.results != []
    ensures Opener(events, r).Some? && OpenAt(events, r, Opener(events, r).value)
  {
    AcceptedSoFar(events, NoCompaction, r + 1);
    ReplayAccounted(events, NoCompaction, r);
    var p, results := AdaptTo(events, NoCompaction, r).pending.value, events[r].body.results;
    if p.remaining == {} { EmptyTakesNothing(events[r], results, |results|, p.ordered); }
  }

  /** An answer taken at `r` was awaited ever since its message. */
  lemma {:induction false} AwaitedSince(events: seq<Event>, a: nat, i: nat, r: nat)
    requires Accepted(events, NoCompaction)
    requires a < i <= r < |events| && events[r].IsToolMessage() && Opener(events, r) == Some(a)
    ensures OpenAt(events, i, a)
    decreases r - i
  {
    if i == r {
      AnswerFindsOpen(events, r);
    } else {
      AwaitedSince(events, a, i + 1, r);
      if events[i].IsBoundary() { OpenerAfter(events, i, r); }
      AcceptedSoFar(events, NoCompaction, i + 1);
      var s := AdaptTo(events, NoCompaction, i);
      if events[i].body.ToolMessage? {
        var p, results := s.pending.value, events[i].body.results;
        TakeShrinks(events[i], results, |results|, p.ordered, p.remaining);
      }
    }
  }

  /** An answer that comes after the events the selector accepted, to a message among
      them, comes after its turn had ended among them. */
  lemma AnswerAfterPrefix(events: seq<Event>, n: nat, r: nat)
    requires Increasing(events) && Accepted(events, NoCompaction) && n <= r < |events|
    requires Exchanges(events[..n]).Scanning? && events[r].IsToolMessage()
    requires Opener(events, r).Some? && Opener(events, r).value < n
    ensures var a := Opener(events, r).value; exists t :: a < t < n && events[t].Ends(events[a].turn)
  {
    var prefix, a := events[..n], Opener(events, r).value;
    AwaitedSince(events, a, n, r);
    PrefixRelated(prefix, events, n);
    PendingStaysOk(prefix, n);
    var p := Scan(prefix, n).pending.value;
    var t := TerminalIndex(prefix, p.turn).value;
    LaterIndex(prefix, a, t);
    assert events[t] == prefix[t] && events[a] == prefix[a];
  }

  /** No exchange lies partly in the range. */
  ghost predicate Uncut(events: seq<Event>, from: nat, cutoff: nat) {
    forall r :: 0 <= r < |events| && events[r].IsToolMessage() && Opener(events, r).Some? ==>
      (from <= Opener(events, r).value <= cutoff <==> from <= r <= cutoff)
  }

  /** An answer among the first `n` events comes in time there; a later one answers no
      message among them whose turn had ended among them. */
  ghost predicate Punctual(events: seq<Event>, n: nat, r: nat)
    requires r < |events| && n <= |events|
  {
    if r < n then InTime(events[..n], r)
    else Opener(events, r).Some? ==>
      var a := Opener(events, r).value;
      a < n ==> forall t :: a < t < n ==> !events[t].Ends(events[a].turn)
  }

  ghost predicate PunctualAnswers(events: seq<Event>, n: nat)
    requires n <= |events|
  {
    forall r :: 0 <= r < |events| && events[r].IsToolMessage() ==> Punctual(events, n, r)
  }

  lemma UncutInside(events: seq<Event>, n: nat, head: Cursor, from: nat, cutoff: nat, r: nat)
    requires n <= |events| && SelectedRange(events[..n], head, from, cutoff)
    requires r < n && events[r].IsToolMessage() && InTime(events[..n], r)
    ensures Opener(events, r).Some?
    ensures from <= Opener(events, r).value <= cutoff <==> from <= r <= cutoff
  {
    ProjectionFacts(events[..n], head);
    OpenerPrefix(events, n, r);
    SafeCutsPartNoAnswer(events[..n], r, from - 1);
    SafeCutsPartNoAnswer(events[..n], r, cutoff);
  }

  /** A range selected from the first `n` events cuts through no exchange of the whole
      journal, if the answers are punctual. */
  lemma SelectionUncut(events: seq<Event>, n: nat, head: Cursor, from: nat, cutoff: nat)
    requires Increasing(events) && n <= |events| && SelectedRange(events[..n], head, from, cutoff)
    requires Accepted(events, NoCompaction) && PunctualAnswers(events, n)
    ensures Uncut(events, from, cutoff)
  {
    forall r | 0 <= r < |events| && events[r].IsToolMessage() && Opener(events, r).Some?
      ensures from <= Opener(events, r).value <= cutoff <==> from <= r <= cutoff
    {
      assert Punctual(events, n, r);
      if r < n {
        UncutInside(events, n, head, from, cutoff, r);
      } else if Opener(events, r).value < n {
        AnswerAfterPrefix(events, n, r);
      }
    }
  }

  // ---- whole groups go or stay ----

  ghost predicate Uniform(g: seq<Emitted>, act: Activation) {
    g != [] && forall k :: 0 <= k < |g| ==> (Dropped(g[k], act) <==> Dropped(g[0], act))
  }

  /** The groups whose first item stands in the compacted range, or the others. */
  function GroupsBySide(groups: seq<seq<Emitted>>, act: Activation, dropped: bool): seq<seq<Emitted>> {
    if groups == [] then []
    else
      var n := |groups| - 1;
      GroupsBySide(groups[..n], act, dropped)
      + (if groups[n] != [] && Dropped(groups[n][0], act) == dropped then [groups[n]] else [])
  }

  function Ids(sources: seq<ContentSource>): seq<string> {
    seq(|sources|, i requires 0 <= i < |sources| => sources[i].id)
  }

  lemma {:induction false} UniformFilter(g: seq<Emitted>, act: Activation, all: bool)
    requires forall k :: 0 <= k < |g| ==> Dropped(g[k], act) == all
    ensures KeptSources(g, act) == if all then [] else SourcesOf(g)
    ensures DroppedIds(g, act) == if all then Ids(SourcesOf(g)) else []
  {
    if g == [] {
    } else {
      UniformFilter(g[..|g| - 1], act, all);
      assert SourcesOf(g) == SourcesOf(g[..|g| - 1]) + [g[|g| - 1].source];
    }
  }

  lemma SnocFlatten(groups: seq<seq<Emitted>>, g: seq<Emitted>)
    ensures FlattenFront(SourceGroups(groups + [g])) == FlattenFront(SourceGroups(groups)) + SourcesOf(g)
  {
    assert SourceGroups(groups + [g]) == SourceGroups(groups) + [SourcesOf(g)];
    FlattenFrontSnoc(SourceGroups(groups), SourcesOf(g));
  }

  lemma SideSnoc(groups: seq<seq<Emitted>>, act: Activation, dropped: bool)
    requires groups != [] && groups[|groups| - 1] != []
    ensures var n := |groups| - 1;
      FlattenFront(SourceGroups(GroupsBySide(groups, act, dropped))) ==
        FlattenFront(SourceGroups(GroupsBySide(groups[..n], act, dropped)))
        + (if Dropped(groups[n][0], act) == dropped then SourcesOf(groups[n]) else [])
  {
    var before := GroupsBySide(groups[..|groups| - 1], act, dropped);
    SnocFlatten(before, groups[|groups| - 1]);
    assert before + [] == before;
  }

  lemma IdsConcat(a: seq<ContentSource>, b: seq<ContentSource>)
    ensures Ids(a + b) == Ids(a) + Ids(b)
  {
  }

  /** Filtering items of uniform groups is filtering groups. */
  /** One more group is kept or dropped as a whole. */
  lemma FilterOneMore(before: seq<seq<Emitted>>, g: seq<Emitted>, act: Activation)
    requires Uniform(g, act)
    ensures var groups := before + [g]; var all := Dropped(g[0], act);
      && KeptSources(Flatten(groups), act) ==
        KeptSources(Flatten(before), act) + (if all then [] else SourcesOf(g))
      && DroppedIds(Flatten(groups), act) == DroppedIds(Flatten(before), act) + (if all then Ids(SourcesOf(g)) else [])
  {
    assert (before + [g])[..|before|] == before;
    assert Flatten(before + [g]) == Flatten(before) + g;
    KeptConcat(Flatten(before), g, act);
    UniformFilter(g, act, Dropped(g[0], act));
  }

  lemma {:induction false} FilterByGroup(groups: seq<seq<Emitted>>, act: Activation)
    requires forall k :: 0 <= k < |groups| ==> Uniform(groups[k], act)
    ensures KeptSources(Flatten(groups), act) == FlattenFront(SourceGroups(GroupsBySide(groups, act, false)))
    ensures DroppedIds(Flatten(groups), act) == Ids(FlattenFront(SourceGroups(GroupsBySide(groups, act, true))))
  {
    if groups == [] {
    } else {
      var before, g := groups[..|groups| - 1], groups[|groups| - 1];
      FilterByGroup(before, act);
      assert groups == before + [g];
      FilterOneMore(before, g, act);
      SideSnoc(groups, act, false);
      SideSnoc(groups, act, true);
      IdsConcat(FlattenFront(SourceGroups(GroupsBySide(before, act, true))), SourcesOf(g));
    }
  }

  lemma PositionInRange(events: seq<Event>, from: nat, cutoff: nat, i: nat)
    requires Increasing(events) && from < |events| && cutoff < |events| && i < |events|
    ensures events[from].sequence <= events[i].sequence <= events[cutoff].sequence <==> from <= i <= cutoff
  {
  }

  /** The activation drops what stands in the range. */
  ghost predicate Covering(events: seq<Event>, act: Activation, from: nat, cutoff: nat) {
    && act.Activated? && from < |events| && cutoff < |events|
    && act.from == events[from].sequence && act.through == events[cutoff].sequence
  }

  lemma GroupUniform(events: seq<Event>, act: Activation, from: nat, cutoff: nat, g: seq<Emitted>, a: nat)
    requires Increasing(events) && Covering(events, act, from, cutoff) && Uncut(events, from, cutoff)
    requires GroupAt(events, g, a)
    ensures Uniform(g, act)
  {
    forall k | 0 <= k < |g| ensures Dropped(g[k], act) <==> from <= a <= cutoff {
      GroupStands(events, g, a, k);
      PositionInRange(events, from, cutoff, a);
      if g[k].position != Some(events[a].sequence) {
        var r: nat :| r < |events| && events[r].IsToolMessage() && Opener(events, r) == Some(a)
          && g[k].position == Some(events[r].sequence);
        PositionInRange(events, from, cutoff, r);
      }
    }
  }

  ghost predicate AllUniform(groups: seq<seq<Emitted>>, act: Activation) {
    forall k :: 0 <= k < |groups| ==> Uniform(groups[k], act)
  }

  lemma UncutIsUniform(events: seq<Event>, act: Activation, from: nat, cutoff: nat)
    requires Increasing(events) && Covering(events, act, from, cutoff) && Accepted(events, NoCompaction)
    requires Uncut(events, from, cutoff)
    ensures AllUniform(Adapted(events, NoCompaction).closed, act)
  {
    var groups := Adapted(events, NoCompaction).closed;
    forall k | 0 <= k < |groups| ensures Uniform(groups[k], act) {
      OneResultPerCall(events, NoCompaction, k);
      var a: nat :| GroupAt(events, groups[k], a);
      GroupUniform(events, act, from, cutoff, groups[k], a);
    }
  }

  /** The item an answer's first result becomes stands in the group of its message. */
  lemma PlacedAnswer(events: seq<Event>, r: nat) returns (item: Emitted)
    requires Increasing(events) && Accepted(events, NoCompaction)
    requires r < |events| && events[r].IsToolMessage()
    ensures Opener(events, r).Some? && events[r].body.ToolMessage? && events[r].body.results != []
    ensures Carries(events, Opener(events, r).value, item, r, 0)
    ensures Placed(events, Adapted(events, NoCompaction), Opener(events, r).value, item)
  {
    var s := Adapted(events, NoCompaction);
    AnswerFindsOpen(events, r);
    NothingLost(events, NoCompaction);
    assert ResultsPlaced(events, s, r);
    assert ResultPlaced(events, s, r, 0);
    var a: nat, found :| Carries(events, a, found, r, 0) && Placed(events, s, a, found);
    item := found;
  }

  /** The group that holds an answer, and the place of the answer in it. */
  lemma GroupOfAnswer(events: seq<Event>, r: nat) returns (g: seq<Emitted>, k: nat)
    requires Increasing(events) && Accepted(events, NoCompaction)
    requires r < |events| && events[r].IsToolMessage()
    ensures Opener(events, r).Some? && g in Adapted(events, NoCompaction).closed
    ensures GroupAt(events, g, Opener(events, r).value)
    ensures k < |g| && events[r].body.ToolMessage? && events[r].body.results != []
    ensures Carries(events, Opener(events, r).value, g[k], r, 0)
  {
    var s := Adapted(events, NoCompaction);
    var item := PlacedAnswer(events, r);
    var a := Opener(events, r).value;
    g :| g in Groups(s) && GroupAt(events, g, a) && item in g;
    k :| 0 <= k < |g| && g[k] == item;
  }

  lemma {:induction false} UniformIsUncut(events: seq<Event>, act: Activation, from: nat, cutoff: nat, r: nat)
    requires Increasing(events) && Covering(events, act, from, cutoff) && Accepted(events, NoCompaction)
    requires AllUniform(Adapted(events, NoCompaction).closed, act)
    requires r < |events| && events[r].IsToolMessage() && Opener(events, r).Some?
    ensures from <= Opener(events, r).value <= cutoff <==> from <= r <= cutoff
  {
    var g, k := GroupOfAnswer(events, r);
    assert Uniform(g, act);
    PositionInRange(events, from, cutoff, Opener(events, r).value);
    PositionInRange(events, from, cutoff, r);
  }

  /** Every exchange is wholly dropped or wholly kept exactly if the range cuts through none. */
  lemma WholeIff(events: seq<Event>, act: Activation, from: nat, cutoff: nat)
    requires Increasing(events) && Covering(events, act, from, cutoff) && Accepted(events, NoCompaction)
    ensures AllUniform(Adapted(events, NoCompaction).closed, act) <==> Uncut(events, from, cutoff)
  {
    if Uncut(events, from, cutoff) {
      UncutIsUniform(events, act, from, cutoff);
    } else if AllUniform(Adapted(events, NoCompaction).closed, act) {
      forall r | 0 <= r < |events| && events[r].IsToolMessage() && Opener(events, r).Some?
        ensures from <= Opener(events, r).value <= cutoff <==> from <= r <= cutoff
      {
        UniformIsUncut(events, act, from, cutoff, r);
      }
    }
  }

  lemma {:induction false} BySideConcat(x: seq<seq<Emitted>>, y: seq<seq<Emitted>>, act: Activation, dropped: bool)
    ensures GroupsBySide(x + y, act, dropped) == GroupsBySide(x, act, dropped) + GroupsBySide(y, act, dropped)
  {
    if y == [] {
      assert x + y == x;
    } else {
      var n := |y| - 1;
      assert (x + y)[..|x| + n] == x + y[..n];
      BySideConcat(x, y[..n], act, dropped);
    }
  }

  lemma {:induction false} BySideMembers(groups: seq<seq<Emitted>>, act: Activation, dropped: bool)
    ensures forall g :: g in GroupsBySide(groups, act, dropped) ==> g in groups
  {
    if groups == [] {
    } else {
      BySideMembers(groups[..|groups| - 1], act, dropped);
    }
  }

  lemma SideOfOne(g: seq<Emitted>, act: Activation, dropped: bool)
    requires g != []
    ensures GroupsBySide([g], act, dropped) == if Dropped(g[0], act) == dropped then [g] else []
  {
    assert [g][..0] == [];
    assert GroupsBySide([g][..0], act, dropped) == [];
  }

  lemma SideOfInserted(x: seq<seq<Emitted>>, g: seq<Emitted>, y: seq<seq<Emitted>>, act: Activation, dropped: bool)
    requires g != []
    ensures GroupsBySide(x + [g] + y, act, dropped) ==
      GroupsBySide(x, act, dropped) + (if Dropped(g[0], act) == dropped then [g] else [])
      + GroupsBySide(y, act, dropped)
  {
    BySideConcat(x + [g], y, act, dropped);
    BySideConcat(x, [g], act, dropped);
    SideOfOne(g, act, dropped);
  }

  lemma InsertedNotDropped(x: seq<seq<Emitted>>, g: seq<Emitted>, y: seq<seq<Emitted>>, act: Activation)
    requires g != [] && !Dropped(g[0], act)
    ensures GroupsBySide(x + [g] + y, act, true) == GroupsBySide(x + y, act, true)
  {
    var left, right := GroupsBySide(x, act, true), GroupsBySide(y, act, true);
    SideOfInserted(x, g, y, act, true);
    assert left + [] + right == left + right;
    BySideConcat(x, y, act, true);
  }

  /** The summary is never dropped; the others are dropped as without it. */
  lemma DroppedUnchanged(plain: seq<seq<Emitted>>, b: nat, act: Activation)
    requires b <= |plain| && act.Activated?
    ensures GroupsBySide(plain[..b] + [SummaryGroup(act)] + plain[b..], act, true) == GroupsBySide(plain, act, true)
  {
    var x, y := plain[..b], plain[b..];
    assert plain == x + y;
    InsertedNotDropped(x, SummaryGroup(act), y, act);
  }

  lemma KeptComplete(groups: seq<seq<Emitted>>, act: Activation)
    requires forall k :: 0 <= k < |groups| ==> Complete(SourcesOf(groups[k]))
    ensures var kept := GroupsBySide(groups, act, false);
      GroupSources(FlattenFront(SourceGroups(kept))) == Grouped(SourceGroups(kept))
  {
    var kept := GroupsBySide(groups, act, false);
    BySideMembers(groups, act, false);
    forall k | 0 <= k < |kept| ensures WholeExchange(SourceGroups(kept)[k]) {
      assert kept[k] in groups;
      CompleteIsWhole(SourcesOf(kept[k]));
    }
    GroupingRecovers(SourceGroups(kept));
  }

  /** The groups a replay is left with: `plain` without the dropped ones, and the
      summary behind the first `b`. */
  ghost function Remaining(plain: seq<seq<Emitted>>, b: nat, act: Activation): seq<seq<ContentSource>>
    requires b <= |plain| && act.Activated?
  {
    SourceGroups(GroupsBySide(plain[..b], act, false)) + [[act.summary]]
    + SourceGroups(GroupsBySide(plain[b..], act, false))
  }

  lemma RemainingIsFiltered(plain: seq<seq<Emitted>>, b: nat, act: Activation)
    requires b <= |plain| && act.Activated?
    ensures SourceGroups(GroupsBySide(plain[..b] + [SummaryGroup(act)] + plain[b..], act, false)) ==
        Remaining(plain, b, act)
  {
    var left, g, right := GroupsBySide(plain[..b], act, false), SummaryGroup(act), GroupsBySide(plain[b..], act, false);
    SideOfInserted(plain[..b], g, plain[b..], act, false);
    assert SourcesOf(g) == [act.summary];
    assert SourceGroups(left + [g] + right) == SourceGroups(left) + [SourcesOf(g)] + SourceGroups(right);
  }

  /** Whole exchanges, each on one side of the compacted range. */
  ghost predicate Separable(groups: seq<seq<Emitted>>, act: Activation) {
    forall k :: 0 <= k < |groups| ==> Uniform(groups[k], act) && Complete(SourcesOf(groups[k]))
  }

  lemma SummarySeparable(act: Activation)
    requires act.Activated? && act.summary.kind == COMPACTION_SUMMARY
    ensures Separable([SummaryGroup(act)], act)
  {
    var g := SummaryGroup(act);
    assert SourcesOf(g) == [act.summary] && Complete(SourcesOf(g)) && Uniform(g, act);
  }

  lemma SeparableConcat(a: seq<seq<Emitted>>, b: seq<seq<Emitted>>, act: Activation)
    requires Separable(a, act) && Separable(b, act)
    ensures Separable(a + b, act)
  {
    forall k | 0 <= k < |a + b| ensures Uniform((a + b)[k], act) && Complete(SourcesOf((a + b)[k])) {
      assert (a + b)[k] == if k < |a| then a[k] else b[k - |a|];
    }
  }

  lemma SeparablePart(groups: seq<seq<Emitted>>, lo: nat, hi: nat, act: Activation)
    requires lo <= hi <= |groups| && Separable(groups, act)
    ensures Separable(groups[lo..hi], act)
  {
    assert forall k :: 0 <= k < hi - lo ==> groups[lo..hi][k] == groups[lo + k];
  }

  lemma InsertedSeparable(plain: seq<seq<Emitted>>, b: nat, act: Activation)
    requires b <= |plain| && act.Activated? && act.summary.kind == COMPACTION_SUMMARY && Separable(plain, act)
    ensures Separable(plain[..b] + [SummaryGroup(act)] + plain[b..], act)
  {
    SummarySeparable(act);
    SeparablePart(plain, 0, b, act);
    SeparablePart(plain, b, |plain|, act);
    assert plain[..b] == plain[0..b] && plain[b..] == plain[b..|plain|];
    SeparableConcat(plain[..b], [SummaryGroup(act)], act);
    SeparableConcat(plain[..b] + [SummaryGroup(act)], plain[b..], act);
  }

  /** Replaying the groups `all` leaves whole groups of `plain` and the summary. */
  ghost predicate Leaves(all: seq<seq<Emitted>>, plain: seq<seq<Emitted>>, b: nat, act: Activation)
    requires b <= |plain| && act.Activated?
  {
    && KeptSources(Flatten(all), act) == FlattenFront(Remaining(plain, b, act))
    && GroupSources(KeptSources(Flatten(all), act)) == Grouped(Remaining(plain, b, act))
    && DroppedIds(Flatten(all), act) == Ids(FlattenFront(SourceGroups(GroupsBySide(plain, act, true))))
  }

  /** The sources and exclusions left by a replay whose groups are separable. */
  lemma SeparableReplay(plain: seq<seq<Emitted>>, b: nat, act: Activation)
    requires b <= |plain| && act.Activated? && act.summary.kind == COMPACTION_SUMMARY && Separable(plain, act)
    ensures Leaves(plain[..b] + [SummaryGroup(act)] + plain[b..], plain, b, act)
  {
    var all := plain[..b] + [SummaryGroup(act)] + plain[b..];
    InsertedSeparable(plain, b, act);
    FilterByGroup(all, act);
    KeptComplete(all, act);
    DroppedUnchanged(plain, b, act);
    RemainingIsFiltered(plain, b, act);
  }

  /** If no group is split, what a replay keeps groups into the very exchanges it kept. */
  lemma WholeGroupsRecovered(events: seq<Event>, act: Activation)
    requires Accepted(events, act) && PlainSummary(act) && AllUniform(Adapted(events, act).closed, act)
    ensures GroupSources(KeptSources(Flatten(Adapted(events, act).closed), act))
      == Grouped(SourceGroups(GroupsBySide(Adapted(events, act).closed, act, false)))
  {
    AdaptedComplete(events, act);
    FilterByGroup(Adapted(events, act).closed, act);
    KeptComplete(Adapted(events, act).closed, act);
  }

  lemma ReplayLeaves(events: seq<Event>, act: Activation)
    requires act.Activated? && act.index < |events| && !events[act.index].IsMessage()
    requires !NextIsTool(events, act.index + 1)
    requires act.summary.kind == COMPACTION_SUMMARY
    requires Accepted(events, NoCompaction) && AllUniform(Adapted(events, NoCompaction).closed, act)
    ensures Accepted(events, act) && Place(ClosedAt(events, act.index)) <= |Adapted(events, NoCompaction).closed|
    ensures Leaves(Adapted(events, act).closed, Adapted(events, NoCompaction).closed,
        Place(ClosedAt(events, act.index)), act)
  {
    SummaryInserted(events, act);
    AdaptedComplete(events, NoCompaction);
    SeparableReplay(Adapted(events, NoCompaction).closed, Place(ClosedAt(events, act.index)), act);
  }

  /** The composition theorem. A range selected from the first `n` events is activated
      by the compaction event at `act.index`, and answers are punctual. Then replaying
      the whole journal removes exactly the groups begun in the range, each whole, puts
      the one summary behind all that was begun before it, and the remaining sources
      still group into the same exchanges. */
  lemma CompactionComposes(events: seq<Event>, n: nat, head: Cursor, from: nat, cutoff: nat, act: Activation)
    requires Increasing(events) && n <= |events| && SelectedRange(events[..n], head, from, cutoff)
    requires PunctualAnswers(events, n) && Accepted(events, NoCompaction)
    requires Covering(events, act, from, cutoff) && n <= act.index < |events|
    requires events[act.index].body.Compaction? && !NextIsTool(events, act.index + 1)
    requires act.summary.kind == COMPACTION_SUMMARY
    ensures Accepted(events, act) && Place(ClosedAt(events, act.index)) <= |Adapted(events, NoCompaction).closed|
    ensures Leaves(Adapted(events, act).closed, Adapted(events, NoCompaction).closed,
        Place(ClosedAt(events, act.index)), act)
  {
    SelectionUncut(events, n, head, from, cutoff);
    WholeIff(events, act, from, cutoff);
    ReplayLeaves(events, act);
  }
}
