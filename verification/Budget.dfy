/** What a plan promises about the context window and about the compaction it uses, in
    terms of the request alone. */
module Budgets {
  import opened Sequences
  import opened Journals
  import opened Transcript
  import opened Adaptation
  import opened Grouping
  import opened Planner
  import Composition

  // ---- token estimates ----

  /** Bytes add up over blocks, and a text counts its length. */
  lemma {:induction false} BytesAdd(encoded: Block -> nat, a: seq<Block>, b: seq<Block>)
    ensures ContentBytes(encoded, a + b) == ContentBytes(encoded, a) + ContentBytes(encoded, b)
    ensures forall t :: ContentBytes(encoded, [Text(t)]) == |t|
    ensures forall ok, n :: ContentBytes(encoded, [Opaque(ok, n)]) == n
  {
    if b == [] {
      assert a + b == a;
    } else {
      var n := |b| - 1;
      assert (a + b)[..|a| + n] == a + b[..n];
      BytesAdd(encoded, a, b[..n]);
    }
  }

  /** A token stands for up to four bytes, and none is counted in vain. */
  lemma EstimateIsCeiling(encoded: Block -> nat, s: ContentSource)
    ensures var tokens := EstimateTokens(encoded, s);
      4 * tokens - 4 < ContentBytes(encoded, s.content) <= 4 * tokens
  {
  }

  lemma TokensAdd(encoded: Block -> nat, s: ContentSource, rest: seq<ContentSource>)
    ensures GroupTokens(encoded, [s] + rest) == EstimateTokens(encoded, s) + GroupTokens(encoded, rest)
  {
    TokensConcat(encoded, [s], rest);
    assert [s][..0] == [];
  }

  // ---- who is kept ----

  /** The sources that are in the plan, in order. */
  ghost function InPlan(sources: seq<ContentSource>, included: seq<ContentSource>): seq<ContentSource> {
    if sources == [] then []
    else
      var n := |sources| - 1;
      InPlan(sources[..n], included) + (if sources[n] in included then [sources[n]] else [])
  }

  lemma {:induction false} AllOrNone(before: seq<ContentSource>, g: seq<ContentSource>, included: seq<ContentSource>,
          all: bool)
    requires forall s :: s in g ==> (s in included <==> all)
    ensures InPlan(before + g, included) == InPlan(before, included) + (if all then g else [])
  {
    if g == [] {
      assert before + g == before;
    } else {
      var n := |g| - 1;
      assert (before + g)[..|before| + n] == before + g[..n];
      AllOrNone(before, g[..n], included, all);
    }
  }

  lemma {:induction false} StandsIn(groups: seq<seq<ContentSource>>, chosen: set<nat>, k: nat, s: ContentSource)
    requires k < |groups| && k in chosen && s in groups[k]
    ensures s in Chosen(groups, chosen)
  {
    var n := |groups| - 1;
    ChosenSnoc(groups, chosen);
    if k == n {
    } else {
      StandsIn(groups[..n], chosen, k, s);
    }
  }

  lemma {:induction false} InFlattened(groups: seq<seq<ContentSource>>, k: nat, s: ContentSource)
    requires k < |groups| && s in groups[k]
    ensures s in FlattenFront(groups)
  {
    if k == 0 {
    } else {
      InFlattened(groups[1..], k - 1, s);
    }
  }

  ghost predicate DistinctIds(sources: seq<ContentSource>) {
    forall j, k :: 0 <= j < k < |sources| ==> sources[j].id != sources[k].id
  }

  /** A group is in the plan as a whole, or not at all. */
  lemma KeptWhole(encoded: Block -> nat, groups: seq<seq<ContentSource>>, limit: Option<nat>, k: nat)
    requires k < |groups| && DistinctIds(FlattenFront(groups))
    ensures forall s :: s in groups[k] ==>
      (s in Chosen(groups, Kept(encoded, groups, limit)) <==> Packed(encoded, groups, limit, k))
  {
    var kept, skipped := Chosen(groups, Kept(encoded, groups, limit)), Chosen(groups, Skipped(encoded, groups, limit));
    PackingConserves(encoded, groups, limit);
    forall s | s in groups[k] ensures s in kept <==> Packed(encoded, groups, limit, k) {
      InFlattened(groups, k, s);
      InOneSide(FlattenFront(groups), kept, skipped, s);
      if Packed(encoded, groups, limit, k) {
        StandsIn(groups, Kept(encoded, groups, limit), k, s);
      } else {
        StandsIn(groups, Skipped(encoded, groups, limit), k, s);
      }
    }
  }

  /** The plan's sources among the first `k` groups are those packed by then. */
  lemma {:induction false} KeptBefore(encoded: Block -> nat, groups: seq<seq<ContentSource>>, limit: Option<nat>,
          k: nat)
    requires k <= |groups| && DistinctIds(FlattenFront(groups))
    ensures InPlan(FlattenFront(groups[..k]), Chosen(groups, Kept(encoded, groups, limit)))
      == Chosen(groups[..k], Kept(encoded, groups[..k], limit))
  {
    var kept := Chosen(groups, Kept(encoded, groups, limit));
    if k == 0 {
      assert Chosen([], Kept(encoded, [], limit)) == [];
    } else {
      var before, g := groups[..k - 1], groups[k - 1];
      KeptBefore(encoded, groups, limit, k - 1);
      assert groups[..k] == before + [g] && groups[..k][..k - 1] == before;
      FlattenFrontSnoc(before, g);
      KeptWhole(encoded, groups, limit, k - 1);
      AllOrNone(FlattenFront(before), g, kept, Packed(encoded, groups, limit, k - 1));
      PackedPrefix(encoded, groups, limit, k, k - 1);
      KeptSnoc(encoded, groups[..k], limit);
    }
  }

  lemma UsedBefore(encoded: Block -> nat, groups: seq<seq<ContentSource>>, limit: Option<nat>, k: nat)
    requires k <= |groups| && DistinctIds(FlattenFront(groups))
    ensures Used(encoded, groups[..k], limit)
      == GroupTokens(encoded, InPlan(FlattenFront(groups[..k]), Chosen(groups, Kept(encoded, groups, limit))))
  {
    KeptBefore(encoded, groups, limit, k);
    PackingConserves(encoded, groups[..k], limit);
  }

  // ---- the window ----

  /** A group of a plan is left out exactly if the window is known and what the plan's
      earlier sources use, the group itself and the reserve together exceed it; then each of
      its sources is reported, and otherwise each is in the plan. */
  lemma SkippedIff(encoded: Block -> nat, r: Request, compacted: seq<string>, sources: seq<ContentSource>,
          o: PlanOutcome, k: nat)
    requires o.Planned? && ReserveFits(r) && Conserves(encoded, r, compacted, sources, o)
    requires k < |GroupSources(sources).groups|
    ensures var groups := GroupSources(sources).groups;
      var earlier := InPlan(FlattenFront(groups[..k]), o.included);
      var left := r.window.Some?
        && GroupTokens(encoded, earlier) + GroupTokens(encoded, groups[k]) + r.reserve > r.window.value;
      && (forall s :: s in groups[k] ==> (s in o.included <==> !left))
      && (forall s :: s in groups[k] ==> (Exclusion(s.id, ContextBudget) in o.excluded <==> left))
  {
    var groups := GroupSources(sources).groups;
    GroupingIsExact(sources);
    KeptWhole(encoded, groups, Limit(r), k);
    UsedBefore(encoded, groups, Limit(r), k);
    PlanPartitions(encoded, r, compacted, sources, o);
    forall s | s in groups[k] ensures s in sources { InFlattened(groups, k, s); }
  }

  /** The identities a compaction hides are reported as compacted, and no others. */
  lemma CompactedReported(encoded: Block -> nat, r: Request, compacted: seq<string>, sources: seq<ContentSource>,
          o: PlanOutcome, id: string)
    requires o.Planned? && ReserveFits(r) && Conserves(encoded, r, compacted, sources, o)
    ensures Exclusion(id, CompactedBySummary) in o.excluded <==> id in compacted
  {
    var first := Excluding(compacted, CompactedBySummary);
    if id in compacted {
      var k :| 0 <= k < |compacted| && compacted[k] == id;
      assert first[k] == Exclusion(id, CompactedBySummary);
      assert Exclusion(id, CompactedBySummary) in first;
    }
  }

  // ---- the active compaction ----

  /** Event `e` of a session records a compaction of an earlier range, and `s` is the one
      summary text stored for it. */
  ghost predicate Usable(e: Event, session: JournalRef, resolve: Resolver, s: ContentSource) {
    && session.Session? && e.journal == session && e.body.Compaction?
    && var from, through, evidence := e.body.from, e.body.through, e.body.evidence;
      && from.Valid() && through.Valid() && from.journal == session && through.journal == session
      && from.commitSeq <= through.commitSeq < e.sequence
      && evidence != "" && e.body.revision != ""
      && resolve(from, through, evidence, e.body.revision) == Some(s)
      && s.id == evidence && s.kind == "compaction_summary" && s.provenance == "evidence:" + evidence
      && |s.content| == 1 && s.content[0].Text? && 0 < |s.content[0].text| <= 128 * 1024
  }

  lemma SummaryIffUsable(e: Event, session: JournalRef, resolve: Resolver, s: ContentSource)
    ensures SummaryOf(e, session, resolve) == Some(s) <==> Usable(e, session, resolve, s)
  {
  }

  /** Event `i` is the last one that can be used. */
  ghost predicate LastUsable(events: seq<Event>, n: nat, session: JournalRef, resolve: Resolver, i: nat,
          s: ContentSource)
  {
    && i < n <= |events| && Usable(events[i], session, resolve, s)
    && forall j, t :: i < j < n ==> !Usable(events[j], session, resolve, t)
  }

  /** A plan uses the last compaction that can be used, with its range and summary, and
      none exactly if there is none. */
  lemma {:induction false} LatestIsActive(events: seq<Event>, n: nat, session: JournalRef, resolve: Resolver)
    requires n <= |events|
    ensures var act := ActiveCompaction(events, n, session, resolve);
      && (act.Activated? ==>
        && LastUsable(events, n, session, resolve, act.index, act.summary)
        && act.from == events[act.index].body.from.commitSeq && act.through == events[act.index].body.through.commitSeq)
      && (act.NoCompaction? ==> forall j, t :: 0 <= j < n ==> !Usable(events[j], session, resolve, t))
  {
    if n == 0 {
    } else {
      var e := events[n - 1];
      LatestIsActive(events, n - 1, session, resolve);
      forall t ensures SummaryOf(e, session, resolve) == Some(t) <==> Usable(e, session, resolve, t) {
        SummaryIffUsable(e, session, resolve, t);
      }
    }
  }
}
