/** `boundedPlanner.Plan`: replay the journal, group, and pack whole groups into the
    token budget. */
module Planner {
  import opened Sequences
  import opened Journals
  import opened Transcript
  import opened Adaptation
  import opened Grouping
  import Composition
  import Selector

  const MAX_COMPACTION_SUMMARY_BYTES := 128 * 1024

  /** Looks a stored summary up by range, evidence and revision. */
  type Resolver = (Cursor, Cursor, string, string) -> Option<ContentSource>

  // ---- which compaction is active ----

  predicate ValidNative(e: Event, session: JournalRef) {
    && e.body.Compaction? && session.Session?
    && var b := e.body;
    && b.from.Valid() && b.through.Valid() && b.from.journal.Session? && b.through.journal.Session?
    && b.from.journal == b.through.journal && b.evidence != "" && b.revision != ""
    && b.from.commitSeq <= b.through.commitSeq
    && e.journal == session && b.from.journal == e.journal
    && b.through.commitSeq < e.sequence
  }

  predicate ValidSummary(s: ContentSource, evidence: string) {
    && s.id == evidence && s.kind == COMPACTION_SUMMARY && s.provenance == "evidence:" + evidence
    && |s.content| == 1 && s.content[0].Text? && s.Valid()
    && |s.content[0].text| <= MAX_COMPACTION_SUMMARY_BYTES
  }

  /** The summary of a compaction event, when it can be used. */
  function SummaryOf(e: Event, session: JournalRef, resolve: Resolver): Option<ContentSource> {
    if !ValidNative(e, session) then None
    else match resolve(e.body.from, e.body.through, e.body.evidence, e.body.revision)
      case None => None
      case Some(s) => if ValidSummary(s, e.body.evidence) then Some(s) else None
  }

  /** The last usable compaction among the first `n` events is the active one. */
  function ActiveCompaction(events: seq<Event>, n: nat, session: JournalRef, resolve: Resolver): Activation
    requires n <= |events|
  {
    if n == 0 then NoCompaction
    else match SummaryOf(events[n - 1], session, resolve)
      case Some(s) => Activated(n - 1, events[n - 1].body.from.commitSeq, events[n - 1].body.through.commitSeq, s)
      case None => ActiveCompaction(events, n - 1, session, resolve)
  }

  lemma {:induction false} SkipUnusable(events: seq<Event>, n: nat, m: nat, session: JournalRef, resolve: Resolver)
    requires m <= n <= |events| && forall j :: m <= j < n ==> !ValidNative(events[j], session)
    ensures ActiveCompaction(events, n, session, resolve) == ActiveCompaction(events, m, session, resolve)
    decreases n
  {
    if m == n {
    } else {
      SkipUnusable(events, n - 1, m, session, resolve);
    }
  }

  /** The first loop of `adaptEvents`: the events that record a compaction. */
  method Candidates(events: seq<Event>, session: JournalRef) returns (candidates: seq<nat>)
    ensures forall k :: 0 <= k < |candidates| ==>
      candidates[k] < |events| && ValidNative(events[candidates[k]], session)
    ensures forall j, k :: 0 <= j < k < |candidates| ==> candidates[j] < candidates[k]
    ensures forall j: nat :: j < |events| && ValidNative(events[j], session) ==> j in candidates
  {
    candidates := [];
    for i := 0 to |events|
      invariant forall k :: 0 <= k < |candidates| ==> candidates[k] < i && ValidNative(events[candidates[k]], session)
      invariant forall j, k :: 0 <= j < k < |candidates| ==> candidates[j] < candidates[k]
      invariant forall j: nat :: j < i && ValidNative(events[j], session) ==> j in candidates
    {
      if ValidNative(events[i], session) {
        candidates := candidates + [i];
      }
    }
  }

  /** The second loop of `adaptEvents`: candidates are tried latest first. */
  method ChooseCompaction(events: seq<Event>, session: JournalRef, resolve: Resolver) returns (act: Activation)
    ensures act == ActiveCompaction(events, |events|, session, resolve)
  {
    var candidates := Candidates(events, session);
    var index := |candidates|;
    ghost var n := |events|;
    while index > 0
      invariant 0 <= index <= |candidates| && n <= |events|
      invariant index < |candidates| ==> n == candidates[index]
      invariant index == |candidates| ==> n == |events|
      invariant ActiveCompaction(events, |events|, session, resolve) == ActiveCompaction(events, n, session, resolve)
    {
      index := index - 1;
      var e := events[candidates[index]];
      SkipUnusable(events, n, candidates[index] + 1, session, resolve);
      var summary := SummaryOf(e, session, resolve);
      if summary.Some? {
        return Activated(candidates[index], e.body.from.commitSeq, e.body.through.commitSeq, summary.value);
      }
      n := candidates[index];
    }
    SkipUnusable(events, n, 0, session, resolve);
    act := NoCompaction;
  }

  lemma {:induction false} ActiveIsUsable(events: seq<Event>, n: nat, session: JournalRef, resolve: Resolver)
    requires n <= |events|
    ensures var act := ActiveCompaction(events, n, session, resolve);
      act.Activated? ==> act.index < n && events[act.index].body.Compaction? && act.summary.kind == COMPACTION_SUMMARY
  {
    if n == 0 {
    } else {
      ActiveIsUsable(events, n - 1, session, resolve);
    }
  }

  // ---- token estimates ----

  function BlockBytes(encoded: Block -> nat, b: Block): nat {
    match b
    case Text(t) => |t|
    case Opaque(_, n) => n
    case _ => encoded(b)
  }

  function ContentBytes(encoded: Block -> nat, content: seq<Block>): nat {
    if content == [] then 0
    else ContentBytes(encoded, content[..|content| - 1]) + BlockBytes(encoded, content[|content| - 1])
  }

  function EstimateTokens(encoded: Block -> nat, s: ContentSource): nat { (ContentBytes(encoded, s.content) + 3) / 4 }

  function GroupTokens(encoded: Block -> nat, g: seq<ContentSource>): nat {
    if g == [] then 0 else GroupTokens(encoded, g[..|g| - 1]) + EstimateTokens(encoded, g[|g| - 1])
  }

  lemma {:induction false} TokensConcat(encoded: Block -> nat, a: seq<ContentSource>, b: seq<ContentSource>)
    ensures GroupTokens(encoded, a + b) == GroupTokens(encoded, a) + GroupTokens(encoded, b)
  {
    if b == [] {
      assert a + b == a;
    } else {
      assert (a + b)[..|a| + |b| - 1] == a + b[..|b| - 1];
      TokensConcat(encoded, a, b[..|b| - 1]);
    }
  }

  // ---- packing ----

  predicate Admits(limit: Option<nat>, used: nat, tokens: nat) { limit.None? || used + tokens <= limit.value }

  /** Tokens used after the groups were offered in order. */
  function Used(encoded: Block -> nat, groups: seq<seq<ContentSource>>, limit: Option<nat>): nat {
    if groups == [] then 0
    else
      var n := |groups| - 1;
      var before := Used(encoded, groups[..n], limit);
      before + if Admits(limit, before, GroupTokens(encoded, groups[n])) then GroupTokens(encoded, groups[n]) else 0
  }

  /** Group `k` fits what the groups before it left. */
  predicate Packed(encoded: Block -> nat, groups: seq<seq<ContentSource>>, limit: Option<nat>, k: nat)
    requires k < |groups|
  {
    Admits(limit, Used(encoded, groups[..k], limit), GroupTokens(encoded, groups[k]))
  }

  ghost function Kept(encoded: Block -> nat, groups: seq<seq<ContentSource>>, limit: Option<nat>): set<nat> {
    set k: nat | k < |groups| && Packed(encoded, groups, limit, k)
  }

  ghost function Skipped(encoded: Block -> nat, groups: seq<seq<ContentSource>>, limit: Option<nat>): set<nat> {
    set k: nat | k < |groups| && !Packed(encoded, groups, limit, k)
  }

  /** The sources of the groups at `chosen`, in order. */
  ghost function Chosen(groups: seq<seq<ContentSource>>, chosen: set<nat>): seq<ContentSource> {
    FlattenFront(Selector.Pick(groups, chosen))
  }

  lemma ChosenSnoc(groups: seq<seq<ContentSource>>, chosen: set<nat>)
    requires groups != []
    ensures var n := |groups| - 1;
      Chosen(groups, chosen) == Chosen(groups[..n], chosen) + (if n in chosen then groups[n] else [])
  {
    var before := Selector.Pick(groups[..|groups| - 1], chosen);
    FlattenFrontSnoc(before, groups[|groups| - 1]);
    assert before + [] == before;
  }

  lemma {:induction false} ChosenSame(groups: seq<seq<ContentSource>>, a: set<nat>, b: set<nat>)
    requires forall k: nat :: k < |groups| ==> (k in a <==> k in b)
    ensures Chosen(groups, a) == Chosen(groups, b)
  {
    if groups == [] {
    } else {
      ChosenSame(groups[..|groups| - 1], a, b);
      ChosenSnoc(groups, a);
      ChosenSnoc(groups, b);
    }
  }

  lemma PackedPrefix(encoded: Block -> nat, groups: seq<seq<ContentSource>>, limit: Option<nat>, n: nat, k: nat)
    requires k < n <= |groups|
    ensures Packed(encoded, groups[..n], limit, k) == Packed(encoded, groups, limit, k)
  {
    assert groups[..n][..k] == groups[..k];
  }

  lemma KeptSnoc(encoded: Block -> nat, groups: seq<seq<ContentSource>>, limit: Option<nat>)
    requires groups != []
    ensures var n := |groups| - 1; var g := groups[n]; var fits := Packed(encoded, groups, limit, n);
      && Chosen(groups, Kept(encoded, groups, limit)) ==
        Chosen(groups[..n], Kept(encoded, groups[..n], limit)) + (if fits then g else [])
      && Chosen(groups, Skipped(encoded, groups, limit)) ==
        Chosen(groups[..n], Skipped(encoded, groups[..n], limit)) + (if fits then [] else g)
  {
    var n := |groups| - 1;
    forall k: nat | k < n ensures Packed(encoded, groups[..n], limit, k) == Packed(encoded, groups, limit, k) {
      PackedPrefix(encoded, groups, limit, n, k);
    }
    ChosenSnoc(groups, Kept(encoded, groups, limit));
    ChosenSnoc(groups, Skipped(encoded, groups, limit));
    ChosenSame(groups[..n], Kept(encoded, groups, limit), Kept(encoded, groups[..n], limit));
    ChosenSame(groups[..n], Skipped(encoded, groups, limit), Skipped(encoded, groups[..n], limit));
  }

  ghost predicate Conserved(encoded: Block -> nat, groups: seq<seq<ContentSource>>, limit: Option<nat>,
          kept: seq<ContentSource>, skipped: seq<ContentSource>)
  {
    && multiset(kept) + multiset(skipped) == multiset(FlattenFront(groups))
    && Used(encoded, groups, limit) == GroupTokens(encoded, kept)
    && (limit.Some? ==> GroupTokens(encoded, kept) <= limit.value)
  }

  lemma KeepConserves(encoded: Block -> nat, groups: seq<seq<ContentSource>>, limit: Option<nat>,
          g: seq<ContentSource>, kept: seq<ContentSource>, skipped: seq<ContentSource>)
    requires Conserved(encoded, groups, limit, kept, skipped)
    requires Admits(limit, Used(encoded, groups, limit), GroupTokens(encoded, g))
    ensures Conserved(encoded, groups + [g], limit, kept + g, skipped)
  {
    FlattenFrontSnoc(groups, g);
    TokensConcat(encoded, kept, g);
  }

  lemma SkipConserves(encoded: Block -> nat, groups: seq<seq<ContentSource>>, limit: Option<nat>,
          g: seq<ContentSource>, kept: seq<ContentSource>, skipped: seq<ContentSource>)
    requires Conserved(encoded, groups, limit, kept, skipped)
    requires !Admits(limit, Used(encoded, groups, limit), GroupTokens(encoded, g))
    ensures Conserved(encoded, groups + [g], limit, kept, skipped + g)
  {
    FlattenFrontSnoc(groups, g);
  }

  ghost predicate ChosenConserved(encoded: Block -> nat, groups: seq<seq<ContentSource>>, limit: Option<nat>) {
    Conserved(encoded, groups, limit,
      Chosen(groups, Kept(encoded, groups, limit)), Chosen(groups, Skipped(encoded, groups, limit)))
  }

  lemma ChosenConservedSnoc(encoded: Block -> nat, groups: seq<seq<ContentSource>>, limit: Option<nat>,
          before: seq<seq<ContentSource>>, g: seq<ContentSource>)
    requires ChosenConserved(encoded, before, limit) && groups == before + [g]
    ensures ChosenConserved(encoded, groups, limit)
  {
    assert groups[..|before|] == before;
    KeptSnoc(encoded, groups, limit);
    var kept, skipped := Chosen(before, Kept(encoded, before, limit)), Chosen(before, Skipped(encoded, before, limit));
    assert kept + [] == kept && skipped + [] == skipped;
    if Admits(limit, Used(encoded, before, limit), GroupTokens(encoded, g)) {
      KeepConserves(encoded, before, limit, g, kept, skipped);
    } else {
      SkipConserves(encoded, before, limit, g, kept, skipped);
    }
  }

  /** Packing loses and invents nothing, counts what it keeps, and stays in budget. */
  lemma {:induction false} PackingConserves(encoded: Block -> nat, groups: seq<seq<ContentSource>>, limit: Option<nat>)
    ensures ChosenConserved(encoded, groups, limit)
  {
    if groups == [] {
      assert Chosen([], Kept(encoded, [], limit)) == [] && Chosen([], Skipped(encoded, [], limit)) == [];
    } else {
      var before := groups[..|groups| - 1];
      PackingConserves(encoded, before, limit);
      ChosenConservedSnoc(encoded, groups, limit, before, groups[|groups| - 1]);
    }
  }

  lemma {:induction false} ChosenAll(groups: seq<seq<ContentSource>>, chosen: set<nat>, all: bool)
    requires forall k: nat :: k < |groups| ==> (k in chosen <==> all)
    ensures Chosen(groups, chosen) == if all then FlattenFront(groups) else []
  {
    if groups == [] {
    } else {
      var n := |groups| - 1;
      ChosenAll(groups[..n], chosen, all);
      ChosenSnoc(groups, chosen);
      FlattenFrontSnoc(groups[..n], groups[n]);
      assert groups == groups[..n] + [groups[n]];
    }
  }

  lemma NothingSkipped(encoded: Block -> nat, groups: seq<seq<ContentSource>>)
    ensures Chosen(groups, Kept(encoded, groups, None)) == FlattenFront(groups)
    ensures Chosen(groups, Skipped(encoded, groups, None)) == []
  {
    ChosenAll(groups, Kept(encoded, groups, None), true);
    ChosenAll(groups, Skipped(encoded, groups, None), false);
  }

  datatype ExclusionReason = ContextBudget | CompactedBySummary

  datatype Exclusion = Exclusion(id: string, reason: ExclusionReason)

  function Excluding(ids: seq<string>, reason: ExclusionReason): seq<Exclusion> {
    seq(|ids|, i requires 0 <= i < |ids| => Exclusion(ids[i], reason))
  }

  /** The state of the packing loop once the groups in `done` were offered. */
  ghost predicate PackedSoFar(encoded: Block -> nat, done: seq<seq<ContentSource>>, limit: Option<nat>,
          included: seq<ContentSource>, excluded: seq<Exclusion>, used: nat)
  {
    && included == Chosen(done, Kept(encoded, done, limit))
    && excluded == Excluding(Composition.Ids(Chosen(done, Skipped(encoded, done, limit))), ContextBudget)
    && used == Used(encoded, done, limit)
  }

  lemma ExcludeGroup(skipped: seq<ContentSource>, g: seq<ContentSource>)
    ensures Excluding(Composition.Ids(skipped + g), ContextBudget)
      == Excluding(Composition.Ids(skipped), ContextBudget) + Excluding(Composition.Ids(g), ContextBudget)
  {
    Composition.IdsConcat(skipped, g);
  }

  lemma PackOne(encoded: Block -> nat, done: seq<seq<ContentSource>>, limit: Option<nat>, g: seq<ContentSource>,
          included: seq<ContentSource>, excluded: seq<Exclusion>, used: nat)
    requires PackedSoFar(encoded, done, limit, included, excluded, used)
    ensures !Admits(limit, used, GroupTokens(encoded, g)) ==>
      PackedSoFar(encoded, done + [g], limit, included, excluded + Excluding(Composition.Ids(g), ContextBudget), used)
    ensures Admits(limit, used, GroupTokens(encoded, g)) ==>
      PackedSoFar(encoded, done + [g], limit, included + g, excluded, used + GroupTokens(encoded, g))
  {
    var groups, skipped := done + [g], Chosen(done, Skipped(encoded, done, limit));
    assert groups[..|done|] == done;
    KeptSnoc(encoded, groups, limit);
    ExcludeGroup(skipped, g);
    assert included + [] == included && skipped + [] == skipped;
  }

  method PackGroups(encoded: Block -> nat, groups: seq<seq<ContentSource>>, limit: Option<nat>)
    returns (included: seq<ContentSource>, excluded: seq<Exclusion>, used: nat)
    ensures PackedSoFar(encoded, groups, limit, included, excluded, used)
  {
    included, excluded, used := [], [], 0;
    for k := 0 to |groups|
      invariant PackedSoFar(encoded, groups[..k], limit, included, excluded, used)
    {
      var g := groups[k];
      PackOne(encoded, groups[..k], limit, g, included, excluded, used);
      assert groups[..k] + [g] == groups[..k + 1];
      var tokens := GroupTokens(encoded, g);
      if limit.Some? && used + tokens > limit.value {
        excluded := excluded + Excluding(Composition.Ids(g), ContextBudget);
      } else {
        included := included + g;
        used := used + tokens;
      }
    }
    assert groups[..|groups|] == groups;
  }

  // ---- the plan ----

  datatype PlanError = NegativeReserve | ReserveTooLarge | Replay(fault: PlanFault) | BadSource(id: string)
    | DuplicateId(id: string) | BrokenExchange

  datatype PlanOutcome = Refused(error: PlanError)
    | Planned(included: seq<ContentSource>, excluded: seq<Exclusion>, estimate: nat)

  /** Identities are unique among the offered sources and not shared with excluded ones. */
  ghost predicate UniqueIds(compacted: seq<string>, sources: seq<ContentSource>) {
    && (forall k :: 0 <= k < |sources| ==> sources[k].id !in compacted)
    && (forall j, k :: 0 <= j < k < |sources| ==> sources[j].id != sources[k].id)
  }

  method CheckIds(compacted: seq<string>, sources: seq<ContentSource>) returns (duplicate: Option<string>)
    ensures duplicate.None? <==> UniqueIds(compacted, sources)
  {
    var seen := set c | c in compacted;
    for k := 0 to |sources|
      invariant forall c :: c in seen <==> c in compacted || exists j :: 0 <= j < k && sources[j].id == c
      invariant forall j :: 0 <= j < k ==> sources[j].id !in compacted
      invariant forall i, j :: 0 <= i < j < k ==> sources[i].id != sources[j].id
    {
      if sources[k].id in seen {
        return Some(sources[k].id);
      }
      seen := seen + {sources[k].id};
    }
    duplicate := None;
  }

  datatype Request = Request(
    session: JournalRef, events: seq<Event>, system: seq<ContentSource>,
    window: Option<nat>, maximumOutput: Option<nat>, reserve: int)

  function Active(resolve: Resolver, r: Request): Activation {
    ActiveCompaction(r.events, |r.events|, r.session, resolve)
  }

  ghost predicate Replays(resolve: Resolver, r: Request) { Adapted(r.events, Active(resolve, r)).Adapting? }

  /** The identities the active compaction excludes. */
  ghost function Compacted(resolve: Resolver, r: Request): seq<string>
    requires Replays(resolve, r)
  {
    DroppedIds(Flatten(Adapted(r.events, Active(resolve, r)).closed), Active(resolve, r))
  }

  /** Everything a plan chooses from: system instructions, then the replayed transcript. */
  ghost function Offered(resolve: Resolver, r: Request): seq<ContentSource>
    requires Replays(resolve, r)
  {
    r.system + KeptSources(Flatten(Adapted(r.events, Active(resolve, r)).closed), Active(resolve, r))
  }

  function Limit(r: Request): Option<nat>
    requires r.reserve >= 0
  {
    if r.window.None? || r.window.value < r.reserve then None else Some(r.window.value - r.reserve)
  }

  predicate ReserveFits(r: Request) {
    r.reserve >= 0 && (r.maximumOutput.Some? ==> r.reserve <= r.maximumOutput.value)
      && (r.window.Some? ==> r.reserve <= r.window.value)
  }

  ghost predicate Packable(r: Request, compacted: seq<string>, sources: seq<ContentSource>) {
    && (r.window.Some? ==> r.reserve <= r.window.value)
    && (forall k :: 0 <= k < |sources| ==> sources[k].Valid())
    && UniqueIds(compacted, sources) && GroupSources(sources).Grouped?
  }

  /** What a plan needs, and all it needs. */
  ghost predicate Plannable(resolve: Resolver, r: Request) {
    && ReserveFits(r) && Replays(resolve, r)
    && Packable(r, Compacted(resolve, r), Offered(resolve, r))
  }

  ghost predicate Conserves(encoded: Block -> nat, r: Request, compacted: seq<string>, sources: seq<ContentSource>,
          o: PlanOutcome)
    requires o.Planned? && r.reserve >= 0
  {
    && GroupSources(sources).Grouped?
    && UniqueIds(compacted, sources)
    && var groups := GroupSources(sources).groups;
    && o.included == Chosen(groups, Kept(encoded, groups, Limit(r)))
    && o.excluded == Excluding(compacted, CompactedBySummary)
        + Excluding(Composition.Ids(Chosen(groups, Skipped(encoded, groups, Limit(r)))), ContextBudget)
    && o.estimate == GroupTokens(encoded, o.included)
    && (Limit(r).Some? ==> o.estimate <= Limit(r).value)
  }

  /** The half of `Plan` that checks, groups and packs what is offered. */
  method PlanOffered(encoded: Block -> nat, r: Request, dropped: seq<string>,
          offered: seq<ContentSource>) returns (o: PlanOutcome)
    requires r.reserve >= 0
    ensures o.Planned? <==> Packable(r, dropped, offered)
    ensures o.Planned? ==> Conserves(encoded, r, dropped, offered, o)
    ensures o.Planned? && r.window.Some? ==> o.estimate + r.reserve <= r.window.value
    ensures o.Planned? && r.window.None? ==>
      o.included == offered && forall x :: x in o.excluded ==> x.reason == CompactedBySummary
    ensures o.Refused? ==> !o.error.Replay? && o.error != NegativeReserve
    ensures o == Refused(BrokenExchange) ==> GroupSources(offered).Ungrouped?
    ensures o.Refused? && o.error.DuplicateId? ==> !UniqueIds(dropped, offered)
    ensures o == Refused(ReserveTooLarge) ==> r.window.Some? && r.window.value < r.reserve
  {
    for k := 0 to |offered|
      invariant forall j :: 0 <= j < k ==> offered[j].Valid()
    {
      if !offered[k].Valid() {
        return Refused(BadSource(offered[k].id));
      }
    }
    if r.window.Some? && r.window.value < r.reserve {
      return Refused(ReserveTooLarge);
    }
    var duplicate := CheckIds(dropped, offered);
    if duplicate.Some? {
      return Refused(DuplicateId(duplicate.value));
    }
    var grouped := GroupContextSources(offered);
    if grouped.Ungrouped? {
      return Refused(BrokenExchange);
    }
    var included, skipped, used := PackGroups(encoded, grouped.groups, Limit(r));
    PackingConserves(encoded, grouped.groups, Limit(r));
    if r.window.None? { NothingSkipped(encoded, grouped.groups); }
    GroupingIsExact(offered);
    o := Planned(included, Excluding(dropped, CompactedBySummary) + skipped, used);
  }

  /** `Plan`, after the checks of its caller-supplied identities. */
  method Plan(encoded: Block -> nat, resolve: Resolver, r: Request) returns (o: PlanOutcome)
    ensures o.Planned? <==> Plannable(resolve, r)
    ensures o.Planned? ==> Conserves(encoded, r, Compacted(resolve, r), Offered(resolve, r), o)
    ensures o.Planned? && r.window.Some? ==> o.estimate + r.reserve <= r.window.value
    ensures o.Planned? && r.window.None? ==>
      o.included == Offered(resolve, r) && forall x :: x in o.excluded ==> x.reason == CompactedBySummary
    ensures o.Refused? && o.error.Replay? ==> Adapted(r.events, Active(resolve, r)) == Failed(o.error.fault)
    ensures o == Refused(BrokenExchange) ==> Replays(resolve, r) && GroupSources(Offered(resolve, r)).Ungrouped?
    ensures o.Refused? && o.error.DuplicateId? ==>
      Replays(resolve, r) && !UniqueIds(Compacted(resolve, r), Offered(resolve, r))
    ensures o == Refused(NegativeReserve) <==> r.reserve < 0
    ensures o == Refused(ReserveTooLarge) ==>
      || (r.maximumOutput.Some? && r.reserve > r.maximumOutput.value)
      || (r.window.Some? && r.reserve > r.window.value)
    ensures o.Planned? && r.maximumOutput.Some? ==> r.reserve <= r.maximumOutput.value
  {
    if r.reserve < 0 {
      return Refused(NegativeReserve);
    }
    if r.maximumOutput.Some? && r.reserve > r.maximumOutput.value {
      return Refused(ReserveTooLarge);
    }
    var chosen := ChooseCompaction(r.events, r.session, resolve);
    var fault, eventSources, dropped := AdaptEventSuffix(r.events, chosen);
    if fault.Some? {
      return Refused(Replay(fault.value));
    }
    o := PlanOffered(encoded, r, dropped, r.system + eventSources);
  }

  lemma {:induction false} OnceOnly(sources: seq<ContentSource>, s: ContentSource)
    requires forall j, k :: 0 <= j < k < |sources| ==> sources[j].id != sources[k].id
    requires s in sources
    ensures multiset(sources)[s] == 1
  {
    var n := |sources| - 1;
    assert sources == sources[..n] + [sources[n]];
    if s in sources[..n] {
      OnceOnly(sources[..n], s);
    } else {
      assert s !in multiset(sources[..n]);
    }
  }

  lemma InOneSide(sources: seq<ContentSource>, a: seq<ContentSource>, b: seq<ContentSource>, s: ContentSource)
    requires forall j, k :: 0 <= j < k < |sources| ==> sources[j].id != sources[k].id
    requires multiset(a) + multiset(b) == multiset(sources) && s in sources
    ensures s in a <==> s !in b
    ensures forall x :: x in b ==> x in sources
  {
    OnceOnly(sources, s);
    assert multiset(a)[s] + multiset(b)[s] == multiset(sources)[s] == 1;
    forall x | x in b ensures x in sources { assert x in multiset(a) + multiset(b); }
  }

  lemma ExcludedIffSkipped(compacted: seq<string>, skipped: seq<ContentSource>, sources: seq<ContentSource>,
          s: ContentSource)
    requires s in sources && (forall x :: x in skipped ==> x in sources)
    requires forall j, k :: 0 <= j < k < |sources| ==> sources[j].id != sources[k].id
    ensures s in skipped <==>
      Exclusion(s.id, ContextBudget) in Excluding(compacted, CompactedBySummary)
        + Excluding(Composition.Ids(skipped), ContextBudget)
  {
    var later := Excluding(Composition.Ids(skipped), ContextBudget);
    if s in skipped {
      var k :| 0 <= k < |skipped| && skipped[k] == s;
      assert later[k] == Exclusion(s.id, ContextBudget);
    }
    if Exclusion(s.id, ContextBudget) in later {
      var k :| 0 <= k < |later| && later[k] == Exclusion(s.id, ContextBudget);
      assert skipped[k] in sources && skipped[k].id == s.id;
    }
  }

  /** A plan partitions the offered sources: every one is included or excluded for the
      budget, none is both, and those included keep the transcript's order in whole
      exchanges. */
  lemma PlanPartitions(encoded: Block -> nat, r: Request, compacted: seq<string>, sources: seq<ContentSource>,
          o: PlanOutcome)
    requires o.Planned? && r.reserve >= 0 && Conserves(encoded, r, compacted, sources, o)
    ensures var groups := GroupSources(sources).groups;
      && FlattenFront(groups) == sources
      && (forall k :: 0 <= k < |groups| ==> WholeExchange(groups[k]))
    ensures forall s :: s in sources ==>
      (s in o.included <==> Exclusion(s.id, ContextBudget) !in o.excluded)
    ensures forall s :: s in o.included ==> s in sources
  {
    var groups := GroupSources(sources).groups;
    var limit := Limit(r);
    var skipped := Chosen(groups, Skipped(encoded, groups, limit));
    GroupingIsExact(sources);
    PackingConserves(encoded, groups, limit);
    assert multiset(o.included) + multiset(skipped) == multiset(sources);
    forall s | s in sources ensures s in o.included <==> Exclusion(s.id, ContextBudget) !in o.excluded {
      InOneSide(sources, o.included, skipped, s);
      ExcludedIffSkipped(compacted, skipped, sources, s);
    }
    forall s | s in o.included ensures s in sources { assert s in multiset(o.included) + multiset(skipped); }
  }
}
