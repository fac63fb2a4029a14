/** The compaction selector: which older, contiguous run of events to summarise. */
module Selector {
  import opened Journals
  import opened Transcript
  import opened ExchangeScan
  import opened SafeBoundaries
  import Coverage
  import SafetyFacts

  const RECENT_SUFFIX_EVENTS := 4
  const DEFAULT_MANUAL_INPUT_BYTES: nat := 256 * 1024

  datatype Trigger = Manual | Automatic | UnknownTrigger(name: string)

  datatype Source = Source(id: string, text: string)

  /** Rendering, digest and request encoding are arbitrary deterministic functions
      that may fail; nothing is assumed about how size grows with the sources. */
  datatype Codec = Codec(
    render: Event -> Option<string>,
    digestOf: seq<Source> -> Option<string>,
    encodedSize: (Cursor, Cursor, string, Option<Source>, seq<Source>) -> Option<nat>)

  datatype Selection = Selection(
    from: Cursor, through: Cursor, trigger: Trigger, retained: seq<string>, summarized: seq<string>,
    sources: seq<Source>, digest: string, limit: nat)

  datatype Reason = InvalidHead | InvalidTrigger | InvalidJournal | Structure(fault: Fault) | Unencodable | TooLarge

  datatype SelectOutcome = Selected(selection: Selection) | NothingToCompact | Refused(reason: Reason)

  // ---- the committed projection ----

  predicate IdentifiedBy(e: Event, head: Cursor) {
    && e.body != TransactionMarker
    && e.journal == head.journal
    && e.id != "" && e.txn != ""
    && e.sequence <= head.commitSeq
    && (e.legacy ==> e.txn == "legacy:" + e.id)
  }

  /** Spacing of neighbours: a committed transaction ends with one marker sequence. */
  predicate Follows(previous: Event, current: Event, markerBacked: bool) {
    && previous.sequence < current.sequence
    && (!markerBacked || previous.legacy ==> current.sequence == previous.sequence + 1)
    && (markerBacked && !previous.legacy ==>
      !current.legacy && current.sequence == previous.sequence + (if current.txn == previous.txn then 1 else 2))
  }

  ghost predicate CommittedProjection(events: seq<Event>, head: Cursor) {
    && events != []
    && (forall i :: 0 <= i < |events| ==> IdentifiedBy(events[i], head))
    && events[0].sequence == 1
    && (forall i, j :: 0 <= i < j < |events| && events[j].legacy ==> events[i].legacy)
    && var last := events[|events| - 1];
      && last.txn == head.txn
      && (head.commitSeq == last.sequence + 1 || head.commitSeq == last.sequence)
      && (forall i :: 0 < i < |events| ==> Follows(events[i - 1], events[i], head.commitSeq == last.sequence + 1))
  }

  lemma {:induction false} ProjectionIncreasing(events: seq<Event>, head: Cursor, i: nat, j: nat)
    requires CommittedProjection(events, head) && i < j < |events|
    ensures events[i].sequence < events[j].sequence
    decreases j
  {
    var last := events[|events| - 1];
    assert Follows(events[j - 1], events[j], head.commitSeq == last.sequence + 1);
    if i == j - 1 {
    } else {
      ProjectionIncreasing(events, head, i, j - 1);
    }
  }

  lemma ProjectionFacts(events: seq<Event>, head: Cursor)
    requires CommittedProjection(events, head)
    ensures Increasing(events)
    ensures forall i :: 0 <= i < |events| ==> events[i].sequence >= 1
  {
    forall i, j | 0 <= i < j < |events| ensures events[i].sequence < events[j].sequence {
      ProjectionIncreasing(events, head, i, j);
    }
    forall i | 0 <= i < |events| ensures events[i].sequence >= 1 {
      if i > 0 { ProjectionIncreasing(events, head, 0, i); }
    }
  }

  /** How far event `i` lies behind the one before it. In a journal whose transactions end
      with a marker, one sequence is the marker's between two transactions of the current
      format; nowhere else is a sequence missing. */
  predicate Spaced(events: seq<Event>, marked: bool, i: nat)
    requires 0 < i < |events|
  {
    var gap := events[i].sequence - events[i - 1].sequence;
    if marked && !events[i].legacy && !events[i - 1].legacy && events[i].txn != events[i - 1].txn then gap == 2
    else gap == 1
  }

  ghost predicate AllSpaced(events: seq<Event>, marked: bool) {
    forall i :: 0 < i < |events| ==> Spaced(events, marked, i)
  }

  /** A committed projection is numbered from one, records of the older format come first and
      each is its own transaction, and the head is the last event or the marker behind it. */
  lemma ProjectionIff(events: seq<Event>, head: Cursor)
    ensures CommittedProjection(events, head) <==>
      && events != [] && events[0].sequence == 1
      && (forall i :: 0 <= i < |events| ==>
        && events[i].journal == head.journal && events[i].sequence <= head.commitSeq
        && events[i].id != "" && events[i].txn != "" && !events[i].body.TransactionMarker?
        && (events[i].legacy ==> events[i].txn == "legacy:" + events[i].id))
      && (forall i, j :: 0 <= i < j < |events| && events[j].legacy ==> events[i].legacy)
      && var last := events[|events| - 1];
        && last.txn == head.txn && 0 <= head.commitSeq - last.sequence <= 1
        && AllSpaced(events, head.commitSeq == last.sequence + 1)
  {
    if events != [] {
      var marked := head.commitSeq == events[|events| - 1].sequence + 1;
      if forall i, j :: 0 <= i < j < |events| && events[j].legacy ==> events[i].legacy {
        forall i | 0 < i < |events| ensures Spaced(events, marked, i) <==> Follows(events[i - 1], events[i], marked) {
        }
      }
    }
  }

  /** `committedEvents` on a non-empty projection. */
  method CommittedEvents(events: seq<Event>, head: Cursor) returns (ok: bool)
    requires events != []
    ensures ok <==> CommittedProjection(events, head)
  {
    var legacyPrefix := true;
    for i := 0 to |events|
      invariant forall j :: 0 <= j < i ==> IdentifiedBy(events[j], head)
      invariant i > 0 ==> events[0].sequence == 1
      invariant legacyPrefix <==> forall j :: 0 <= j < i ==> events[j].legacy
      invariant forall j, k :: 0 <= j < k < i && events[k].legacy ==> events[j].legacy
    {
      var e := events[i];
      if !IdentifiedBy(e, head) || (i == 0 && e.sequence != 1) {
        return false;
      }
      if !e.legacy {
        legacyPrefix := false;
      } else if !legacyPrefix {
        return false;
      }
    }
    var last := events[|events| - 1];
    var markerBacked := head.commitSeq == last.sequence + 1;
    if last.txn != head.txn || (!markerBacked && head.commitSeq != last.sequence) {
      return false;
    }
    for i := 1 to |events|
      invariant forall j :: 0 < j < i ==> Follows(events[j - 1], events[j], markerBacked)
    {
      if !Follows(events[i - 1], events[i], markerBacked) {
        return false;
      }
    }
    ok := true;
  }

  // ---- earlier compactions ----

  ghost predicate Locates(events: seq<Event>, i: nat, c: Cursor) {
    i < |events| && events[i].sequence == c.commitSeq && events[i].txn == c.txn
  }

  /** Event `k` records a compaction of an existing earlier range of this journal. */
  ghost predicate Recognised(events: seq<Event>, journal: JournalRef, k: nat) {
    && k < |events| && events[k].body.Compaction?
    && var b := events[k].body;
      && b.from.Valid() && b.through.Valid()
      && b.from.journal == journal && b.through.journal == journal
      && b.from.commitSeq <= b.through.commitSeq < events[k].sequence
      && exists i: nat :: Locates(events, i, b.through)
  }

  /** Position `i` is where some recognised compaction stops. */
  ghost predicate ThroughOfSome(events: seq<Event>, journal: JournalRef, i: nat) {
    exists k: nat :: Recognised(events, journal, k) && Locates(events, i, events[k].body.through)
  }

  method EventIndexAtCursor(events: seq<Event>, c: Cursor) returns (index: Option<nat>)
    ensures index.Some? ==> Locates(events, index.value, c)
    ensures index.None? ==> forall i: nat :: !Locates(events, i, c)
  {
    for i := 0 to |events|
      invariant forall j: nat :: j < i ==> !Locates(events, j, c)
    {
      if events[i].sequence == c.commitSeq && events[i].txn == c.txn {
        return Some(i);
      }
    }
    index := None;
  }

  /** `latestCompactionThrough`: the last event any recognised compaction has summarised. */
  method LatestCompactionThrough(events: seq<Event>, head: Cursor) returns (latest: Option<nat>)
    ensures latest.Some? ==> latest.value < |events| && ThroughOfSome(events, head.journal, latest.value)
    ensures forall k: nat :: Recognised(events, head.journal, k) ==>
      latest.Some? && events[k].body.through.commitSeq <= events[latest.value].sequence
  {
    latest := None;
    for n := 0 to |events|
      invariant latest.Some? ==> latest.value < |events| && ThroughOfSome(events, head.journal, latest.value)
      invariant forall k: nat :: k < n && Recognised(events, head.journal, k) ==>
        latest.Some? && events[k].body.through.commitSeq <= events[latest.value].sequence
    {
      var e := events[n];
      if e.body.Compaction? {
        var b := e.body;
        if b.from.Valid() && b.through.Valid() && b.from.journal == head.journal && b.through.journal == head.journal
          && b.from.commitSeq <= b.through.commitSeq < e.sequence {
          var index := EventIndexAtCursor(events, b.through);
          if index.Some? && (latest.None? || b.through.commitSeq > events[latest.value].sequence) {
            assert Recognised(events, head.journal, n);
            latest := index;
          }
        }
      }
    }
  }

  // ---- bounded selection ----

  function Span(g: Range): set<nat> { set i: nat | g.assistant <= i <= g.result && Inside(g, i) }

  function Pick<T>(items: seq<T>, chosen: set<nat>): seq<T> {
    if items == [] then []
    else
      var n := |items| - 1;
      Pick(items[..n], chosen) + (if n in chosen then [items[n]] else [])
  }

  /** Positions that travel with the retained suffix or with an open safety fact. */
  ghost predicate Required(ranges: seq<Range>, n: nat, cutoff: nat, facts: set<nat>, i: nat) {
    exists j: nat :: Inside(GroupOf(ranges, i), j) && j < n && (j > cutoff || j in facts)
  }

  /** Everything sent for a summary of `[from..cutoff]`. */
  ghost function Chosen(ranges: seq<Range>, n: nat, cutoff: nat, facts: set<nat>, from: nat): set<nat> {
    set i: nat | i < n && (from <= i <= cutoff || Required(ranges, n, cutoff, facts, i))
  }

  function EventIds(events: seq<Event>): seq<string> { seq(|events|, i requires 0 <= i < |events| => events[i].id) }

  /** `selectionFromIndexes`. */
  function Candidate(codec: Codec, events: seq<Event>, sources: seq<Source>, included: set<nat>, from: nat,
          cutoff: nat, trigger: Trigger, limit: nat): Option<Selection>
    requires from <= cutoff < |events|
  {
    var picked := Pick(sources, included);
    match codec.digestOf(picked)
    case None => None
    case Some(d) =>
      Some(Selection(events[from].At(), events[cutoff].At(), trigger, [], EventIds(events[from..cutoff + 1]), picked, d,
          limit))
  }

  /** Size of the request body without a prior summary (`summaryRequestInput`). */
  function RequestSize(codec: Codec, s: Selection): Option<nat> {
    codec.encodedSize(s.from, s.through, s.digest, None, s.sources)
  }

  ghost predicate Overflows(codec: Codec, c: Option<Selection>, limit: nat) {
    c.Some? && RequestSize(codec, c.value).Some? && RequestSize(codec, c.value).value > limit
  }

  ghost predicate Fits(codec: Codec, s: Selection, limit: nat) {
    RequestSize(codec, s).Some? && RequestSize(codec, s).value <= limit
  }

  method SelectionFromIndexes(codec: Codec, events: seq<Event>, sources: seq<Source>, included: set<nat>, from: nat,
          cutoff: nat, trigger: Trigger, limit: nat)
    returns (candidate: Option<Selection>)
    requires from <= cutoff < |events|
    ensures candidate == Candidate(codec, events, sources, included, from, cutoff, trigger, limit)
  {
    var picked: seq<Source> := [];
    for i := 0 to |sources|
      invariant picked == Pick(sources[..i], included)
    {
      assert sources[..i + 1][..i] == sources[..i];
      if i in included {
        picked := picked + [sources[i]];
      }
    }
    assert sources[..|sources|] == sources;
    match codec.digestOf(picked) {
      case None => candidate := None;
      case Some(d) =>
        candidate := Some(Selection(events[from].At(), events[cutoff].At(), trigger, [],
            EventIds(events[from..cutoff + 1]), picked, d, limit));
    }
  }

  method EventGroupIncluded(included: set<nat>, group: Range) returns (some: bool)
    ensures some <==> exists i: nat :: Inside(group, i) && i in included
  {
    var index := group.assistant;
    while index <= group.result
      invariant forall i: nat :: group.assistant <= i < index && i <= group.result ==> i !in included
    {
      if index in included {
        assert Inside(group, index);
        return true;
      }
      index := index + 1;
    }
    some := false;
  }

  method IncludeEventGroup(included: set<nat>, group: Range) returns (grown: set<nat>, added: set<nat>)
    ensures grown == included + Span(group) && added == Span(group) - included
  {
    grown, added := included, {};
    var index := group.assistant;
    while index <= group.result
      invariant index >= group.assistant
      invariant forall i: nat :: i in grown <==> i in included || (group.assistant <= i < index && i <= group.result)
      invariant forall i: nat :: i in added <==> i !in included && group.assistant <= i < index && i <= group.result
    {
      if index !in grown {
        grown, added := grown + {index}, added + {index};
      }
      index := index + 1;
    }
  }

  ghost predicate Growing(ranges: seq<Range>, n: nat, cutoff: nat, facts: set<nat>, from: nat, included: set<nat>) {
    forall i: nat :: i in included <==> i < n && (from <= i <= cutoff || Required(ranges, n, cutoff, facts, i))
  }

  lemma GrowingIsChosen(ranges: seq<Range>, n: nat, cutoff: nat, facts: set<nat>, from: nat, included: set<nat>)
    requires Growing(ranges, n, cutoff, facts, from, included)
    ensures included == Chosen(ranges, n, cutoff, facts, from)
  {
  }

  lemma RequiredTogether(ranges: seq<Range>, n: nat, cutoff: nat, facts: set<nat>, i: nat, j: nat)
    requires Disjoint(ranges) && Inside(GroupOf(ranges, i), j)
    ensures Required(ranges, n, cutoff, facts, i) <==> Required(ranges, n, cutoff, facts, j)
  {
    GroupsAgree(ranges, i, j);
  }

  /** A safe cut keeps the group of a position on the position's side. */
  lemma GroupRespectsCut(ranges: seq<Range>, cut: int, i: nat)
    requires SafeCut(ranges, cut)
    ensures i <= cut ==> GroupOf(ranges, i).result <= cut
    ensures i > cut ==> GroupOf(ranges, i).assistant > cut
  {
    GroupOfFacts(ranges, i);
    var g := GroupOf(ranges, i);
    if g in ranges {
      var k :| 0 <= k < |ranges| && ranges[k] == g;
      assert !Splits(ranges[k], cut);
    }
  }

  /** The start of any group is a safe start. */
  lemma GroupStartSafe(ranges: seq<Range>, i: nat)
    requires Disjoint(ranges)
    ensures SafeStart(ranges, GroupOf(ranges, i).assistant)
  {
    var g := GroupOf(ranges, i);
    GroupOfFacts(ranges, i);
    forall k | 0 <= k < |ranges| ensures !Splits(ranges[k], g.assistant - 1) {
      if Splits(ranges[k], g.assistant - 1) {
        assert Inside(ranges[k], g.assistant);
        GroupsAgree(ranges, i, g.assistant);
        GroupOfFacts(ranges, g.assistant);
        assert Covers(ranges, g.assistant);
      }
    }
  }

  ghost predicate Bounded(codec: Codec, events: seq<Event>, sources: seq<Source>, ranges: seq<Range>, facts: set<nat>,
          start: nat, cutoff: nat, trigger: Trigger, limit: nat, from: nat, s: Selection)
  {
    var n := |events|;
    && start <= from <= cutoff < n
    && SafeStart(ranges, from)
    && Candidate(codec, events, sources, Chosen(ranges, n, cutoff, facts, from), from, cutoff,
        trigger, limit) == Some(s)
    && Fits(codec, s, limit)
    && (from > start ==>
      var older := GroupOf(ranges, from - 1).assistant;
      && start <= older < from
      && Overflows(codec, Candidate(codec, events, sources, Chosen(ranges, n, cutoff, facts, older),
          older, cutoff, trigger, limit), limit))
  }

  /** Growing the range to `blocked` overflows, and that group cannot be left out. */
  ghost predicate Stuck(codec: Codec, events: seq<Event>, sources: seq<Source>, ranges: seq<Range>, facts: set<nat>,
          start: nat, cutoff: nat, trigger: Trigger, limit: nat, blocked: nat)
  {
    var n := |events|;
    && start <= blocked <= cutoff < n
    && Overflows(codec, Candidate(codec, events, sources, Chosen(ranges, n, cutoff, facts, blocked),
        blocked, cutoff, trigger, limit), limit)
    && (GroupOf(ranges, blocked).result == cutoff || Required(ranges, n, cutoff, facts, blocked))
  }

  /** The sources of the range grown to `f` have no digest or no encoding. */
  ghost predicate Unencoded(codec: Codec, events: seq<Event>, sources: seq<Source>, ranges: seq<Range>,
          facts: set<nat>, start: nat, cutoff: nat, trigger: Trigger, limit: nat, f: nat)
  {
    && start <= f <= cutoff < |events|
    && var chosen := Chosen(ranges, |events|, cutoff, facts, f);
      var c := Candidate(codec, events, sources, chosen, f, cutoff, trigger, limit);
      c.Some? ==> RequestSize(codec, c.value).None?
  }

  /** The whole group of position `j` is included. */
  ghost predicate Absorbed(ranges: seq<Range>, n: nat, included: set<nat>, j: nat) {
    forall i: nat :: i < n && Inside(GroupOf(ranges, i), j) ==> i in included
  }

  lemma SameGroup(ranges: seq<Range>, i: nat, j: nat)
    requires Disjoint(ranges) && Inside(GroupOf(ranges, i), j)
    ensures i in Span(GroupOf(ranges, j))
  {
    GroupsAgree(ranges, i, j);
    GroupOfFacts(ranges, i);
  }

  lemma AbsorbGroup(ranges: seq<Range>, n: nat, cutoff: nat, facts: set<nat>, index: nat, included: set<nat>)
    requires Disjoint(ranges) && index < n && (index > cutoff || index in facts)
    requires forall k :: 0 <= k < |ranges| ==> ranges[k].result < n
    ensures forall i: nat :: i in Span(GroupOf(ranges, index)) ==> i < n && Required(ranges, n, cutoff, facts, i)
    ensures Absorbed(ranges, n, included + Span(GroupOf(ranges, index)), index)
    ensures forall j: nat :: Absorbed(ranges, n, included, j) ==>
      Absorbed(ranges, n, included + Span(GroupOf(ranges, index)), j)
  {
    GroupOfFacts(ranges, index);
    forall i: nat | i in Span(GroupOf(ranges, index)) ensures i < n && Required(ranges, n, cutoff, facts, i) {
      GroupsAgree(ranges, index, i);
      assert Inside(GroupOf(ranges, i), index);
    }
    forall i: nat | i < n && Inside(GroupOf(ranges, i), index) ensures i in Span(GroupOf(ranges, index)) {
      SameGroup(ranges, i, index);
    }
  }

  method BaseIncluded(ranges: seq<Range>, groups: seq<Range>, facts: set<nat>, cutoff: nat) returns (included: set<nat>)
    requires Disjoint(ranges) && cutoff < |groups|
    requires forall k :: 0 <= k < |ranges| ==> ranges[k].result < |groups|
    requires forall i: nat :: i < |groups| ==> groups[i] == GroupOf(ranges, i)
    requires forall i :: i in facts ==> i < |groups|
    ensures Growing(ranges, |groups|, cutoff, facts, cutoff + 1, included)
  {
    included := {};
    ghost var n := |groups|;
    for index := cutoff + 1 to |groups|
      invariant forall i: nat :: i in included ==> i < n && Required(ranges, n, cutoff, facts, i)
      invariant forall j: nat :: cutoff < j < index ==> Absorbed(ranges, n, included, j)
    {
      AbsorbGroup(ranges, n, cutoff, facts, index, included);
      var added;
      included, added := IncludeEventGroup(included, groups[index]);
    }
    var left := facts;
    while left != {}
      invariant left <= facts
      invariant forall i: nat :: i in included ==> i < n && Required(ranges, n, cutoff, facts, i)
      invariant forall j: nat :: cutoff < j < n ==> Absorbed(ranges, n, included, j)
      invariant forall j: nat :: j in facts && j !in left ==> Absorbed(ranges, n, included, j)
      decreases left
    {
      var index :| index in left;
      left := left - {index};
      AbsorbGroup(ranges, n, cutoff, facts, index, included);
      var added;
      included, added := IncludeEventGroup(included, groups[index]);
    }
    forall i: nat | i < n && Required(ranges, n, cutoff, facts, i) ensures i in included {
      var j: nat :| Inside(GroupOf(ranges, i), j) && j < n && (j > cutoff || j in facts);
      assert Absorbed(ranges, n, included, j);
    }
  }

  lemma GrowByGroup(ranges: seq<Range>, n: nat, cutoff: nat, facts: set<nat>, from: nat, included: set<nat>,
          grown: set<nat>)
    requires Disjoint(ranges) && 0 < from <= cutoff + 1 <= n
    requires Growing(ranges, n, cutoff, facts, from, included)
    requires grown == included + Span(GroupOf(ranges, from - 1))
    requires GroupOf(ranges, from - 1).result == from - 1
    ensures Growing(ranges, n, cutoff, facts, GroupOf(ranges, from - 1).assistant, grown)
  {
    GroupOfFacts(ranges, from - 1);
  }

  lemma RequiredGroup(ranges: seq<Range>, n: nat, cutoff: nat, facts: set<nat>, from: nat, included: set<nat>)
    requires Disjoint(ranges) && 0 < from <= cutoff + 1 <= n
    requires Growing(ranges, n, cutoff, facts, from, included)
    requires GroupOf(ranges, from - 1).result == from - 1
    requires exists i: nat :: Inside(GroupOf(ranges, from - 1), i) && i in included
    ensures Required(ranges, n, cutoff, facts, GroupOf(ranges, from - 1).assistant)
  {
    var i: nat :| Inside(GroupOf(ranges, from - 1), i) && i in included;
    assert Required(ranges, n, cutoff, facts, i);
    GroupsAgree(ranges, from - 1, i);
    GroupOfFacts(ranges, from - 1);
    GroupsAgree(ranges, from - 1, GroupOf(ranges, from - 1).assistant);
  }

  /** `boundedSelection`: grow the range backwards, whole groups at a time. */
  method BoundedSelection(codec: Codec, events: seq<Event>, sources: seq<Source>, ranges: seq<Range>,
          groups: seq<Range>, facts: set<nat>, start: nat, cutoff: nat, trigger: Trigger, limit: nat)
    returns (outcome: SelectOutcome, ghost from: nat)
    requires Disjoint(ranges) && start <= cutoff < |events| == |groups|
    requires forall k :: 0 <= k < |ranges| ==> ranges[k].result < |events|
    requires forall i: nat :: i < |groups| ==> groups[i] == GroupOf(ranges, i)
    requires SafeStart(ranges, start) && SafeCut(ranges, cutoff)
    requires forall i :: i in facts ==> i < |events|
    ensures outcome.Selected? ==>
      Bounded(codec, events, sources, ranges, facts, start, cutoff, trigger, limit, from, outcome.selection)
    ensures !outcome.NothingToCompact?
    ensures outcome == Refused(TooLarge) ==>
      exists blocked: nat :: Stuck(codec, events, sources, ranges, facts, start, cutoff, trigger, limit, blocked)
    ensures outcome == Refused(Unencodable) ==>
      exists f: nat :: Unencoded(codec, events, sources, ranges, facts, start, cutoff, trigger, limit, f)
    ensures outcome.Refused? ==> outcome.reason.TooLarge? || outcome.reason.Unencodable?
  {
    var n := |events|;
    var included := BaseIncluded(ranges, groups, facts, cutoff);
    var selectedStart := cutoff + 1;
    from := selectedStart;
    ghost var best: Option<Selection> := None;
    while selectedStart > start
      invariant start <= selectedStart <= cutoff + 1
      invariant SafeStart(ranges, selectedStart)
      invariant Growing(ranges, n, cutoff, facts, selectedStart, included)
      invariant selectedStart <= cutoff ==>
        && best.Some? && Fits(codec, best.value, limit)
        && best == Candidate(codec, events, sources, Chosen(ranges, n, cutoff, facts, selectedStart),
            selectedStart, cutoff, trigger, limit)
      decreases selectedStart
    {
      var index := selectedStart - 1;
      var group := groups[index];
      GroupOfFacts(ranges, index);
      GroupRespectsCut(ranges, start - 1, index);
      GroupRespectsCut(ranges, selectedStart - 1, index);
      var required := EventGroupIncluded(included, group);
      var grown, added := IncludeEventGroup(included, group);
      GrowByGroup(ranges, n, cutoff, facts, selectedStart, included, grown);
      GrowingIsChosen(ranges, n, cutoff, facts, group.assistant, grown);
      GrowingIsChosen(ranges, n, cutoff, facts, selectedStart, included);
      var candidate := SelectionFromIndexes(codec, events, sources, grown, group.assistant, cutoff, trigger, limit);
      if candidate.None? {
        assert Unencoded(codec, events, sources, ranges, facts, start, cutoff, trigger, limit, group.assistant);
        return Refused(Unencodable), 0;
      }
      var size := RequestSize(codec, candidate.value);
      if size.None? {
        assert Unencoded(codec, events, sources, ranges, facts, start, cutoff, trigger, limit, group.assistant);
        return Refused(Unencodable), 0;
      }
      if size.value > limit {
        if !required {
          grown := grown - added;
        }
        if required || selectedStart > cutoff {
          if required {
            RequiredGroup(ranges, n, cutoff, facts, selectedStart, included);
          }
          GroupsAgree(ranges, index, group.assistant);
          assert Stuck(codec, events, sources, ranges, facts, start, cutoff, trigger, limit, group.assistant);
          return Refused(TooLarge), 0;
        }
        assert grown == included;
        break;
      }
      GroupStartSafe(ranges, index);
      included := grown;
      best := candidate;
      selectedStart := group.assistant;
    }
    GrowingIsChosen(ranges, n, cutoff, facts, selectedStart, included);
    from := selectedStart;
    var final := SelectionFromIndexes(codec, events, sources, included, selectedStart, cutoff, trigger, limit);
    outcome := Selected(final.value);
  }

  // ---- the whole selection ----

  function EffectiveLimit(limit: int): nat { if limit <= 0 then DEFAULT_MANUAL_INPUT_BYTES else limit }

  function RenderAll(codec: Codec, events: seq<Event>): Option<seq<Source>> {
    if events == [] then Some([])
    else
      var n := |events| - 1;
      match RenderAll(codec, events[..n])
      case None => None
      case Some(before) =>
        match codec.render(events[n])
        case None => None
        case Some(text) => Some(before + [Source(events[n].id, text)])
  }

  /** Each source carries the identity and the text of its own event; only an event
      without a text stands in the way. */
  lemma {:induction false} RenderedEach(codec: Codec, events: seq<Event>)
    ensures RenderAll(codec, events).Some? ==>
      |RenderAll(codec, events).value| == |events|
      && forall k :: 0 <= k < |events| ==>
        RenderAll(codec, events).value[k].id == events[k].id
        && codec.render(events[k]) == Some(RenderAll(codec, events).value[k].text)
    ensures RenderAll(codec, events).None? ==> exists k :: 0 <= k < |events| && codec.render(events[k]).None?
  {
    if events == [] {
    } else {
      var n := |events| - 1;
      RenderedEach(codec, events[..n]);
      if RenderAll(codec, events[..n]).None? {
        var k :| 0 <= k < n && codec.render(events[..n][k]).None?;
        assert codec.render(events[k]).None?;
      } else if RenderAll(codec, events).None? {
        assert codec.render(events[n]).None?;
      }
    }
  }

  lemma {:induction false} RenderFails(codec: Codec, events: seq<Event>, i: nat)
    requires i <= |events| && RenderAll(codec, events[..i]).None?
    ensures RenderAll(codec, events).None?
  {
    if i == |events| {
      assert events[..i] == events;
    } else {
      assert events[..|events| - 1][..i] == events[..i];
      RenderFails(codec, events[..|events| - 1], i);
    }
  }

  /** No recognised compaction reaches position `from`. */
  ghost predicate Fresh(events: seq<Event>, journal: JournalRef, from: nat)
    requires from < |events|
  {
    forall k: nat :: Recognised(events, journal, k) ==> events[k].body.through.commitSeq < events[from].sequence
  }

  ghost function MergedExchanges(events: seq<Event>): seq<Range>
    requires Exchanges(events).Scanning?
  {
    MergedRanges(Exchanges(events).ranges)
  }

  /** `[from..cutoff]` may be summarised: committed, fresh, behind the retained
      suffix, and cutting through no exchange at either end. */
  ghost predicate SelectedRange(events: seq<Event>, head: Cursor, from: nat, cutoff: nat) {
    && head.Valid() && head.journal.Session?
    && CommittedProjection(events, head)
    && Exchanges(events).Scanning?
    && from <= cutoff && cutoff + RECENT_SUFFIX_EVENTS < |events|
    && SafeStart(MergedExchanges(events), from) && SafeCut(MergedExchanges(events), cutoff)
    && Fresh(events, head.journal, from)
  }

  ghost predicate Latest(events: seq<Event>, cutoff: nat)
    requires Exchanges(events).Scanning?
  {
    forall c :: c + RECENT_SUFFIX_EVENTS < |events| && SafeCut(MergedExchanges(events), c) ==> c <= cutoff
  }

  ghost predicate Earliest(events: seq<Event>, journal: JournalRef, start: nat)
    requires Exchanges(events).Scanning?
  {
    forall s: nat :: s < |events| && SafeStart(MergedExchanges(events), s) && Fresh(events, journal, s) ==> start <= s
  }

  ghost predicate Sound(codec: Codec, events: seq<Event>, head: Cursor, trigger: Trigger, limit: nat, start: nat,
          from: nat, cutoff: nat, facts: set<nat>, s: Selection)
  {
    && SelectedRange(events, head, from, cutoff) && SelectedRange(events, head, start, cutoff)
    && Latest(events, cutoff) && Earliest(events, head.journal, start)
    && (forall i: nat :: i in facts <==> SafetyFacts.Active(events, i))
    && RenderAll(codec, events).Some?
    && Bounded(codec, events, RenderAll(codec, events).value, MergedExchanges(events), facts,
        start, cutoff, trigger, limit, from, s.(retained := []))
    && s.retained == Pick(EventIds(events), set i: nat | i < |events| && (i > cutoff || i in facts))
  }

  lemma MergedExchangesFacts(events: seq<Event>)
    requires Increasing(events) && Exchanges(events).Scanning?
    ensures Disjoint(MergedExchanges(events))
    ensures forall k :: 0 <= k < |MergedExchanges(events)| ==> MergedExchanges(events)[k].result < |events|
  {
    ExchangesInBounds(events);
    MergingIsSound(Exchanges(events).ranges);
    MergedInBounds(Exchanges(events).ranges, |events|);
  }

  method RetainedIds(events: seq<Event>, facts: set<nat>, cutoff: nat) returns (ids: seq<string>)
    ensures ids == Pick(EventIds(events), set i: nat | i < |events| && (i > cutoff || i in facts))
  {
    ids := [];
    ghost var keep := set i: nat | i < |events| && (i > cutoff || i in facts);
    ghost var all := EventIds(events);
    for i := 0 to |events|
      invariant ids == Pick(all[..i], keep)
    {
      assert all[..i + 1][..i] == all[..i];
      if i > cutoff || i in facts {
        ids := ids + [events[i].id];
      }
    }
    assert all[..|all|] == all;
  }

  method NormalizedSources(codec: Codec, events: seq<Event>) returns (sources: Option<seq<Source>>)
    ensures sources == RenderAll(codec, events)
  {
    var result: seq<Source> := [];
    for i := 0 to |events|
      invariant RenderAll(codec, events[..i]) == Some(result)
    {
      assert events[..i + 1][..i] == events[..i];
      var text := codec.render(events[i]);
      if text.None? {
        RenderFails(codec, events, i + 1);
        return None;
      }
      result := result + [Source(events[i].id, text.value)];
    }
    assert events[..|events|] == events;
    sources := Some(result);
  }

  datatype RangeChoice = BadJournal(reason: Reason) | NoRange
    | SafeRange(start: nat, cutoff: nat, exchanges: seq<Range>)

  /** Positions behind the last compacted one are those no recognised compaction reaches. */
  lemma FreshFrom(events: seq<Event>, journal: JournalRef, prior: Option<nat>, f: nat)
    requires Increasing(events) && f < |events|
    requires prior.Some? ==> prior.value < |events| && ThroughOfSome(events, journal, prior.value)
    requires forall k: nat :: Recognised(events, journal, k) ==>
      prior.Some? && events[k].body.through.commitSeq <= events[prior.value].sequence
    ensures Fresh(events, journal, f) <==> prior.None? || prior.value < f
  {
    if prior.Some? {
      var k: nat :| Recognised(events, journal, k) && Locates(events, prior.value, events[k].body.through);
    }
  }

  /** The first half of `Select`: the journal is checked, and of all ranges that may be
      summarised the widest is found. */
  method ChooseRange(events: seq<Event>, head: Cursor) returns (choice: RangeChoice)
    requires head.Valid() && head.journal.Session?
    ensures choice.NoRange? ==> forall f: nat, c: nat :: !SelectedRange(events, head, f, c)
    ensures choice == BadJournal(InvalidJournal) ==> !CommittedProjection(events, head)
    ensures choice.BadJournal? && !choice.reason.InvalidJournal? ==>
      Exchanges(events).Rejected? && CommittedProjection(events, head)
        && choice.reason == Structure(Exchanges(events).fault)
    ensures choice.SafeRange? ==>
      && SelectedRange(events, head, choice.start, choice.cutoff)
      && choice.exchanges == MergedExchanges(events)
      && Latest(events, choice.cutoff) && Earliest(events, head.journal, choice.start)
  {
    if events == [] {
      return NoRange;
    }
    var committed := CommittedEvents(events, head);
    if !committed {
      return BadJournal(InvalidJournal);
    }
    ProjectionFacts(events, head);
    var fault, exchanges := Coverage.ToolExchangeRanges(events);
    if fault.Some? {
      return BadJournal(Structure(fault.value));
    }
    MergedExchangesFacts(events);
    if |events| <= RECENT_SUFFIX_EVENTS {
      return NoRange;
    }
    var first := 0;
    var prior := LatestCompactionThrough(events, head);
    if prior.Some? {
      first := prior.value + 1;
    }
    var start := ExchangeSafeStart(exchanges, first);
    var cutoff := ExchangeSafeCutoff(exchanges, |events| - RECENT_SUFFIX_EVENTS - 1);
    forall f: nat | f < |events| ensures Fresh(events, head.journal, f) <==> first <= f {
      FreshFrom(events, head.journal, prior, f);
    }
    if start > cutoff {
      forall f: nat, c: nat | SelectedRange(events, head, f, c) ensures false {
      }
      return NoRange;
    }
    choice := SafeRange(start, cutoff, exchanges);
  }

  /** The second half of `Select`: render, group, and grow the range to its limit. */
  method SelectWithin(codec: Codec, events: seq<Event>, head: Cursor, trigger: Trigger, limit: nat, start: nat,
          cutoff: nat, exchanges: seq<Range>)
    returns (outcome: SelectOutcome, ghost from: nat, ghost facts: set<nat>)
    requires SelectedRange(events, head, start, cutoff) && exchanges == MergedExchanges(events)
    requires Latest(events, cutoff) && Earliest(events, head.journal, start)
    ensures outcome.Selected? ==>
      Sound(codec, events, head, trigger, limit, start, from, cutoff, facts, outcome.selection)
    ensures outcome == Refused(Unencodable) || outcome == Refused(TooLarge) || outcome.Selected?
    ensures outcome == Refused(Unencodable) ==>
      || (exists k :: 0 <= k < |events| && codec.render(events[k]).None?)
      || (RenderAll(codec, events).Some?
          && exists f: nat :: Unencoded(codec, events, RenderAll(codec, events).value, exchanges, facts, start, cutoff,
              trigger, limit, f))
    ensures outcome == Refused(TooLarge) ==>
      && RenderAll(codec, events).Some?
      && exists blocked: nat ::
        Stuck(codec, events, RenderAll(codec, events).value, exchanges, facts, start, cutoff, trigger, limit, blocked)
  {
    from, facts := 0, {};
    var sources := NormalizedSources(codec, events);
    RenderedEach(codec, events);
    if sources.None? {
      return Refused(Unencodable), 0, {};
    }
    ProjectionFacts(events, head);
    MergedExchangesFacts(events);
    var slots := EventGroups(|events|, exchanges);
    var groups := slots[..];
    var active := SafetyFacts.ActiveSafetyFacts(events);
    facts := active;
    outcome, from := BoundedSelection(codec, events, sources.value, exchanges, groups, active, start, cutoff, trigger,
        limit);
    if outcome.Selected? {
      var ids := RetainedIds(events, active, cutoff);
      ghost var bounded := outcome.selection;
      outcome := Selected(outcome.selection.(retained := ids));
      assert outcome.selection.(retained := []) == bounded;
    }
  }

  /** `Select`. It refuses malformed journals, reports `NothingToCompact` exactly when
      no safe non-empty range exists, and otherwise returns a sound bounded selection. */
  method Select(codec: Codec, events: seq<Event>, head: Cursor, trigger: Trigger, manualInputBytes: int)
    returns (outcome: SelectOutcome, ghost start: nat, ghost from: nat, ghost cutoff: nat, ghost facts: set<nat>)
    ensures outcome.Selected? ==> !trigger.UnknownTrigger?
    ensures outcome.Selected? ==>
      Sound(codec, events, head, trigger, EffectiveLimit(manualInputBytes), start, from, cutoff, facts,
          outcome.selection)
    ensures outcome.NothingToCompact? ==>
      head.Valid() && head.journal.Session? && forall f: nat, c: nat :: !SelectedRange(events, head, f, c)
    ensures outcome == Refused(InvalidHead) ==> !(head.Valid() && head.journal.Session?)
    ensures outcome == Refused(InvalidTrigger) ==> trigger.UnknownTrigger?
    ensures outcome == Refused(InvalidJournal) ==> !CommittedProjection(events, head)
    ensures outcome.Refused? && outcome.reason.Structure? ==> Exchanges(events) == Rejected(outcome.reason.fault)
    ensures outcome == Refused(Unencodable) ==>
      && SelectedRange(events, head, start, cutoff)
      && ((exists k :: 0 <= k < |events| && codec.render(events[k]).None?)
          || (RenderAll(codec, events).Some?
              && exists f: nat ::
                Unencoded(codec, events, RenderAll(codec, events).value, MergedExchanges(events), facts, start, cutoff,
                    trigger, EffectiveLimit(manualInputBytes), f)))
    ensures outcome == Refused(TooLarge) ==>
      && SelectedRange(events, head, start, cutoff) && RenderAll(codec, events).Some?
      && exists blocked: nat ::
        Stuck(codec, events, RenderAll(codec, events).value, MergedExchanges(events), facts, start, cutoff,
            trigger, EffectiveLimit(manualInputBytes), blocked)
  {
    start, from, cutoff, facts := 0, 0, 0, {};
    if !head.Valid() || !head.journal.Session? {
      return Refused(InvalidHead), 0, 0, 0, {};
    }
    if trigger.UnknownTrigger? {
      return Refused(InvalidTrigger), 0, 0, 0, {};
    }
    var limit := EffectiveLimit(manualInputBytes);
    var choice := ChooseRange(events, head);
    match choice {
      case BadJournal(reason) =>
        outcome := Refused(reason);
      case NoRange =>
        outcome := NothingToCompact;
      case SafeRange(safeStart, safeCutoff, exchanges) =>
        start, cutoff := safeStart, safeCutoff;
        outcome, from, facts := SelectWithin(codec, events, head, trigger, limit, safeStart, safeCutoff, exchanges);
    }
  }

  // ---- what a selection holds ----

  /** Ascending positions of `chosen` below `n`. */
  function Positions(n: nat, chosen: set<nat>): seq<nat> {
    if n == 0 then [] else Positions(n - 1, chosen) + (if n - 1 in chosen then [n - 1] else [])
  }

  lemma {:induction false} PositionsAscend(n: nat, chosen: set<nat>)
    ensures forall k :: 0 <= k < |Positions(n, chosen)| ==> Positions(n, chosen)[k] < n
    ensures forall j, k :: 0 <= j < k < |Positions(n, chosen)| ==> Positions(n, chosen)[j] < Positions(n, chosen)[k]
    ensures forall i: nat :: i in Positions(n, chosen) <==> i < n && i in chosen
  {
    if n == 0 {
    } else {
      PositionsAscend(n - 1, chosen);
    }
  }

  lemma {:induction false} PickByPosition<T>(items: seq<T>, chosen: set<nat>)
    ensures |Pick(items, chosen)| == |Positions(|items|, chosen)|
    ensures forall k :: 0 <= k < |Pick(items, chosen)| && Positions(|items|, chosen)[k] < |items| ==>
      Pick(items, chosen)[k] == items[Positions(|items|, chosen)[k]]
  {
    PositionsAscend(|items|, chosen);
    if items == [] {
    } else {
      PickByPosition(items[..|items| - 1], chosen);
      PositionsAscend(|items| - 1, chosen);
    }
  }

  lemma {:induction false} PickHas<T>(items: seq<T>, chosen: set<nat>, x: T)
    ensures x in Pick(items, chosen) <==> exists i: nat :: i < |items| && i in chosen && items[i] == x
  {
    if items == [] {
    } else {
      var n := |items| - 1;
      PickHas(items[..n], chosen, x);
      if x in Pick(items[..n], chosen) {
        var i: nat :| i < n && i in chosen && items[..n][i] == x;
        assert items[i] == x;
      }
      if i: nat :| i < |items| && i in chosen && items[i] == x {
        if i < n { assert items[..n][i] == x; }
      }
    }
  }

  /** The positions of the events a selection sends. */
  ghost function Sent(events: seq<Event>, from: nat, cutoff: nat, facts: set<nat>): seq<nat>
    requires Exchanges(events).Scanning?
  {
    Positions(|events|, Chosen(MergedExchanges(events), |events|, cutoff, facts, from))
  }

  /** A sound selection sends, in journal order, the events at `Sent` and no others, each
      with the text it renders to. */
  lemma SelectionOrder(codec: Codec, events: seq<Event>, head: Cursor, trigger: Trigger, limit: nat, start: nat,
          from: nat, cutoff: nat, facts: set<nat>, s: Selection)
    requires Sound(codec, events, head, trigger, limit, start, from, cutoff, facts, s)
    ensures var sent := Sent(events, from, cutoff, facts);
      && |s.sources| == |sent|
      && (forall k :: 0 <= k < |sent| ==>
        && sent[k] < |events| && s.sources[k].id == events[sent[k]].id
        && codec.render(events[sent[k]]) == Some(s.sources[k].text))
      && (forall j, k :: 0 <= j < k < |sent| ==> sent[j] < sent[k])
  {
    var chosen := Chosen(MergedExchanges(events), |events|, cutoff, facts, from);
    var rendered := RenderAll(codec, events).value;
    PositionsAscend(|events|, chosen);
    PickByPosition(rendered, chosen);
    RenderedEach(codec, events);
    assert s.sources == Pick(rendered, chosen);
  }

  lemma MustBeSent(ranges: seq<Range>, n: nat, cutoff: nat, facts: set<nat>, from: nat, i: nat)
    requires i < n && (from <= i || i in facts)
    ensures i in Chosen(ranges, n, cutoff, facts, from)
  {
    GroupOfFacts(ranges, i);
    if !(from <= i <= cutoff) {
      assert Inside(GroupOf(ranges, i), i) && (i > cutoff || i in facts);
    }
  }

  lemma WholeGroupChosen(ranges: seq<Range>, n: nat, cutoff: nat, facts: set<nat>, from: nat, i: nat, j: nat)
    requires Disjoint(ranges) && forall k :: 0 <= k < |ranges| ==> ranges[k].result < n
    requires SafeStart(ranges, from) && SafeCut(ranges, cutoff)
    requires i in Chosen(ranges, n, cutoff, facts, from) && Inside(GroupOf(ranges, i), j)
    ensures j in Chosen(ranges, n, cutoff, facts, from)
  {
    GroupOfFacts(ranges, i);
    RequiredTogether(ranges, n, cutoff, facts, i, j);
    GroupRespectsCut(ranges, cutoff, i);
    GroupRespectsCut(ranges, from - 1, i);
  }

  /** What is sent includes the range, the open safety facts and the retained suffix,
      each with its whole exchange. */
  lemma SelectionContents(events: seq<Event>, head: Cursor, from: nat, cutoff: nat, facts: set<nat>)
    requires SelectedRange(events, head, from, cutoff) && forall i: nat :: i in facts <==> SafetyFacts.Active(events, i)
    ensures var sent := Sent(events, from, cutoff, facts);
      && (forall i: nat :: i < |events| && (from <= i || SafetyFacts.Active(events, i)) ==> i in sent)
      && (forall i: nat, j: nat :: i in sent && Inside(GroupOf(MergedExchanges(events), i), j) ==> j in sent)
  {
    var ranges, n := MergedExchanges(events), |events|;
    ProjectionFacts(events, head);
    MergedExchangesFacts(events);
    PositionsAscend(n, Chosen(ranges, n, cutoff, facts, from));
    var sent := Sent(events, from, cutoff, facts);
    forall i: nat | i < n && (from <= i || SafetyFacts.Active(events, i)) ensures i in sent {
      MustBeSent(ranges, n, cutoff, facts, from, i);
    }
    forall i: nat, j: nat | i in sent && Inside(GroupOf(ranges, i), j) ensures j in sent {
      WholeGroupChosen(ranges, n, cutoff, facts, from, i, j);
    }
  }

  /** The identities kept are those of the last four events, of anything else behind the
      range, and of the open safety facts. */
  lemma SelectionRetains(codec: Codec, events: seq<Event>, head: Cursor, trigger: Trigger, limit: nat, start: nat,
          from: nat, cutoff: nat, facts: set<nat>, s: Selection, id: string)
    requires Sound(codec, events, head, trigger, limit, start, from, cutoff, facts, s)
    ensures cutoff + 4 < |events|
    ensures id in s.retained <==>
      exists i: nat :: i < |events| && (i > cutoff || SafetyFacts.Active(events, i)) && events[i].id == id
  {
    var kept := set i: nat | i < |events| && (i > cutoff || i in facts);
    PickHas(EventIds(events), kept, id);
    if id in s.retained {
      var i: nat :| i < |events| && i in kept && EventIds(events)[i] == id;
      assert events[i].id == id;
    }
    if i: nat :| i < |events| && (i > cutoff || SafetyFacts.Active(events, i)) && events[i].id == id {
      assert i in kept && EventIds(events)[i] == id;
    }
  }

  // ---- the summary request ----

  predicate ValidSelection(codec: Codec, s: Selection) {
    && s.from.Valid() && s.through.Valid()
    && s.from.journal.Session? && s.from.journal == s.through.journal
    && s.from.commitSeq <= s.through.commitSeq
    && s.summarized != [] && s.sources != []
    && codec.digestOf(s.sources) == Some(s.digest)
  }

  /** `BuildSummaryRequest` accepts the selection, with an optional prior summary. */
  predicate BuildsRequest(codec: Codec, s: Selection, prior: Option<Source>) {
    && ValidSelection(codec, s)
    && (prior.Some? ==> prior.value.id != "" && prior.value.text != "")
    && var size := codec.encodedSize(s.from, s.through, s.digest, prior, s.sources);
      size.Some? && size.value <= EffectiveLimit(s.limit)
  }

  /** Whatever `Select` returns can be sent, as long as no prior summary is added. */
  lemma SelectionBuilds(codec: Codec, events: seq<Event>, head: Cursor, trigger: Trigger, manualInputBytes: int,
          start: nat, from: nat, cutoff: nat, facts: set<nat>, s: Selection)
    requires Sound(codec, events, head, trigger, EffectiveLimit(manualInputBytes), start, from, cutoff, facts, s)
    ensures BuildsRequest(codec, s, None)
    ensures s.summarized == EventIds(events[from..cutoff + 1]) && s.limit == EffectiveLimit(manualInputBytes)
    ensures s.from == events[from].At() && s.through == events[cutoff].At() && s.trigger == trigger
    ensures s.limit == if manualInputBytes > 0 then manualInputBytes else 256 * 1024
    ensures var size := codec.encodedSize(s.from, s.through, s.digest, None, s.sources);
      size.Some? && size.value <= s.limit
  {
    ProjectionFacts(events, head);
    SelectionOrder(codec, events, head, trigger, EffectiveLimit(manualInputBytes), start, from, cutoff, facts, s);
    SelectionContents(events, head, from, cutoff, facts);
    assert from in Sent(events, from, cutoff, facts);
    assert IdentifiedBy(events[from], head) && IdentifiedBy(events[cutoff], head);
  }

  // ---- repeated compaction ----

  /** Event `k` activates a range that `Select` could have chosen from the first `n`
      events, and no other compaction came in between. */
  ghost predicate ActivatedFrom(events: seq<Event>, k: nat, n: nat, head: Cursor, from: nat, cutoff: nat) {
    && n <= k < |events| && events[k].body.Compaction?
    && events[k].journal == head.journal
    && SelectedRange(events[..n], head, from, cutoff)
    && events[k].body.from == events[from].At() && events[k].body.through == events[cutoff].At()
    && forall j :: n <= j < k ==> !events[j].body.Compaction?
  }

  ghost predicate ActivatedBySelect(events: seq<Event>, k: nat) {
    exists n: nat, head: Cursor, from: nat, cutoff: nat :: ActivatedFrom(events, k, n, head, from, cutoff)
  }

  /** The bounds of an activated range, in order and before the activation. */
  lemma ActivatedBounds(events: seq<Event>, k: nat, n: nat, head: Cursor, from: nat, cutoff: nat)
    requires Increasing(events) && ActivatedFrom(events, k, n, head, from, cutoff)
    ensures from <= cutoff < n && events[from].sequence <= events[cutoff].sequence < events[k].sequence
    ensures events[from].At().Valid() && events[cutoff].At().Valid()
    ensures events[from].journal == events[cutoff].journal == head.journal
  {
    var prefix := events[..n];
    ProjectionFacts(prefix, head);
    assert IdentifiedBy(prefix[from], head) && IdentifiedBy(prefix[cutoff], head);
    assert prefix[from] == events[from] && prefix[cutoff] == events[cutoff];
  }

  lemma EarlierIsRecognised(events: seq<Event>, j: nat, m: nat, h: Cursor, f: nat, c: nat, prefix: seq<Event>)
    requires Increasing(events) && ActivatedFrom(events, j, m, h, f, c)
    requires j < |prefix| <= |events| && prefix == events[..|prefix|]
    ensures Recognised(prefix, h.journal, j)
  {
    ActivatedBounds(events, j, m, h, f, c);
    assert prefix[j] == events[j] && prefix[c] == events[c];
    assert Locates(prefix, c, prefix[j].body.through);
  }

  lemma LaterIsFresh(events: seq<Event>, j: nat, k: nat, n: nat, head: Cursor, from: nat, cutoff: nat)
    requires ActivatedFrom(events, k, n, head, from, cutoff) && j < n && Recognised(events[..n], head.journal, j)
    ensures events[j].body.through.commitSeq < events[from].sequence
  {
    assert events[..n][j] == events[j] && events[..n][from] == events[from];
  }

  /** Over any run of select-then-append the summarised ranges are disjoint and ascend. */
  lemma CompactionsAscend(events: seq<Event>, j: nat, k: nat)
    requires Increasing(events)
    requires j < k < |events| && events[j].body.Compaction? && events[k].body.Compaction?
    requires events[j].journal == events[k].journal
    requires ActivatedBySelect(events, j) && ActivatedBySelect(events, k)
    ensures events[j].body.from.commitSeq <= events[j].body.through.commitSeq
      < events[k].body.from.commitSeq <= events[k].body.through.commitSeq
  {
    var m: nat, h: Cursor, f: nat, c: nat :| ActivatedFrom(events, j, m, h, f, c);
    var n: nat, head: Cursor, from: nat, cutoff: nat :| ActivatedFrom(events, k, n, head, from, cutoff);
    assert j < n;
    ActivatedBounds(events, j, m, h, f, c);
    ActivatedBounds(events, k, n, head, from, cutoff);
    EarlierIsRecognised(events, j, m, h, f, c, events[..n]);
    LaterIsFresh(events, j, k, n, head, from, cutoff);
  }
}
