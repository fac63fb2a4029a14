/** Which tool messages the selector's ranges keep with the message they answer. */
module Coverage {
  import opened Journals
  import opened Transcript
  import opened ToolIntents
  import opened ExchangeScan
  import opened SafeBoundaries

  // ---- what an exchange still waits for, told from the messages alone ----

  /** The calls an assistant message opens; other events open none. */
  function CallsOf(e: Event): seq<string> {
    if !e.body.Assistant? then []
    else
      var m := MergeIntents(e.body.blocks, e.body.intents, true);
      if m.BadIntent? then [] else MergedCalls(e.body.blocks, m.extra)
  }

  function CallIds(results: seq<ToolResult>): set<string> { set r | r in results :: r.callId }

  /** Calls of the last user or assistant message before `i` that no result before `i` names. */
  function Awaited(events: seq<Event>, i: nat): set<string>
    requires i <= |events|
  {
    if i == 0 then {}
    else
      var e := events[i - 1];
      if e.IsBoundary() then set c | c in CallsOf(e)
      else if e.body.ToolMessage? then Awaited(events, i - 1) - CallIds(e.body.results)
      else Awaited(events, i - 1)
  }

  /** Where the exchange open at `k` ends: the next user or assistant message, or the end. */
  function NextBoundary(events: seq<Event>, k: nat): (j: nat)
    requires k <= |events|
    ensures k <= j <= |events|
    ensures j == |events| || events[j].IsBoundary()
    ensures forall i :: k <= i < j ==> !events[i].IsBoundary()
    decreases |events| - k
  {
    if k == |events| || events[k].IsBoundary() then k else NextBoundary(events, k + 1)
  }

  /** The exchange `k` belongs to is never answered in full. */
  predicate NeverComplete(events: seq<Event>, k: nat)
    requires k <= |events|
  {
    Awaited(events, NextBoundary(events, k)) != {}
  }

  /** A partial answer comes before its turn's last terminal event. */
  predicate InTime(events: seq<Event>, k: nat)
    requires k < |events|
  {
    Opener(events, k).Some? && NeverComplete(events, k) ==>
      var t := TerminalIndex(events, events[Opener(events, k).value].turn);
      t.Some? && k < t.value
  }

  /** The range of its own exchange reaches the tool message at `k`. */
  ghost predicate Covered(events: seq<Event>, k: nat)
    requires k < |events| && Exchanges(events).Scanning?
  {
    && Opener(events, k).Some?
    && exists r :: r in Exchanges(events).ranges && r.assistant == Opener(events, k).value && k <= r.result
  }

  // ---- the scan's pending record is what is awaited ----

  lemma {:induction false} ResolveStrikes(ordered: seq<string>, remaining: set<string>, results: seq<ToolResult>)
    ensures var r := Resolve(ordered, remaining, results);
      r.Resolved? ==> r.remaining == remaining - CallIds(results)
  {
    if results == [] {
    } else {
      var n := |results| - 1;
      ResolveStrikes(ordered, remaining, results[..n]);
      assert results == results[..n] + [results[n]];
      assert CallIds(results) == CallIds(results[..n]) + {results[n].callId};
    }
  }

  lemma {:induction false} PendingIsAwaited(events: seq<Event>, i: nat)
    requires i <= |events| && Scan(events, i).Scanning?
    ensures var p := Scan(events, i).pending;
      Awaited(events, i) == if p.Some? then p.value.remaining else {}
  {
    if i == 0 {
    } else {
      PendingIsAwaited(events, i - 1);
      var s, e := Scan(events, i - 1), events[i - 1];
      if e.body.ToolMessage? {
        ResolveStrikes(s.pending.value.ordered, s.pending.value.remaining, e.body.results);
      }
    }
  }

  // ---- every exchange has one range ----

  /** Ranges begin at ascending messages, all before `i`. */
  ghost predicate BeginBefore(ranges: seq<Range>, i: nat) {
    && (forall k :: 0 <= k < |ranges| ==> ranges[k].assistant < i)
    && (forall j, k :: 0 <= j < k < |ranges| ==> ranges[j].assistant < ranges[k].assistant)
  }

  ghost predicate Ascending(s: ScanState, i: nat) {
    s.Scanning? ==>
      && BeginBefore(s.ranges, i)
      && (s.pending.Some? ==> s.pending.value.assistant < i && BeginBefore(s.ranges, s.pending.value.assistant))
  }

  lemma FlushAscends(events: seq<Event>, s: ScanState, i: nat)
    requires Ascending(s, i)
    ensures Ascending(Flush(events, s), i)
  {
  }

  lemma AnswerAscends(s: ScanState, i: nat, results: seq<ToolResult>)
    requires s.Scanning? && Ascending(s, i)
    ensures Ascending(Answer(i, s, results), i)
  {
  }

  lemma AssistantAscends(events: seq<Event>, i: nat, s: ScanState)
    requires i < |events| && events[i].body.Assistant? && s.Scanning? && s.pending.None? && Ascending(s, i)
    ensures Ascending(ScanStep(events, i, s), i + 1)
  {
    assert Flush(events, s) == s;
  }

  lemma FlushedStep(events: seq<Event>, i: nat, s: ScanState)
    requires i < |events| && events[i].IsBoundary() && s.Scanning?
    ensures var f := Flush(events, s);
      ScanStep(events, i, s) == if f.Rejected? then f else ScanStep(events, i, f)
  {
  }

  lemma BoundaryAscends(events: seq<Event>, i: nat, s: ScanState)
    requires i < |events| && events[i].IsBoundary() && s.Scanning? && Ascending(s, i)
    ensures Ascending(ScanStep(events, i, s), i + 1)
  {
    var f := Flush(events, s);
    FlushAscends(events, s, i);
    FlushedStep(events, i, s);
    if events[i].body.Assistant? && f.Scanning? { AssistantAscends(events, i, f); }
  }

  lemma StepAscends(events: seq<Event>, i: nat, s: ScanState)
    requires i < |events| && s.Scanning? && Ascending(s, i)
    ensures Ascending(ScanStep(events, i, s), i + 1)
  {
    if events[i].IsBoundary() {
      BoundaryAscends(events, i, s);
    } else if events[i].body.ToolMessage? {
      AnswerAscends(s, i, events[i].body.results);
    }
  }

  lemma {:induction false} RangesAscend(events: seq<Event>, i: nat)
    requires i <= |events|
    ensures Ascending(Scan(events, i), i)
  {
    if i == 0 {
    } else {
      RangesAscend(events, i - 1);
      if Scan(events, i - 1).Scanning? { StepAscends(events, i - 1, Scan(events, i - 1)); }
    }
  }

  /** An exchange has one range only. */
  lemma OneRange(events: seq<Event>, q: Range, r: Range)
    requires Exchanges(events).Scanning?
    requires q in Exchanges(events).ranges && r in Exchanges(events).ranges && q.assistant == r.assistant
    ensures q == r
  {
    RangesAscend(events, |events|);
    FlushAscends(events, Scan(events, |events|), |events|);
  }

  // ---- the range of one exchange ----

  lemma {:induction false} ScannedBefore(events: seq<Event>, i: nat, j: nat)
    requires i <= j <= |events| && Scan(events, j).Scanning?
    ensures Scan(events, i).Scanning? && Scan(events, i).ranges <= Scan(events, j).ranges
    decreases j
  {
    if i == j {
    } else {
      ScannedBefore(events, i, j - 1);
    }
  }

  lemma {:induction false} OpenerStays(events: seq<Event>, k: nat, j: nat)
    requires k <= j <= |events| && forall i :: k <= i < j ==> !events[i].IsBoundary()
    ensures Opener(events, j) == Opener(events, k)
  {
    if k == j {
    } else {
      OpenerStays(events, k, j - 1);
    }
  }

  /** From an answer on, its exchange is open or has a range that reaches the answer. */
  ghost predicate Settled(s: ScanState, a: nat, k: nat)
    requires s.Scanning?
  {
    if s.pending.Some? then s.pending.value.assistant == a
    else s.ranges != [] && s.ranges[|s.ranges| - 1].assistant == a && k <= s.ranges[|s.ranges| - 1].result
  }

  lemma {:induction false} SettledAfter(events: seq<Event>, k: nat, i: nat)
    requires k < i <= |events| && events[k].IsToolMessage() && Scan(events, i).Scanning?
    requires forall j :: k <= j < i ==> !events[j].IsBoundary()
    ensures Opener(events, k).Some? && Settled(Scan(events, i), Opener(events, k).value, k)
  {
    PendingStaysOk(events, i - 1);
    ScannedBefore(events, i - 1, i);
    if k == i - 1 {
    } else {
      SettledAfter(events, k, i - 1);
    }
  }

  /** Closing the exchange at its boundary leaves its range behind for good. */
  lemma FlushedForGood(events: seq<Event>, j: nat)
    requires j <= |events| && Exchanges(events).Scanning? && (j == |events| || events[j].IsBoundary())
    ensures Flush(events, Scan(events, j)).Scanning?
    ensures forall r :: r in Flush(events, Scan(events, j)).ranges ==> r in Exchanges(events).ranges
  {
    var n := |events|;
    if j == n {
    } else {
      ScannedBefore(events, j + 1, n);
      assert Flush(events, Scan(events, j)).ranges <= Scan(events, j + 1).ranges;
    }
  }

  /** Closing an exchange that was answered leaves its range last. */
  lemma FlushSettles(events: seq<Event>, j: nat, k: nat, a: nat)
    requires k < |events| && j <= |events| && Scan(events, j).Scanning? && Settled(Scan(events, j), a, k)
    requires Flush(events, Scan(events, j)).Scanning?
    ensures var ranges := Flush(events, Scan(events, j)).ranges;
      && ranges != [] && ranges[|ranges| - 1].assistant == a
      && (Scan(events, j).pending.None? ==> k <= ranges[|ranges| - 1].result)
      && (Scan(events, j).pending.Some? ==>
        TerminalIndex(events, Scan(events, j).pending.value.turn) == Some(ranges[|ranges| - 1].result))
  {
  }

  /** The range of an answer's exchange: it reaches the last answer, or else the
      turn's last terminal event. */
  lemma RangeOfAnswer(events: seq<Event>, k: nat) returns (r: Range)
    requires k < |events| && events[k].IsToolMessage() && Exchanges(events).Scanning?
    ensures Opener(events, k).Some?
    ensures r in Exchanges(events).ranges && r.assistant == Opener(events, k).value
    ensures !NeverComplete(events, k) ==> k <= r.result
    ensures NeverComplete(events, k) ==>
      TerminalIndex(events, events[r.assistant].turn) == Some(r.result)
  {
    var j := NextBoundary(events, k);
    FlushedForGood(events, j);
    SettledAfter(events, k, j);
    PendingIsAwaited(events, j);
    PendingStaysOk(events, j);
    FlushSettles(events, j, k, Opener(events, k).value);
    var ranges := Flush(events, Scan(events, j)).ranges;
    r := ranges[|ranges| - 1];
    assert r in ranges;
  }

  /** A tool message of an accepted journal shares a range with the message it answers
      exactly if its exchange is answered in full or it comes before the turn's last
      terminal event. */
  lemma CoveredIff(events: seq<Event>, k: nat)
    requires k < |events| && events[k].IsToolMessage() && Exchanges(events).Scanning?
    ensures Covered(events, k) <==> InTime(events, k)
  {
    var r := RangeOfAnswer(events, k);
    if Covered(events, k) {
      var q :| q in Exchanges(events).ranges && q.assistant == Opener(events, k).value && k <= q.result;
      OneRange(events, q, r);
      if NeverComplete(events, k) { assert events[r.result].body.TurnTerminal?; }
    }
  }

  /** All partial answers come before their turn's last terminal event. */
  ghost predicate AnswersInTime(events: seq<Event>) {
    forall k :: 0 <= k < |events| && events[k].IsToolMessage() ==> InTime(events, k)
  }

  /** An accepted journal has a tool message outside its exchange's range exactly if
      some partial answer comes after the last terminal event of its turn. */
  lemma AllCoveredIff(events: seq<Event>)
    requires Exchanges(events).Scanning?
    ensures (forall k :: 0 <= k < |events| && events[k].IsToolMessage() ==> Covered(events, k))
      <==> AnswersInTime(events)
  {
    forall k | 0 <= k < |events| && events[k].IsToolMessage()
      ensures Covered(events, k) <==> InTime(events, k)
    {
      CoveredIff(events, k);
    }
  }

  // ---- safe cuts ----

  lemma CutBehind(ranges: seq<Range>, m: nat)
    requires Disjoint(ranges) && m < |ranges|
    ensures SafeCut(ranges, ranges[m].result)
  {
  }

  /** Cuts that keep `a` and `k` on one side are all there are exactly if one merged
      range holds both. */
  lemma TogetherIff(ranges: seq<Range>, a: nat, k: nat)
    requires Disjoint(ranges) && a < k
    ensures (forall c: int :: SafeCut(ranges, c) ==> (a <= c <==> k <= c)) <==> Within(Range(a, k), ranges)
  {
    if Within(Range(a, k), ranges) {
      var m :| 0 <= m < |ranges| && ranges[m].assistant <= a && k <= ranges[m].result;
      forall c: int | SafeCut(ranges, c) ensures a <= c <==> k <= c { assert !Splits(ranges[m], c); }
    } else if m :| 0 <= m < |ranges| && Splits(ranges[m], a) {
      CutBehind(ranges, m);
      assert ranges[m].assistant <= Range(a, k).assistant;
      assert a <= ranges[m].result < k;
    } else {
      assert SafeCut(ranges, a);
    }
  }

  lemma AnswerWithin(events: seq<Event>, k: nat)
    requires Increasing(events) && Exchanges(events).Scanning?
    requires k < |events| && events[k].IsToolMessage() && InTime(events, k)
    ensures Opener(events, k).Some?
    ensures Within(Range(Opener(events, k).value, k), MergedRanges(Exchanges(events).ranges))
  {
    var ranges := Exchanges(events).ranges;
    CoveredIff(events, k);
    ExchangesInBounds(events);
    MergingIsSound(ranges);
    var r :| r in ranges && r.assistant == Opener(events, k).value && k <= r.result;
    assert Within(r, MergedRanges(ranges));
  }

  /** No safe cut parts a tool message that comes in time from the message it answers. */
  lemma SafeCutsPartNoAnswer(events: seq<Event>, k: nat, c: int)
    requires Increasing(events) && Exchanges(events).Scanning?
    requires k < |events| && events[k].IsToolMessage() && InTime(events, k)
    requires SafeCut(MergedRanges(Exchanges(events).ranges), c)
    ensures Opener(events, k).Some? && (Opener(events, k).value <= c <==> k <= c)
  {
    AnswerWithin(events, k);
    ExchangesInBounds(events);
    MergingIsSound(Exchanges(events).ranges);
    TogetherIff(MergedRanges(Exchanges(events).ranges), Opener(events, k).value, k);
  }

  /** `toolExchangeRanges`: the journal is refused as the scan refuses it; otherwise the
      merged ranges are disjoint and hold every answer given in time with its message. */
  method ToolExchangeRanges(events: seq<Event>) returns (fault: Option<Fault>, ranges: seq<Range>)
    ensures var x := Exchanges(events);
      if x.Rejected? then fault == Some(x.fault) else fault == None && ranges == MergedRanges(x.ranges)
    ensures fault.None? && Increasing(events) ==> Disjoint(ranges)
    ensures fault.None? && Increasing(events) ==>
      forall k :: 0 <= k < |events| && events[k].IsToolMessage() && InTime(events, k) ==>
      Opener(events, k).Some? && Within(Range(Opener(events, k).value, k), ranges)
  {
    var scanned;
    fault, scanned := ScanExchanges(events);
    if fault.Some? {
      return fault, [];
    }
    ranges := MergeToolExchangeRanges(scanned);
    if Increasing(events) {
      ExchangesInBounds(events);
      MergingIsSound(scanned);
      forall k | 0 <= k < |events| && events[k].IsToolMessage() && InTime(events, k)
        ensures Opener(events, k).Some? && Within(Range(Opener(events, k).value, k), ranges)
      {
        AnswerWithin(events, k);
      }
    }
  }

  // ---- a partial answer after the turn has ended ----

  const LATE_CALLS := [
    Use(ToolUse("c1", "tool", WellFormed("{}"))),
    Use(ToolUse("c2", "tool", WellFormed("{}")))
  ]

  const LATE_RESULTS := [ToolResult("c1", "ok", true)]

  /** A message with two calls, the end of its turn, and one answer. */
  function LateAnswer(journal: JournalRef): seq<Event> {
    [Event("e1", journal, "t", 1, "x1", false, Assistant(LATE_CALLS, [])),
     Event("e2", journal, "t", 3, "x2", false, TurnTerminal),
     Event("e3", journal, "t", 5, "x3", false, ToolMessage(LATE_RESULTS))]
  }

  lemma LateCalls()
    ensures MergeIntents(LATE_CALLS, [], true).Merge? && MergeIntents(LATE_CALLS, [], false).Merge?
    ensures MergeIntents(LATE_CALLS, [], true).extra == MergeIntents(LATE_CALLS, [], false).extra == []
    ensures LATE_CALLS + UseBlocks([]) == LATE_CALLS
    ensures MergedCalls(LATE_CALLS, []) == ToolCallIds(LATE_CALLS) == ["c1", "c2"]
  {
    var b := LATE_CALLS;
    assert b[..1][..0] == [] && b[..1] == [b[0]];
    assert ModernPass(b[..1], true) == ModernStep(ModernPass(b[..1][..0], true), b[0], true);
    assert ModernPass(b[..1], false) == ModernStep(ModernPass(b[..1][..0], false), b[0], false);
    assert ToolCallIds(b[..1]) == ToolCallIds(b[..1][..0]) + BlockCalls(b[0]);
    MergedCallsNone(b);
  }

  lemma LateResolution()
    ensures Resolve(["c1", "c2"], {"c1", "c2"}, LATE_RESULTS) == Resolved({"c2"})
    ensures (set c | c in ["c1", "c2"]) == {"c1", "c2"}
  {
    var r := LATE_RESULTS;
    assert r[..0] == [];
    assert Resolve(["c1", "c2"], {"c1", "c2"}, r) ==
      ResolveOne(["c1", "c2"], Resolve(["c1", "c2"], {"c1", "c2"}, r[..0]), "c1");
    assert {"c1", "c2"} - {"c1"} == {"c2"};
  }

  function LatePending(): Pending { Pending(0, "t", 1, ["c1", "c2"], {"c2"}) }

  lemma LateStep(i: nat, s: ScanState)
    requires s == Scanning(Some(LatePending().(remaining := {"c1", "c2"})), [])
    ensures Answer(i, s, LATE_RESULTS) == Scanning(Some(LatePending()), [])
  {
    LateResolution();
    assert ValidResults(LATE_RESULTS);
    assert "c2" in {"c2"};
  }

  /** After the third event the exchange is still open and its turn has ended. */
  lemma LateScan(events: seq<Event>, journal: JournalRef)
    requires |events| >= 3 && events[..3] == LateAnswer(journal)
    ensures Scan(events, 3) == Scanning(Some(LatePending()), [])
  {
    assert events[0] == events[..3][0] && events[1] == events[..3][1] && events[2] == events[..3][2];
    LateCalls();
    LateResolution();
    assert Scan(events, 1) == ScanStep(events, 0, Scan(events, 0));
    assert Scan(events, 2) == Scan(events, 1) == Scanning(Some(LatePending().(remaining := {"c1", "c2"})), []);
    LateStep(2, Scan(events, 2));
  }

  /** The condition can fail: this journal is accepted, its one range ends at the
      terminal event, and the safe cut behind it parts the answer from the calls. */
  lemma LateAnswerIsParted(journal: JournalRef)
    ensures var events := LateAnswer(journal);
      && Exchanges(events) == Scanning(None, [Range(0, 1)])
      && Opener(events, 2) == Some(0) && !InTime(events, 2) && !Covered(events, 2)
      && SafeCut(MergedRanges(Exchanges(events).ranges), 1)
  {
    var events := LateAnswer(journal);
    assert events[..3] == events;
    LateScan(events, journal);
    assert TerminalIndex(events[..1], "t") == None && events[..2][..1] == events[..1];
    assert TerminalIndex(events[..2], "t") == Some(1) && events[..3][..2] == events[..2];
    assert TerminalIndex(events, "t") == Some(1);
    assert Opener(events, 1) == Some(0) && Opener(events, 2) == Opener(events, 1);
    CoveredIff(events, 2);
  }
}
