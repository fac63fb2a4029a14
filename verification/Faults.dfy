/** Why a transcript is refused: each reason the two trackers give, told by the message and
    the exchange it meets. */
module Faults {
  import opened Journals
  import opened Transcript
  import opened ToolIntents
  import opened ExchangeScan
  import opened Coverage
  import opened Adaptation
  import opened Agreement
  import opened Results

  /** Result `k` is the first to repeat a call of the same message. */
  predicate FirstRepeat(results: seq<ToolResult>, k: int) {
    && 0 <= k < |results|
    && (exists j :: 0 <= j < k && results[j].callId == results[k].callId)
    && forall i, j :: 0 <= i < j < k ==> results[i].callId != results[j].callId
  }

  predicate AllDifferent(results: seq<ToolResult>) {
    forall i, j :: 0 <= i < j < |results| ==> results[i].callId != results[j].callId
  }

  /** Result `k` is the first the exchange does not wait for. */
  predicate FirstStray(results: seq<ToolResult>, awaited: set<string>, k: int) {
    && 0 <= k < |results| && results[k].callId !in awaited
    && forall j :: 0 <= j < k ==> results[j].callId in awaited
  }

  lemma DifferentSnoc(results: seq<ToolResult>)
    requires results != []
    ensures var n := |results| - 1;
      AllDifferent(results) <==>
        AllDifferent(results[..n]) && !exists k :: 0 <= k < n && results[k].callId == results[n].callId
  {
    var n := |results| - 1;
    assert forall i :: 0 <= i < n ==> results[..n][i] == results[i];
  }

  lemma RepeatStays(results: seq<ToolResult>, n: nat, k: nat)
    requires n <= |results| && FirstRepeat(results[..n], k)
    ensures FirstRepeat(results, k) && results[..n][k] == results[k]
  {
    assert forall i :: 0 <= i < n ==> results[..n][i] == results[i];
    var j :| 0 <= j < k && results[..n][j].callId == results[..n][k].callId;
    assert results[j].callId == results[k].callId;
  }

  lemma {:induction false} DuplicateIff(results: seq<ToolResult>)
    ensures FirstDuplicate(results).None? <==> AllDifferent(results)
    ensures FirstDuplicate(results).Some? ==>
      exists k :: FirstRepeat(results, k) && results[k].callId == FirstDuplicate(results).value
  {
    if results == [] {
    } else {
      var n := |results| - 1;
      DuplicateIff(results[..n]);
      DifferentSnoc(results);
      if FirstDuplicate(results[..n]).Some? {
        var k :| FirstRepeat(results[..n], k) && results[..n][k].callId == FirstDuplicate(results[..n]).value;
        RepeatStays(results, n, k);
      } else if FirstDuplicate(results).Some? {
        assert forall i, j :: 0 <= i < j < n ==>
          results[..n][i].callId == results[i].callId && results[..n][j].callId == results[j].callId;
        assert FirstRepeat(results, n);
      }
    }
  }

  /** The fault of a result nobody waits for: answered before, or never asked. */
  function Stray(ordered: seq<string>, call: string): Fault {
    if call in ordered then Duplicate(call) else Unknown(call)
  }

  predicate AllAwaited(results: seq<ToolResult>, awaited: set<string>) {
    forall k :: 0 <= k < |results| ==> results[k].callId in awaited
  }

  lemma {:induction false} ResolveAwaited(ordered: seq<string>, remaining: set<string>, results: seq<ToolResult>)
    requires AllDifferent(results) && AllAwaited(results, remaining)
    ensures Resolve(ordered, remaining, results) == Resolved(remaining - CallIds(results))
  {
    if results == [] {
      assert CallIds(results) == {};
    } else {
      var n := |results| - 1;
      var front := results[..n];
      DifferentSnoc(results);
      ResolveAwaited(ordered, remaining, front);
      assert results == front + [results[n]];
      assert CallIds(results) == CallIds(front) + {results[n].callId};
      assert forall r :: r in front ==> r.callId != results[n].callId;
      assert results[n].callId !in CallIds(front);
    }
  }

  /** Results are struck off up to the first that is not awaited. */
  lemma {:induction false} ResolveStray(ordered: seq<string>, remaining: set<string>, results: seq<ToolResult>,
          k: nat)
    requires AllDifferent(results) && FirstStray(results, remaining, k)
    ensures Resolve(ordered, remaining, results) == Faulted(Stray(ordered, results[k].callId))
  {
    var n := |results| - 1;
    var front := results[..n];
    DifferentSnoc(results);
    if k == n {
      ResolveAwaited(ordered, remaining, front);
    } else {
      ResolveStray(ordered, remaining, front, k);
    }
  }

  lemma SomeStray(results: seq<ToolResult>, awaited: set<string>) returns (k: nat)
    requires exists j :: 0 <= j < |results| && results[j].callId !in awaited
    ensures FirstStray(results, awaited, k)
  {
    k := 0;
    while results[k].callId in awaited
      invariant k < |results| && forall j :: 0 <= j < k ==> results[j].callId in awaited
      invariant exists j :: k <= j < |results| && results[j].callId !in awaited
      decreases |results| - k
    {
      k := k + 1;
    }
  }

  /** Results an open exchange takes as they are. */
  predicate Taken(results: seq<ToolResult>, p: Option<Pending>) {
    ValidResults(results) && p.Some? && AllAwaited(results, p.value.remaining)
  }

  /** Why results are not taken: a call twice, a malformed message, nothing open, or the
      first result nobody waits for, answered before or never asked. */
  ghost predicate RefusedFor(results: seq<ToolResult>, p: Option<Pending>, f: Fault) {
    if !AllDifferent(results) then exists k :: FirstRepeat(results, k) && f == Duplicate(results[k].callId)
    else if !ValidResults(results) then f == InvalidMessage
    else if p.None? then f == Late(results[0].callId)
    else
      exists k :: FirstStray(results, p.value.remaining, k) && f == Stray(p.value.ordered, results[k].callId)
  }

  lemma ItemIsValid(e: Event, count: nat, k: nat, r: ToolResult)
    requires r.Valid() && k < count
    ensures ResultSource(e, count, k, r).source.Valid() <==> !(e.id == "" && count == 1)
  {
    var item := ResultSource(e, count, k, r);
    assert [Outcome(r)][0].Valid();
    if count > 1 { assert item.source.id[|e.id|] == ':'; }
  }

  /** Taking results one by one fails as striking their calls off does. */
  lemma {:induction false} TakeFaultIs(e: Event, results: seq<ToolResult>, k: nat, ordered: seq<string>,
          remaining: set<string>)
    requires k <= |results| && forall j :: 0 <= j < |results| ==> results[j].Valid()
    requires !(e.id == "" && |results| == 1)
    ensures var t := Take(e, results, k, ordered, remaining);
      match Resolve(ordered, remaining, results[..k]) {
        case Faulted(f) => t == TakeFault(Structural(f))
        case Resolved(left) => t.Took? && t.remaining == left
      }
  {
    if k == 0 {
    } else {
      TakeFaultIs(e, results, k - 1, ordered, remaining);
      assert results[..k][..k - 1] == results[..k - 1];
      ItemIsValid(e, |results|, k - 1, results[k - 1]);
    }
  }

  lemma OnlyOne(e: Event, results: seq<ToolResult>, ordered: seq<string>, remaining: set<string>)
    requires |results| == 1 && results[0].Valid() && e.id == ""
    ensures Take(e, results, 1, ordered, remaining) ==
      match Resolve(ordered, remaining, results) {
        case Faulted(f) => TakeFault(Structural(f))
        case Resolved(_) => TakeFault(InvalidSource(""))
      }
  {
    assert results[..0] == [] && results == [results[0]];
    assert Take(e, results, 0, ordered, remaining) == Took(remaining, []);
    ItemIsValid(e, 1, 0, results[0]);
  }

  ghost predicate Refuses(t: Adaptation, results: seq<ToolResult>, p: Option<Pending>) {
    exists f :: t == Failed(Structural(f)) && RefusedFor(results, p, f)
  }

  /** The results were struck off and nothing was closed. */
  predicate TookAll(s: Adaptation, t: Adaptation, results: seq<ToolResult>)
    requires s.Adapting? && s.pending.Some?
  {
    && t.Adapting? && t.closed == s.closed
    && t.pending == Some(s.pending.value.(remaining := s.pending.value.remaining - CallIds(results)))
  }

  lemma PendingVerdict(s: Adaptation, e: Event, results: seq<ToolResult>)
    requires s.Adapting? && s.pending.Some? && ValidResults(results)
    ensures var t, p := TakeMessage(s, e, results), s.pending.value;
      && (Taken(results, s.pending) && e.id == "" && |results| == 1 ==> t == Failed(InvalidSource("")))
      && (Taken(results, s.pending) && !(e.id == "" && |results| == 1) ==> TookAll(s, t, results))
      && (!Taken(results, s.pending) ==> Refuses(t, results, s.pending))
  {
    var p := s.pending.value;
    DuplicateIff(results);
    if Taken(results, s.pending) {
      ResolveAwaited(p.ordered, p.remaining, results);
    } else {
      var k := SomeStray(results, p.remaining);
      ResolveStray(p.ordered, p.remaining, results, k);
      assert RefusedFor(results, s.pending, Stray(p.ordered, results[k].callId));
    }
    assert results[..|results|] == results;
    if e.id == "" && |results| == 1 {
      OnlyOne(e, results, p.ordered, p.remaining);
    } else {
      TakeFaultIs(e, results, |results|, p.ordered, p.remaining);
    }
  }

  /** The planner takes a tool message exactly if the open exchange waits for each of its
      results, and otherwise refuses it for the reason stated; a source without an identity
      is the only other obstacle. */
  lemma TakeVerdict(s: Adaptation, e: Event, results: seq<ToolResult>)
    requires s.Adapting?
    ensures var t := TakeMessage(s, e, results);
      && (Taken(results, s.pending) && e.id == "" && |results| == 1 ==> t == Failed(InvalidSource("")))
      && (Taken(results, s.pending) && !(e.id == "" && |results| == 1) ==> TookAll(s, t, results))
      && (!Taken(results, s.pending) ==> Refuses(t, results, s.pending))
  {
    DuplicateIff(results);
    if ValidResults(results) && s.pending.Some? {
      PendingVerdict(s, e, results);
    } else if !AllDifferent(results) {
      var k :| FirstRepeat(results, k) && results[k].callId == FirstDuplicate(results).value;
      assert RefusedFor(results, s.pending, Duplicate(results[k].callId));
    } else {
      assert RefusedFor(results, s.pending, if ValidResults(results) then Late(results[0].callId) else InvalidMessage);
    }
  }

  /** The selector's tracker gives the same reasons, except that it calls a message that
      repeats a call malformed. */
  lemma AnswerVerdict(i: nat, s: ScanState, results: seq<ToolResult>)
    requires s.Scanning?
    ensures Taken(results, s.pending) ==>
      var left := s.pending.value.remaining - CallIds(results);
      Answer(i, s, results) ==
        if left == {} then Scanning(None, s.ranges + [Range(s.pending.value.assistant, i)])
        else Scanning(Some(s.pending.value.(remaining := left)), s.ranges)
    ensures !AllDifferent(results) ==> Answer(i, s, results) == Rejected(InvalidMessage)
    ensures !Taken(results, s.pending) && AllDifferent(results) ==>
      exists f :: Answer(i, s, results) == Rejected(f) && RefusedFor(results, s.pending, f)
  {
    if Taken(results, s.pending) {
      ResolveAwaited(s.pending.value.ordered, s.pending.value.remaining, results);
    } else if ValidResults(results) && s.pending.Some? {
      var p := s.pending.value;
      var k := SomeStray(results, p.remaining);
      ResolveStray(p.ordered, p.remaining, results, k);
      assert RefusedFor(results, s.pending, Stray(p.ordered, results[k].callId));
    } else if AllDifferent(results) {
      assert RefusedFor(results, s.pending, if ValidResults(results) then Late(results[0].callId) else InvalidMessage);
    }
  }

  // ---- exchanges that stay open ----

  /** Call `k` is the first without an answer. */
  predicate FirstOpen(p: Pending, k: int) {
    0 <= k < |p.ordered| && p.ordered[k] in p.remaining && forall j :: 0 <= j < k ==> p.ordered[j] !in p.remaining
  }

  lemma {:induction false} MissingIs(ordered: seq<string>, remaining: set<string>, k: nat)
    requires k < |ordered| && ordered[k] in remaining && forall j :: 0 <= j < k ==> ordered[j] !in remaining
    ensures FirstMissing(ordered, remaining) == ordered[k]
  {
    if k == 0 {
    } else {
      MissingIs(ordered[1..], remaining, k - 1);
    }
  }

  /** Both trackers close an exchange with calls left open exactly if its turn ended after
      it, and otherwise name the first of them. */
  lemma CloseVerdict(events: seq<Event>, s: ScanState, t: Adaptation, p: Pending, k: nat)
    requires s.Scanning? && t.Adapting? && s.pending == t.pending == Some(p)
    requires p.assistant < |events| && FirstOpen(p, k)
    ensures TurnOver(events, p.turn, p.sequence) ==> Flush(events, s).Scanning? && CloseGroup(events, t).Adapting?
    ensures !TurnOver(events, p.turn, p.sequence) ==>
      && Flush(events, s) == Rejected(Unresolved(p.ordered[k]))
      && CloseGroup(events, t) == Failed(Structural(Unresolved(p.ordered[k])))
  {
    TerminalViewsAgree(events, p.turn, p.sequence);
    TerminalIndexIsLatest(events, p.turn);
    MissingIs(p.ordered, p.remaining, k);
    OverIffEnds(events, p.turn, p.sequence);
  }

  /** Results are well formed if there are any, each has a call and a status and passed its
      own checks, and no call comes twice. */
  lemma ResultsIff(results: seq<ToolResult>)
    ensures ValidResults(results) <==>
      && results != [] && AllDifferent(results)
      && forall k :: 0 <= k < |results| ==>
        results[k].callId != "" && results[k].status != "" && results[k].wellFormed
  {
  }

  /** A user or assistant message closes the open exchange before anything else, also one
      that cannot be decoded: the planner then passes over it, and the selector refuses it. */
  lemma BoundaryCloses(events: seq<Event>, i: nat, s: ScanState, t: Adaptation)
    requires i < |events| && s.Scanning? && t.Adapting?
    requires events[i].body.User? || events[i].body.Assistant? || events[i].body.UndecodableAssistant?
    ensures CloseGroup(events, t).Failed? ==> AdaptStep(events, NoCompaction, i, t) == CloseGroup(events, t)
    ensures Flush(events, s).Rejected? ==> ScanStep(events, i, s) == Flush(events, s)
    ensures events[i].body.User? && events[i].body.content == "" ==>
      AdaptStep(events, NoCompaction, i, t) == CloseGroup(events, t)
    ensures events[i].body.User? ==> ScanStep(events, i, s) == Flush(events, s)
    ensures events[i].body.UndecodableAssistant? ==>
      && AdaptStep(events, NoCompaction, i, t) == CloseGroup(events, t)
      && (Flush(events, s).Scanning? ==> ScanStep(events, i, s) == Rejected(InvalidMessage))
  {
  }
}
