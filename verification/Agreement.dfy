/** The selector and the planner track tool exchanges with separate code. They accept
    the same transcripts. */
module Agreement {
  import opened Journals
  import opened Transcript
  import opened ToolIntents
  import opened ExchangeScan
  import opened Adaptation

  /** What the planner alone demands of a message: it must render as a valid source. */
  predicate Presentable(e: Event) {
    match e.body
    case User(content) => content == "" || e.id != ""
    case Assistant(blocks, intents) =>
      (blocks == [] && intents == [])
      || (e.id != "" && forall k :: 0 <= k < |blocks| && !blocks[k].Use? && !blocks[k].UseMissing? ==>
        blocks[k].Valid())
    case ToolMessage(results) => |results| == 1 ==> e.id != ""
    case _ => true
  }

  /** The trackers agree on the open exchange; the planner alone keeps a finished one
      around until the next message. */
  ghost predicate Related(s: ScanState, t: Adaptation) {
    && s.Scanning? && t.Adapting?
    && (s.pending.None? ==> t.pending.None? || t.pending.value.remaining == {})
    && (s.pending.Some? ==> t.pending == s.pending)
  }

  lemma CloseAgrees(events: seq<Event>, s: ScanState, t: Adaptation)
    requires Related(s, t)
    requires s.pending.Some? ==> s.pending.value.remaining != {} && s.pending.value.assistant < |events|
    ensures Flush(events, s).Scanning? <==> CloseGroup(events, t).Adapting?
    ensures Flush(events, s).Scanning? ==> Related(Flush(events, s), CloseGroup(events, t))
    ensures Flush(events, s).Scanning? ==> Flush(events, s).pending.None? && CloseGroup(events, t).pending.None?
  {
    if s.pending.Some? {
      TerminalViewsAgree(events, s.pending.value.turn, s.pending.value.sequence);
    }
  }

  /** All blocks are valid iff the tool calls among them are, and the others are. */
  lemma CanonicalValidity(e: Event, blocks: seq<Block>, extra: seq<ToolUse>)
    requires e.body.Assistant? && e.body.blocks == blocks && blocks + UseBlocks(extra) != []
    requires blocks == [] && extra == [] <==> blocks == [] && e.body.intents == []
    ensures MessageSource(e, ASSISTANT_MESSAGE, blocks + UseBlocks(extra)).source.Valid()
      <==> Presentable(e) && AllUsesValid(blocks) && AllValid(extra)
  {
    var all := blocks + UseBlocks(extra);
    if forall k :: 0 <= k < |all| ==> all[k].Valid() {
      forall k | 0 <= k < |blocks| ensures blocks[k].Valid() { assert all[k] == blocks[k]; }
      forall k | 0 <= k < |extra| ensures extra[k].Valid() { assert all[|blocks| + k] == Use(extra[k]); }
    }
    if AllUsesValid(blocks) && AllValid(extra) && Presentable(e) {
      forall k | 0 <= k < |all| ensures all[k].Valid() {
        if k >= |blocks| { assert all[k] == Use(extra[k - |blocks|]); }
      }
    }
  }

  lemma AssistantAgrees(events: seq<Event>, i: nat, s: ScanState, t: Adaptation)
    requires i < |events| && events[i].body.Assistant? && Related(s, t) && s.pending.None? && t.pending.None?
    ensures var e := events[i]; var t' := AdaptAssistant(i, e, t, e.body.blocks, e.body.intents);
      var m := MergeIntents(e.body.blocks, e.body.intents, true);
      && (m.Merge? && Presentable(e) <==> t'.Adapting?)
      && (t'.Adapting? ==>
            t'.pending == if MergedCalls(e.body.blocks, m.extra) == [] then None
                else Some(Open(i, e, MergedCalls(e.body.blocks, m.extra))))
  {
    var e := events[i];
    Strictness(e.body.blocks, e.body.intents);
    var l := MergeIntents(e.body.blocks, e.body.intents, false);
    if l.Merge? {
      EmptyMerge(e.body.blocks, e.body.intents, false);
      if e.body.blocks + UseBlocks(l.extra) != [] {
        CanonicalValidity(e, e.body.blocks, l.extra);
      }
    }
  }

  lemma NoDuplicate(results: seq<ToolResult>)
    requires forall j, k :: 0 <= j < k < |results| ==> results[j].callId != results[k].callId
    ensures FirstDuplicate(results).None?
  {
  }

  lemma {:induction false} TakeIsResolve(e: Event, results: seq<ToolResult>, k: nat, ordered: seq<string>,
          remaining: set<string>)
    requires k <= |results| && forall j :: 0 <= j < |results| ==> results[j].Valid()
    ensures var t := Take(e, results, k, ordered, remaining); var r := Resolve(ordered, remaining, results[..k]);
      && (t.Took? <==> r.Resolved? && (k > 0 ==> Presentable(e.(body := ToolMessage(results)))))
      && (t.Took? ==> t.remaining == r.remaining)
  {
    if k == 0 {
    } else {
      TakeIsResolve(e, results, k - 1, ordered, remaining);
      assert results[..k][..k - 1] == results[..k - 1];
      var r := results[k - 1];
      var item := ResultSource(e, |results|, k - 1, r);
      assert [Outcome(r)][0].Valid();
      assert item.source.Valid() <==> item.source.id != "";
      if |results| > 1 {
        assert item.source.id[|e.id|] == ':';
      }
    }
  }

  /** A finished exchange takes no further results. */
  lemma {:induction false} NothingLeft(ordered: seq<string>, results: seq<ToolResult>)
    requires results != []
    ensures Resolve(ordered, {}, results).Faulted?
  {
    if |results| == 1 {
    } else {
      NothingLeft(ordered, results[..|results| - 1]);
    }
  }

  lemma ToolAgrees(i: nat, e: Event, s: ScanState, t: Adaptation)
    requires e.body.ToolMessage? && Related(s, t)
    ensures var s', t' := Answer(i, s, e.body.results), TakeMessage(t, e, e.body.results);
      && (s'.Scanning? && Presentable(e) <==> t'.Adapting?)
      && (t'.Adapting? ==> Related(s', t'))
  {
    var results := e.body.results;
    if ValidResults(results) {
      NoDuplicate(results);
      assert results[..|results|] == results;
      assert e.(body := ToolMessage(results)) == e;
      if t.pending.Some? {
        var p := t.pending.value;
        TakeIsResolve(e, results, |results|, p.ordered, p.remaining);
        if s.pending.None? {
          NothingLeft(p.ordered, results);
        }
      }
    }
  }

  lemma StepAgrees(events: seq<Event>, i: nat, s: ScanState, t: Adaptation)
    requires i < |events| && Related(s, t)
    requires s.pending.Some? ==> s.pending.value.remaining != {} && s.pending.value.assistant < |events|
    ensures var s', t' := ScanStep(events, i, s), AdaptStep(events, NoCompaction, i, t);
      && (s'.Scanning? && Presentable(events[i]) <==> t'.Adapting? && !events[i].body.UndecodableAssistant?)
      && (s'.Scanning? && Presentable(events[i]) ==> Related(s', t'))
  {
    var e := events[i];
    if e.IsBoundary() {
      CloseAgrees(events, s, t);
      if e.body.Assistant? && Flush(events, s).Scanning? {
        AssistantAgrees(events, i, Flush(events, s), CloseGroup(events, t));
      } else if e.body.User? && e.body.content != "" {
        assert MessageSource(e, USER_MESSAGE, [Text(e.body.content)]).source.Valid() <==> e.id != "";
      }
    } else if e.body.ToolMessage? {
      ToolAgrees(i, e, s, t);
    }
  }

  ghost predicate AllPresentable(events: seq<Event>) { forall k :: 0 <= k < |events| ==> Presentable(events[k]) }

  ghost predicate AllDecodable(events: seq<Event>) {
    forall k :: 0 <= k < |events| ==> !events[k].body.UndecodableAssistant?
  }

  lemma {:induction false} TrackersAgree(events: seq<Event>, i: nat)
    requires i <= |events|
    ensures var s, t := Scan(events, i), AdaptTo(events, NoCompaction, i);
      && (s.Scanning? && AllPresentable(events[..i]) <==> t.Adapting? && AllDecodable(events[..i]))
      && (s.Scanning? && AllPresentable(events[..i]) ==> Related(s, t))
  {
    if i == 0 {
    } else {
      TrackersAgree(events, i - 1);
      PendingStaysOk(events, i - 1);
      var s, t := Scan(events, i - 1), AdaptTo(events, NoCompaction, i - 1);
      assert AllPresentable(events[..i]) <==> AllPresentable(events[..i - 1]) && Presentable(events[i - 1]);
      assert AllDecodable(events[..i]) <==> AllDecodable(events[..i - 1]) && !events[i - 1].body.UndecodableAssistant?;
      if s.Scanning? && AllPresentable(events[..i - 1]) {
        StepAgrees(events, i - 1, s, t);
      }
    }
  }

  /** The selector accepts a transcript all of whose messages render exactly when the
      planner accepts it and every assistant message decodes. */
  lemma SelectorAndPlannerAgree(events: seq<Event>)
    ensures Exchanges(events).Scanning? && AllPresentable(events)
      <==> Adapted(events, NoCompaction).Adapting? && AllDecodable(events)
  {
    TrackersAgree(events, |events|);
    PendingStaysOk(events, |events|);
    assert events[..|events|] == events;
    if Scan(events, |events|).Scanning? && AllPresentable(events) {
      CloseAgrees(events, Scan(events, |events|), AdaptTo(events, NoCompaction, |events|));
    }
  }

  /** The two conditions are needed: the planner skips an assistant message that does
      not decode while the selector refuses it, and the selector does not look at
      the blocks the planner must render. */
  lemma DisagreementsExist(id: string, journal: JournalRef)
    requires id != ""
    ensures var e := Event(id, journal, "", 1, "t", false, UndecodableAssistant);
      Exchanges([e]).Rejected? && Adapted([e], NoCompaction).Adapting?
    ensures var e := Event(id, journal, "", 1, "t", false, Assistant([Text("")], []));
      Exchanges([e]).Scanning? && Adapted([e], NoCompaction).Failed?
  {
    var e := Event(id, journal, "", 1, "t", false, UndecodableAssistant);
    assert Scan([e], 1) == ScanStep([e], 0, Scan([e], 0));
    assert AdaptTo([e], NoCompaction, 1) == AdaptStep([e], NoCompaction, 0, AdaptTo([e], NoCompaction, 0));
    var f := Event(id, journal, "", 1, "t", false, Assistant([Text("")], []));
    assert Scan([f], 1) == ScanStep([f], 0, Scan([f], 0));
    assert AdaptTo([f], NoCompaction, 1) == AdaptStep([f], NoCompaction, 0, AdaptTo([f], NoCompaction, 0));
    var blocks := [Text("")];
    assert blocks[..0] == [];
    assert ModernPass(blocks, true) == Merge(map[], []) && ModernPass(blocks, false) == Merge(map[], []);
    MergedCallsNone(blocks);
    assert ToolCallIds(blocks) == [];
    assert blocks + UseBlocks([]) == blocks;
    assert !blocks[0].Valid();
  }
}
