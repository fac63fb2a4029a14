/** A journal whose partial answer comes after its turn has ended: the selector takes a
    range that parts it from its calls, and the plan over the rest is refused. */
module LateAnswers {
  import opened Sequences
  import opened Journals
  import opened Transcript
  import opened ToolIntents
  import opened ExchangeScan
  import opened SafeBoundaries
  import opened Coverage
  import opened Selector
  import opened Adaptation
  import opened Grouping
  import opened Results
  import opened Composition

  /** Three more committed events, then the activation. */
  function Journal(journal: JournalRef): seq<Event> {
    LateAnswer(journal) + [
      Event("e4", journal, "", 7, "x4", false, OtherBody),
      Event("e5", journal, "", 9, "x5", false, OtherBody),
      Event("e6", journal, "", 11, "x6", false, OtherBody),
      Event("e7", journal, "", 13, "x7", false,
            Compaction(Cursor(journal, 1, "x1"), Cursor(journal, 3, "x2"), "evidence", "revision"))]
  }

  function Head(journal: JournalRef): Cursor { Cursor(journal, 12, "x6") }

  function Act(summary: ContentSource): Activation { Activated(6, 1, 3, summary) }

  lemma {:induction false} TerminalAt(events: seq<Event>, journal: JournalRef, k: nat)
    requires k < |events| && events <= Journal(journal)
    ensures events[k] == Journal(journal)[k] && (events[k].Ends("t") <==> k == 1)
  {
  }

  lemma {:induction false} OneTerminalIndex(events: seq<Event>, journal: JournalRef)
    requires |events| >= 2 && events <= Journal(journal)
    ensures TerminalIndex(events, "t") == Some(1)
  {
    TerminalAt(events, journal, 1);
    TerminalIndexIsLatest(events, "t");
    TerminalAt(events, journal, TerminalIndex(events, "t").value);
  }

  lemma {:induction false} OneTerminalSeq(events: seq<Event>, journal: JournalRef)
    requires |events| >= 2 && events <= Journal(journal)
    ensures TerminalSeq(events, "t") == 3
  {
    TerminalAt(events, journal, 1);
    TerminalSeqIsLatest(events, "t");
    var k :| 0 <= k < |events| && events[k].Ends("t") && events[k].sequence == TerminalSeq(events, "t");
    TerminalAt(events, journal, k);
  }

  lemma {:induction false} OneTerminal(events: seq<Event>, journal: JournalRef)
    requires |events| >= 2 && events <= Journal(journal)
    ensures TerminalIndex(events, "t") == Some(1) && TerminalSeq(events, "t") == 3
  {
    OneTerminalIndex(events, journal);
    OneTerminalSeq(events, journal);
  }

  lemma {:induction false} Quiescent(events: seq<Event>, i: nat, j: nat)
    requires i <= j <= |events| && forall k :: i <= k < j ==> events[k].body.OtherBody?
    ensures Scan(events, j) == Scan(events, i)
    ensures AdaptTo(events, NoCompaction, j) == AdaptTo(events, NoCompaction, i)
  {
    if i == j {
    } else {
      Quiescent(events, i, j - 1);
    }
  }

  lemma {:induction false} PrefixExchanges(journal: JournalRef)
    ensures Exchanges(Journal(journal)[..6]) == Scanning(None, [Range(0, 1)])
  {
    var p := Journal(journal)[..6];
    assert p[..3] == LateAnswer(journal);
    LateScan(p, journal);
    Quiescent(p, 3, 6);
    OneTerminal(p, journal);
    assert p[1].sequence == 3;
  }

  lemma {:induction false} Committed(journal: JournalRef)
    requires journal.Session? && journal.Valid()
    ensures CommittedProjection(Journal(journal)[..6], Head(journal))
  {
    var p, h := Journal(journal)[..6], Head(journal);
    forall i | 0 <= i < |p| ensures IdentifiedBy(p[i], h) { assert p[i] == Journal(journal)[i]; }
    forall i | 0 < i < |p| ensures Follows(p[i - 1], p[i], true) {
      assert p[i].sequence == 2 * i + 1 && p[i - 1].sequence == 2 * i - 1;
    }
  }

  /** `Select` may return the range holding the calls but not the answer. */
  lemma {:induction false} CallsSelected(journal: JournalRef)
    requires journal.Session? && journal.Valid()
    ensures SelectedRange(Journal(journal)[..6], Head(journal), 0, 1)
    ensures Latest(Journal(journal)[..6], 1) && Earliest(Journal(journal)[..6], journal, 0)
  {
    PrefixExchanges(journal);
    Committed(journal);
    assert MergedExchanges(Journal(journal)[..6]) == [Range(0, 1)];
  }

  function CallsItem(): Emitted { Emitted(ContentSource("e1", ASSISTANT_MESSAGE, "event_v2", LATE_CALLS), Some(1)) }

  function AnswerItem(): Emitted {
    Emitted(ContentSource("e3", TOOL_MESSAGE, "event_v2", [Outcome(LATE_RESULTS[0])]), Some(5))
  }

  function InventedItem(): Emitted { UncertainSource("e1", "c2", 1) }

  lemma {:induction false} CallsDelivered(events: seq<Event>, journal: JournalRef)
    requires events != [] && events[0] == Journal(journal)[0]
    ensures AdaptTo(events, NoCompaction, 1) ==
      Adapting([], Some(LatePending().(remaining := {"c1", "c2"})), [CallsItem()])
  {
    LateCalls();
    LateResolution();
    assert CallsItem().source.Valid();
    assert AdaptTo(events, NoCompaction, 1) == AdaptStep(events, NoCompaction, 0, AdaptTo(events, NoCompaction, 0));
  }

  lemma {:induction false} TakesAnswer(journal: JournalRef)
    ensures TakeMessage(Adapting([], Some(LatePending().(remaining := {"c1", "c2"})), [CallsItem()]),
                        Journal(journal)[2], LATE_RESULTS)
      == Adapting([], Some(LatePending()), [CallsItem(), AnswerItem()])
  {
    var e, r := Journal(journal)[2], LATE_RESULTS;
    LateResolution();
    assert r[..0] == [];
    assert FirstDuplicate(r).None?;
    assert AnswerItem() == ResultSource(e, 1, 0, r[0]);
    assert AnswerItem().source.Valid();
    assert {"c1", "c2"} - {"c1"} == {"c2"};
    assert Take(e, r, 1, ["c1", "c2"], {"c1", "c2"}) == Took({"c2"}, [AnswerItem()]);
  }

  /** The calls, an event that is no message, and the answer. */
  lemma {:induction false} AnswerTaken(events: seq<Event>, journal: JournalRef)
    requires |events| >= 3 && events[0] == Journal(journal)[0] && events[2] == Journal(journal)[2]
    requires !events[1].IsMessage()
    ensures AdaptTo(events, NoCompaction, 3) == Adapting([], Some(LatePending()), [CallsItem(), AnswerItem()])
  {
    CallsDelivered(events, journal);
    TakesAnswer(journal);
    assert AdaptTo(events, NoCompaction, 2) == AdaptTo(events, NoCompaction, 1);
  }

  lemma {:induction false} OneInvented()
    ensures Uncertain("e1", ["c1", "c2"], {"c2"}, 1) == [InventedItem()]
  {
    assert ["c1", "c2"][1..] == ["c2"] && ["c2"][1..] == [];
    assert Uncertain("e1", ["c2"], {"c2"}, 1) == [InventedItem()] + Uncertain("e1", [], {"c2"}, 1);
  }

  lemma {:induction false} BothReplays(journal: JournalRef, summary: ContentSource)
    ensures Adapted(Journal(journal), NoCompaction) == Adapting([[CallsItem(), AnswerItem(), InventedItem()]], None, [])
    ensures Adapted(Journal(journal), Act(summary)) ==
      Adapting([[CallsItem(), AnswerItem(), InventedItem()], [Emitted(summary, None)]], None, [])
  {
    var events, act := Journal(journal), Act(summary);
    AnswerTaken(events, journal);
    Quiescent(events, 3, 6);
    OneTerminal(events, journal);
    OneInvented();
    var closed := CloseGroup(events, AdaptTo(events, NoCompaction, 6));
    assert [CallsItem(), AnswerItem()] + [InventedItem()] == [CallsItem(), AnswerItem(), InventedItem()];
    assert closed == Adapting([[CallsItem(), AnswerItem(), InventedItem()]], None, []);
    assert AdaptTo(events, NoCompaction, 7) == AdaptTo(events, NoCompaction, 6);
    ActivationStep(events, act);
  }

  lemma {:induction false} AnswerIsLeft(summary: ContentSource)
    ensures KeptSources(Flatten([[CallsItem(), AnswerItem(), InventedItem()], [Emitted(summary, None)]]), Act(summary))
      == [AnswerItem().source, summary]
  {
    var a, b, c, d := CallsItem(), AnswerItem(), InventedItem(), Emitted(summary, None);
    var act := Act(summary);
    assert [[a, b, c], [d]][..1] == [[a, b, c]] && [[a, b, c]][..0] == [];
    assert Flatten([[a, b, c]]) == Flatten([[a, b, c]][..0]) + [a, b, c];
    assert Flatten([[a, b, c], [d]]) == [a, b, c, d];
    assert [a, b, c, d][..3] == [a, b, c] && [a, b, c][..2] == [a, b] && [a, b][..1] == [a] && [a][..0] == [];
    assert KeptSources([a], act) == KeptSources([a][..0], act);
    assert KeptSources([a, b], act) == KeptSources([a], act) + [b.source];
    assert KeptSources([a, b, c], act) == KeptSources([a, b], act);
  }

  lemma {:induction false} LateNotPunctual(journal: JournalRef)
    ensures !PunctualAnswers(Journal(journal), 6)
  {
    var events := Journal(journal);
    var p := events[..6];
    PrefixExchanges(journal);
    assert Opener(p, 1) == Some(0) && Opener(p, 2) == Opener(p, 1);
    assert p[2].IsToolMessage() && events[2].IsToolMessage();
    CoveredIff(p, 2);
    assert !Covered(p, 2);
    assert !Punctual(events, 6, 2);
  }

  /** The selector takes the calls and leaves their answer, the replay accepts both the
      plain and the activated journal, and what is left cannot be grouped. */
  lemma {:induction false} LateAnswerBreaksPlan(journal: JournalRef, summary: ContentSource)
    requires journal.Session? && journal.Valid()
    ensures SelectedRange(Journal(journal)[..6], Head(journal), 0, 1)
    ensures Accepted(Journal(journal), NoCompaction) && Accepted(Journal(journal), Act(summary))
    ensures !NextIsTool(Journal(journal), 7) && !PunctualAnswers(Journal(journal), 6)
    ensures GroupSources(KeptSources(Flatten(Adapted(Journal(journal), Act(summary)).closed), Act(summary))).Ungrouped?
  {
    var events := Journal(journal);
    CallsSelected(journal);
    BothReplays(journal, summary);
    AnswerIsLeft(summary);
    LateNotPunctual(journal);
  }

  // ---- an answer after the activation ----

  /** The calls, the activation, one answer, the end of the turn. */
  function Interrupted(journal: JournalRef): seq<Event> {
    var events := Journal(journal);
    [events[0],
     Event("e2", journal, "", 3, "x2", false,
           Compaction(Cursor(journal, 1, "x1"), Cursor(journal, 1, "x1"), "evidence", "revision")),
     events[2],
     Event("e4", journal, "t", 7, "x4", false, TurnTerminal)]
  }

  lemma {:induction false} InterruptedEnds(journal: JournalRef)
    ensures TerminalSeq(Interrupted(journal), "t") == 7
  {
    var events := Interrupted(journal);
    TerminalSeqIsLatest(events, "t");
    assert events[3].Ends("t");
  }

  /** The plain replay accepts this journal; activating the compaction in it does not,
      because the next message answers the calls begun before. */
  lemma {:induction false} InterruptedIsRefused(journal: JournalRef, summary: ContentSource)
    ensures Accepted(Interrupted(journal), NoCompaction)
    ensures NextIsTool(Interrupted(journal), 2)
    ensures !Accepted(Interrupted(journal), Activated(1, 1, 1, summary))
  {
    var events := Interrupted(journal);
    AnswerTaken(events, journal);
    assert AdaptTo(events, NoCompaction, 4) == AdaptTo(events, NoCompaction, 3);
    InterruptedEnds(journal);
    assert NextIsTool(events, 2);
    ActivationAccepted(events, Activated(1, 1, 1, summary));
  }
}
