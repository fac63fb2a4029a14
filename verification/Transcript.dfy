/** The decoded session transcript: messages, events and the lookups that the
    compaction selector and the context planner share.
    Strings stand for Go strings; a payload is modelled after decoding. */
module Transcript {
  import opened Journals

  /** A raw JSON field after `ValidateRawJSON` has looked at its bytes. */
  datatype RawJson = WellFormed(bytes: string) | Malformed(bytes: string)

  datatype ToolUse = ToolUse(callId: string, alias: string, arguments: RawJson) {
    predicate Valid() { callId != "" && alias != "" && arguments.WellFormed? }
  }

  /** `wellFormed` stands for the bounds, JSON and evidence checks of a result. */
  datatype ToolResult = ToolResult(callId: string, status: string, wellFormed: bool) {
    predicate Valid() { callId != "" && status != "" && wellFormed }
  }

  /** A content block; `Opaque` stands for the kinds that carry no tool traffic. */
  datatype Block =
    | Text(text: string)
    | Use(intent: ToolUse)
    | UseMissing
    | Outcome(result: ToolResult)
    | Opaque(wellFormed: bool, bytes: nat)
  {
    predicate Valid() {
      match this
      case Text(t) => t != ""
      case Use(u) => u.Valid()
      case UseMissing => false
      case Outcome(r) => r.Valid()
      case Opaque(ok, _) => ok
    }
  }

  /** Facts a compaction must never lose sight of while they are open. */
  datatype Fact =
    | TaskCreated(task: string)
    | TaskStatus(task: string, terminal: bool)
    | OutcomeOpened(contract: string)
    | OutcomeAssessed(contract: string)
    | Requested(request: string)
    | Decided(request: string)

  datatype Body =
    | User(content: string)
    | Assistant(blocks: seq<Block>, intents: seq<ToolUse>)
    | UndecodableAssistant
    | ToolMessage(results: seq<ToolResult>)
    | UndecodableToolMessage
    | TurnTerminal
    | Compaction(from: Cursor, through: Cursor, evidence: string, revision: string)
    | Safety(fact: Fact)
    | TransactionMarker
    | OtherBody

  /** `legacy` marks a record of the older format, where every event is its own transaction. */
  datatype Event = Event(id: string, journal: JournalRef, turn: string, sequence: nat, txn: string, legacy: bool,
      body: Body) {
    function At(): Cursor { Cursor(journal, sequence, txn) }

    predicate IsToolMessage() { body.ToolMessage? || body.UndecodableToolMessage? }

    /** User and assistant messages end the exchange that was open before them. */
    predicate IsBoundary() { body.User? || body.Assistant? || body.UndecodableAssistant? }

    predicate IsMessage() { IsToolMessage() || IsBoundary() }

    predicate Ends(turn': string) { body.TurnTerminal? && turn == turn' && turn' != "" }
  }

  ghost predicate Increasing(events: seq<Event>) {
    forall i, j :: 0 <= i < j < |events| ==> events[i].sequence < events[j].sequence
  }

  /** A tool message names at least one result, each valid, no call twice. */
  predicate ValidResults(results: seq<ToolResult>) {
    && results != []
    && (forall k :: 0 <= k < |results| ==> results[k].Valid())
    && (forall j, k :: 0 <= j < k < |results| ==> results[j].callId != results[k].callId)
  }

  /** Some terminal event of the turn was committed after sequence `s`. */
  ghost predicate EndsAfter(events: seq<Event>, turn: string, s: nat) {
    exists t :: 0 <= t < |events| && events[t].Ends(turn) && events[t].sequence > s
  }

  /** The selector's view: index of the turn's terminal event with the largest sequence. */
  function TerminalIndex(events: seq<Event>, turn: string): (t: Option<nat>)
    ensures t.Some? ==> t.value < |events| && events[t.value].Ends(turn)
  {
    if events == [] then None
    else
      var n := |events| - 1;
      var p := TerminalIndex(events[..n], turn);
      if events[n].Ends(turn) && (p.None? || events[p.value].sequence < events[n].sequence) then Some(n) else p
  }

  /** The planner's view: the largest terminal sequence of the turn, zero if there is none. */
  function TerminalSeq(events: seq<Event>, turn: string): nat {
    if events == [] then 0
    else
      var n := |events| - 1;
      var p := TerminalSeq(events[..n], turn);
      if events[n].Ends(turn) && events[n].sequence > p then events[n].sequence else p
  }

  lemma {:induction false} TerminalIndexIsLatest(events: seq<Event>, turn: string)
    ensures forall k :: 0 <= k < |events| && events[k].Ends(turn) ==>
      TerminalIndex(events, turn).Some? && events[k].sequence <= events[TerminalIndex(events, turn).value].sequence
  {
    if events == [] {
    } else {
      TerminalIndexIsLatest(events[..|events| - 1], turn);
    }
  }

  lemma {:induction false} TerminalSeqIsLatest(events: seq<Event>, turn: string)
    ensures forall k :: 0 <= k < |events| && events[k].Ends(turn) ==> events[k].sequence <= TerminalSeq(events, turn)
    ensures TerminalSeq(events, turn) > 0 ==>
      exists k :: 0 <= k < |events| && events[k].Ends(turn) && events[k].sequence == TerminalSeq(events, turn)
  {
    if events == [] {
    } else {
      var n := |events| - 1;
      TerminalSeqIsLatest(events[..n], turn);
      var p := TerminalSeq(events[..n], turn);
      if TerminalSeq(events, turn) != p {
        assert events[n].Ends(turn) && events[n].sequence == TerminalSeq(events, turn);
      } else if p > 0 {
        var k :| 0 <= k < n && events[..n][k].Ends(turn) && events[..n][k].sequence == p;
        assert events[k].Ends(turn) && events[k].sequence == p;
      }
    }
  }

  /** The two independent terminal tables answer the only question asked of them alike. */
  lemma TerminalViewsAgree(events: seq<Event>, turn: string, s: nat)
    ensures (TerminalIndex(events, turn).Some? && events[TerminalIndex(events, turn).value].sequence > s)
      <==> EndsAfter(events, turn, s)
    ensures TerminalSeq(events, turn) > s <==> EndsAfter(events, turn, s)
  {
    TerminalIndexIsLatest(events, turn);
    TerminalSeqIsLatest(events, turn);
  }

  /** `terminalTurnIndexes`: one pass over the events filling a map of indices. */
  method TerminalTurnIndexes(events: seq<Event>) returns (terminals: map<string, nat>)
    ensures forall turn :: (turn in terminals <==> TerminalIndex(events, turn).Some?)
    ensures forall turn :: turn in terminals ==> TerminalIndex(events, turn) == Some(terminals[turn])
  {
    terminals := map[];
    for i := 0 to |events|
      invariant forall turn :: turn in terminals <==> TerminalIndex(events[..i], turn).Some?
      invariant forall turn :: turn in terminals ==> TerminalIndex(events[..i], turn) == Some(terminals[turn])
    {
      assert events[..i + 1][..i] == events[..i];
      var e := events[i];
      if e.body.TurnTerminal? && e.turn != "" {
        if e.turn !in terminals || events[terminals[e.turn]].sequence < e.sequence {
          terminals := terminals[e.turn := i];
        }
      }
    }
    assert events[..|events|] == events;
  }

  /** `terminalTurns`: the planner's table of terminal sequences. */
  method TerminalTurns(events: seq<Event>) returns (terminals: map<string, nat>)
    ensures forall turn :: TerminalSeq(events, turn) == (if turn in terminals then terminals[turn] else 0)
  {
    terminals := map[];
    for i := 0 to |events|
      invariant forall turn :: TerminalSeq(events[..i], turn) == (if turn in terminals then terminals[turn] else 0)
    {
      assert events[..i + 1][..i] == events[..i];
      var e := events[i];
      if e.body.TurnTerminal? && e.turn != "" {
        var previous := if e.turn in terminals then terminals[e.turn] else 0;
        if e.sequence > previous {
          terminals := terminals[e.turn := e.sequence];
        }
      }
    }
    assert events[..|events|] == events;
  }
}
