/** Recovery attempt identities: each retry gets the next unused ordinal. */
module Attempts {
  import opened Journals
  import opened Decimal

  datatype Event = Accepted(command: string) | Completed(command: string) | Other

  datatype Attempt = Attempt(identity: string, accepted: bool, terminal: bool)

  datatype Ordinal = Irrelevant | Malformed | At(value: nat)

  const ATTEMPT := "-attempt-"

  function Prefix(storage: string): string { storage + ATTEMPT }

  predicate HasPrefix(s: string, prefix: string) { |prefix| <= |s| && s[..|prefix|] == prefix }

  /** The bare storage identity stands for the first attempt. */
  function OrdinalOf(storage: string, command: string): Ordinal {
    if command == storage then At(1)
    else if !HasPrefix(command, Prefix(storage)) then Irrelevant
    else match Atoi(command[|Prefix(storage)|..])
      case None => Malformed
      case Some(v) => if v <= 0 then Malformed else At(v)
  }

  function StateAt(attempts: map<nat, Attempt>, value: nat): Attempt {
    if value in attempts then attempts[value] else Attempt("", false, false)
  }

  function Note(attempts: map<nat, Attempt>, storage: string, e: Event): Option<map<nat, Attempt>> {
    if e.Other? then Some(attempts)
    else
      match OrdinalOf(storage, e.command)
      case Irrelevant => Some(attempts)
      case Malformed => None
      case At(value) =>
        var state := StateAt(attempts, value);
        if e.Accepted? then
          if state.accepted then None else Some(attempts[value := state.(identity := e.command, accepted := true)])
        else if state.identity != "" && state.identity != e.command then None
        else Some(attempts[value := state.(identity := e.command, terminal := true)])
  }

  function Noted(storage: string, events: seq<Event>): Option<map<nat, Attempt>> {
    if events == [] then Some(map[])
    else match Noted(storage, events[..|events| - 1])
      case None => None
      case Some(attempts) => Note(attempts, storage, events[|events| - 1])
  }

  ghost function MaxOf(keys: set<nat>): (m: nat)
    requires keys != {}
    ensures m in keys && forall k :: k in keys ==> k <= m
  {
    var x :| x in keys;
    if keys == {x} then x
    else
      assert keys - {x} != {};
      var m := MaxOf(keys - {x});
      assert forall k :: k in keys ==> k == x || k in keys - {x};
      if m > x then m else x
  }

  /** The decimal of the next ordinal, in a 64-bit int. */
  function Successor(max: nat): string
  {
    if max < MAX_INT then Itoa(max + 1) else "-9223372036854775808"
  }

  predicate Contiguous(attempts: map<nat, Attempt>, max: nat) {
    forall v :: 1 <= v <= max ==> v in attempts && attempts[v].accepted
  }

  /** Ordinals are positive, so the greatest is. */
  predicate Positive(attempts: map<nat, Attempt>) { forall v :: v in attempts ==> v > 0 }

  lemma {:induction false} NotedPositive(storage: string, events: seq<Event>)
    ensures Noted(storage, events).Some? ==> Positive(Noted(storage, events).value)
  {
    if events == [] {
    } else {
      NotedPositive(storage, events[..|events| - 1]);
    }
  }

  ghost function NextIdentity(storage: string, events: seq<Event>): Option<string> {
    NotedPositive(storage, events);
    if storage == "" then None
    else match Noted(storage, events)
      case None => None
      case Some(attempts) =>
        if attempts == map[] then Some(Prefix(storage) + "1")
        else
          var max := MaxOf(attempts.Keys);
          if Contiguous(attempts, max) then Some(Prefix(storage) + Successor(max)) else None
  }

  lemma {:induction false} NoteFailSticks(storage: string, events: seq<Event>, k: nat)
    requires k <= |events| && Noted(storage, events[..k]).None?
    ensures Noted(storage, events).None?
  {
    if k < |events| {
      assert events[..|events| - 1][..k] == events[..k];
      NoteFailSticks(storage, events[..|events| - 1], k);
    } else {
      assert events[..k] == events;
    }
  }

  method Highest(keys: set<nat>) returns (max: nat)
    requires forall k :: k in keys ==> k > 0
    ensures keys == {} ==> max == 0
    ensures keys != {} ==> max == MaxOf(keys)
  {
    max := 0;
    var rest := keys;
    while rest != {}
      invariant rest <= keys && (forall k :: k in keys && k !in rest ==> k <= max)
      invariant if max == 0 then rest == keys else max in keys
      decreases |rest|
    {
      var value :| value in rest;
      if value > max {
        max := value;
      }
      rest := rest - {value};
    }
    if keys != {} {
      var m := MaxOf(keys);
      assert m in keys;
    }
  }

  method RecoveryControlAttemptIdentity(storage: string, events: seq<Event>) returns (identity: Option<string>)
    ensures identity == NextIdentity(storage, events)
  {
    if storage == "" {
      return None;
    }
    var attempts: map<nat, Attempt> := map[];
    for k := 0 to |events|
      invariant Noted(storage, events[..k]) == Some(attempts)
    {
      assert events[..k + 1][..k] == events[..k];
      var next := Note(attempts, storage, events[k]);
      if next.None? {
        NoteFailSticks(storage, events, k + 1);
        return None;
      }
      attempts := next.value;
    }
    assert events[..|events|] == events;
    NotedPositive(storage, events);
    if attempts == map[] {
      return Some(Prefix(storage) + "1");
    }
    var max := Highest(attempts.Keys);
    for value := 1 to max + 1
      invariant forall v :: 1 <= v < value ==> v in attempts && attempts[v].accepted
    {
      if value !in attempts || !attempts[value].accepted {
        return None;
      }
    }
    identity := Some(Prefix(storage) + Successor(max));
  }

  /** `recoveryStorageOperationBound`. */
  predicate Bound(control: string, storage: string) {
    control == storage ||
    (HasPrefix(control, Prefix(storage)) &&
     Atoi(control[|Prefix(storage)|..]).Some? && Atoi(control[|Prefix(storage)|..]).value > 0)
  }

  // ---- runs of crashes and retries ----

  predicate Relevant(storage: string, command: string) { OrdinalOf(storage, command) != Irrelevant }

  /** How many attempts were accepted. */
  function Count(storage: string, events: seq<Event>): nat {
    if events == [] then 0
    else
      var e := events[|events| - 1];
      Count(storage, events[..|events| - 1]) + if e.Accepted? && Relevant(storage, e.command) then 1 else 0
  }

  /** Every attempt accepted the identity computed just before it; the first may instead be
      the bare identity of the older format. An attempt ends only after it was accepted,
      if at all: a crash may come anywhere. */
  ghost predicate Lawful(storage: string, events: seq<Event>) {
    events == [] ||
    (Lawful(storage, events[..|events| - 1]) &&
     var before, e := events[..|events| - 1], events[|events| - 1];
     match e
     case Other => true
     case Accepted(c) => Relevant(storage, c) ==>
       NextIdentity(storage, before) == Some(c) || (Count(storage, before) == 0 && c == storage)
     case Completed(c) => Relevant(storage, c) ==> Accepted(c) in before)
  }

  function Identity(storage: string, n: nat): string { Prefix(storage) + Itoa(n) }

  lemma IdentityOrdinal(storage: string, n: nat)
    requires 1 <= n <= MAX_INT
    ensures OrdinalOf(storage, Identity(storage, n)) == At(n) && Bound(Identity(storage, n), storage)
    ensures Identity(storage, n) != storage
  {
    var id := Identity(storage, n);
    assert |id| > |storage|;
    assert id[..|Prefix(storage)|] == Prefix(storage) && id[|Prefix(storage)|..] == Itoa(n);
    RoundTrip(n);
  }

  predicate Names(storage: string, v: nat, identity: string) {
    identity == Identity(storage, v) || (v == 1 && identity == storage)
  }

  function Identities(attempts: map<nat, Attempt>): set<string> { set v | v in attempts :: attempts[v].identity }

  /** The attempts recorded so far are exactly 1 to `n`, all accepted. */
  ghost predicate Recorded(storage: string, events: seq<Event>, attempts: map<nat, Attempt>, n: nat) {
    && (forall v :: v in attempts <==> 1 <= v <= n)
    && (forall v :: v in attempts ==> attempts[v].accepted && Accepted(attempts[v].identity) in events)
    && (forall v :: v in attempts ==> Names(storage, v, attempts[v].identity))
    && (forall c :: Accepted(c) in events && Relevant(storage, c) ==> c in Identities(attempts))
  }

  lemma NextIs(storage: string, events: seq<Event>, attempts: map<nat, Attempt>, n: nat)
    requires storage != "" && Noted(storage, events) == Some(attempts) && Recorded(storage, events, attempts, n)
    requires n < MAX_INT
    ensures NextIdentity(storage, events) == Some(Identity(storage, n + 1))
  {
    NotedPositive(storage, events);
    if n == 0 {
      assert attempts == map[];
      assert Itoa(1) == "1";
    } else {
      assert n in attempts;
      assert MaxOf(attempts.Keys) == n;
    }
  }

  lemma NamesOrdinal(storage: string, v: nat, identity: string)
    requires 1 <= v <= MAX_INT && Names(storage, v, identity)
    ensures OrdinalOf(storage, identity) == At(v)
  {
    if identity != storage { IdentityOrdinal(storage, v); }
  }

  lemma AcceptNotes(storage: string, attempts: map<nat, Attempt>, n: nat, e: Event)
    requires e.Accepted? && n < MAX_INT && n + 1 !in attempts && Names(storage, n + 1, e.command)
    ensures Note(attempts, storage, e) == Some(attempts[n + 1 := Attempt(e.command, true, false)])
  {
    NamesOrdinal(storage, n + 1, e.command);
  }

  lemma IdentitiesGrow(attempts: map<nat, Attempt>, v: nat, a: Attempt)
    requires v in attempts ==> attempts[v].identity == a.identity
    ensures Identities(attempts[v := a]) == Identities(attempts) + {a.identity}
  {
    var after := attempts[v := a];
    assert after[v].identity in Identities(after);
    forall id | id in Identities(attempts) ensures id in Identities(after) {
      var w :| w in attempts && attempts[w].identity == id;
      assert w in after && after[w].identity == id;
    }
  }

  lemma OneMore(storage: string, before: seq<Event>, attempts: map<nat, Attempt>, n: nat, command: string)
    requires Recorded(storage, before, attempts, n) && Names(storage, n + 1, command)
    ensures Recorded(storage, before + [Accepted(command)], attempts[n + 1 := Attempt(command, true, false)], n + 1)
  {
    var e, after := Accepted(command), attempts[n + 1 := Attempt(command, true, false)];
    IdentitiesGrow(attempts, n + 1, after[n + 1]);
    forall x ensures x in before + [e] <==> x in before || x == e {
      if x == e { assert (before + [e])[|before|] == e; }
    }
  }

  lemma AcceptRecords(storage: string, before: seq<Event>, attempts: map<nat, Attempt>, n: nat, e: Event)
    requires Recorded(storage, before, attempts, n) && n < MAX_INT
    requires e.Accepted? && (e.command == Identity(storage, n + 1) || (n == 0 && e.command == storage))
    ensures Note(attempts, storage, e).Some? && Recorded(storage, before + [e], Note(attempts, storage, e).value, n + 1)
  {
    assert n + 1 !in attempts;
    AcceptNotes(storage, attempts, n, e);
    OneMore(storage, before, attempts, n, e.command);
  }

  lemma CompleteRecords(storage: string, before: seq<Event>, attempts: map<nat, Attempt>, n: nat, e: Event)
    requires Noted(storage, before) == Some(attempts) && Recorded(storage, before, attempts, n) && n <= MAX_INT
    requires e.Completed? && Relevant(storage, e.command) && Accepted(e.command) in before
    ensures Note(attempts, storage, e).Some? && Recorded(storage, before + [e], Note(attempts, storage, e).value, n)
  {
    var v :| v in attempts && attempts[v].identity == e.command;
    NamesOrdinal(storage, v, e.command);
    var after := Note(attempts, storage, e).value;
    assert after == attempts[v := attempts[v].(terminal := true)];
    IdentitiesGrow(attempts, v, after[v]);
  }

  lemma {:induction false} LawfulRecords(storage: string, events: seq<Event>)
    requires storage != "" && Lawful(storage, events) && Count(storage, events) <= MAX_INT
    ensures Noted(storage, events).Some?
    ensures Recorded(storage, events, Noted(storage, events).value, Count(storage, events))
  {
    if events == [] {
    } else {
      var before, e := events[..|events| - 1], events[|events| - 1];
      LawfulRecords(storage, before);
      assert events == before + [e];
      var attempts, n := Noted(storage, before).value, Count(storage, before);
      if e.Accepted? && Relevant(storage, e.command) {
        NextIs(storage, before, attempts, n);
        AcceptRecords(storage, before, attempts, n, e);
      } else if e.Completed? && Relevant(storage, e.command) {
        CompleteRecords(storage, before, attempts, n, e);
      } else {
      }
    }
  }

  /** Over any run of crashes and retries the next identity is always computed, carries the
      next ordinal, was never accepted before, and is one the storage operation accepts. */
  lemma NextAttemptIsFresh(storage: string, events: seq<Event>)
    requires storage != "" && Lawful(storage, events) && Count(storage, events) < MAX_INT
    ensures var id := Identity(storage, Count(storage, events) + 1);
      && NextIdentity(storage, events) == Some(id) && Accepted(id) !in events && Bound(id, storage)
    ensures exists attempts ::
      Noted(storage, events) == Some(attempts) && Recorded(storage, events, attempts, Count(storage, events))
  {
    var n := Count(storage, events);
    LawfulRecords(storage, events);
    var attempts := Noted(storage, events).value;
    NextIs(storage, events, attempts, n);
    IdentityOrdinal(storage, n + 1);
    if Accepted(Identity(storage, n + 1)) in events {
      var v :| v in attempts && attempts[v].identity == Identity(storage, n + 1);
      IdentityOrdinal(storage, v);
    }
  }

  /** The storage operation accepts exactly the identities that carry a positive ordinal. */
  lemma BoundIffOrdinal(storage: string, control: string)
    ensures Bound(control, storage) <==> OrdinalOf(storage, control).At?
  {
  }
}
