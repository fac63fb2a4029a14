/** Which histories an attempt identity is computed for, told by the history alone. */
module AttemptHistory {
  import opened Journals
  import opened Decimal
  import opened Attempts

  predicate Names(storage: string, e: Event, v: nat) { !e.Other? && OrdinalOf(storage, e.command) == At(v) }

  /** The command that last named the ordinal. */
  function LastNaming(storage: string, events: seq<Event>, v: nat): Option<string> {
    if events == [] then None
    else
      var last := events[|events| - 1];
      if Names(storage, last, v) then Some(last.command) else LastNaming(storage, events[..|events| - 1], v)
  }

  predicate AcceptedAt(storage: string, events: seq<Event>, v: nat) {
    exists k :: 0 <= k < |events| && events[k].Accepted? && Names(storage, events[k], v)
  }

  /** A retry's ordinal can be read; it is accepted once, and ends under the identity it was
      last known by. */
  predicate MayFollow(storage: string, before: seq<Event>, e: Event) {
    match e
    case Other => true
    case Accepted(c) =>
      var o := OrdinalOf(storage, c);
      o != Malformed && (o.At? ==> !AcceptedAt(storage, before, o.value))
    case Completed(c) =>
      var o := OrdinalOf(storage, c);
      && o != Malformed
      && (o.At? ==> LastNaming(storage, before, o.value) == None || LastNaming(storage, before, o.value) == Some(c))
  }

  ghost predicate AllFollow(storage: string, events: seq<Event>) {
    forall k :: 0 <= k < |events| ==> MayFollow(storage, events[..k], events[k])
  }

  lemma FollowSnoc(storage: string, events: seq<Event>, e: Event)
    ensures AllFollow(storage, events + [e]) <==> AllFollow(storage, events) && MayFollow(storage, events, e)
  {
    var longer, n := events + [e], |events|;
    assert longer[..n] == events && longer[n] == e;
    assert forall k :: 0 <= k < n ==> longer[..k] == events[..k] && longer[k] == events[k];
    if AllFollow(storage, longer) {
      assert MayFollow(storage, longer[..n], longer[n]);
      forall k | 0 <= k < n ensures MayFollow(storage, events[..k], events[k]) {
        assert MayFollow(storage, longer[..k], longer[k]);
      }
    }
  }

  lemma NamingSnoc(storage: string, events: seq<Event>, e: Event, v: nat)
    ensures LastNaming(storage, events + [e], v) ==
      if Names(storage, e, v) then Some(e.command) else LastNaming(storage, events, v)
    ensures AcceptedAt(storage, events + [e], v) <==>
      AcceptedAt(storage, events, v) || (e.Accepted? && Names(storage, e, v))
  {
    var longer, n := events + [e], |events|;
    assert longer[..n] == events && longer[n] == e;
    assert forall k :: 0 <= k < n ==> longer[k] == events[k];
  }

  /** What is recorded of one ordinal. */
  predicate Tells(storage: string, events: seq<Event>, attempts: map<nat, Attempt>, v: nat) {
    match LastNaming(storage, events, v)
    case None => v !in attempts && !AcceptedAt(storage, events, v)
    case Some(c) =>
      && v in attempts && attempts[v].identity == c && c != ""
      && (attempts[v].accepted <==> AcceptedAt(storage, events, v))
  }

  lemma OneNoted(storage: string, events: seq<Event>, attempts: map<nat, Attempt>, e: Event)
    requires storage != "" && forall v: nat :: Tells(storage, events, attempts, v)
    ensures Note(attempts, storage, e).Some? <==> MayFollow(storage, events, e)
    ensures Note(attempts, storage, e).Some? ==>
      forall v: nat :: Tells(storage, events + [e], Note(attempts, storage, e).value, v)
  {
    if !e.Other? && OrdinalOf(storage, e.command).At? {
      assert Tells(storage, events, attempts, OrdinalOf(storage, e.command).value);
    }
    if Note(attempts, storage, e).Some? {
      forall v: nat ensures Tells(storage, events + [e], Note(attempts, storage, e).value, v) {
        assert Tells(storage, events, attempts, v);
        NamingSnoc(storage, events, e, v);
      }
    }
  }

  /** A history is read exactly if each event may follow those before it, and then each
      ordinal is known as the history last named it. */
  lemma {:induction false} NotedIff(storage: string, events: seq<Event>)
    requires storage != ""
    ensures Noted(storage, events).Some? <==> AllFollow(storage, events)
    ensures Noted(storage, events).Some? ==>
      forall v: nat :: Tells(storage, events, Noted(storage, events).value, v)
  {
    if events == [] {
    } else {
      var n := |events| - 1;
      assert events == events[..n] + [events[n]];
      NotedIff(storage, events[..n]);
      FollowSnoc(storage, events[..n], events[n]);
      if Noted(storage, events[..n]).Some? {
        OneNoted(storage, events[..n], Noted(storage, events[..n]).value, events[n]);
      }
    }
  }

  /** The greatest ordinal the history names, or zero if it names none. */
  ghost predicate GreatestNamed(storage: string, events: seq<Event>, m: nat) {
    && (forall v: nat :: LastNaming(storage, events, v).Some? ==> v <= m)
    && (m > 0 ==> LastNaming(storage, events, m).Some?)
  }

  /** An identity is computed exactly for a readable history in which every ordinal up to the
      greatest was accepted, and it is the next one. */
  lemma {:induction false} NextIdentityIff(storage: string, events: seq<Event>, m: nat)
    requires GreatestNamed(storage, events, m)
    ensures var readable := storage != "" && AllFollow(storage, events)
        && forall v: nat :: 1 <= v <= m ==> AcceptedAt(storage, events, v);
      NextIdentity(storage, events) ==
        if !readable then None
        else if m < 0x7FFF_FFFF_FFFF_FFFF then Some(storage + "-attempt-" + Itoa(m + 1))
        else Some(storage + "-attempt-" + "-9223372036854775808")
  {
    NotedPositive(storage, events);
    if storage != "" {
      NotedIff(storage, events);
      if Noted(storage, events).Some? {
        var attempts := Noted(storage, events).value;
        MaxIsGreatest(storage, events, attempts, m);
        forall v: nat ensures v in attempts && attempts[v].accepted <==> AcceptedAt(storage, events, v) {
          assert Tells(storage, events, attempts, v);
        }
      }
    }
  }

  lemma MaxIsGreatest(storage: string, events: seq<Event>, attempts: map<nat, Attempt>, m: nat)
    requires GreatestNamed(storage, events, m) && Positive(attempts)
    requires forall v: nat :: Tells(storage, events, attempts, v)
    ensures attempts == map[] <==> m == 0
    ensures m > 0 ==> MaxOf(attempts.Keys) == m
  {
    assert Tells(storage, events, attempts, m);
    if attempts != map[] {
      var max := MaxOf(attempts.Keys);
      assert Tells(storage, events, attempts, max);
    }
  }
}
