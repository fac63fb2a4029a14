/** The operation lane and the managed lease, as the objects their mutexes guard. */
module Lanes {
  import opened Journals

  /** A lane over waiters of any identity. */
  datatype Lane<W> = Lane(held: bool, waiters: seq<W>)

  /** First critical section of `Acquire`: take the free lane, or queue up. */
  function EnterLane<W>(l: Lane<W>, w: W): Lane<W> {
    if !l.held && l.waiters == [] then Lane(true, []) else l.(waiters := l.waiters + [w])
  }

  /** Removes the first occurrence of a waiter. */
  function Without<W(==)>(waiters: seq<W>, w: W): seq<W> {
    if waiters == [] then []
    else if waiters[0] == w then waiters[1..]
    else [waiters[0]] + Without(waiters[1..], w)
  }

  /** Cutting out position `i` removes the waiter first found there. */
  lemma SliceAround<W>(s: seq<W>, i: nat)
    requires 0 < i < |s|
    ensures [s[0]] + (s[1..][..i - 1] + s[1..][i..]) == s[..i] + s[i + 1..]
  {
  }

  lemma {:induction false} WithoutAt<W>(waiters: seq<W>, w: W, i: nat)
    requires i <= |waiters| && w !in waiters[..i] && (i < |waiters| ==> waiters[i] == w)
    ensures Without(waiters, w) == if i < |waiters| then waiters[..i] + waiters[i + 1..] else waiters
  {
    if i == 0 {
    } else {
      var first, rest := waiters[0], waiters[1..];
      assert first == waiters[..i][0] && rest[..i - 1] == waiters[..i][1..];
      WithoutAt(rest, w, i - 1);
      assert Without(waiters, w) == [first] + Without(rest, w);
      if i < |waiters| { SliceAround(waiters, i); }
    }
  }

  /** `release`: hand the lane to the first waiter, or free it. */
  function ReleaseLane<W>(l: Lane<W>): Lane<W> {
    if l.waiters == [] then l.(held := false) else l.(waiters := l.waiters[1..])
  }

  function GrantedBy<W>(l: Lane<W>): Option<W> {
    if l.waiters == [] then None else Some(l.waiters[0])
  }

  class LaneWaiter {
    /** `ready` is closed exactly when the waiter is granted. */
    var granted: bool

    constructor ()
      ensures !granted
    {
      granted := false;
    }
  }

  class OperationLane {
    var held: bool
    var waiters: seq<LaneWaiter>

    function View(): Lane<LaneWaiter>
      reads this
    {
      Lane(held, waiters)
    }

    constructor ()
      ensures View() == Lane(false, [])
    {
      held, waiters := false, [];
    }

    /** The waiter is `None` when the lane was free and is now owned. */
    method Enter() returns (waiter: Option<LaneWaiter>)
      modifies this
      ensures waiter.None? <==> !old(held) && old(waiters) == []
      ensures waiter.None? ==> View() == Lane(true, [])
      ensures waiter.Some? ==>
        fresh(waiter.value) && !waiter.value.granted && View() == EnterLane(old(View()), waiter.value)
    {
      if !held && |waiters| == 0 {
        held := true;
        return None;
      }
      var w := new LaneWaiter();
      waiters := waiters + [w];
      waiter := Some(w);
    }

    /** The section run when the caller's context ends: a granted waiter still owns the lane. */
    method Abandon(waiter: LaneWaiter) returns (owned: bool)
      modifies this
      ensures owned == waiter.granted
      ensures View() == if owned then old(View()) else Lane(old(held), Without(old(waiters), waiter))
    {
      if waiter.granted {
        return true;
      }
      var index := 0;
      while index < |waiters| && waiters[index] != waiter
        invariant 0 <= index <= |waiters|
        invariant waiter !in waiters[..index]
      {
        index := index + 1;
      }
      WithoutAt(waiters, waiter, index);
      if index < |waiters| {
        waiters := waiters[..index] + waiters[index + 1..];
      }
      owned := false;
    }

    method Release()
      modifies this, waiters
      ensures View() == ReleaseLane(old(View()))
      ensures forall w :: w in old(waiters) ==> (w.granted <==> old(w.granted) || GrantedBy(old(View())) == Some(w))
    {
      if |waiters| == 0 {
        held := false;
        return;
      }
      var next := waiters[0];
      waiters := waiters[1..];
      next.granted := true;
    }
  }

  class OperationLease {
    const lane: OperationLane
    var done: bool

    constructor (lane: OperationLane)
      ensures this.lane == lane && !done
    {
      this.lane, done := lane, false;
    }

    /** Only the first release reaches the lane. */
    method Release()
      modifies this, lane, lane.waiters
      ensures done
      ensures lane.View() == if old(done) then old(lane.View()) else ReleaseLane(old(lane.View()))
      ensures old(done) ==> forall w :: w in old(lane.waiters) ==> w.granted == old(w.granted)
      ensures !old(done) ==> forall w :: w in old(lane.waiters) ==>
        (w.granted <==> old(w.granted) || GrantedBy(old(lane.View())) == Some(w))
    {
      if !done {
        done := true;
        lane.Release();
      }
    }
  }

  // ---- the managed lease ----

  /** The guarded fields: the lease held, and whether the owner let go for good. */
  datatype Hold<L> = Hold(lease: Option<L>, released: bool)

  /** What a yield lends, and the hold without it. */
  function Lend<L>(h: Hold<L>): (Option<L>, Hold<L>) {
    if h.released || h.lease.None? then (None, h) else (h.lease, h.(lease := None))
  }

  /** The end of a yield: what it must give straight back, and the hold afterwards. */
  function Restore<L>(h: Hold<L>, reacquired: Option<L>): (Option<L>, Hold<L>) {
    if reacquired.Some? && !h.released then (None, h.(lease := reacquired)) else (reacquired, h)
  }

  /** A release: what it must give back to the lane. */
  function LetGo<L>(h: Hold<L>): (Option<L>, Hold<L>) {
    if h.released then (None, h) else (h.lease, Hold(None, true))
  }

  class ManagedLease {
    var lease: OperationLease?
    var released: bool

    function View(): Hold<OperationLease>
      reads this
    {
      if lease == null then Hold(None, released) else (var held: OperationLease := lease; Hold(Some(held), released))
    }

    constructor (lease: OperationLease)
      ensures View() == Hold(Some(lease), false)
    {
      this.lease, released := lease, false;
    }

    method BeginYield() returns (current: Option<OperationLease>)
      modifies this
      ensures (current, View()) == Lend(old(View()))
    {
      if released || lease == null {
        return None;
      }
      current := Some(lease);
      lease := null;
    }

    /** Runs with the mutex held: a lease that is no longer wanted is released inside. */
    method EndYield(reacquired: Option<OperationLease>)
      requires reacquired.Some? ==> !reacquired.value.done
      modifies this
      modifies if reacquired.None? then {} else {reacquired.value, reacquired.value.lane}
      modifies if reacquired.None? then {} else set w | w in reacquired.value.lane.waiters
      ensures View() == Restore(old(View()), reacquired).1
      ensures reacquired.Some? ==>
        && reacquired.value.done == Restore(old(View()), reacquired).0.Some?
        && reacquired.value.lane.View() == if reacquired.value.done then ReleaseLane(old(reacquired.value.lane.View()))
            else old(reacquired.value.lane.View())
    {
      if reacquired.Some? && !released {
        lease := reacquired.value;
      } else if reacquired.Some? {
        reacquired.value.Release();
      }
    }

    method BeginRelease() returns (freed: Option<OperationLease>)
      modifies this
      ensures (freed, View()) == LetGo(old(View()))
    {
      if released {
        return None;
      }
      released := true;
      freed := if lease == null then None else Some(lease);
      lease := null;
    }
  }
}
