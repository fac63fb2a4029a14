/** Runs of the lane: any number of callers, each section atomic, in any interleaving. */
module LaneRuns {
  import opened Journals
  import opened Lanes

  /** Where a caller stands; `Granted` callers were handed the lane but have not returned. */
  datatype Phase = Waiting | Granted | Owning | Released | Cancelled

  /** The lane, every caller's phase, and the orders in which callers arrived and were granted. */
  datatype LaneRun = LaneRun(lane: Lane<nat>, phase: map<nat, Phase>, arrivals: seq<nat>, grants: seq<nat>)

  datatype Step = Arrive(caller: nat) | Wake(caller: nat) | Expire(caller: nat) | Free(caller: nat)

  predicate Enabled(r: LaneRun, step: Step) {
    match step
    case Arrive(c) => c !in r.phase
    case Wake(c) => c in r.phase && r.phase[c] == Granted
    case Expire(c) => c in r.phase && (r.phase[c] == Waiting || r.phase[c] == Granted)
    case Free(c) => c in r.phase && r.phase[c] == Owning
  }

  function Apply(r: LaneRun, step: Step): LaneRun
    requires Enabled(r, step)
  {
    match step
    case Arrive(c) =>
      var owns := !r.lane.held && r.lane.waiters == [];
      LaneRun(EnterLane(r.lane, c), r.phase[c := if owns then Owning else Waiting],
        r.arrivals + [c], if owns then r.grants + [c] else r.grants)
    case Wake(c) => r.(phase := r.phase[c := Owning])
    case Expire(c) =>
      if r.phase[c] == Granted then r.(phase := r.phase[c := Owning])
      else r.(lane := r.lane.(waiters := Without(r.lane.waiters, c)), phase := r.phase[c := Cancelled])
    case Free(c) =>
      var freed := r.phase[c := Released];
      match GrantedBy(r.lane)
      case None => LaneRun(ReleaseLane(r.lane), freed, r.arrivals, r.grants)
      case Some(next) => LaneRun(ReleaseLane(r.lane), freed[next := Granted], r.arrivals, r.grants + [next])
  }

  predicate Holds(r: LaneRun, c: nat) { c in r.phase && (r.phase[c] == Owning || r.phase[c] == Granted) }

  /** Callers that did not give up, in arrival order. */
  function Uncancelled(arrivals: seq<nat>, phase: map<nat, Phase>): seq<nat> {
    if arrivals == [] then []
    else
      var last := arrivals[|arrivals| - 1];
      Uncancelled(arrivals[..|arrivals| - 1], phase) + if last in phase && phase[last] == Cancelled then [] else [last]
  }

  ghost predicate ExactlyOneHolder(r: LaneRun) {
    && (r.lane.held <==> exists c :: Holds(r, c))
    && (forall c, d :: Holds(r, c) && Holds(r, d) ==> c == d)
  }

  ghost predicate Distinct(s: seq<nat>) { forall i, j :: 0 <= i < j < |s| ==> s[i] != s[j] }

  /** Each caller stands where its phase says. */
  ghost predicate PhasesOk(r: LaneRun) {
    && (forall c :: c in r.lane.waiters <==> c in r.phase && r.phase[c] == Waiting)
    && (forall c :: c in r.grants <==> c in r.phase && r.phase[c] != Waiting && r.phase[c] != Cancelled)
  }

  ghost predicate ArrivalsOk(r: LaneRun) {
    Distinct(r.arrivals) && (forall c :: c in r.phase <==> c in r.arrivals)
  }

  predicate InOrder(r: LaneRun) { r.grants + r.lane.waiters == Uncancelled(r.arrivals, r.phase) }

  ghost predicate Inv(r: LaneRun) {
    && ExactlyOneHolder(r) && (r.lane.waiters != [] ==> r.lane.held)
    && InOrder(r) && ArrivalsOk(r) && PhasesOk(r)
  }

  const FREE := LaneRun(Lane(false, []), map[], [], [])

  // ---- lists ----

  lemma {:induction false} UncancelledSame(arrivals: seq<nat>, a: map<nat, Phase>, b: map<nat, Phase>)
    requires forall c :: c in arrivals ==> ((c in a && a[c] == Cancelled) <==> (c in b && b[c] == Cancelled))
    ensures Uncancelled(arrivals, a) == Uncancelled(arrivals, b)
  {
    if arrivals == [] {
    } else {
      assert arrivals[|arrivals| - 1] in arrivals;
      UncancelledSame(arrivals[..|arrivals| - 1], a, b);
    }
  }

  lemma {:induction false} UncancelledMembers(arrivals: seq<nat>, phase: map<nat, Phase>)
    requires Distinct(arrivals)
    ensures Distinct(Uncancelled(arrivals, phase))
    ensures forall c :: c in Uncancelled(arrivals, phase) <==> c in arrivals && !(c in phase && phase[c] == Cancelled)
  {
    if arrivals == [] {
    } else {
      UncancelledMembers(arrivals[..|arrivals| - 1], phase);
    }
  }

  lemma {:induction false} WithoutAbsent(s: seq<nat>, c: nat)
    requires c !in s
    ensures Without(s, c) == s
  {
    if s == [] {
    } else {
      WithoutAbsent(s[1..], c);
    }
  }

  lemma {:induction false} WithoutConcat(a: seq<nat>, b: seq<nat>, c: nat)
    ensures Without(a + b, c) == if c in a then Without(a, c) + b else a + Without(b, c)
  {
    if a == [] {
      assert a + b == b;
    } else {
      var first, rest := a[0], a[1..];
      assert (a + b)[0] == first && (a + b)[1..] == rest + b;
      WithoutConcat(rest, b, c);
      if first != c {
        assert c in a <==> c in rest;
        assert a == [first] + rest;
        assert [first] + (Without(rest, c) + b) == [first] + Without(rest, c) + b;
        assert [first] + (rest + Without(b, c)) == [first] + rest + Without(b, c);
      }
    }
  }

  lemma {:induction false} WithoutMembers(s: seq<nat>, c: nat)
    requires Distinct(s)
    ensures forall d :: d in Without(s, c) <==> d in s && d != c
  {
    if s == [] {
    } else {
      WithoutMembers(s[1..], c);
    }
  }

  /** Cancelling one caller takes exactly that caller out of the order. */
  lemma {:induction false} UncancelledCancel(arrivals: seq<nat>, phase: map<nat, Phase>, c: nat)
    requires Distinct(arrivals) && c in phase && phase[c] != Cancelled
    ensures Uncancelled(arrivals, phase[c := Cancelled]) == Without(Uncancelled(arrivals, phase), c)
  {
    if arrivals == [] {
    } else {
      var n := |arrivals| - 1;
      var before, last := arrivals[..n], arrivals[n];
      UncancelledCancel(before, phase, c);
      UncancelledMembers(before, phase);
      var head := Uncancelled(before, phase);
      WithoutConcat(head, if last in phase && phase[last] == Cancelled then [] else [last], c);
      if last == c {
        assert c !in before;
        WithoutAbsent(head, c);
        assert [c][1..] == [];
      } else {
        WithoutAbsent([last], c);
        if c !in head { WithoutAbsent(head, c); }
      }
    }
  }

  // ---- the steps ----

  lemma {:induction false} Snoc(s: seq<nat>, c: nat)
    ensures forall d :: d in s + [c] <==> d in s || d == c
    ensures Distinct(s) && c !in s ==> Distinct(s + [c])
  {
    assert (s + [c])[|s|] == c;
  }

  lemma ArriveRecorded(r: LaneRun, c: nat)
    requires ArrivalsOk(r) && Enabled(r, Arrive(c))
    ensures ArrivalsOk(Apply(r, Arrive(c)))
  {
    Snoc(r.arrivals, c);
  }

  lemma ArriveQueues(r: LaneRun, c: nat)
    requires Enabled(r, Arrive(c))
    ensures var r' := Apply(r, Arrive(c)); r'.grants + r'.lane.waiters == r.grants + r.lane.waiters + [c]
  {
  }

  lemma ArriveUncancelled(arrivals: seq<nat>, before: map<nat, Phase>, after: map<nat, Phase>, c: nat)
    requires forall d :: d in arrivals ==> d != c
    requires forall d :: d != c ==> (d in before <==> d in after) && (d in before ==> before[d] == after[d])
    requires c in after && after[c] != Cancelled
    ensures Uncancelled(arrivals + [c], after) == Uncancelled(arrivals, before) + [c]
  {
    assert (arrivals + [c])[..|arrivals|] == arrivals;
    UncancelledSame(arrivals, before, after);
  }

  lemma ArriveOrder(r: LaneRun, c: nat)
    requires InOrder(r) && ArrivalsOk(r) && Enabled(r, Arrive(c))
    ensures InOrder(Apply(r, Arrive(c)))
  {
    ArriveQueues(r, c);
    ArriveUncancelled(r.arrivals, r.phase, Apply(r, Arrive(c)).phase, c);
  }

  lemma ArrivePhases(r: LaneRun, c: nat)
    requires PhasesOk(r) && Enabled(r, Arrive(c))
    ensures PhasesOk(Apply(r, Arrive(c)))
  {
    var r' := Apply(r, Arrive(c));
    Snoc(r.lane.waiters, c);
    Snoc(r.grants, c);
    forall d: nat | d != c ensures d in r.phase <==> d in r'.phase {}
    if !r.lane.held && r.lane.waiters == [] {
      assert r'.lane.waiters == [] && r'.grants == r.grants + [c];
    } else {
      assert r'.lane.waiters == r.lane.waiters + [c] && r'.grants == r.grants;
    }
  }

  lemma ArriveHolder(r: LaneRun, c: nat)
    requires ExactlyOneHolder(r) && (r.lane.waiters != [] ==> r.lane.held) && Enabled(r, Arrive(c))
    ensures ExactlyOneHolder(Apply(r, Arrive(c)))
  {
    var r' := Apply(r, Arrive(c));
    forall d | d != c ensures Holds(r', d) <==> Holds(r, d) {}
    assert Holds(r', c) <==> !r.lane.held;
  }

  lemma ArriveKeeps(r: LaneRun, c: nat)
    requires Inv(r) && Enabled(r, Arrive(c))
    ensures Inv(Apply(r, Arrive(c)))
  {
    ArriveRecorded(r, c);
    ArriveOrder(r, c);
    ArrivePhases(r, c);
    ArriveHolder(r, c);
  }

  lemma OwnKeeps(r: LaneRun, c: nat)
    requires Inv(r) && c in r.phase && r.phase[c] == Granted
    ensures Inv(r.(phase := r.phase[c := Owning]))
  {
    var r' := r.(phase := r.phase[c := Owning]);
    UncancelledSame(r.arrivals, r.phase, r'.phase);
    assert forall d :: Holds(r', d) <==> Holds(r, d);
  }

  lemma WaitersDistinct(r: LaneRun)
    requires Inv(r)
    ensures Distinct(r.lane.waiters)
    ensures forall c :: c in r.lane.waiters ==> c !in r.grants
  {
    UncancelledMembers(r.arrivals, r.phase);
    var all := r.grants + r.lane.waiters;
    forall i, j | 0 <= i < j < |r.lane.waiters| ensures r.lane.waiters[i] != r.lane.waiters[j] {
      assert all[|r.grants| + i] != all[|r.grants| + j];
    }
  }

  lemma CancelKeeps(r: LaneRun, c: nat)
    requires Inv(r) && c in r.phase && r.phase[c] == Waiting
    ensures Inv(Apply(r, Expire(c)))
  {
    var r' := Apply(r, Expire(c));
    UncancelledCancel(r.arrivals, r.phase, c);
    UncancelledMembers(r.arrivals, r.phase);
    WithoutConcat(r.grants, r.lane.waiters, c);
    WaitersDistinct(r);
    WithoutMembers(r.lane.waiters, c);
    assert forall d :: Holds(r', d) <==> Holds(r, d);
  }

  lemma FreeHolder(r: LaneRun, c: nat)
    requires ExactlyOneHolder(r) && PhasesOk(r) && (r.lane.waiters != [] ==> r.lane.held) && Enabled(r, Free(c))
    ensures ExactlyOneHolder(Apply(r, Free(c)))
  {
    var r' := Apply(r, Free(c));
    assert Holds(r, c);
    if r.lane.waiters != [] {
      assert r.lane.waiters[0] in r.lane.waiters;
      assert Holds(r', r.lane.waiters[0]);
    }
    forall d: nat | Holds(r', d) ensures GrantedBy(r.lane) == Some(d) {
      if GrantedBy(r.lane) != Some(d) { assert Holds(r, d); }
    }
  }

  lemma FreeHandsOn(r: LaneRun, c: nat)
    requires Enabled(r, Free(c))
    ensures var r' := Apply(r, Free(c)); r'.grants + r'.lane.waiters == r.grants + r.lane.waiters
  {
    var r' := Apply(r, Free(c));
    if r.lane.waiters != [] {
      assert r.lane.waiters == [r.lane.waiters[0]] + r.lane.waiters[1..];
      assert r'.grants + r'.lane.waiters == r.grants + r.lane.waiters;
    }
  }

  lemma FreeOrder(r: LaneRun, c: nat)
    requires InOrder(r) && ArrivalsOk(r) && PhasesOk(r) && Enabled(r, Free(c))
    ensures InOrder(Apply(r, Free(c))) && ArrivalsOk(Apply(r, Free(c)))
  {
    FreeHandsOn(r, c);
    if r.lane.waiters != [] { assert r.lane.waiters[0] in r.lane.waiters; }
    UncancelledSame(r.arrivals, r.phase, Apply(r, Free(c)).phase);
  }

  lemma FreeKeeps(r: LaneRun, c: nat)
    requires Inv(r) && Enabled(r, Free(c))
    ensures Inv(Apply(r, Free(c)))
  {
    FreeHolder(r, c);
    FreeOrder(r, c);
    WaitersDistinct(r);
    assert Holds(r, c);
  }

  lemma StepKeeps(r: LaneRun, step: Step)
    requires Inv(r) && Enabled(r, step)
    ensures Inv(Apply(r, step))
  {
    match step
    case Arrive(c) => ArriveKeeps(r, c);
    case Wake(c) => OwnKeeps(r, c);
    case Expire(c) => if r.phase[c] == Granted { OwnKeeps(r, c); } else { CancelKeeps(r, c); }
    case Free(c) => FreeKeeps(r, c);
  }

  predicate Enables(r: LaneRun, steps: seq<Step>)
    decreases |steps|
  {
    steps == [] || (Enabled(r, steps[0]) && Enables(Apply(r, steps[0]), steps[1..]))
  }

  function Run(r: LaneRun, steps: seq<Step>): LaneRun
    requires Enables(r, steps)
    decreases |steps|
  {
    if steps == [] then r else Run(Apply(r, steps[0]), steps[1..])
  }

  /** One more step of a run is applied to where the run had come. */
  lemma {:induction false} RunSnoc(r: LaneRun, steps: seq<Step>, step: Step)
    requires Enables(r, steps) && Enabled(Run(r, steps), step)
    ensures Enables(r, steps + [step]) && Run(r, steps + [step]) == Apply(Run(r, steps), step)
    decreases |steps|
  {
    if steps == [] {
      assert [] + [step] == [step] && [step][1..] == [];
    } else {
      assert (steps + [step])[1..] == steps[1..] + [step];
      RunSnoc(Apply(r, steps[0]), steps[1..], step);
    }
  }

  lemma {:induction false} RunKeeps(r: LaneRun, steps: seq<Step>)
    requires Inv(r) && Enables(r, steps)
    ensures Inv(Run(r, steps))
    decreases |steps|
  {
    if steps == [] {
    } else {
      StepKeeps(r, steps[0]);
      RunKeeps(Apply(r, steps[0]), steps[1..]);
    }
  }

  /** In every reachable state the lane is held exactly when one caller holds it, nobody
      waits for a free lane, and grants follow arrivals among those who did not give up. */
  lemma MutualExclusionAndOrder(steps: seq<Step>)
    requires Enables(FREE, steps)
    ensures var r := Run(FREE, steps);
      && ExactlyOneHolder(r) && (r.lane.waiters != [] ==> r.lane.held)
      && r.grants + r.lane.waiters == Uncancelled(r.arrivals, r.phase)
  {
    assert Inv(FREE);
    RunKeeps(FREE, steps);
  }

  /** A cancellation that races with a grant keeps the grant; one that comes first leaves
      the lane to the others: in neither case is it held by nobody. */
  lemma CancellationLosesNoGrant(steps: seq<Step>, c: nat)
    requires Enables(FREE, steps) && Enabled(Run(FREE, steps), Expire(c))
    ensures var r := Run(FREE, steps); var r' := Apply(r, Expire(c));
      && (r.phase[c] == Granted ==> r'.phase[c] == Owning && r'.lane == r.lane)
      && (r.phase[c] == Waiting ==> c !in r'.lane.waiters && r'.grants == r.grants)
      && (r.phase[c] == Waiting ==> forall d :: Holds(r', d) <==> Holds(r, d))
      && ExactlyOneHolder(r')
  {
    assert Inv(FREE);
    RunKeeps(FREE, steps);
    StepKeeps(Run(FREE, steps), Expire(c));
  }

  /** In every reachable state a caller that arrives owns the lane at once if nobody holds
      it, and otherwise waits behind everybody who came before. */
  lemma ArrivalVerdict(steps: seq<Step>, c: nat)
    requires Enables(FREE, steps) && Enabled(Run(FREE, steps), Arrive(c))
    ensures var r := Run(FREE, steps); var r' := Apply(r, Arrive(c));
      && r'.arrivals == r.arrivals + [c]
      && ((forall d :: !Holds(r, d)) ==>
        r'.phase == r.phase[c := Owning] && r'.lane == Lane(true, []) && r'.grants == r.grants + [c])
      && ((exists d :: Holds(r, d)) ==>
        r'.phase == r.phase[c := Waiting] && r'.lane == Lane(true, r.lane.waiters + [c]) && r'.grants == r.grants)
  {
    assert Inv(FREE);
    RunKeeps(FREE, steps);
  }

  /** In every reachable state an owner that lets go hands the lane to the caller that waits
      longest, or frees it if nobody waits. */
  lemma ReleaseVerdict(steps: seq<Step>, c: nat)
    requires Enables(FREE, steps) && Enabled(Run(FREE, steps), Free(c))
    ensures var r := Run(FREE, steps); var r' := Apply(r, Free(c)); var waiting := r.lane.waiters;
      && r'.arrivals == r.arrivals
      && (waiting == [] ==>
        r'.lane == Lane(false, []) && r'.phase == r.phase[c := Released] && r'.grants == r.grants)
      && (waiting != [] ==>
        && r'.lane == Lane(true, waiting[1..]) && r'.grants == r.grants + [waiting[0]]
        && r'.phase == r.phase[c := Released][waiting[0] := Granted])
  {
    assert Inv(FREE);
    RunKeeps(FREE, steps);
  }
}
