/** Runs of managed leases over one lane: a turn lends its slot to a child operation and
    takes it back, its release races with that, and other callers use the lane meanwhile. */
module ManagedRuns {
  import opened Journals
  import opened Lanes
  import LaneRuns

  type LaneRun = LaneRuns.LaneRun

  /** How far a yield in progress got. */
  datatype Yielding = Idle | Handing(caller: nat) | Lent | Queued(caller: nat) | Back(got: Option<nat>)

  /** The guarded fields, the yield in progress, and a lease a release still has to give back. */
  datatype Managed = Managed(hold: Hold<nat>, yielding: Yielding, dropping: Option<nat>)

  /** `owner` tells which managed lease made each of the lane's callers, if any. */
  datatype Sys = Sys(run: LaneRun, leases: map<nat, Managed>, owner: map<nat, nat>)

  datatype Step =
    | Other(step: LaneRuns.Step)
    | Adopt(m: nat, caller: nat)
    | BeginYield(m: nat)
    | HandBack(m: nat)
    | Reacquire(m: nat, caller: nat)
    | Refused(m: nat)
    | Settle(m: nat)
    | TimeOut(m: nat)
    | EndYield(m: nat)
    | LetGoOf(m: nat)
    | Drop(m: nat)

  function CallerOf(step: LaneRuns.Step): nat { step.caller }

  predicate Enabled(s: Sys, step: Step) {
    match step
    case Other(lane) => LaneRuns.Enabled(s.run, lane) && CallerOf(lane) !in s.owner
    case Adopt(m, c) => m !in s.leases && c in s.run.phase && s.run.phase[c] == LaneRuns.Owning && c !in s.owner
    case BeginYield(m) => m in s.leases
    case HandBack(m) => m in s.leases && s.leases[m].yielding.Handing?
    case Reacquire(m, c) => m in s.leases && s.leases[m].yielding.Lent? && c !in s.run.phase
    case Refused(m) => m in s.leases && s.leases[m].yielding.Lent?
    case Settle(m) =>
      m in s.leases && s.leases[m].yielding.Queued? && LaneRuns.Holds(s.run, s.leases[m].yielding.caller)
    case TimeOut(m) => m in s.leases && s.leases[m].yielding.Queued?
      && LaneRuns.Enabled(s.run, LaneRuns.Expire(s.leases[m].yielding.caller))
    case EndYield(m) => m in s.leases && s.leases[m].yielding.Back?
    case LetGoOf(m) => m in s.leases
    case Drop(m) => m in s.leases && s.leases[m].dropping.Some?
  }

  /** `Release` of a lease; the guard is shown to hold in every reachable state. */
  function GiveBack(run: LaneRun, c: nat): LaneRun {
    if LaneRuns.Enabled(run, LaneRuns.Free(c)) then LaneRuns.Apply(run, LaneRuns.Free(c)) else run
  }

  function Apply(s: Sys, step: Step): Sys
    requires Enabled(s, step)
  {
    match step
    case Other(lane) => s.(run := LaneRuns.Apply(s.run, lane))
    case Adopt(m, c) => s.(leases := s.leases[m := Managed(Hold(Some(c), false), Idle, None)], owner := s.owner[c := m])
    case BeginYield(m) =>
      var x := s.leases[m];
      var (lent, hold) := Lend(x.hold);
      if lent.None? then s else s.(leases := s.leases[m := x.(hold := hold, yielding := Handing(lent.value))])
    case HandBack(m) =>
      var x := s.leases[m];
      s.(run := GiveBack(s.run, x.yielding.caller), leases := s.leases[m := x.(yielding := Lent)])
    case Reacquire(m, c) =>
      var x := s.leases[m];
      Sys(LaneRuns.Apply(s.run, LaneRuns.Arrive(c)), s.leases[m := x.(yielding := Queued(c))], s.owner[c := m])
    case Refused(m) => s.(leases := s.leases[m := s.leases[m].(yielding := Back(None))])
    case Settle(m) =>
      var x := s.leases[m];
      var c := x.yielding.caller;
      s.(run := if s.run.phase[c] == LaneRuns.Granted then LaneRuns.Apply(s.run, LaneRuns.Wake(c)) else s.run,
         leases := s.leases[m := x.(yielding := Back(Some(c)))])
    case TimeOut(m) =>
      var x := s.leases[m];
      var c := x.yielding.caller;
      s.(run := LaneRuns.Apply(s.run, LaneRuns.Expire(c)),
         leases := s.leases[m := x.(yielding := Back(if s.run.phase[c] == LaneRuns.Granted then Some(c) else None))])
    case EndYield(m) =>
      var x := s.leases[m];
      var (extra, hold) := Restore(x.hold, x.yielding.got);
      s.(run := if extra.Some? then GiveBack(s.run, extra.value) else s.run,
         leases := s.leases[m := x.(hold := hold, yielding := Idle)])
    case LetGoOf(m) =>
      var x := s.leases[m];
      var (freed, hold) := LetGo(x.hold);
      s.(leases := s.leases[m := x.(hold := hold, dropping := if freed.Some? then freed else x.dropping)])
    case Drop(m) =>
      var x := s.leases[m];
      s.(run := GiveBack(s.run, x.dropping.value), leases := s.leases[m := x.(dropping := None)])
  }

  // ---- what every step keeps ----

  predicate Live(run: LaneRun, c: nat) {
    c in run.phase && run.phase[c] != LaneRuns.Released && run.phase[c] != LaneRuns.Cancelled
  }

  predicate Owns(run: LaneRun, c: nat) { c in run.phase && run.phase[c] == LaneRuns.Owning }

  predicate Refers(x: Managed, c: nat) {
    x.hold.lease == Some(c) || x.yielding == Handing(c) || x.yielding == Queued(c)
    || x.yielding == Back(Some(c)) || x.dropping == Some(c)
  }

  predicate Ours(s: Sys, m: nat, c: nat) { c in s.owner && s.owner[c] == m }

  /** One managed lease refers to at most one caller, and owns the lane through it unless
      it is still queued. */
  predicate LeaseOk(s: Sys, m: nat)
    requires m in s.leases
  {
    var x := s.leases[m];
    && (x.hold.lease.Some? ==> x.yielding == Idle && x.dropping == None && !x.hold.released)
    && (x.hold.lease.Some? ==> Owns(s.run, x.hold.lease.value) && Ours(s, m, x.hold.lease.value))
    && (x.yielding.Handing? ==> Owns(s.run, x.yielding.caller) && Ours(s, m, x.yielding.caller))
    && (x.yielding.Queued? ==> Live(s.run, x.yielding.caller) && Ours(s, m, x.yielding.caller))
    && (x.yielding.Back? && x.yielding.got.Some? ==>
      Owns(s.run, x.yielding.got.value) && Ours(s, m, x.yielding.got.value))
    && (x.dropping.Some? ==>
      x.hold.released && x.yielding == Idle && Owns(s.run, x.dropping.value) && Ours(s, m, x.dropping.value))
  }

  /** Every caller a managed lease made is still referred to while it is live. */
  predicate NoLeak(s: Sys) {
    forall c :: c in s.owner ==>
      c in s.run.phase && s.owner[c] in s.leases && (Live(s.run, c) ==> Refers(s.leases[s.owner[c]], c))
  }

  ghost predicate Inv(s: Sys) {
    LaneRuns.Inv(s.run) && NoLeak(s) && forall m :: m in s.leases ==> LeaseOk(s, m)
  }

  /** All that a lane step of caller `c` does to the others is to grant one of them. */
  predicate Moves(before: LaneRun, after: LaneRun, c: nat) {
    forall d :: d in before.phase && d != c ==>
      && d in after.phase
      && (after.phase[d] == before.phase[d]
        || (before.phase[d] == LaneRuns.Waiting && after.phase[d] == LaneRuns.Granted))
  }

  predicate MovesOnly(before: LaneRun, after: LaneRun, c: nat) {
    Moves(before, after, c) && forall d :: d in after.phase && d != c ==> d in before.phase
  }

  lemma LaneStepMoves(run: LaneRun, step: LaneRuns.Step)
    requires LaneRuns.Inv(run) && LaneRuns.Enabled(run, step)
    ensures MovesOnly(run, LaneRuns.Apply(run, step), step.caller) && LaneRuns.Inv(LaneRuns.Apply(run, step))
  {
    LaneRuns.StepKeeps(run, step);
    if step.Free? && run.lane.waiters != [] {
      assert run.lane.waiters[0] in run.lane.waiters;
    }
  }

  /** Leases other than `m` are untouched by a step of one of `m`'s callers. */
  lemma OthersOk(s: Sys, s': Sys, m: nat, c: nat, o: nat)
    requires o in s.leases && o != m && LeaseOk(s, o) && o in s'.leases && s'.leases[o] == s.leases[o]
    requires MovesOnly(s.run, s'.run, c) && !Ours(s, o, c)
    requires forall d :: d in s.owner ==> d in s'.owner && s'.owner[d] == s.owner[d]
    ensures LeaseOk(s', o)
  {
  }

  lemma OthersLive(s: Sys, s': Sys, c: nat, d: nat)
    requires NoLeak(s) && d in s.owner && d != c && MovesOnly(s.run, s'.run, c)
    ensures Live(s'.run, d) <==> Live(s.run, d)
  {
  }

  /** What a step of lease `m` through its caller `c` leaves of everyone else. */
  ghost predicate Touches(s: Sys, s': Sys, m: nat, c: nat) {
    && MovesOnly(s.run, s'.run, c) && m in s'.leases && s.leases.Keys <= s'.leases.Keys
    && (forall o :: o in s'.leases && o != m ==> o in s.leases && s'.leases[o] == s.leases[o])
    && (c in s.owner ==> s.owner[c] == m) && (c in s'.owner ==> c in s'.run.phase)
    && (s'.owner == s.owner || s'.owner == s.owner[c := m])
  }

  /** Lease `m` still refers to its callers: `c` if that is live, the others as before. */
  ghost predicate StillRefers(s: Sys, s': Sys, m: nat, c: nat)
    requires m in s'.leases
  {
    && (m in s.leases ==> forall d :: d != c && Refers(s.leases[m], d) ==> Refers(s'.leases[m], d))
    && (Ours(s', m, c) && Live(s'.run, c) ==> Refers(s'.leases[m], c))
  }

  lemma RebuildNoLeak(s: Sys, s': Sys, m: nat, c: nat)
    requires NoLeak(s) && Touches(s, s', m, c) && StillRefers(s, s', m, c)
    ensures NoLeak(s')
  {
    forall d | d in s'.owner
      ensures d in s'.run.phase && s'.owner[d] in s'.leases && (Live(s'.run, d) ==> Refers(s'.leases[s'.owner[d]], d)) {
      if d == c {
        assert Ours(s', m, c);
      } else {
        OthersLive(s, s', c, d);
        assert s'.owner[d] == s.owner[d];
      }
    }
  }

  /** What must be shown of `m` alone. */
  lemma Rebuild(s: Sys, s': Sys, m: nat, c: nat)
    requires Inv(s) && LaneRuns.Inv(s'.run) && Touches(s, s', m, c)
    requires LeaseOk(s', m) && StillRefers(s, s', m, c)
    ensures Inv(s')
  {
    RebuildNoLeak(s, s', m, c);
    forall o | o in s'.leases ensures LeaseOk(s', o) {
      if o != m { OthersOk(s, s', m, c, o); }
    }
  }

  lemma GiveBackFrees(s: Sys, c: nat)
    requires Inv(s) && Owns(s.run, c)
    ensures var run := GiveBack(s.run, c);
      LaneRuns.Enabled(s.run, LaneRuns.Free(c)) && LaneRuns.Inv(run) && MovesOnly(s.run, run, c) && c in run.phase
        && run.phase[c] == LaneRuns.Released
  {
    LaneStepMoves(s.run, LaneRuns.Free(c));
    if s.run.lane.waiters != [] { assert s.run.lane.waiters[0] in s.run.lane.waiters; }
  }

  lemma OtherKeeps(s: Sys, lane: LaneRuns.Step)
    requires Inv(s) && Enabled(s, Other(lane))
    ensures Inv(Apply(s, Other(lane)))
  {
    var s' := Apply(s, Other(lane));
    LaneStepMoves(s.run, lane);
    forall o | o in s'.leases ensures LeaseOk(s', o) {
      OthersOk(s, s', o + 1, lane.caller, o);
    }
    forall d | d in s'.owner ensures d in s'.run.phase && (Live(s'.run, d) ==> Refers(s'.leases[s'.owner[d]], d)) {
      OthersLive(s, s', lane.caller, d);
    }
  }

  lemma AdoptKeeps(s: Sys, m: nat, c: nat)
    requires Inv(s) && Enabled(s, Adopt(m, c))
    ensures Inv(Apply(s, Adopt(m, c)))
  {
    var s' := Apply(s, Adopt(m, c));
    Rebuild(s, s', m, c);
  }

  lemma ReacquireArrives(s: Sys, m: nat, c: nat)
    requires Inv(s) && Enabled(s, Reacquire(m, c))
    ensures var s' := Apply(s, Reacquire(m, c));
      LaneRuns.Inv(s'.run) && MovesOnly(s.run, s'.run, c) && Live(s'.run, c)
  {
    LaneStepMoves(s.run, LaneRuns.Arrive(c));
  }

  lemma ReacquireFields(s: Sys, m: nat, c: nat)
    requires Enabled(s, Reacquire(m, c))
    ensures var s' := Apply(s, Reacquire(m, c));
      && s'.leases.Keys == s.leases.Keys && s'.owner == s.owner[c := m]
      && forall o :: o in s.leases && o != m ==> s'.leases[o] == s.leases[o]
  {
    var s' := Apply(s, Reacquire(m, c));
    assert s'.leases.Keys == s.leases.Keys + {m};
  }

  lemma ReacquireTouches(s: Sys, m: nat, c: nat)
    requires Inv(s) && Enabled(s, Reacquire(m, c))
    ensures Touches(s, Apply(s, Reacquire(m, c)), m, c)
  {
    ReacquireArrives(s, m, c);
    ReacquireFields(s, m, c);
    assert c !in s.owner;
  }

  /** A lease that lent its slot refers to nobody. */
  lemma LentRefersToNone(s: Sys, m: nat)
    requires m in s.leases && LeaseOk(s, m) && s.leases[m].yielding.Lent?
    ensures s.leases[m].hold.lease.None? && s.leases[m].dropping.None?
    ensures forall d :: !Refers(s.leases[m], d)
  {
  }

  lemma ReacquireOk(s: Sys, m: nat, c: nat)
    requires Inv(s) && Enabled(s, Reacquire(m, c))
    ensures LeaseOk(Apply(s, Reacquire(m, c)), m)
  {
    assert LeaseOk(s, m);
    LentRefersToNone(s, m);
    ReacquireArrives(s, m, c);
  }

  lemma ReacquireRefers(s: Sys, m: nat, c: nat)
    requires Inv(s) && Enabled(s, Reacquire(m, c))
    ensures StillRefers(s, Apply(s, Reacquire(m, c)), m, c)
  {
    assert LeaseOk(s, m);
    LentRefersToNone(s, m);
    assert Apply(s, Reacquire(m, c)).leases[m].yielding == Queued(c);
  }

  lemma ReacquireKeeps(s: Sys, m: nat, c: nat)
    requires Inv(s) && Enabled(s, Reacquire(m, c))
    ensures Inv(Apply(s, Reacquire(m, c)))
  {
    ReacquireArrives(s, m, c);
    ReacquireTouches(s, m, c);
    ReacquireOk(s, m, c);
    ReacquireRefers(s, m, c);
    Rebuild(s, Apply(s, Reacquire(m, c)), m, c);
  }

  lemma RefersToOne(s: Sys, m: nat, c: nat)
    requires m in s.leases && LeaseOk(s, m) && Refers(s.leases[m], c)
    ensures forall d :: Refers(s.leases[m], d) ==> d == c
  {
  }

  lemma GivingBackTouches(s: Sys, m: nat, x: Managed, c: nat)
    requires Inv(s) && m in s.leases && Owns(s.run, c) && Ours(s, m, c)
    ensures Touches(s, s.(run := GiveBack(s.run, c), leases := s.leases[m := x]), m, c)
  {
    GiveBackFrees(s, c);
  }

  /** Lease `m` gives its one caller's slot back and refers to nobody afterwards. */
  lemma GivingBackKeeps(s: Sys, m: nat, x: Managed, c: nat)
    requires Inv(s) && m in s.leases && Owns(s.run, c) && Ours(s, m, c) && Refers(s.leases[m], c)
    requires x.hold.lease.None? && x.dropping.None? && (x.yielding.Idle? || x.yielding.Lent?)
    ensures Inv(s.(run := GiveBack(s.run, c), leases := s.leases[m := x]))
  {
    var s' := s.(run := GiveBack(s.run, c), leases := s.leases[m := x]);
    assert LeaseOk(s, m);
    GiveBackFrees(s, c);
    GivingBackTouches(s, m, x, c);
    RefersToOne(s, m, c);
    assert !Live(s'.run, c);
    Rebuild(s, s', m, c);
  }

  lemma HandBackKeeps(s: Sys, m: nat)
    requires Inv(s) && Enabled(s, HandBack(m))
    ensures Inv(Apply(s, HandBack(m)))
  {
    var x := s.leases[m];
    assert LeaseOk(s, m);
    GivingBackKeeps(s, m, x.(yielding := Lent), x.yielding.caller);
  }

  lemma SettleKeeps(s: Sys, m: nat)
    requires Inv(s) && Enabled(s, Settle(m))
    ensures Inv(Apply(s, Settle(m)))
  {
    var s' := Apply(s, Settle(m));
    assert LeaseOk(s, m);
    var c := s.leases[m].yielding.caller;
    if s.run.phase[c] == LaneRuns.Granted { LaneStepMoves(s.run, LaneRuns.Wake(c)); }
    Rebuild(s, s', m, c);
  }

  lemma TimeOutKeeps(s: Sys, m: nat)
    requires Inv(s) && Enabled(s, TimeOut(m))
    ensures Inv(Apply(s, TimeOut(m)))
  {
    var s' := Apply(s, TimeOut(m));
    assert LeaseOk(s, m);
    var c := s.leases[m].yielding.caller;
    LaneStepMoves(s.run, LaneRuns.Expire(c));
    Rebuild(s, s', m, c);
  }

  /** A step of lease `m` that does not touch the lane. */
  lemma SameRun(s: Sys, s': Sys, m: nat)
    requires Inv(s) && m in s.leases && s'.run == s.run && s'.owner == s.owner && m in s'.leases
    requires s'.leases == s.leases[m := s'.leases[m]]
    requires LeaseOk(s', m) && forall d :: Refers(s.leases[m], d) ==> Refers(s'.leases[m], d)
    ensures Inv(s')
  {
    forall o | o in s'.leases ensures LeaseOk(s', o) { assert LeaseOk(s, o); }
  }

  /** The lease was released meanwhile: the slot goes back. */
  lemma EndYieldReturns(s: Sys, m: nat)
    requires Inv(s) && Enabled(s, EndYield(m))
    requires s.leases[m].yielding.got.Some? && s.leases[m].hold.released
    ensures Inv(Apply(s, EndYield(m)))
  {
    var x := s.leases[m];
    assert LeaseOk(s, m);
    var hold := Restore(x.hold, x.yielding.got).1;
    GivingBackKeeps(s, m, x.(hold := hold, yielding := Idle), x.yielding.got.value);
  }

  lemma EndYieldKeepsSlot(s: Sys, m: nat)
    requires Inv(s) && Enabled(s, EndYield(m))
    requires s.leases[m].yielding.got.None? || !s.leases[m].hold.released
    ensures Inv(Apply(s, EndYield(m)))
  {
    assert LeaseOk(s, m);
    SameRun(s, Apply(s, EndYield(m)), m);
  }

  lemma EndYieldKeeps(s: Sys, m: nat)
    requires Inv(s) && Enabled(s, EndYield(m))
    ensures Inv(Apply(s, EndYield(m)))
  {
    if s.leases[m].yielding.got.Some? && s.leases[m].hold.released {
      EndYieldReturns(s, m);
    } else {
      EndYieldKeepsSlot(s, m);
    }
  }

  lemma DropKeeps(s: Sys, m: nat)
    requires Inv(s) && Enabled(s, Drop(m))
    ensures Inv(Apply(s, Drop(m)))
  {
    var x := s.leases[m];
    assert LeaseOk(s, m);
    GivingBackKeeps(s, m, x.(dropping := None), x.dropping.value);
  }

  lemma BeginYieldKeeps(s: Sys, m: nat)
    requires Inv(s) && Enabled(s, BeginYield(m))
    ensures Inv(Apply(s, BeginYield(m)))
  {
    assert LeaseOk(s, m);
    SameRun(s, Apply(s, BeginYield(m)), m);
  }

  lemma RefusedKeeps(s: Sys, m: nat)
    requires Inv(s) && Enabled(s, Refused(m))
    ensures Inv(Apply(s, Refused(m)))
  {
    assert LeaseOk(s, m);
    SameRun(s, Apply(s, Refused(m)), m);
  }

  lemma LetGoKeeps(s: Sys, m: nat)
    requires Inv(s) && Enabled(s, LetGoOf(m))
    ensures Inv(Apply(s, LetGoOf(m)))
  {
    assert LeaseOk(s, m);
    SameRun(s, Apply(s, LetGoOf(m)), m);
  }

  lemma StepKeeps(s: Sys, step: Step)
    requires Inv(s) && Enabled(s, step)
    ensures Inv(Apply(s, step))
  {
    match step
    case Other(lane) => OtherKeeps(s, lane);
    case Adopt(m, c) => AdoptKeeps(s, m, c);
    case BeginYield(m) => BeginYieldKeeps(s, m);
    case HandBack(m) => HandBackKeeps(s, m);
    case Reacquire(m, c) => ReacquireKeeps(s, m, c);
    case Refused(m) => RefusedKeeps(s, m);
    case Settle(m) => SettleKeeps(s, m);
    case TimeOut(m) => TimeOutKeeps(s, m);
    case EndYield(m) => EndYieldKeeps(s, m);
    case LetGoOf(m) => LetGoKeeps(s, m);
    case Drop(m) => DropKeeps(s, m);
  }

  // ---- runs ----

  const START := Sys(LaneRuns.FREE, map[], map[])

  predicate Enables(s: Sys, steps: seq<Step>)
    decreases |steps|
  {
    steps == [] || (Enabled(s, steps[0]) && Enables(Apply(s, steps[0]), steps[1..]))
  }

  function Run(s: Sys, steps: seq<Step>): Sys
    requires Enables(s, steps)
    decreases |steps|
  {
    if steps == [] then s else Run(Apply(s, steps[0]), steps[1..])
  }

  /** One more step of a run is applied to where the run had come. */
  lemma {:induction false} RunSnoc(s: Sys, steps: seq<Step>, step: Step)
    requires Enables(s, steps) && Enabled(Run(s, steps), step)
    ensures Enables(s, steps + [step]) && Run(s, steps + [step]) == Apply(Run(s, steps), step)
    decreases |steps|
  {
    if steps == [] {
      assert [] + [step] == [step] && [step][1..] == [];
    } else {
      assert (steps + [step])[1..] == steps[1..] + [step];
      RunSnoc(Apply(s, steps[0]), steps[1..], step);
    }
  }

  lemma {:induction false} RunKeeps(s: Sys, steps: seq<Step>)
    requires Inv(s) && Enables(s, steps)
    ensures Inv(Run(s, steps))
    decreases |steps|
  {
    if steps == [] {
    } else {
      StepKeeps(s, steps[0]);
      RunKeeps(Apply(s, steps[0]), steps[1..]);
    }
  }

  /** A managed lease never has two callers that hold or await the lane, and none of them
      is forgotten: each is one it still refers to. */
  lemma NeverTwoSlotsNeverLeaked(steps: seq<Step>, m: nat)
    requires Enables(START, steps) && m in Run(START, steps).leases
    ensures var s := Run(START, steps);
      && (forall c, d :: Ours(s, m, c) && Ours(s, m, d) && Live(s.run, c) && Live(s.run, d) ==> c == d)
      && (forall c :: Ours(s, m, c) && Live(s.run, c) ==> Refers(s.leases[m], c))
      && (s.leases[m].hold.released && s.leases[m].yielding == Idle && s.leases[m].dropping == None ==>
        forall c :: Ours(s, m, c) ==> !Live(s.run, c))
  {
    assert Inv(START);
    RunKeeps(START, steps);
    var s := Run(START, steps);
    assert LeaseOk(s, m);
  }

  /** When a yield ends having reacquired the lane, the lease owns the slot exactly if it
      was not released meanwhile; if it was, the slot went back to the lane. */
  lemma YieldRestoresOwnership(steps: seq<Step>, m: nat)
    requires Enables(START, steps) && Enabled(Run(START, steps), EndYield(m))
    requires Run(START, steps).leases[m].yielding.got.Some?
    ensures var s := Run(START, steps); var s' := Apply(s, EndYield(m));
      var c := s.leases[m].yielding.got.value;
      && (s'.leases[m].hold.lease == Some(c) && Owns(s'.run, c) <==> !s.leases[m].hold.released)
      && (s.leases[m].hold.released ==>
        c in s'.run.phase && s'.run.phase[c] == LaneRuns.Released && s'.leases[m].hold.lease == None)
  {
    assert Inv(START);
    RunKeeps(START, steps);
    var s := Run(START, steps);
    assert LeaseOk(s, m);
    if s.leases[m].hold.released { GiveBackFrees(s, s.leases[m].yielding.got.value); }
  }

  /** A yield lends the slot the lease holds, and is refused without a trace if the lease
      holds none: it was released, or another yield has it. */
  lemma YieldLends(steps: seq<Step>, m: nat)
    requires Enables(START, steps) && Enabled(Run(START, steps), BeginYield(m))
    ensures var s := Run(START, steps); var s' := Apply(s, BeginYield(m)); var x := s.leases[m];
      && (x.hold.lease == None ==> s' == s)
      && (x.hold.lease.Some? ==>
        s' == s.(leases := s.leases[m := Managed(Hold(None, false), Handing(x.hold.lease.value), None)]))
  {
    assert Inv(START);
    RunKeeps(START, steps);
    assert LeaseOk(Run(START, steps), m);
  }

  /** What is lent goes back to the lane. */
  lemma LentGoesBack(steps: seq<Step>, m: nat)
    requires Enables(START, steps) && Enabled(Run(START, steps), HandBack(m))
    ensures var s := Run(START, steps); var s' := Apply(s, HandBack(m)); var c := s.leases[m].yielding.caller;
      && c in s'.run.phase && s'.run.phase[c] == LaneRuns.Released
      && s'.leases == s.leases[m := s.leases[m].(yielding := Lent)]
  {
    assert Inv(START);
    RunKeeps(START, steps);
    assert LeaseOk(Run(START, steps), m);
    GiveBackFrees(Run(START, steps), Run(START, steps).leases[m].yielding.caller);
  }

  /** A release is for good: the lease holds nothing any more, what it held is about to be
      given back, and a second release changes nothing. */
  lemma ReleaseLetsGo(steps: seq<Step>, m: nat)
    requires Enables(START, steps) && Enabled(Run(START, steps), LetGoOf(m))
    ensures var s := Run(START, steps); var s' := Apply(s, LetGoOf(m)); var x := s.leases[m];
      && s'.leases[m].hold == Hold(None, true) && s'.leases[m].yielding == x.yielding && s'.run == s.run
      && (x.hold.lease.Some? ==> s'.leases[m].dropping == x.hold.lease)
      && (x.hold.released ==> s'.leases[m] == x)
  {
    assert Inv(START);
    RunKeeps(START, steps);
    assert LeaseOk(Run(START, steps), m);
  }

  /** The slot a released lease held goes back to the lane, once. */
  lemma DropGivesBack(steps: seq<Step>, m: nat)
    requires Enables(START, steps) && Enabled(Run(START, steps), Drop(m))
    ensures var s := Run(START, steps); var s' := Apply(s, Drop(m)); var c := s.leases[m].dropping.value;
      && c in s'.run.phase && s'.run.phase[c] == LaneRuns.Released
      && s'.leases == s.leases[m := s.leases[m].(dropping := None)]
  {
    assert Inv(START);
    RunKeeps(START, steps);
    assert LeaseOk(Run(START, steps), m);
    GiveBackFrees(Run(START, steps), Run(START, steps).leases[m].dropping.value);
  }
}
