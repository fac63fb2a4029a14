/** Which events still state an open task, outcome contract or authorization request. */
module SafetyFacts {
  import opened Journals
  import opened Transcript

  predicate AboutTask(e: Event) { e.body.Safety? && (e.body.fact.TaskCreated? || e.body.fact.TaskStatus?) }

  /** A task without an identity is known by its event. */
  function TaskKey(e: Event): string
    requires AboutTask(e)
  {
    if e.body.fact.task != "" then e.body.fact.task else "event:" + e.id
  }

  predicate OpensTask(e: Event) { AboutTask(e) && !(e.body.fact.TaskStatus? && e.body.fact.terminal) }

  predicate AboutOutcome(e: Event) {
    e.body.Safety? && (e.body.fact.OutcomeOpened? || e.body.fact.OutcomeAssessed?) && e.body.fact.contract != ""
  }

  predicate Requests(e: Event, r: string) { r != "" && e.body == Safety(Requested(r)) }

  /** The last word on a task among the first `n` events, and it leaves the task open. */
  ghost predicate OpenTask(events: seq<Event>, n: nat, i: nat) {
    && i < n <= |events| && OpensTask(events[i])
    && forall j :: i < j < n && AboutTask(events[j]) ==> TaskKey(events[j]) != TaskKey(events[i])
  }

  ghost predicate OpenOutcome(events: seq<Event>, n: nat, i: nat) {
    && i < n <= |events| && AboutOutcome(events[i]) && events[i].body.fact.OutcomeOpened?
    && forall j :: i < j < n && AboutOutcome(events[j]) ==> events[j].body.fact.contract != events[i].body.fact.contract
  }

  ghost predicate LastRequest(events: seq<Event>, n: nat, i: nat, r: string) {
    && i < n <= |events| && Requests(events[i], r)
    && forall j :: i < j < n ==> !Requests(events[j], r)
  }

  ghost predicate Answered(events: seq<Event>, n: nat, r: string) {
    exists j :: 0 <= j < n <= |events| && r != "" && events[j].body == Safety(Decided(r))
  }

  ghost predicate OpenRequest(events: seq<Event>, n: nat, i: nat) {
    exists r :: LastRequest(events, n, i, r) && !Answered(events, n, r)
  }

  ghost predicate Active(events: seq<Event>, i: nat) {
    OpenTask(events, |events|, i) || OpenOutcome(events, |events|, i) || OpenRequest(events, |events|, i)
  }

  ghost predicate TracksTasks(events: seq<Event>, n: nat, tasks: map<string, nat>) {
    && (forall key :: key in tasks ==> OpenTask(events, n, tasks[key]) && TaskKey(events[tasks[key]]) == key)
    && (forall i: nat :: OpenTask(events, n, i) ==> TaskKey(events[i]) in tasks && tasks[TaskKey(events[i])] == i)
  }

  ghost predicate TracksOutcomes(events: seq<Event>, n: nat, outcomes: map<string, nat>) {
    && (forall key :: key in outcomes ==>
      OpenOutcome(events, n, outcomes[key]) && events[outcomes[key]].body.fact.contract == key)
    && (forall i: nat :: OpenOutcome(events, n, i) ==>
      events[i].body.fact.contract in outcomes && outcomes[events[i].body.fact.contract] == i)
  }

  ghost predicate TracksRequests(events: seq<Event>, n: nat, requests: map<string, nat>) {
    && (forall key :: key in requests ==> LastRequest(events, n, requests[key], key))
    && (forall i: nat, r :: LastRequest(events, n, i, r) ==> r in requests && requests[r] == i)
  }

  lemma NextOpenTask(events: seq<Event>, n: nat, i: nat)
    requires i <= n < |events|
    ensures OpenTask(events, n + 1, i) <==>
      if i == n then OpensTask(events[n])
      else OpenTask(events, n, i) && !(AboutTask(events[n]) && TaskKey(events[n]) == TaskKey(events[i]))
  {
  }

  lemma TasksKept(events: seq<Event>, n: nat, tasks: map<string, nat>, tasks': map<string, nat>, i: nat)
    requires n < |events| && TracksTasks(events, n, tasks) && OpenTask(events, n + 1, i)
    requires tasks' ==
      if !AboutTask(events[n]) then tasks
      else if OpensTask(events[n]) then tasks[TaskKey(events[n]) := n]
      else tasks - {TaskKey(events[n])}
    ensures TaskKey(events[i]) in tasks' && tasks'[TaskKey(events[i])] == i
  {
    NextOpenTask(events, n, i);
  }

  lemma TasksStep(events: seq<Event>, n: nat, tasks: map<string, nat>, tasks': map<string, nat>)
    requires n < |events| && TracksTasks(events, n, tasks)
    requires tasks' ==
      if !AboutTask(events[n]) then tasks
      else if OpensTask(events[n]) then tasks[TaskKey(events[n]) := n]
      else tasks - {TaskKey(events[n])}
    ensures TracksTasks(events, n + 1, tasks')
  {
    forall i: nat | OpenTask(events, n + 1, i) ensures TaskKey(events[i]) in tasks' && tasks'[TaskKey(events[i])] == i {
      TasksKept(events, n, tasks, tasks', i);
    }
    forall key | key in tasks' ensures OpenTask(events, n + 1, tasks'[key]) && TaskKey(events[tasks'[key]]) == key {
      NextOpenTask(events, n, tasks'[key]);
    }
  }

  lemma OutcomesStep(events: seq<Event>, n: nat, outcomes: map<string, nat>, outcomes': map<string, nat>)
    requires n < |events| && TracksOutcomes(events, n, outcomes)
    requires outcomes' ==
      if !AboutOutcome(events[n]) then outcomes
      else if events[n].body.fact.OutcomeOpened? then outcomes[events[n].body.fact.contract := n]
      else outcomes - {events[n].body.fact.contract}
    ensures TracksOutcomes(events, n + 1, outcomes')
  {
    forall i: nat | OpenOutcome(events, n + 1, i)
      ensures events[i].body.fact.contract in outcomes' && outcomes'[events[i].body.fact.contract] == i
    {
      if i < n {
        assert OpenOutcome(events, n, i);
      }
    }
  }

  lemma RequestsStep(events: seq<Event>, n: nat, requests: map<string, nat>, requests': map<string, nat>)
    requires n < |events| && TracksRequests(events, n, requests)
    requires requests' ==
      if events[n].body.Safety? && events[n].body.fact.Requested? && events[n].body.fact.request != ""
      then requests[events[n].body.fact.request := n] else requests
    ensures TracksRequests(events, n + 1, requests')
  {
    var n' := n + 1;
    forall i: nat, r | LastRequest(events, n', i, r) ensures r in requests' && requests'[r] == i {
      if i < n {
        assert LastRequest(events, n, i, r);
      }
    }
  }

  lemma AnsweredStep(events: seq<Event>, n: nat, resolved: set<string>, resolved': set<string>)
    requires n < |events| && forall r :: r in resolved <==> Answered(events, n, r)
    requires resolved' ==
      if events[n].body.Safety? && events[n].body.fact.Decided? && events[n].body.fact.request != ""
      then resolved + {events[n].body.fact.request} else resolved
    ensures forall r :: r in resolved' <==> Answered(events, n + 1, r)
  {
    forall r ensures r in resolved' <==> Answered(events, n + 1, r) {
      if r in resolved {
        var j :| 0 <= j < n && r != "" && events[j].body == Safety(Decided(r));
        assert 0 <= j < n + 1 && events[j].body == Safety(Decided(r));
      } else if r in resolved' {
        assert events[n].body == Safety(Decided(r));
      }
    }
  }

  /** The three maps and the resolved requests hold what the first `n` events leave open. */
  ghost predicate Tracks(events: seq<Event>, n: nat, tasks: map<string, nat>, outcomes: map<string, nat>,
          requests: map<string, nat>, resolved: set<string>)
  {
    && TracksTasks(events, n, tasks) && TracksOutcomes(events, n, outcomes) && TracksRequests(events, n, requests)
    && forall r :: r in resolved <==> Answered(events, n, r)
  }

  function Positions(open: map<string, nat>): (s: set<nat>)
    ensures forall i :: i in s <==> exists key :: key in open && open[key] == i
  {
    set key | key in open :: open[key]
  }

  lemma OpenTasks(events: seq<Event>, n: nat, tasks: map<string, nat>, i: nat)
    requires TracksTasks(events, n, tasks)
    ensures i in Positions(tasks) <==> OpenTask(events, n, i)
  {
    if OpenTask(events, n, i) { assert tasks[TaskKey(events[i])] == i; }
  }

  lemma OpenOutcomes(events: seq<Event>, n: nat, outcomes: map<string, nat>, i: nat)
    requires TracksOutcomes(events, n, outcomes)
    ensures i in Positions(outcomes) <==> OpenOutcome(events, n, i)
  {
    if OpenOutcome(events, n, i) { assert outcomes[events[i].body.fact.contract] == i; }
  }

  lemma OpenRequests(events: seq<Event>, requests: map<string, nat>, resolved: set<string>, i: nat)
    requires TracksRequests(events, |events|, requests)
    requires forall r :: r in resolved <==> Answered(events, |events|, r)
    ensures i in Positions(requests - resolved) <==> OpenRequest(events, |events|, i)
  {
    if r :| LastRequest(events, |events|, i, r) && !Answered(events, |events|, r) {
      assert r in requests - resolved && (requests - resolved)[r] == i;
    }
  }

  /** `activeSafetyFacts`: one pass over three maps; the result is returned as positions. */
  method ActiveSafetyFacts(events: seq<Event>) returns (active: set<nat>)
    ensures forall i: nat :: i in active <==> Active(events, i)
  {
    var tasks: map<string, nat>, outcomes: map<string, nat>, requests: map<string, nat> := map[], map[], map[];
    var resolved: set<string> := {};
    for n := 0 to |events|
      invariant Tracks(events, n, tasks, outcomes, requests, resolved)
    {
      ghost var tasks0, outcomes0, requests0 := tasks, outcomes, requests;
      ghost var resolved0 := resolved;
      var e := events[n];
      if e.body.Safety? {
        match e.body.fact {
          case TaskCreated(_) => tasks := tasks[TaskKey(e) := n];
          case TaskStatus(_, terminal) =>
            tasks := if terminal then tasks - {TaskKey(e)} else tasks[TaskKey(e) := n];
          case OutcomeOpened(contract) => if contract != "" { outcomes := outcomes[contract := n]; }
          case OutcomeAssessed(contract) => if contract != "" { outcomes := outcomes - {contract}; }
          case Requested(request) => if request != "" { requests := requests[request := n]; }
          case Decided(request) => if request != "" { resolved := resolved + {request}; }
        }
      }
      TasksStep(events, n, tasks0, tasks);
      OutcomesStep(events, n, outcomes0, outcomes);
      RequestsStep(events, n, requests0, requests);
      AnsweredStep(events, n, resolved0, resolved);
    }
    active := Positions(tasks) + Positions(outcomes) + Positions(requests - resolved);
    forall i: nat ensures i in active <==> Active(events, i) {
      OpenTasks(events, |events|, tasks, i);
      OpenOutcomes(events, |events|, outcomes, i);
      OpenRequests(events, requests, resolved, i);
    }
  }

  // ---- what an open fact is ----

  predicate SpeaksOfTask(e: Event, task: string) {
    e.body == Safety(TaskCreated(task)) || e.body == Safety(TaskStatus(task, true))
    || e.body == Safety(TaskStatus(task, false))
  }

  /** The events speak of one task: by its name, or, if a task has none, of the task that is
      known by the event itself. */
  ghost predicate SameTask(a: Event, b: Event) {
    exists task, task' ::
      && SpeaksOfTask(a, task) && SpeaksOfTask(b, task')
      && (if task != "" then task else "event:" + a.id) == (if task' != "" then task' else "event:" + b.id)
  }

  /** Position `i` is the last that speaks of its task, and does not end it. */
  lemma OpenTaskIff(events: seq<Event>, i: nat)
    ensures OpenTask(events, |events|, i) <==>
      && i < |events|
      && (exists task :: SpeaksOfTask(events[i], task) && events[i].body != Safety(TaskStatus(task, true)))
      && forall j :: i < j < |events| ==> !SameTask(events[i], events[j])
  {
    if i < |events| {
      var e := events[i];
      if AboutTask(e) { assert SpeaksOfTask(e, e.body.fact.task); }
      forall j | i < j < |events|
        ensures SameTask(e, events[j]) <==>
          AboutTask(e) && AboutTask(events[j]) && TaskKey(events[j]) == TaskKey(e)
      {
        if AboutTask(e) && AboutTask(events[j]) {
          assert SpeaksOfTask(e, e.body.fact.task) && SpeaksOfTask(events[j], events[j].body.fact.task);
        }
      }
    }
  }

  /** Position `i` is the last that speaks of the outcome contract, and opens it. */
  ghost predicate LastOpens(events: seq<Event>, i: nat, c: string) {
    && i < |events| && c != "" && events[i].body == Safety(OutcomeOpened(c))
    && forall j :: i < j < |events| ==>
      events[j].body != Safety(OutcomeOpened(c)) && events[j].body != Safety(OutcomeAssessed(c))
  }

  lemma OpenOutcomeIff(events: seq<Event>, i: nat)
    ensures OpenOutcome(events, |events|, i) <==> exists c :: LastOpens(events, i, c)
  {
    if OpenOutcome(events, |events|, i) {
      var c := events[i].body.fact.contract;
      forall j | i < j < |events|
        ensures events[j].body != Safety(OutcomeOpened(c)) && events[j].body != Safety(OutcomeAssessed(c))
      {
        assert AboutOutcome(events[j]) ==> events[j].body.fact.contract != c;
      }
      assert LastOpens(events, i, c);
    }
  }

  /** Position `i` is the last that makes the request, and nothing ever decided it. */
  ghost predicate LastAsks(events: seq<Event>, i: nat, r: string) {
    && i < |events| && r != "" && events[i].body == Safety(Requested(r))
    && (forall j :: i < j < |events| ==> events[j].body != Safety(Requested(r)))
    && forall j :: 0 <= j < |events| ==> events[j].body != Safety(Decided(r))
  }

  lemma OpenRequestIff(events: seq<Event>, i: nat)
    ensures OpenRequest(events, |events|, i) <==> exists r :: LastAsks(events, i, r)
  {
    if OpenRequest(events, |events|, i) {
      var r :| LastRequest(events, |events|, i, r) && !Answered(events, |events|, r);
      forall j | i < j < |events| ensures events[j].body != Safety(Requested(r)) { assert !Requests(events[j], r); }
      assert LastAsks(events, i, r);
    }
    if r :| LastAsks(events, i, r) {
      forall j | i < j < |events| ensures !Requests(events[j], r) { }
      assert LastRequest(events, |events|, i, r) && !Answered(events, |events|, r);
    }
  }
}
