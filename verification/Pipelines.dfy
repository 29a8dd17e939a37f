/** The in-memory deploy service: pipelines, the duplicate check, and their lifecycle. */
module Pipelines {
  import opened Wrappers
  import opened Seqs
  import opened Sorting

  const PIPELINE_ID_BASE := 9_990_000_000

  datatype Status = Created | Pending | Running | Success | Failed | Canceled

  /** Key and value. */
  type Variable = Pair

  datatype Job = Job(id: int, name: string, status: Status)

  type Time = int

  datatype Pipeline = Pipeline(
    id: int,
    refName: string,
    variables: seq<Variable>,
    status: Status,
    jobs: seq<Job>,
    createdAt: Time,
    startedAt: Time,
    updatedAt: Time,
    finishedAt: Option<Time>)

  datatype DeployError = NotFound(id: int) | Conflict(pipelineIds: seq<int>)

  datatype RunningPipelines = RunningPipelines(hasRunning: bool, count: nat, pipelines: seq<Pipeline>)

  /** `order` lists the ids as they were put in, which is how the dictionary is walked. */
  datatype Store = Store(pipelines: map<int, Pipeline>, order: seq<int>, nextId: int)

  const EMPTY := Store(map[], [], PIPELINE_ID_BASE + 1)

  predicate Active(status: Status): (b: bool)
    ensures b <==> !status.Success? && !status.Failed? && !status.Canceled?
  {
    status in {Created, Pending, Running}
  }

  function Full(action: string, variables: seq<Variable>): seq<Variable> {
    [("EXECUTION", action)] + variables
  }

  predicate SameVariables(a: seq<Variable>, b: seq<Variable>) {
    Sorted(a) == Sorted(b)
  }

  predicate Matches(p: Pipeline, refName: string, variables: seq<Variable>) {
    Active(p.status) && p.refName == refName && SameVariables(p.variables, variables)
  }

  function Matcher(pipelines: map<int, Pipeline>, refName: string, variables: seq<Variable>): int -> bool {
    id => id in pipelines && Matches(pipelines[id], refName, variables)
  }

  function MatchingRunning(s: Store, refName: string, variables: seq<Variable>): seq<int> {
    Filter(s.order, Matcher(s.pipelines, refName, variables))
  }

  function Fresh(id: int, refName: string, variables: seq<Variable>, now: Time): Pipeline {
    Pipeline(id, refName, variables, Running, [Job(id * 10 + 1, "dry-run-job", Running)], now, now, now, None)
  }

  function WithStatus(job: Job, status: Status): Job {
    job.(status := status)
  }

  function StatusSet(p: Pipeline, status: Status, finished: bool, now: Time): Pipeline {
    p.(status := status, updatedAt := now, finishedAt := if finished then Some(now) else None,
       jobs := Map(p.jobs, job => WithStatus(job, status)))
  }

  datatype Op =
    | Trigger(action: string, refName: string, variables: seq<Variable>)
    | CheckRunning(action: string, refName: string, variables: seq<Variable>)
    | Get(id: int)
    | Cancel(id: int)
    | Retry(id: int)

  /** What the three lifecycle calls do to a pipeline. */
  function Moved(p: Pipeline, op: Op, now: Time): Pipeline {
    match op
    case Get(_) => if p.status == Running then StatusSet(p, Success, true, now) else p
    case Cancel(_) => if Active(p.status) then StatusSet(p, Canceled, true, now) else p
    case Retry(_) => if p.status in {Canceled, Failed} then StatusSet(p, Running, false, now) else p
    case _ => p
  }

  function Triggered(s: Store, action: string, refName: string, variables: seq<Variable>, now: Time)
      : (Store, Result<Pipeline, DeployError>)
  {
    var full := Full(action, variables);
    var running := MatchingRunning(s, refName, full);
    if running != [] then (s, Err(Conflict(running)))
    else
      var p := Fresh(s.nextId, refName, full, now);
      (Store(s.pipelines[s.nextId := p], s.order + [s.nextId], s.nextId + 1), Ok(p))
  }

  /** A lifecycle call on pipeline `id`. */
  function Touched(s: Store, id: int, op: Op, now: Time): (Store, Result<Pipeline, DeployError>) {
    if id !in s.pipelines then (s, Err(NotFound(id)))
    else
      var p := Moved(s.pipelines[id], op, now);
      (s.(pipelines := s.pipelines[id := p]), Ok(p))
  }

  /** The store after a call. */
  function Step(s: Store, op: Op, now: Time): Store {
    match op
    case Trigger(a, r, v) => Triggered(s, a, r, v, now).0
    case CheckRunning(_, _, _) => s
    case _ => Touched(s, op.id, op, now).0
  }

  /** A run of calls, each with the clock at which it is made. */
  function Run(s: Store, calls: seq<(Op, Time)>): Store
    decreases |calls|
  {
    if calls == [] then s else Run(Step(s, calls[0].0, calls[0].1), calls[1..])
  }

  /** A run makes one call after the other. */
  lemma RunCallByCall(s: Store, op: Op, now: Time, rest: seq<(Op, Time)>)
    ensures Run(s, []) == s && Run(s, [(op, now)] + rest) == Run(Step(s, op, now), rest)
  {
    assert ([(op, now)] + rest)[1..] == rest;
  }

  class DeployService {
    var pipelines: map<int, Pipeline>
    var order: seq<int>
    var nextId: int

    constructor ()
      ensures Now() == EMPTY
    {
      pipelines, order, nextId := map[], [], PIPELINE_ID_BASE + 1;
    }

    function Now(): Store
      reads this
    {
      Store(pipelines, order, nextId)
    }

    method TriggerPipeline(action: string, refName: string, variables: seq<Variable>, now: Time)
      returns (r: Result<Pipeline, DeployError>)
      modifies this
      ensures (Now(), r) == Triggered(old(Now()), action, refName, variables, now)
    {
      var full := Full(action, variables);
      var running := MatchingRunning(Now(), refName, full);
      if running != [] {
        return Err(Conflict(running));
      }
      var pipeline := Fresh(nextId, refName, full, now);
      pipelines, order := pipelines[nextId := pipeline], order + [nextId];
      nextId := nextId + 1;
      return Ok(pipeline);
    }

    method CheckRunning(action: string, refName: string, variables: seq<Variable>) returns (r: RunningPipelines)
      requires forall id :: id in order ==> id in pipelines
      ensures var running := MatchingRunning(Now(), refName, Full(action, variables));
              && r.hasRunning == (running != []) && r.count == |running| == |r.pipelines|
              && forall i :: 0 <= i < |running| ==> running[i] in pipelines && r.pipelines[i] == pipelines[running[i]]
    {
      var running, all := MatchingRunning(Now(), refName, Full(action, variables)), pipelines;
      assert forall i :: 0 <= i < |running| ==> running[i] in running;
      r := RunningPipelines(running != [], |running|,
                            seq(|running|, i requires 0 <= i < |running| && running[i] in all => all[running[i]]));
    }

    method SetStatus(id: int, status: Status, finished: bool, now: Time)
      requires id in pipelines
      modifies this`pipelines
      ensures pipelines == old(pipelines)[id := StatusSet(old(pipelines[id]), status, finished, now)]
    {
      var p := pipelines[id];
      var jobs := p.jobs;
      var k := 0;
      while k < |jobs|
        invariant 0 <= k <= |jobs| == |p.jobs|
        invariant forall i :: 0 <= i < k ==> jobs[i] == WithStatus(p.jobs[i], status)
        invariant forall i :: k <= i < |jobs| ==> jobs[i] == p.jobs[i]
      {
        jobs := jobs[k := jobs[k].(status := status)];
        k := k + 1;
      }
      assert jobs == Map(p.jobs, job => WithStatus(job, status));
      pipelines := pipelines[id := p.(status := status, updatedAt := now,
                                      finishedAt := if finished then Some(now) else None, jobs := jobs)];
    }

    /** The first look at a running pipeline finishes it. */
    method GetPipeline(id: int, now: Time) returns (r: Result<Pipeline, DeployError>)
      modifies this
      ensures (Now(), r) == Touched(old(Now()), id, Get(id), now)
    {
      if id !in pipelines {
        return Err(NotFound(id));
      }
      if pipelines[id].status == Running {
        SetStatus(id, Success, true, now);
      }
      assert pipelines == pipelines[id := pipelines[id]];
      return Ok(pipelines[id]);
    }

    method CancelPipeline(id: int, now: Time) returns (r: Result<Pipeline, DeployError>)
      modifies this
      ensures (Now(), r) == Touched(old(Now()), id, Cancel(id), now)
    {
      if id !in pipelines {
        return Err(NotFound(id));
      }
      if Active(pipelines[id].status) {
        SetStatus(id, Canceled, true, now);
      }
      assert pipelines == pipelines[id := pipelines[id]];
      return Ok(pipelines[id]);
    }

    method RetryPipeline(id: int, now: Time) returns (r: Result<Pipeline, DeployError>)
      modifies this
      ensures (Now(), r) == Touched(old(Now()), id, Retry(id), now)
    {
      if id !in pipelines {
        return Err(NotFound(id));
      }
      if pipelines[id].status in {Canceled, Failed} {
        SetStatus(id, Running, false, now);
      }
      assert pipelines == pipelines[id := pipelines[id]];
      return Ok(pipelines[id]);
    }
  }

  /******* Matching is equality of multisets *******/

  lemma SameVariablesMeans(a: seq<Variable>, b: seq<Variable>)
    ensures SameVariables(a, b) <==> multiset(a) == multiset(b)
  {
    SortedInOrder(a);
    SortedInOrder(b);
    if multiset(a) == multiset(b) {
      OneOrder(Sorted(a), Sorted(b));
    }
  }

  /** `p` and the request stand for the same work, and `p` is still going. */
  ghost predicate Duplicates(p: Pipeline, refName: string, variables: seq<Variable>) {
    Active(p.status) && p.refName == refName && multiset(p.variables) == multiset(variables)
  }

  lemma MatchesMeans(p: Pipeline, refName: string, variables: seq<Variable>)
    ensures Matches(p, refName, variables) <==> Duplicates(p, refName, variables)
  {
    SameVariablesMeans(p.variables, variables);
  }

  /******* What every run keeps *******/

  ghost predicate Consistent(p: Pipeline, id: int) {
    && p.id == id
    && p.status in {Running, Success, Canceled}
    && (p.finishedAt == None <==> p.status == Running)
    && |p.jobs| == 1 && p.jobs[0].id == id * 10 + 1 && p.jobs[0].status == p.status
    && |p.variables| > 0 && p.variables[0].0 == "EXECUTION"
    && p.startedAt == p.createdAt
  }

  /** Ids were handed out in increasing order, none twice, and none is still to come. */
  ghost predicate IdsInOrder(s: Store) {
    && (forall i, j :: 0 <= i < j < |s.order| ==> s.order[i] < s.order[j])
    && (forall id :: id in s.order <==> id in s.pipelines)
    && (forall id :: id in s.pipelines ==> PIPELINE_ID_BASE < id < s.nextId)
    && s.nextId == PIPELINE_ID_BASE + 1 + |s.order|
  }

  ghost predicate Inv(s: Store) {
    IdsInOrder(s) && forall id :: id in s.pipelines ==> Consistent(s.pipelines[id], id)
  }

  lemma TriggeredKeepsInv(s: Store, action: string, refName: string, variables: seq<Variable>, now: Time)
    requires Inv(s)
    ensures Inv(Triggered(s, action, refName, variables, now).0)
  {
    var full := Full(action, variables);
    if MatchingRunning(s, refName, full) == [] {
      AddedKeepsInv(s, Fresh(s.nextId, refName, full, now));
    }
  }

  lemma AddedKeepsInv(s: Store, p: Pipeline)
    requires Inv(s) && Consistent(p, s.nextId)
    ensures Inv(Store(s.pipelines[s.nextId := p], s.order + [s.nextId], s.nextId + 1))
  {
    var t := Store(s.pipelines[s.nextId := p], s.order + [s.nextId], s.nextId + 1);
    forall id ensures id in t.order <==> id in t.pipelines {
      assert id in t.order <==> id in s.order || id == s.nextId;
    }
    assert forall i :: 0 <= i < |s.order| ==> s.order[i] in s.order;
  }

  lemma MovedStaysConsistent(p: Pipeline, id: int, op: Op, now: Time)
    requires Consistent(p, id)
    ensures Consistent(Moved(p, op, now), id)
  {
  }

  lemma InvStep(s: Store, op: Op, now: Time)
    requires Inv(s)
    ensures Inv(Step(s, op, now))
  {
    match op
    case Trigger(a, r, v) => TriggeredKeepsInv(s, a, r, v, now);
    case CheckRunning(_, _, _) =>
    case _ =>
      if op.id in s.pipelines {
        MovedStaysConsistent(s.pipelines[op.id], op.id, op, now);
      }
  }

  /** Over every run: ids are fresh and increasing, a job always has the status of its pipeline,
      and a pipeline is finished exactly when it is not running. */
  lemma {:induction false} RunInv(s: Store, calls: seq<(Op, Time)>)
    requires Inv(s)
    ensures Inv(Run(s, calls))
    decreases |calls|
  {
    if calls != [] {
      InvStep(s, calls[0].0, calls[0].1);
      RunInv(Step(s, calls[0].0, calls[0].1), calls[1..]);
    }
  }

  /** Nothing is ever lost or renamed, and no two triggers share an id. */
  ghost predicate Kept(s: Store, t: Store) {
    && s.order <= t.order
    && forall id :: id in s.pipelines ==> id in t.pipelines && SameIdentity(s.pipelines[id], t.pipelines[id])
  }

  ghost predicate SameIdentity(p: Pipeline, q: Pipeline) {
    p.id == q.id && p.refName == q.refName && p.variables == q.variables && p.createdAt == q.createdAt
  }

  lemma {:induction false} RunKeepsPipelines(s: Store, calls: seq<(Op, Time)>)
    requires Inv(s)
    ensures Kept(s, Run(s, calls))
    decreases |calls|
  {
    if calls != [] {
      var t := Step(s, calls[0].0, calls[0].1);
      InvStep(s, calls[0].0, calls[0].1);
      StepKeepsPipelines(s, calls[0].0, calls[0].1);
      RunKeepsPipelines(t, calls[1..]);
      KeptTwice(s, t, Run(t, calls[1..]));
    }
  }

  lemma StepKeepsPipelines(s: Store, op: Op, now: Time)
    requires Inv(s)
    ensures Kept(s, Step(s, op, now))
  {
    if !op.Trigger? && !op.CheckRunning? && op.id in s.pipelines {
      assert SameIdentity(s.pipelines[op.id], Moved(s.pipelines[op.id], op, now));
    }
  }

  lemma KeptTwice(s: Store, t: Store, u: Store)
    requires Kept(s, t) && Kept(t, u)
    ensures Kept(s, u)
  {
  }

  /** A trigger is refused exactly when a duplicate is still going, and it names all of them. */
  lemma TriggerIsRefusedIff(s: Store, action: string, refName: string, variables: seq<Variable>, now: Time)
    requires Inv(s)
    ensures var r := Triggered(s, action, refName, variables, now).1;
            var asked := [("EXECUTION", action)] + variables;
            && (r.Err? <==> exists id :: id in s.pipelines && Duplicates(s.pipelines[id], refName, asked))
            && (r.Err? ==> r.error.Conflict? && forall id :: id in r.error.pipelineIds <==>
                            id in s.pipelines && Duplicates(s.pipelines[id], refName, asked))
            && (r.Ok? ==> r.value.id !in s.pipelines && r.value.status == Running && r.value.variables == asked)
  {
    var full := Full(action, variables);
    var running := MatchingRunning(s, refName, full);
    forall id ensures id in running <==> id in s.pipelines && Duplicates(s.pipelines[id], refName, full) {
      if id in s.pipelines {
        MatchesMeans(s.pipelines[id], refName, full);
      }
    }
    if running != [] {
      assert running[0] in running;
    }
  }

  /** What a trigger records: the pipeline under the next id, with one job, both running from now on, and
      nothing else in the store changes. The first id ever is 9990000001. */
  lemma TriggerRecords(s: Store, action: string, refName: string, variables: seq<Variable>, now: Time)
    ensures var (t, r) := Triggered(s, action, refName, variables, now); var id := s.nextId;
            && (r.Err? ==> t == s)
            && (r.Ok? ==>
                 && r.value.id == id && r.value.refName == refName && r.value.status == Running
                 && r.value.variables == [("EXECUTION", action)] + variables
                 && r.value.jobs == [Job(id * 10 + 1, "dry-run-job", Running)]
                 && r.value.createdAt == r.value.startedAt == r.value.updatedAt == now && r.value.finishedAt == None
                 && t.pipelines == s.pipelines[id := r.value] && t.order == s.order + [id] && t.nextId == id + 1)
    ensures EMPTY.pipelines == map[] && EMPTY.order == [] && EMPTY.nextId == 9990000001
  {
  }

  /** `q` is `p` with another status, its jobs too, as of now. */
  ghost predicate Became(p: Pipeline, q: Pipeline, status: Status, now: Time) {
    && SameIdentity(p, q) && q.startedAt == p.startedAt && q.updatedAt == now
    && q.status == status && |q.jobs| == |p.jobs|
    && forall i :: 0 <= i < |p.jobs| ==> q.jobs[i] == Job(p.jobs[i].id, p.jobs[i].name, status)
  }

  /** The three lifecycle calls: a look finishes what runs, a cancel ends what has not ended, a retry restarts
      what was canceled or failed; any other pipeline stays exactly as it was, and so do all the others. */
  lemma LifecycleMeans(s: Store, id: int, now: Time)
    requires id in s.pipelines
    ensures var p := s.pipelines[id];
            var got, canceled, retried := Touched(s, id, Get(id), now), Touched(s, id, Cancel(id), now),
                                          Touched(s, id, Retry(id), now);
            && got.1.Ok? && got.0 == s.(pipelines := s.pipelines[id := got.1.value])
            && canceled.1.Ok? && canceled.0 == s.(pipelines := s.pipelines[id := canceled.1.value])
            && retried.1.Ok? && retried.0 == s.(pipelines := s.pipelines[id := retried.1.value])
            && (if p.status == Running then
                  Became(p, got.1.value, Success, now) && got.1.value.finishedAt == Some(now)
                else got.1.value == p)
            && (if p.status in {Created, Pending, Running} then
                  Became(p, canceled.1.value, Canceled, now) && canceled.1.value.finishedAt == Some(now)
                else canceled.1.value == p)
            && (if p.status in {Canceled, Failed} then
                  Became(p, retried.1.value, Running, now) && retried.1.value.finishedAt == None
                else retried.1.value == p)
  {
  }

  lemma UnknownPipeline(s: Store, id: int, op: Op, now: Time)
    requires id !in s.pipelines
    ensures Touched(s, id, op, now) == (s, Err(NotFound(id)))
  {
  }

  /** The ids of a refusal are in the order in which their pipelines were triggered. */
  lemma ConflictsInOrder(s: Store, refName: string, variables: seq<Variable>, i: nat, j: nat)
    requires Inv(s) && i < j < |MatchingRunning(s, refName, variables)|
    ensures MatchingRunning(s, refName, variables)[i] < MatchingRunning(s, refName, variables)[j]
  {
    FilterKeepsOrder(s.order, Matcher(s.pipelines, refName, variables));
  }

  ghost predicate Increasing(ids: seq<int>) {
    forall i, j :: 0 <= i < j < |ids| ==> ids[i] < ids[j]
  }

  lemma IncreasingTail(ids: seq<int>)
    requires Increasing(ids) && ids != []
    ensures Increasing(ids[1..]) && forall x :: x in ids[1..] ==> ids[0] < x
  {
    var rest := ids[1..];
    assert forall k :: 0 <= k < |rest| ==> rest[k] == ids[k + 1];
  }

  lemma IncreasingCons(x: int, rest: seq<int>)
    requires Increasing(rest) && forall y :: y in rest ==> x < y
    ensures Increasing([x] + rest)
  {
    var all := [x] + rest;
    assert forall k :: 0 < k < |all| ==> all[k] == rest[k - 1] && all[k] in rest;
  }

  lemma {:induction false} FilterKeepsOrder(ids: seq<int>, keep: int -> bool)
    requires Increasing(ids)
    ensures Increasing(Filter(ids, keep))
  {
    if ids != [] {
      var rest := Filter(ids[1..], keep);
      IncreasingTail(ids);
      FilterKeepsOrder(ids[1..], keep);
      IncreasingCons(ids[0], rest);
      assert Filter(ids, keep) == if keep(ids[0]) then [ids[0]] + rest else rest;
    }
  }

  /** Once polled a pipeline is over: whoever polls until it is terminal stops at the first poll,
      and until a retry of it nothing about it changes. */
  lemma {:induction false} PolledIsOver(s: Store, id: int, now: Time, later: seq<(Op, Time)>)
    requires Inv(s) && id in s.pipelines
    requires forall i :: 0 <= i < |later| ==> later[i].0 != Retry(id)
    ensures var (t, r) := Touched(s, id, Get(id), now);
            && r.Ok? && r.value.status in {Success, Canceled}
            && id in Run(t, later).pipelines && Run(t, later).pipelines[id] == r.value
  {
    InvStep(s, Get(id), now);
    OverStays(Step(s, Get(id), now), id, later);
  }

  lemma StepLeavesOver(s: Store, id: int, op: Op, now: Time)
    requires Inv(s) && id in s.pipelines && s.pipelines[id].status != Running && op != Retry(id)
    ensures var t := Step(s, op, now); id in t.pipelines && t.pipelines[id] == s.pipelines[id]
  {
  }

  lemma {:induction false} OverStays(s: Store, id: int, calls: seq<(Op, Time)>)
    requires Inv(s) && id in s.pipelines && s.pipelines[id].status != Running
    requires forall i :: 0 <= i < |calls| ==> calls[i].0 != Retry(id)
    ensures id in Run(s, calls).pipelines && Run(s, calls).pipelines[id] == s.pipelines[id]
    decreases |calls|
  {
    if calls != [] {
      InvStep(s, calls[0].0, calls[0].1);
      StepLeavesOver(s, id, calls[0].0, calls[0].1);
      var rest := calls[1..];
      assert forall i :: 0 <= i < |rest| ==> rest[i] == calls[i + 1];
      OverStays(Step(s, calls[0].0, calls[0].1), id, rest);
    }
  }

  /******* At most one active pipeline for the same work *******/

  ghost predicate Rivals(p: Pipeline, q: Pipeline) {
    Active(p.status) && Duplicates(q, p.refName, p.variables)
  }

  ghost predicate OneActive(s: Store) {
    forall id, other :: id in s.pipelines && other in s.pipelines && id != other ==>
      !Rivals(s.pipelines[id], s.pipelines[other])
  }

  /** A retry that would bring pipeline `id` back beside an active duplicate of it. */
  ghost predicate RevivesDuplicate(s: Store, id: int) {
    && id in s.pipelines && s.pipelines[id].status in {Canceled, Failed}
    && MatchingRunning(s, s.pipelines[id].refName, s.pipelines[id].variables) != []
  }

  lemma RevivesDuplicateMeans(s: Store, id: int)
    requires Inv(s) && id in s.pipelines && !Active(s.pipelines[id].status)
    ensures var p := s.pipelines[id];
            MatchingRunning(s, p.refName, p.variables) != []
            <==> exists other ::
                   other in s.pipelines && other != id && Duplicates(s.pipelines[other], p.refName, p.variables)
  {
    var p := s.pipelines[id];
    var running := MatchingRunning(s, p.refName, p.variables);
    forall other
      ensures other in running
          <==> other in s.pipelines && Duplicates(s.pipelines[other], p.refName, p.variables)
    {
      if other in s.pipelines {
        MatchesMeans(s.pipelines[other], p.refName, p.variables);
      }
    }
    if running != [] {
      assert running[0] in running;
    }
  }

  function Retried(s: Store, id: int, now: Time): Store
    requires id in s.pipelines
  {
    s.(pipelines := s.pipelines[id := StatusSet(s.pipelines[id], Running, false, now)])
  }

  /** A retried pipeline and another one are rivals exactly when the other duplicates it already. */
  lemma RetriedRivals(s: Store, id: int, other: int, now: Time)
    requires id in s.pipelines && other in s.pipelines && other != id
    ensures var p, t := s.pipelines[id], Retried(s, id, now);
            && (Rivals(t.pipelines[id], t.pipelines[other]) <==> Duplicates(s.pipelines[other], p.refName, p.variables))
            && (Rivals(t.pipelines[other], t.pipelines[id]) <==> Duplicates(s.pipelines[other], p.refName, p.variables))
  {
  }

  lemma RevivedBreaks(s: Store, id: int, now: Time)
    requires Inv(s) && RevivesDuplicate(s, id)
    ensures !OneActive(Step(s, Retry(id), now))
  {
    var p := s.pipelines[id];
    assert Step(s, Retry(id), now) == Retried(s, id, now);
    RevivesDuplicateMeans(s, id);
    var other :| other in s.pipelines && other != id && Duplicates(s.pipelines[other], p.refName, p.variables);
    RetriedRivals(s, id, other, now);
  }

  lemma RetriedPair(s: Store, id: int, now: Time, a: int, b: int)
    requires OneActive(s) && id in s.pipelines && a in s.pipelines && b in s.pipelines && a != b
    requires var p := s.pipelines[id];
             forall other :: other in s.pipelines && other != id ==>
               !Duplicates(s.pipelines[other], p.refName, p.variables)
    ensures var t := Retried(s, id, now); !Rivals(t.pipelines[a], t.pipelines[b])
  {
    if a == id {
      RetriedRivals(s, id, b, now);
    } else if b == id {
      RetriedRivals(s, id, a, now);
    } else {
      assert !Rivals(s.pipelines[a], s.pipelines[b]);
    }
  }

  lemma RevivedAlone(s: Store, id: int, now: Time)
    requires Inv(s) && OneActive(s) && !RevivesDuplicate(s, id)
    requires id in s.pipelines && s.pipelines[id].status in {Canceled, Failed}
    ensures OneActive(Step(s, Retry(id), now))
  {
    RevivesDuplicateMeans(s, id);
    var t := Retried(s, id, now);
    assert Step(s, Retry(id), now) == t;
    forall a, b | a in t.pipelines && b in t.pipelines && a != b ensures !Rivals(t.pipelines[a], t.pipelines[b]) {
      RetriedPair(s, id, now, a, b);
    }
  }

  /** A retry keeps at most one active pipeline per ref and variables exactly when the duplicate
      check, asked first, would have found none (or the retry does nothing at all). */
  lemma RetryKeepsOneActiveIff(s: Store, id: int, now: Time)
    requires Inv(s) && OneActive(s)
    ensures OneActive(Step(s, Retry(id), now)) <==> !RevivesDuplicate(s, id)
  {
    if RevivesDuplicate(s, id) {
      RevivedBreaks(s, id, now);
    } else if id in s.pipelines && s.pipelines[id].status in {Canceled, Failed} {
      RevivedAlone(s, id, now);
    } else if id in s.pipelines {
      assert s.pipelines[id := s.pipelines[id]] == s.pipelines;
    }
  }

  lemma TriggerKeepsOneActive(s: Store, action: string, refName: string, variables: seq<Variable>, now: Time)
    requires Inv(s) && OneActive(s)
    ensures OneActive(Triggered(s, action, refName, variables, now).0)
  {
    TriggerIsRefusedIff(s, action, refName, variables, now);
    var (t, r) := Triggered(s, action, refName, variables, now);
    if r.Ok? {
      var added := s.nextId;
      forall a, b | a in t.pipelines && b in t.pipelines && a != b ensures !Rivals(t.pipelines[a], t.pipelines[b]) {
        if a != added && b != added {
          assert !Rivals(s.pipelines[a], s.pipelines[b]);
        } else if b == added {
          assert !Duplicates(s.pipelines[a], refName, Full(action, variables));
        }
      }
    }
  }

  lemma FinishingKeepsOneActive(s: Store, op: Op, now: Time)
    requires Inv(s) && OneActive(s) && (op.Get? || op.Cancel?)
    ensures OneActive(Step(s, op, now))
  {
    var t := Step(s, op, now);
    forall a, b | a in t.pipelines && b in t.pipelines && a != b ensures !Rivals(t.pipelines[a], t.pipelines[b]) {
      assert !Rivals(s.pipelines[a], s.pipelines[b]);
    }
  }

  /** Every retry of the run asks first, and is left out when a duplicate is going. */
  ghost predicate RetriesAsk(s: Store, calls: seq<(Op, Time)>)
    decreases |calls|
  {
    calls == [] || (&& (calls[0].0.Retry? ==> !RevivesDuplicate(s, calls[0].0.id))
                    && RetriesAsk(Step(s, calls[0].0, calls[0].1), calls[1..]))
  }

  /** Over every run whose retries ask first, and so over every run without one, at most one
      pipeline is active per ref and multiset of variables. */
  lemma {:induction false} AtMostOneActive(s: Store, calls: seq<(Op, Time)>)
    requires Inv(s) && OneActive(s) && RetriesAsk(s, calls)
    ensures OneActive(Run(s, calls))
    decreases |calls|
  {
    if calls != [] {
      var (op, now) := calls[0];
      InvStep(s, op, now);
      CallKeepsOneActiveIff(s, op, now);
      AtMostOneActive(Step(s, op, now), calls[1..]);
    }
  }

  /** At most one active after every call of the run. */
  ghost predicate OneActiveThroughout(s: Store, calls: seq<(Op, Time)>)
    decreases |calls|
  {
    OneActive(s) && (calls == [] || OneActiveThroughout(Step(s, calls[0].0, calls[0].1), calls[1..]))
  }

  /** And so it is after every call of a run if and only if its retries ask first. */
  lemma {:induction false} OneActiveThroughoutIff(s: Store, calls: seq<(Op, Time)>)
    requires Inv(s) && OneActive(s)
    ensures OneActiveThroughout(s, calls) <==> RetriesAsk(s, calls)
    decreases |calls|
  {
    if calls != [] {
      var (op, now) := calls[0];
      InvStep(s, op, now);
      CallKeepsOneActiveIff(s, op, now);
      if OneActive(Step(s, op, now)) {
        OneActiveThroughoutIff(Step(s, op, now), calls[1..]);
      }
    }
  }

  /** Of all calls only a retry of a duplicate ends it. */
  lemma CallKeepsOneActiveIff(s: Store, op: Op, now: Time)
    requires Inv(s) && OneActive(s)
    ensures OneActive(Step(s, op, now)) <==> (op.Retry? ==> !RevivesDuplicate(s, op.id))
  {
    match op
    case Trigger(a, r, v) => TriggerKeepsOneActive(s, a, r, v, now);
    case CheckRunning(_, _, _) =>
    case Retry(id) => RetryKeepsOneActiveIff(s, id, now);
    case _ => FinishingKeepsOneActive(s, op, now);
  }

  lemma {:induction false} NoRetryAsks(s: Store, calls: seq<(Op, Time)>)
    requires forall i :: 0 <= i < |calls| ==> !calls[i].0.Retry?
    ensures RetriesAsk(s, calls)
    decreases |calls|
  {
    if calls != [] {
      var rest := calls[1..];
      assert forall i :: 0 <= i < |rest| ==> rest[i] == calls[i + 1];
      NoRetryAsks(Step(s, calls[0].0, calls[0].1), rest);
    }
  }

  lemma AtMostOneActiveWithoutRetry(calls: seq<(Op, Time)>)
    requires forall i :: 0 <= i < |calls| ==> !calls[i].0.Retry?
    ensures OneActive(Run(EMPTY, calls))
  {
    NoRetryAsks(EMPTY, calls);
    AtMostOneActive(EMPTY, calls);
  }

  /** Retry does not look for duplicates. Whenever a pipeline is canceled and the same work is
      triggered again, retrying the first makes two active. */
  lemma RetryRevivesADuplicate(s: Store, id: int, action: string, variables: seq<Variable>, now: Time)
    requires Inv(s) && OneActive(s) && id in s.pipelines
    requires s.pipelines[id].status == Running && s.pipelines[id].variables == Full(action, variables)
    ensures var s1 := Step(s, Cancel(id), now);
            var s2 := Step(s1, Trigger(action, s.pipelines[id].refName, variables), now);
            OneActive(s2) && !OneActive(Step(s2, Retry(id), now))
  {
    var refName := s.pipelines[id].refName;
    var s1 := Step(s, Cancel(id), now);
    InvStep(s, Cancel(id), now);
    FinishingKeepsOneActive(s, Cancel(id), now);
    forall other | other in s1.pipelines ensures !Duplicates(s1.pipelines[other], refName, Full(action, variables)) {
      assert other != id ==> !Rivals(s.pipelines[id], s.pipelines[other]);
    }
    TriggerBesideCanceled(s1, id, action, variables, now);
  }

  /** From an empty store: trigger, cancel, trigger the same again, retry the first. */
  lemma FourCallsMakeTwoActive(now: Time)
    ensures var s1 := Step(EMPTY, Trigger("stage", "main", []), now);
            var s2 := Step(s1, Cancel(PIPELINE_ID_BASE + 1), now);
            var s3 := Step(s2, Trigger("stage", "main", []), now);
            !OneActive(Step(s3, Retry(PIPELINE_ID_BASE + 1), now))
  {
    var first := Trigger("stage", "main", []);
    InvStep(EMPTY, first, now);
    TriggerKeepsOneActive(EMPTY, "stage", "main", [], now);
    RetryRevivesADuplicate(Step(EMPTY, first, now), PIPELINE_ID_BASE + 1, "stage", [], now);
  }

  lemma TriggerBesideCanceled(s: Store, id: int, action: string, variables: seq<Variable>, now: Time)
    requires Inv(s) && OneActive(s) && id in s.pipelines
    requires s.pipelines[id].status == Canceled && s.pipelines[id].variables == Full(action, variables)
    requires forall other :: other in s.pipelines ==>
               !Duplicates(s.pipelines[other], s.pipelines[id].refName, Full(action, variables))
    ensures var t := Step(s, Trigger(action, s.pipelines[id].refName, variables), now);
            OneActive(t) && !OneActive(Step(t, Retry(id), now))
  {
    var refName := s.pipelines[id].refName;
    TriggerIsRefusedIff(s, action, refName, variables, now);
    TriggerKeepsOneActive(s, action, refName, variables, now);
    TriggeredKeepsInv(s, action, refName, variables, now);
    var t := Step(s, Trigger(action, refName, variables), now);
    assert Duplicates(t.pipelines[s.nextId], refName, Full(action, variables));
    RevivesDuplicateMeans(t, id);
    RevivedBreaks(t, id, now);
  }
}
