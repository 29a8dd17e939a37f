/** The drain operation on an API client, and what its requests and answer can be. */
module DrainService {
  import opened Wrappers
  import opened Seqs
  import opened Kube
  import opened KubeApi
  import opened NodeErrors
  import opened NodeService
  import opened Drain
  import opened Sorting

  /** A monotonic clock that may run on by itself before any reading and during any sleep. */
  type Span = x: real | x >= 0.0

  class Clock {
    const drift: nat -> Span
    var ticks: nat
    var now: real
    var sleeps: seq<nat>

    constructor (start: real, drift: nat -> Span)
      ensures now == start && sleeps == []
    {
      this.drift := drift;
      ticks, now, sleeps := 0, start, [];
    }

    /** `n` more sleeps, each of two seconds, and the clock shows them. */
    twostate predicate Slept(n: int)
      reads this
    {
      && |sleeps| == |old(sleeps)| + n && old(sleeps) <= sleeps
      && (forall i :: |old(sleeps)| <= i < |sleeps| ==> sleeps[i] == 2)
      && now >= old(now) + (2 * n) as real
    }

    method Monotonic() returns (t: real)
      modifies this
      ensures t == now && Slept(0)
    {
      ticks, now := ticks + 1, now + drift(ticks);
      t := now;
    }

    /** The pause between two polls, unless the deadline has passed. */
    method SleepUnlessSpent(deadline: real) returns (spent: bool)
      modifies this
      ensures if spent then now >= deadline && Slept(0) else old(now) < deadline && Slept(1)
    {
      var read := Monotonic();
      spent := read >= deadline;
      if !spent {
        Sleep(2);
      }
    }

    method Sleep(seconds: nat)
      modifies this
      ensures now >= old(now) + seconds as real && sleeps == old(sleeps) + [seconds]
    {
      ticks, now, sleeps := ticks + 1, now + seconds as real + drift(ticks), sleeps + [seconds];
    }
  }

  /******* Removing one pod *******/

  function RemovalRequest(o: DrainOptions, namespace: string, name: string): Request {
    if o.disableEviction then Delete(namespace, name, o.gracePeriodSeconds)
    else Evict(namespace, name, o.gracePeriodSeconds)
  }

  /** A pod that is already gone is as good as removed; a disruption budget refuses with a 409. */
  function RemovalError(o: DrainOptions, reply: Reply): Option<ServiceError> {
    if !reply.Failed? || reply.fault == ApiError(Some(404)) then None
    else if !o.disableEviction && reply.fault == ApiError(Some(429)) then Some(KubeError(Some(409), false))
    else Some(Translate(reply.fault, None))
  }

  method EvictOrDelete(api: CoreV1Api, name: string, namespace: string, o: DrainOptions)
      returns (e: Option<ServiceError>)
    requires api.Valid()
    modifies api, api.store
    ensures |api.log| == |old(api.log)| + 1
    ensures api.Exchanged(RemovalRequest(o, namespace, name), api.log[|old(api.log)|].reply)
    ensures e == RemovalError(o, api.log[|old(api.log)|].reply)
  {
    if o.disableEviction {
      var reply := api.DeleteNamespacedPod(name, namespace, o.gracePeriodSeconds);
      if reply.Failed? {
        if reply.fault == ApiError(Some(404)) {
          return None;
        }
        return Some(Translate(reply.fault, None));
      }
    } else {
      var reply := api.CreateNamespacedPodEviction(name, namespace, o.gracePeriodSeconds);
      if reply.Failed? {
        match reply.fault {
          case ApiError(status) =>
            if status == Some(404) {
              return None;
            }
            if status == Some(429) {
              return Some(KubeError(Some(409), false));
            }
          case Unreachable =>
        }
        return Some(Translate(reply.fault, None));
      }
    }
    return None;
  }

  /******* Waiting *******/

  function Ids(pods: seq<Pod>): set<PodId> {
    set p | p in pods :: p.Id()
  }

  function IdList(pods: seq<Pod>): seq<PodId> {
    Map(pods, (p: Pod) => p.Id())
  }

  function StillPresent(pods: seq<Pod>, ids: set<PodId>): set<PodId> {
    Ids(pods) * ids
  }

  /** Listings that each saw a target. */
  ghost predicate StillWaiting(t: seq<Exchange>, node: string, ids: set<PodId>) {
    forall i :: 0 <= i < |t| ==>
      t[i].request == ListPods(NodeSelector(node)) && t[i].reply.PodList? && StillPresent(t[i].reply.pods, ids) != {}
  }

  /** The listings of one wait: all but the last saw a target; the last one is the answer. */
  ghost predicate WaitTrace(t: seq<Exchange>, node: string, ids: set<PodId>, timeout: int,
                            r: Result<set<PodId>, ServiceError>) {
    if ids == {} then t == [] && r == Ok({})
    else
      && |t| > 0
      && (forall i :: 0 <= i < |t| ==> t[i].request == ListPods(NodeSelector(node)))
      && (forall i :: 0 <= i < |t| - 1 ==> t[i].reply.PodList? && StillPresent(t[i].reply.pods, ids) != {})
      && (|t| > 1 ==> 2 * (|t| - 2) < timeout)
      && match t[|t| - 1].reply
         case PodList(pods) => r == Ok(StillPresent(pods, ids))
         case Failed(f) => r == Err(Translate(f, None))
         case _ => false
  }

  /** One more listing, and which of the pods it still shows. */
  ghost predicate Polled(x: Exchange, node: string, ids: set<PodId>, r: Result<set<PodId>, ServiceError>) {
    && x.request == ListPods(NodeSelector(node))
    && match x.reply
       case PodList(pods) => r == Ok(StillPresent(pods, ids))
       case Failed(f) => r == Err(Translate(f, None))
       case _ => false
  }

  method Poll(api: CoreV1Api, node: string, podNames: set<PodId>) returns (r: Result<set<PodId>, ServiceError>)
    requires api.Valid()
    modifies api, api.store
    ensures |api.log| == |old(api.log)| + 1
    ensures api.Exchanged(ListPods(NodeSelector(node)), api.log[|old(api.log)|].reply)
    ensures Polled(api.log[|old(api.log)|], node, podNames, r)
  {
    var reply := api.ListPodForAllNamespaces(NodeSelector(node));
    if reply.Failed? {
      return Err(Translate(reply.fault, None));
    }
    return Ok(StillPresent(reply.pods, podNames));
  }

  /** The body of the wait: done when the listing fails, shows no target, or finds the deadline passed. */
  method PollAndPause(api: CoreV1Api, clock: Clock, node: string, podNames: set<PodId>, deadline: real)
      returns (r: Result<set<PodId>, ServiceError>, done: bool)
    requires api.Valid()
    modifies api, api.store, clock
    ensures |api.log| == |old(api.log)| + 1
    ensures api.Exchanged(ListPods(NodeSelector(node)), api.log[|old(api.log)|].reply)
    ensures Polled(api.log[|old(api.log)|], node, podNames, r)
    ensures clock.Slept(if done then 0 else 1)
    ensures if r.Err? || r.value == {} then done
            else if done then clock.now >= deadline
            else old(clock.now) < deadline
  {
    r := Poll(api, node, podNames);
    if r.Err? || r.value == {} {
      return r, true;
    }
    done := clock.SleepUnlessSpent(deadline);
  }

  /** Listings that each saw a target can end with any one more. */
  lemma WaitEnds(t: seq<Exchange>, x: Exchange, node: string, ids: set<PodId>, timeout: int,
                 r: Result<set<PodId>, ServiceError>)
    requires ids != {} && StillWaiting(t, node, ids) && (t != [] ==> 2 * (|t| - 1) < timeout) && Polled(x, node, ids, r)
    ensures WaitTrace(t + [x], node, ids, timeout, r)
    ensures r.Ok? && r.value != {} ==> StillWaiting(t + [x], node, ids)
  {
  }

  method WaitForPodsGone(api: CoreV1Api, clock: Clock, node: string, podNames: set<PodId>, timeoutSeconds: int)
      returns (r: Result<set<PodId>, ServiceError>)
    requires api.Valid()
    modifies api, api.store, clock
    ensures api.Continues()
    ensures WaitTrace(api.Since(old(api.log)), node, podNames, timeoutSeconds, r)
    ensures clock.Slept(if |api.log| > |old(api.log)| then |api.log| - |old(api.log)| - 1 else 0)
    ensures r.Ok? && r.value != {} ==> clock.now >= old(clock.now) + timeoutSeconds as real
  {
    if podNames == {} {
      return Ok({});
    }
    var started := clock.Monotonic();
    r := PollUntil(api, clock, node, podNames, started, timeoutSeconds);
  }

  lemma LogAppends(log0: seq<Exchange>, t: seq<Exchange>, x: Exchange)
    ensures (log0 + t) + [x] == log0 + (t + [x]) && (log0 + (t + [x]))[|log0|..] == t + [x]
  {
  }

  /** The loop of the wait, from the moment its clock was read. */
  method PollUntil(api: CoreV1Api, clock: Clock, node: string, podNames: set<PodId>, started: real, timeoutSeconds: int)
      returns (r: Result<set<PodId>, ServiceError>)
    requires api.Valid() && podNames != {} && clock.now >= started
    modifies api, api.store, clock
    ensures api.Continues()
    ensures WaitTrace(api.Since(old(api.log)), node, podNames, timeoutSeconds, r)
    ensures clock.Slept(|api.log| - |old(api.log)| - 1)
    ensures r.Ok? && r.value != {} ==> clock.now >= started + timeoutSeconds as real
  {
    ghost var log0, t: seq<Exchange> := api.log, [];
    var deadline := started + timeoutSeconds as real;
    while true
      invariant api.Continues() && api.log == log0 + t
      invariant clock.Slept(|t|)
      invariant StillWaiting(t, node, podNames) && (t != [] ==> 2 * (|t| - 1) < timeoutSeconds)
      decreases timeoutSeconds - 2 * |t|
    {
      var done: bool;
      r, done := PollAndPause(api, clock, node, podNames, deadline);
      ghost var x := api.log[|api.log| - 1];
      WaitEnds(t, x, node, podNames, timeoutSeconds, r);
      LogAppends(log0, t, x);
      if done {
        return;
      }
      t := t + [x];
    }
  }

  /** A wait with budget T lists at most ceil(T / 2) + 1 times, and at least once if anything was removed. */
  lemma WaitIsBounded(t: seq<Exchange>, node: string, ids: set<PodId>, timeout: nat,
                      r: Result<set<PodId>, ServiceError>)
    requires WaitTrace(t, node, ids, timeout, r)
    ensures |t| <= (timeout + 1) / 2 + 1
    ensures t == [] <==> ids == {}
    ensures r.Ok? ==> r.value <= ids
  {
  }

  /******* Drain *******/

  /** What is still terminating is listed by namespace, and by name within one. */
  ghost function Answer(node: string, o: DrainOptions, targets: seq<Pod>, waited: Result<set<PodId>, ServiceError>)
      : Result<DrainActionData, ServiceError> {
    match waited
    case Err(e) => Err(e)
    case Ok(left) =>
      Ok(DrainActionData(node, IdList(targets), InOrderOf(left), left == {}, o.gracePeriodSeconds == Some(0)))
  }

  ghost predicate Removed(x: Exchange, o: DrainOptions, p: Pod) {
    x.request == RemovalRequest(o, p.namespace, p.name) && RemovalError(o, x.reply) == None
  }

  /** The removals succeed up to the last exchange of `t`, which fails the drain. */
  ghost predicate RemovalFails(t: seq<Exchange>, o: DrainOptions, targets: seq<Pod>, e: ServiceError) {
    && 0 < |t| <= |targets|
    && (forall i :: 0 <= i < |t| - 1 ==> Removed(t[i], o, targets[i]))
    && t[|t| - 1].request == RemovalRequest(o, targets[|t| - 1].namespace, targets[|t| - 1].name)
    && RemovalError(o, t[|t| - 1].reply) == Some(e)
  }

  ghost predicate RemoveThenWait(t: seq<Exchange>, node: string, o: DrainOptions, timeout: int, targets: seq<Pod>,
                                 r: Result<DrainActionData, ServiceError>) {
    || (r.Err? && RemovalFails(t, o, targets, r.error))
    || (|targets| <= |t|
        && (forall i :: 0 <= i < |targets| ==> Removed(t[i], o, targets[i]))
        && exists waited ::
             WaitTrace(t[|targets|..], node, Ids(targets), timeout, waited) && r == Answer(node, o, targets, waited))
  }

  /** What follows a snapshot: a refusal of the whole without a request, or removals and a wait. */
  ghost predicate RestOfDrain(t: seq<Exchange>, node: string, o: DrainOptions, timeout: int, pods: seq<Pod>,
                              r: Result<DrainActionData, ServiceError>)
  {
    if Blocked(pods, o) != [] then
      t == [] && r == Err(DrainBlocked(node, Blocked(pods, o), RequiredOptions(Blocked(pods, o))))
    else RemoveThenWait(t, node, o, timeout, Targets(pods, o), r)
  }

  /** Every exchange of a drain and its answer: cordon, list, then refuse, or remove and wait. */
  ghost predicate DrainTrace(t: seq<Exchange>, node: string, o: DrainOptions, timeout: int,
                             r: Result<DrainActionData, ServiceError>) {
    && |t| > 0 && t[0].request == PatchNode(node, Unschedulable(true))
    && if t[0].reply.Failed? then |t| == 1 && r == Err(Translate(t[0].reply.fault, Some(NodeNotFound(node))))
       else
         && |t| > 1 && t[1].request == ListPods(NodeSelector(node))
         && match t[1].reply
            case Failed(f) => |t| == 2 && r == Err(Translate(f, None))
            case PodList(pods) => RestOfDrain(t[2..], node, o, timeout, pods, r)
            case _ => false
  }

  /** How many listings of `t` belong to the wait. */
  function Polls(t: seq<Exchange>, o: DrainOptions): nat {
    if |t| > 1 && t[1].reply.PodList? && |t| > 2 + |Targets(t[1].reply.pods, o)| then
      |t| - 2 - |Targets(t[1].reply.pods, o)|
    else 0
  }

  method RemoveAll(api: CoreV1Api, podsToEvict: seq<Pod>, o: DrainOptions) returns (e: Option<ServiceError>)
    requires api.Valid()
    modifies api, api.store
    ensures api.Continues()
    ensures e.Some? ==> RemovalFails(api.Since(old(api.log)), o, podsToEvict, e.value)
    ensures e == None ==> |api.Since(old(api.log))| == |podsToEvict|
    ensures e == None ==> forall i :: 0 <= i < |podsToEvict| ==> Removed(api.Since(old(api.log))[i], o, podsToEvict[i])
  {
    for i := 0 to |podsToEvict|
      invariant api.Continues()
      invariant |api.Since(old(api.log))| == i
      invariant forall k :: 0 <= k < i ==> Removed(api.Since(old(api.log))[k], o, podsToEvict[k])
    {
      var failed := EvictOrDelete(api, podsToEvict[i].name, podsToEvict[i].namespace, o);
      if failed.Some? {
        return failed;
      }
    }
    return None;
  }

  /** Steps 4 and 5 of a drain. */
  method RemoveAndWait(api: CoreV1Api, clock: Clock, node: string, o: DrainOptions, timeoutSeconds: int,
                       podsToEvict: seq<Pod>)
      returns (r: Result<DrainActionData, ServiceError>)
    requires api.Valid()
    modifies api, api.store, clock
    ensures api.Continues()
    ensures RemoveThenWait(api.Since(old(api.log)), node, o, timeoutSeconds, podsToEvict, r)
    ensures r.Ok? && !r.value.nodeEmptied ==> clock.now >= old(clock.now) + timeoutSeconds as real
    ensures var polls := |api.log| - |old(api.log)| - |podsToEvict|; clock.Slept(if polls > 0 then polls - 1 else 0)
  {
    ghost var log0 := api.log;
    var failed := RemoveAll(api, podsToEvict, o);
    if failed.Some? {
      return Err(failed.value);
    }
    ghost var log1 := api.log;
    var waited := WaitForPodsGone(api, clock, node, Ids(podsToEvict), timeoutSeconds);
    assert api.Since(log1) == api.Since(log0)[|podsToEvict|..];
    if waited.Err? {
      return Err(waited.error);
    }
    var stillTerminating := SortedMembers(waited.value);
    OneListing(stillTerminating, InOrderOf(waited.value), waited.value);
    r := Ok(DrainActionData(node, IdList(podsToEvict), stillTerminating, stillTerminating == [],
                            o.gracePeriodSeconds == Some(0)));
    assert r == Answer(node, o, podsToEvict, waited);
  }

  ghost predicate Opening(t: seq<Exchange>, node: string, r: Result<seq<Pod>, ServiceError>) {
    && |t| > 0 && t[0].request == PatchNode(node, Unschedulable(true))
    && if t[0].reply.Failed? then |t| == 1 && r == Err(Translate(t[0].reply.fault, Some(NodeNotFound(node))))
       else
         && |t| == 2 && t[1].request == ListPods(NodeSelector(node))
         && match t[1].reply
            case Failed(f) => r == Err(Translate(f, None))
            case PodList(pods) => r == Ok(pods)
            case _ => false
  }

  lemma FailedOpening(t: seq<Exchange>, node: string, o: DrainOptions, timeout: int, e: ServiceError)
    requires Opening(t, node, Err(e))
    ensures DrainTrace(t, node, o, timeout, Err(e)) && Polls(t, o) == 0
  {
  }

  lemma OpeningThenRest(a: seq<Exchange>, b: seq<Exchange>, node: string, o: DrainOptions, timeout: int, pods: seq<Pod>,
                        r: Result<DrainActionData, ServiceError>)
    requires Opening(a, node, Ok(pods)) && RestOfDrain(b, node, o, timeout, pods, r)
    ensures DrainTrace(a + b, node, o, timeout, r)
    ensures Polls(a + b, o) == if |b| > |Targets(pods, o)| then |b| - |Targets(pods, o)| else 0
  {
    assert (a + b)[2..] == b;
  }

  /** Steps 1 and 2. */
  method CordonAndList(api: CoreV1Api, node: string) returns (r: Result<seq<Pod>, ServiceError>)
    requires api.Valid()
    modifies api, api.store
    ensures api.Continues()
    ensures Opening(api.Since(old(api.log)), node, r)
  {
    var e := Cordon(api, node);
    if e.Some? {
      return Err(e.value);
    }
    var listed := api.ListPodForAllNamespaces(NodeSelector(node));
    if listed.Failed? {
      return Err(Translate(listed.fault, None));
    }
    return Ok(listed.pods);
  }

  /** Steps 3 to 5: classify the snapshot, then refuse it as a whole or go on. */
  method DrainPods(api: CoreV1Api, clock: Clock, node: string, o: DrainOptions, timeoutSeconds: int, pods: seq<Pod>)
      returns (r: Result<DrainActionData, ServiceError>)
    requires api.Valid()
    modifies api, api.store, clock
    ensures api.Continues()
    ensures RestOfDrain(api.Since(old(api.log)), node, o, timeoutSeconds, pods, r)
    ensures r.Ok? && !r.value.nodeEmptied ==> clock.now >= old(clock.now) + timeoutSeconds as real
    ensures var polls := |api.log| - |old(api.log)| - |Targets(pods, o)|;
            clock.Slept(if polls > 0 then polls - 1 else 0)
  {
    var podsToEvict, blocked := Classify(pods, o);
    if blocked != [] {
      return Err(DrainBlocked(node, blocked, RequiredOptions(blocked)));
    }
    r := RemoveAndWait(api, clock, node, o, timeoutSeconds, podsToEvict);
  }

  method DrainNode(api: CoreV1Api, clock: Clock, node: string, o: DrainOptions, timeoutSeconds: int)
      returns (r: Result<DrainActionData, ServiceError>)
    requires api.Valid()
    modifies api, api.store, clock
    ensures api.Continues()
    ensures DrainTrace(api.Since(old(api.log)), node, o, timeoutSeconds, r)
    ensures r.Ok? && !r.value.nodeEmptied ==> clock.now >= old(clock.now) + timeoutSeconds as real
    ensures var polls := Polls(api.Since(old(api.log)), o); clock.Slept(if polls > 0 then polls - 1 else 0)
    ensures forall i :: |old(clock.sleeps)| <= i < |clock.sleeps| ==> clock.sleeps[i] == 2
  {
    ghost var log0 := api.log;
    var listed := CordonAndList(api, node);
    if listed.Err? {
      FailedOpening(api.Since(log0), node, o, timeoutSeconds, listed.error);
      return Err(listed.error);
    }
    ghost var log2 := api.log;
    r := DrainPods(api, clock, node, o, timeoutSeconds, listed.value);
    LogGrows(log0, log2, api.log);
    OpeningThenRest(log2[|log0|..], api.Since(log2), node, o, timeoutSeconds, listed.value, r);
  }
}
