/** What every drain keeps, and what a drain of a calm cluster does exactly. */
module DrainTheorems {
  import opened Wrappers
  import opened Seqs
  import opened Kube
  import opened KubeApi
  import opened NodeErrors
  import opened Drain
  import opened DrainService
  import opened Sorting
  import opened Strings
  import LabelRules

  /******* Whatever the cluster does in between *******/

  predicate IsRemoval(r: Request) {
    r.Evict? || r.Delete?
  }

  /** Only unprotected pods of the one snapshot are ever asked to go, each after the snapshot was
      taken; one protected pod and nothing is removed; nothing undoes the cordon. */
  lemma DrainIsSafe(t: seq<Exchange>, node: string, o: DrainOptions, timeout: int,
                    r: Result<DrainActionData, ServiceError>)
    requires DrainTrace(t, node, o, timeout, r)
    ensures forall i :: 0 <= i < |t| && IsRemoval(t[i].request) ==> RemovesATarget(t, i, o)
    ensures forall i :: 0 < i < |t| ==> !t[i].request.PatchNode?
    ensures |t| > 1 && t[1].reply.PodList? && (exists p :: p in t[1].reply.pods && IsBlocked(o)(p)) ==>
              |t| == 2 && r.Err? && r.error.DrainBlocked?
  {
    forall i | 0 < i < |t|
      ensures !t[i].request.PatchNode?
      ensures IsRemoval(t[i].request) ==> RemovesATarget(t, i, o)
    {
      RequestIsSafe(t, node, o, timeout, r, i);
    }
    if |t| > 1 && t[1].reply.PodList? {
      NoneBlocked(t[1].reply.pods, o);
    }
  }

  /** Exchange i asks for the removal of an unprotected pod of the snapshot taken before it. */
  ghost predicate RemovesATarget(t: seq<Exchange>, i: nat, o: DrainOptions) {
    && 2 <= i < |t| && t[1].reply.PodList?
    && exists p :: p in t[1].reply.pods && IsTarget(o)(p) && t[i].request == RemovalRequest(o, p.namespace, p.name)
  }

  lemma RequestIsSafe(t: seq<Exchange>, node: string, o: DrainOptions, timeout: int,
                      r: Result<DrainActionData, ServiceError>, i: nat)
    requires DrainTrace(t, node, o, timeout, r) && 0 < i < |t|
    ensures !t[i].request.PatchNode?
    ensures IsRemoval(t[i].request) ==> RemovesATarget(t, i, o)
  {
    if i >= 2 {
      var targets := Targets(t[1].reply.pods, o);
      RequestAfterSnapshot(t[2..], node, o, timeout, targets, r, i - 2);
      assert t[2..][i - 2] == t[i];
      if i - 2 < |targets| {
        assert targets[i - 2] in targets;
      }
    }
  }

  /** Request number i after the snapshot removes the i-th target, or polls once all targets were tried. */
  lemma RequestAfterSnapshot(t: seq<Exchange>, node: string, o: DrainOptions, timeout: int, targets: seq<Pod>,
                             r: Result<DrainActionData, ServiceError>, i: nat)
    requires RemoveThenWait(t, node, o, timeout, targets, r) && i < |t|
    ensures t[i].request == if i < |targets| then RemovalRequest(o, targets[i].namespace, targets[i].name)
                            else ListPods(NodeSelector(node))
  {
    if !(r.Err? && RemovalFails(t, o, targets, r.error)) && |targets| <= i {
      assert t[|targets|..][i - |targets|] == t[i];
    }
  }

  /** The requests of a drain, spelled out: the flag, the pods of the node, then the removal of one target
      after another with the grace period asked for, by eviction unless that was turned off, and then listings
      of the same pods. */
  lemma RequestsOfADrain(t: seq<Exchange>, node: string, o: DrainOptions, timeout: int,
                         r: Result<DrainActionData, ServiceError>, i: nat)
    requires DrainTrace(t, node, o, timeout, r) && i < |t|
    ensures i == 0 ==> t[i].request == PatchNode(node, Unschedulable(true))
    ensures i == 1 ==> t[i].request == ListPods("spec.nodeName=" + node)
    ensures i > 1 ==>
              t[1].reply.PodList? && var targets := Targets(t[1].reply.pods, o);
              t[i].request == if i - 2 >= |targets| then ListPods("spec.nodeName=" + node)
                              else if o.disableEviction then
                                Delete(targets[i - 2].namespace, targets[i - 2].name, o.gracePeriodSeconds)
                              else Evict(targets[i - 2].namespace, targets[i - 2].name, o.gracePeriodSeconds)
  {
    SelectorText(node);
    if i > 1 {
      RequestAfterSnapshot(t[2..], node, o, timeout, Targets(t[1].reply.pods, o), r, i - 2);
      assert t[2..][i - 2] == t[i];
    }
  }

  lemma SelectorText(node: string)
    ensures NodeSelector(node) == "spec.nodeName=" + node
  {
  }

  /** No failure is swallowed: the first one ends the drain, except that a pod which is already gone
      counts as removed. */
  lemma NoFailureIsSwallowed(t: seq<Exchange>, node: string, o: DrainOptions, timeout: int,
                             r: Result<DrainActionData, ServiceError>, i: nat)
    requires DrainTrace(t, node, o, timeout, r) && i < |t| && t[i].reply.Failed?
    requires t[i].reply.fault != ApiError(Some(404)) || !(t[i].request.Evict? || t[i].request.Delete?)
    ensures i == |t| - 1 && r.Err?
    ensures t[i].request.Evict? && t[i].reply.fault == ApiError(Some(429)) ==>
              r.error == KubeApiError(Some(409), 409, false)
    ensures !(t[i].request.Evict? && t[i].reply.fault == ApiError(Some(429))) ==>
              r.error == Translate(t[i].reply.fault, if i == 0 then Some(NodeNotFound(node)) else None)
  {
    if i > 1 {
      var targets := Targets(t[1].reply.pods, o);
      assert t[2..][i - 2] == t[i];
      RequestAfterSnapshot(t[2..], node, o, timeout, targets, r, i - 2);
      FailureAfterSnapshot(t[2..], node, o, timeout, targets, r, i - 2);
    } else {
      FailedOpeningEnds(t, node, o, timeout, r, i);
    }
  }

  lemma FailedOpeningEnds(t: seq<Exchange>, node: string, o: DrainOptions, timeout: int,
                          r: Result<DrainActionData, ServiceError>, i: nat)
    requires DrainTrace(t, node, o, timeout, r) && i < |t| && i <= 1 && t[i].reply.Failed?
    ensures i == |t| - 1 && r == Err(Translate(t[i].reply.fault, if i == 0 then Some(NodeNotFound(node)) else None))
    ensures !t[i].request.Evict?
  {
  }

  lemma FailureAfterSnapshot(t: seq<Exchange>, node: string, o: DrainOptions, timeout: int, targets: seq<Pod>,
                             r: Result<DrainActionData, ServiceError>, i: nat)
    requires RemoveThenWait(t, node, o, timeout, targets, r) && i < |t| && t[i].reply.Failed?
    requires i < |targets| ==> t[i].reply.fault != ApiError(Some(404))
    ensures i == |t| - 1 && r.Err?
    ensures i < |targets| && !o.disableEviction && t[i].reply.fault == ApiError(Some(429)) ==>
              r.error == KubeApiError(Some(409), 409, false)
    ensures i >= |targets| || o.disableEviction || t[i].reply.fault != ApiError(Some(429)) ==>
              r.error == Translate(t[i].reply.fault, None)
  {
    if !(r.Err? && RemovalFails(t, o, targets, r.error)) {
      var polls := t[|targets|..];
      var waited :| WaitTrace(polls, node, Ids(targets), timeout, waited) && r == Answer(node, o, targets, waited);
      if i >= |targets| {
        assert polls[i - |targets|] == t[i];
      }
    }
  }

  /** An eviction that a disruption budget refuses stops the drain with a conflict. */
  lemma BudgetStopsTheDrain(t: seq<Exchange>, node: string, o: DrainOptions, timeout: int,
                            r: Result<DrainActionData, ServiceError>, i: nat)
    requires DrainTrace(t, node, o, timeout, r) && i < |t|
    requires t[i].request.Evict? && t[i].reply == Failed(ApiError(Some(429)))
    ensures i == |t| - 1 && r.Err? && r.error.KubeApiError?
    ensures r.error.httpStatus == 409 && r.error.kubeStatus == Some(409) && !IsClusterLevel(r.error)
  {
    NoFailureIsSwallowed(t, node, o, timeout, r, i);
  }

  /** A pod that any drain may ask to go: not a mirror pod, not finished, not of a DaemonSet, and with
      the option given up for every protection it has. */
  ghost predicate MayBeRemoved(p: Pod, o: DrainOptions) {
    && !LeftAlone(p)
    && (p.ownerKinds == [] ==> o.force)
    && ((exists v :: v in p.volumes && v.emptyDir) ==> o.deleteEmptydirData)
  }

  ghost predicate LeftAlone(p: Pod) {
    || "kubernetes.io/config.mirror" in p.annotations
    || (p.phase.Some? && Lower(p.phase.value) in {"succeeded", "failed"})
    || "DaemonSet" in p.ownerKinds
  }

  lemma TargetsMayBeRemoved(p: Pod, o: DrainOptions)
    ensures IsTarget(o)(p) <==> MayBeRemoved(p, o)
    ensures IsBlocked(o)(p) <==> !LeftAlone(p) && !MayBeRemoved(p, o)
    ensures Skipped(p) <==> LeftAlone(p)
    ensures p.phase in {Some("Succeeded"), Some("Failed")} ==> LeftAlone(p)
  {
    ReasonsAreTheProtections(p, o);
    assert Lower("Succeeded") == "succeeded" && Lower("Failed") == "failed";
    assert UsesEmptydirVolume(p) <==> exists v :: v in p.volumes && v.emptyDir;
    assert Reasons(p, o) != [] ==> Reasons(p, o)[0] in Reasons(p, o);
  }

  /** Every removal is of a pod of the snapshot that may be removed; and after a drain that went through,
      every such pod was asked to go, and its removal accepted or the pod found already gone. */
  lemma DrainRemovesExactly(t: seq<Exchange>, node: string, o: DrainOptions, timeout: int,
                            r: Result<DrainActionData, ServiceError>)
    requires DrainTrace(t, node, o, timeout, r)
    ensures forall i :: 0 <= i < |t| && (t[i].request.Evict? || t[i].request.Delete?) ==> AsksOneToGo(t, i, o)
    ensures r.Ok? ==> |t| > 1 && t[1].reply.PodList?
    ensures r.Ok? ==> forall p :: p in t[1].reply.pods && MayBeRemoved(p, o) ==>
              (p.namespace, p.name) in r.value.drainedPods && GotRidOf(t, p, o)
  {
    forall i | 0 <= i < |t| && (t[i].request.Evict? || t[i].request.Delete?) ensures AsksOneToGo(t, i, o) {
      RequestsOfADrain(t, node, o, timeout, r, i);
      var p := Targets(t[1].reply.pods, o)[i - 2];
      assert p in Targets(t[1].reply.pods, o);
      TargetsMayBeRemoved(p, o);
    }
    if r.Ok? {
      forall p | p in t[1].reply.pods && MayBeRemoved(p, o)
        ensures (p.namespace, p.name) in r.value.drainedPods && GotRidOf(t, p, o)
      {
        TargetsMayBeRemoved(p, o);
        TargetIsDrained(t, node, o, timeout, r, Targets(t[1].reply.pods, o), p);
      }
    }
  }

  ghost predicate AsksOneToGo(t: seq<Exchange>, i: nat, o: DrainOptions) {
    && 1 < i < |t| && t[1].reply.PodList?
    && exists p :: p in t[1].reply.pods && MayBeRemoved(p, o) && AsksToGo(t[i].request, p, o)
  }

  predicate AsksToGo(request: Request, p: Pod, o: DrainOptions) {
    request == if o.disableEviction then Delete(p.namespace, p.name, o.gracePeriodSeconds)
               else Evict(p.namespace, p.name, o.gracePeriodSeconds)
  }

  ghost predicate GotRidOf(t: seq<Exchange>, p: Pod, o: DrainOptions) {
    exists i :: 1 < i < |t| && AsksToGo(t[i].request, p, o)
      && (t[i].reply.Failed? ==> t[i].reply.fault == ApiError(Some(404)))
  }

  lemma TargetIsDrained(t: seq<Exchange>, node: string, o: DrainOptions, timeout: int,
                        r: Result<DrainActionData, ServiceError>, targets: seq<Pod>, p: Pod)
    requires |t| > 1 && RemoveThenWait(t[2..], node, o, timeout, targets, r) && r.Ok? && p in targets
    ensures (p.namespace, p.name) in r.value.drainedPods && GotRidOf(t, p, o)
  {
    var i :| 0 <= i < |targets| && targets[i] == p;
    TargetIsRemoved(t[2..], node, o, timeout, targets, r, i);
    assert t[2..][i] == t[i + 2];
    assert AsksToGo(t[i + 2].request, p, o);
    assert IdList(targets)[i] == (p.namespace, p.name);
  }

  lemma TargetIsRemoved(t: seq<Exchange>, node: string, o: DrainOptions, timeout: int, targets: seq<Pod>,
                        r: Result<DrainActionData, ServiceError>, i: nat)
    requires RemoveThenWait(t, node, o, timeout, targets, r) && r.Ok? && i < |targets|
    ensures i < |t| && AsksToGo(t[i].request, targets[i], o)
    ensures t[i].reply.Failed? ==> t[i].reply.fault == ApiError(Some(404))
  {
    assert Removed(t[i], o, targets[i]);
  }

  /** What a refusal says of one pod: its name, and each protection whose option was not given. */
  ghost predicate Reports(b: BlockedPod, p: Pod, o: DrainOptions) {
    && b.namespace == p.namespace && b.name == p.name
    && (Unmanaged in b.reasons <==> p.ownerKinds == [] && !o.force)
    && (UsesEmptydir in b.reasons <==> (exists v :: v in p.volumes && v.emptyDir) && !o.deleteEmptydirData)
  }

  /** A refusal reports exactly the protected pods of the snapshot; nothing was removed. */
  lemma RefusalReportsTheProtected(t: seq<Exchange>, node: string, o: DrainOptions, timeout: int,
                                   r: Result<DrainActionData, ServiceError>)
    requires DrainTrace(t, node, o, timeout, r) && r.Err? && r.error.DrainBlocked?
    ensures |t| == 2 && t[1].reply.PodList? && r.error.node == node
    ensures forall b :: b in r.error.blocked ==>
              exists p :: p in t[1].reply.pods && !LeftAlone(p) && !MayBeRemoved(p, o) && Reports(b, p, o)
    ensures forall p :: p in t[1].reply.pods && !LeftAlone(p) && !MayBeRemoved(p, o) ==>
              exists b :: b in r.error.blocked && Reports(b, p, o)
  {
    RefusalIsASnapshotsBlocked(t, node, o, timeout, r);
    var pods := t[1].reply.pods;
    forall b | b in r.error.blocked
      ensures exists p :: p in pods && !LeftAlone(p) && !MayBeRemoved(p, o) && Reports(b, p, o)
    {
      BlockedMembers(pods, o, b);
      var p :| p in pods && IsBlocked(o)(p) && b == Describe(o)(p);
      DescriptionReports(p, o);
    }
    forall p | p in pods && !LeftAlone(p) && !MayBeRemoved(p, o)
      ensures exists b :: b in r.error.blocked && Reports(b, p, o)
    {
      DescriptionReports(p, o);
      BlockedMembers(pods, o, Describe(o)(p));
    }
  }

  lemma DescriptionReports(p: Pod, o: DrainOptions)
    ensures Reports(Describe(o)(p), p, o)
    ensures IsBlocked(o)(p) <==> !LeftAlone(p) && !MayBeRemoved(p, o)
  {
    TargetsMayBeRemoved(p, o);
    ReasonsAreTheProtections(p, o);
    assert UsesEmptydirVolume(p) <==> exists v :: v in p.volumes && v.emptyDir;
  }

  /** And it asks for exactly the options some of them lack. */
  lemma RefusalAsksForWhatIsMissing(t: seq<Exchange>, node: string, o: DrainOptions, timeout: int,
                                    r: Result<DrainActionData, ServiceError>)
    requires DrainTrace(t, node, o, timeout, r) && r.Err? && r.error.DrainBlocked?
    ensures |t| == 2 && t[1].reply.PodList?
    ensures Force in r.error.required <==>
              exists p :: p in t[1].reply.pods && !LeftAlone(p) && p.ownerKinds == [] && !o.force
    ensures DeleteEmptydirData in r.error.required <==>
              exists p, v :: p in t[1].reply.pods && !LeftAlone(p) && v in p.volumes && v.emptyDir
                && !o.deleteEmptydirData
  {
    RefusalIsASnapshotsBlocked(t, node, o, timeout, r);
    var pods := t[1].reply.pods;
    RequiredMeans(pods, o);
    forall p: Pod ensures (Skipped(p) <==> LeftAlone(p)) {
      TargetsMayBeRemoved(p, o);
    }
    assert forall p: Pod :: UsesEmptydirVolume(p) <==> exists v :: v in p.volumes && v.emptyDir;
  }

  lemma RefusalIsASnapshotsBlocked(t: seq<Exchange>, node: string, o: DrainOptions, timeout: int,
                                   r: Result<DrainActionData, ServiceError>)
    requires DrainTrace(t, node, o, timeout, r) && r.Err? && r.error.DrainBlocked?
    ensures |t| == 2 && t[1].reply.PodList?
    ensures var blocked := Blocked(t[1].reply.pods, o); r.error == DrainBlocked(node, blocked, RequiredOptions(blocked))
  {
  }

  /** An error while pods are being removed: the k-th removal failed, the k - 1 before it, in snapshot
      order, were accepted or found already gone, and no later pod was asked to go. */
  lemma FailedRemovalLeavesAPrefix(t: seq<Exchange>, node: string, o: DrainOptions, timeout: int,
                                   r: Result<DrainActionData, ServiceError>)
    requires DrainTrace(t, node, o, timeout, r) && r.Err? && IsRemoval(t[|t| - 1].request)
    ensures |t| > 2 && t[1].reply.PodList?
    ensures var targets := Targets(t[1].reply.pods, o); var k := |t| - 2;
            && k <= |targets|
            && (forall i :: 0 <= i < k - 1 ==> Removed(t[2 + i], o, targets[i]))
            && t[1 + k].request == RemovalRequest(o, targets[k - 1].namespace, targets[k - 1].name)
            && RemovalError(o, t[1 + k].reply) == Some(r.error)
    ensures forall i :: 1 < i < |t| - 1 && t[i].reply.Failed? ==> t[i].reply.fault == ApiError(Some(404))
    ensures t[|t| - 1].reply.Failed? && t[|t| - 1].reply.fault != ApiError(Some(404))
  {
    var targets := Targets(t[1].reply.pods, o);
    var u := t[2..];
    if !RemovalFails(u, o, targets, r.error) {
      if u != [] {
        RequestAfterSnapshot(u, node, o, timeout, targets, r, |u| - 1);
      }
    } else {
      assert forall i :: 0 <= i < |u| ==> u[i] == t[2 + i];
    }
  }

  /** The answer of a drain that went through: the targets in snapshot order, and some of them still
      terminating; the node is reported empty exactly when none is. */
  lemma DrainAnswer(t: seq<Exchange>, node: string, o: DrainOptions, timeout: int,
                    r: Result<DrainActionData, ServiceError>)
    requires DrainTrace(t, node, o, timeout, r) && r.Ok?
    ensures r.value.node == node && (r.value.forcedDeletion <==> o.gracePeriodSeconds == Some(0))
    ensures |t| > 1 && t[1].reply.PodList? && Blocked(t[1].reply.pods, o) == []
    ensures var targets := Targets(t[1].reply.pods, o);
            && |r.value.drainedPods| == |targets|
            && (forall i :: 0 <= i < |targets| ==> r.value.drainedPods[i] == (targets[i].namespace, targets[i].name))
    ensures r.value.nodeEmptied <==> r.value.stillTerminating == []
    ensures forall id :: id in r.value.stillTerminating ==> id in r.value.drainedPods
  {
    var left := FinishedDrain(t, node, o, timeout, r);
    var targets := Targets(t[1].reply.pods, o);
    StillTerminatingWasDrained(targets, left, t[2..][|targets|..], node, timeout);
  }

  /** What is still terminating is what the last listing shows of the targets, in order; nothing without targets. */
  lemma TerminatingInOrder(t: seq<Exchange>, node: string, o: DrainOptions, timeout: int,
                           r: Result<DrainActionData, ServiceError>)
    requires DrainTrace(t, node, o, timeout, r) && r.Ok?
    ensures |t| > 1 && t[1].reply.PodList?
    ensures var targets := Targets(t[1].reply.pods, o);
            if targets == [] then r.value.stillTerminating == []
            else
              && t[|t| - 1].reply.PodList?
              && ListsInOrder(r.value.stillTerminating, StillPresent(t[|t| - 1].reply.pods, Ids(targets)))
  {
    var left := FinishedDrain(t, node, o, timeout, r);
    LastListing(t, node, Targets(t[1].reply.pods, o), timeout, left);
  }

  lemma FinishedDrain(t: seq<Exchange>, node: string, o: DrainOptions, timeout: int,
                      r: Result<DrainActionData, ServiceError>) returns (left: set<PodId>)
    requires DrainTrace(t, node, o, timeout, r) && r.Ok?
    ensures |t| > 1 && t[1].reply.PodList? && Blocked(t[1].reply.pods, o) == []
    ensures var targets := Targets(t[1].reply.pods, o);
            && |targets| + 2 <= |t| && WaitTrace(t[2..][|targets|..], node, Ids(targets), timeout, Ok(left))
            && r == Answer(node, o, targets, Ok(left))
  {
    var targets := Targets(t[1].reply.pods, o);
    var waited :| WaitTrace(t[2..][|targets|..], node, Ids(targets), timeout, waited)
      && r == Answer(node, o, targets, waited);
    left := waited.value;
  }

  /** What is left after a wait is what the last exchange showed of the targets. */
  lemma LastListing(t: seq<Exchange>, node: string, targets: seq<Pod>, timeout: int, left: set<PodId>)
    requires |targets| + 2 <= |t| && WaitTrace(t[2..][|targets|..], node, Ids(targets), timeout, Ok(left))
    ensures targets == [] ==> left == {}
    ensures targets != [] ==>
              && t[|t| - 1].request == ListPods(NodeSelector(node)) && t[|t| - 1].reply.PodList?
              && left == StillPresent(t[|t| - 1].reply.pods, Ids(targets))
  {
    if targets != [] {
      var polls := t[2..][|targets|..];
      assert targets[0].Id() in Ids(targets);
      assert polls[|polls| - 1] == t[|t| - 1];
    }
  }

  /** Still terminating is exactly what was asked to go and the last listing shows. */
  lemma StillTerminatingIsListed(t: seq<Exchange>, node: string, o: DrainOptions, timeout: int,
                                 r: Result<DrainActionData, ServiceError>, ns: string, name: string)
    requires DrainTrace(t, node, o, timeout, r) && r.Ok? && r.value.drainedPods != []
    ensures t[|t| - 1].request == ListPods("spec.nodeName=" + node) && t[|t| - 1].reply.PodList?
    ensures (ns, name) in r.value.stillTerminating <==>
              && (ns, name) in r.value.drainedPods
              && exists p :: p in t[|t| - 1].reply.pods && p.namespace == ns && p.name == name
  {
    var left := FinishedDrain(t, node, o, timeout, r);
    var targets := Targets(t[1].reply.pods, o);
    LastListing(t, node, targets, timeout, left);
    SelectorText(node);
    TerminatingMembers(targets, t[|t| - 1].reply.pods, ns, name);
  }

  lemma TerminatingMembers(targets: seq<Pod>, shown: seq<Pod>, ns: string, name: string)
    ensures (ns, name) in InOrderOf(StillPresent(shown, Ids(targets))) <==>
              (ns, name) in IdList(targets) && exists p :: p in shown && p.namespace == ns && p.name == name
  {
    IdMembers(targets, ns, name);
    IdMembers(shown, ns, name);
  }

  lemma IdMembers(pods: seq<Pod>, ns: string, name: string)
    ensures (ns, name) in IdList(pods) <==> exists p :: p in pods && p.namespace == ns && p.name == name
    ensures (ns, name) in Ids(pods) <==> (ns, name) in IdList(pods)
  {
    MapMembers(pods, (p: Pod) => p.Id(), (ns, name));
  }

  lemma StillTerminatingWasDrained(targets: seq<Pod>, left: set<PodId>, polls: seq<Exchange>, node: string,
                                   timeout: int)
    requires WaitTrace(polls, node, Ids(targets), timeout, Ok(left))
    ensures forall id :: id in left ==> id in IdList(targets)
  {
    forall id | id in left ensures id in IdList(targets) {
      var p :| p in targets && p.Id() == id;
      var i :| 0 <= i < |targets| && targets[i] == p;
      assert IdList(targets)[i] == id;
    }
  }

  /******* On a calm cluster: the dry-run client *******/

  ghost predicate DistinctIds(pods: seq<Pod>) {
    forall i, j :: 0 <= i < j < |pods| ==> pods[i].Id() != pods[j].Id()
  }

  function NotAmong(gone: seq<Pod>): Pod -> bool {
    (p: Pod) => p !in gone
  }

  /** The pods a drain of the node is shown; those of the node, when the name is selectable. */
  function Seen(pods: seq<Pod>, node: string): seq<Pod> {
    Filter(pods, PickedFor(node))
  }

  /** Not a pod this drain removes. */
  function Stays(node: string, o: DrainOptions): Pod -> bool {
    (p: Pod) => !(PickedFor(node)(p) && IsTarget(o)(p))
  }

  function Cordoned(s: ClusterState, node: string): ClusterState
    requires node in s.nodes
  {
    s.(nodes := s.nodes[node := s.nodes[node].(unschedulable := true)])
  }

  lemma SameIdSamePod(pods: seq<Pod>, p: Pod, q: Pod)
    requires DistinctIds(pods) && p in pods && q in pods && p.Id() == q.Id()
    ensures p == q
  {
  }

  lemma {:induction false} FilterKeepsDistinctIds(pods: seq<Pod>, keep: Pod -> bool)
    requires DistinctIds(pods)
    ensures DistinctIds(Filter(pods, keep))
  {
    if pods != [] {
      var rest := Filter(pods[1..], keep);
      FilterKeepsDistinctIds(pods[1..], keep);
      forall p | p in rest ensures p.Id() != pods[0].Id() {
        var i :| 0 <= i < |pods[1..]| && pods[1..][i] == p;
        assert pods[i + 1] == p;
      }
      var all := Filter(pods, keep);
      assert all == (if keep(pods[0]) then [pods[0]] else []) + rest;
    }
  }

  function Other(p: Pod): Pod -> bool {
    (q: Pod) => q != p
  }

  /** With distinct ids, taking out the first pod of a name is filtering that pod out. */
  lemma {:induction false} WithoutIsFilter(pods: seq<Pod>, p: Pod)
    requires DistinctIds(pods) && p in pods
    ensures IndexOfPod(pods, p.namespace, p.name) < |pods|
    ensures Without(pods, IndexOfPod(pods, p.namespace, p.name)) == Filter(pods, Other(p))
  {
    HeadIdIsItsOwn(pods);
    if pods[0].Id() == p.Id() {
      WithoutHead(pods, p);
    } else {
      WithoutIsFilter(pods[1..], p);
      WithoutTail(pods, IndexOfPod(pods[1..], p.namespace, p.name));
    }
  }

  lemma WithoutHead(pods: seq<Pod>, p: Pod)
    requires DistinctIds(pods) && pods != [] && p in pods && pods[0].Id() == p.Id()
    ensures IndexOfPod(pods, p.namespace, p.name) == 0 && Without(pods, 0) == Filter(pods, Other(p))
  {
    HeadIdIsItsOwn(pods);
    FilterAll(pods[1..], Other(p));
    assert Without(pods, 0) == pods[1..];
  }

  lemma WithoutTail(pods: seq<Pod>, i: nat)
    requires i + 1 < |pods|
    ensures Without(pods, i + 1) == [pods[0]] + Without(pods[1..], i)
  {
  }

  lemma HeadIdIsItsOwn(pods: seq<Pod>)
    requires DistinctIds(pods) && pods != []
    ensures DistinctIds(pods[1..]) && forall q :: q in pods[1..] ==> q.Id() != pods[0].Id()
  {
    var rest := pods[1..];
    assert forall i :: 0 <= i < |rest| ==> rest[i] == pods[i + 1];
  }

  /** One more target removed from what is left of the pod list. */
  lemma RemoveOne(s: ClusterState, pods: seq<Pod>, gone: seq<Pod>, p: Pod)
    requires DistinctIds(pods) && p in pods && p !in gone && s.pods == Filter(pods, NotAmong(gone))
    ensures Remove(s, p.namespace, p.name) == (s.(pods := Filter(pods, NotAmong(gone + [p]))), Accepted)
  {
    FilterKeepsDistinctIds(pods, NotAmong(gone));
    WithoutIsFilter(s.pods, p);
    FilterFilter(pods, NotAmong(gone), Other(p), NotAmong(gone + [p]));
  }

  lemma CalmRemoval(w: Weather, i: nat, states: seq<ClusterState>, t: seq<Exchange>, o: DrainOptions, pods: seq<Pod>,
                    gone: seq<Pod>, p: Pod, k: nat)
    requires Calm(w) && Played(w, i, states, t) && k < |t|
    requires t[k].request == RemovalRequest(o, p.namespace, p.name)
    requires DistinctIds(pods) && p in pods && p !in gone && states[k].pods == Filter(pods, NotAmong(gone))
    ensures states[k + 1] == states[k].(pods := Filter(pods, NotAmong(gone + [p])))
    ensures t[k].reply == Accepted
  {
    CalmStep(w, i, states, t, k);
    RespondRemoval(states[k], o, p);
    RemoveOne(states[k], pods, gone, p);
  }

  lemma RespondRemoval(s: ClusterState, o: DrainOptions, p: Pod)
    ensures Respond(s, RemovalRequest(o, p.namespace, p.name)) == Remove(s, p.namespace, p.name)
  {
  }

  lemma CalmListing(w: Weather, i: nat, states: seq<ClusterState>, t: seq<Exchange>, k: nat, node: string)
    requires Calm(w) && Played(w, i, states, t) && k < |t| && t[k].request == ListPods(NodeSelector(node))
    ensures states[k + 1] == states[k] && t[k].reply == PodList(Seen(states[k].pods, node))
  {
    CalmStep(w, i, states, t, k);
    NodeSelectorIsFilter(states[k].pods, node);
  }

  lemma FirstListingEmpty(t: seq<Exchange>, node: string, ids: set<PodId>, timeout: int,
                          r: Result<set<PodId>, ServiceError>)
    requires ids != {} && WaitTrace(t, node, ids, timeout, r)
    requires t[0].reply.PodList? && StillPresent(t[0].reply.pods, ids) == {}
    ensures |t| == 1 && r == Ok({})
  {
  }

  /** After k removals exactly the first k targets are gone. */
  lemma {:induction false} CalmRemovals(w: Weather, i: nat, states: seq<ClusterState>, t: seq<Exchange>,
                                        o: DrainOptions, targets: seq<Pod>, k: nat)
    requires Calm(w) && Played(w, i, states, t) && k <= |targets| && k <= |t|
    requires forall j :: 0 <= j < k ==> t[j].request == RemovalRequest(o, targets[j].namespace, targets[j].name)
    requires DistinctIds(states[0].pods) && DistinctIds(targets) && forall p :: p in targets ==> p in states[0].pods
    ensures states[k] == states[0].(pods := Filter(states[0].pods, NotAmong(targets[..k])))
    ensures k > 0 ==> t[k - 1].reply == Accepted
  {
    var pods := states[0].pods;
    if k == 0 {
      FilterAll(pods, NotAmong([]));
    } else {
      CalmRemovals(w, i, states, t, o, targets, k - 1);
      assert targets[..k] == targets[..k - 1] + [targets[k - 1]];
      assert targets[k - 1] !in targets[..k - 1];
      CalmRemoval(w, i, states, t, o, pods, targets[..k - 1], targets[k - 1], k - 1);
    }
  }

  /** Once the targets are gone a listing of the node shows none of them. */
  lemma NoneStillPresent(pods: seq<Pod>, targets: seq<Pod>, node: string)
    requires DistinctIds(pods) && forall p :: p in targets ==> p in pods
    ensures StillPresent(Seen(Filter(pods, NotAmong(targets)), node), Ids(targets)) == {}
  {
    var left := Seen(Filter(pods, NotAmong(targets)), node);
    forall p, q | p in left && q in targets && p.Id() == q.Id() ensures false {
      SameIdSamePod(pods, p, q);
    }
  }

  lemma CalmWait(w: Weather, i: nat, states: seq<ClusterState>, t: seq<Exchange>, node: string, timeout: int,
                 pods: seq<Pod>, targets: seq<Pod>, r: Result<set<PodId>, ServiceError>)
    requires Calm(w) && Played(w, i, states, t) && WaitTrace(t, node, Ids(targets), timeout, r)
    requires DistinctIds(pods) && forall p :: p in targets ==> p in pods
    requires states[0].pods == Filter(pods, NotAmong(targets))
    ensures states[|t|] == states[0] && |t| == (if targets == [] then 0 else 1) && r == Ok({})
  {
    if targets != [] {
      assert targets[0].Id() in Ids(targets);
      CalmListing(w, i, states, t, 0, node);
      NoneStillPresent(pods, targets, node);
      FirstListingEmpty(t, node, Ids(targets), timeout, r);
    }
  }

  lemma CalmRemovalsNeverFail(w: Weather, i: nat, states: seq<ClusterState>, t: seq<Exchange>, o: DrainOptions,
                              targets: seq<Pod>, e: ServiceError)
    requires Calm(w) && Played(w, i, states, t)
    requires DistinctIds(states[0].pods) && DistinctIds(targets) && forall p :: p in targets ==> p in states[0].pods
    ensures !RemovalFails(t, o, targets, e)
  {
    if RemovalFails(t, o, targets, e) {
      CalmRemovals(w, i, states, t, o, targets, |t|);
    }
  }

  /** The removals and the wait on a calm cluster: all targets go, and one listing sees it. */
  lemma CalmRemoveThenWait(w: Weather, i: nat, states: seq<ClusterState>, t: seq<Exchange>, node: string,
                           o: DrainOptions, timeout: int, targets: seq<Pod>, r: Result<DrainActionData, ServiceError>)
    requires Calm(w) && Played(w, i, states, t) && RemoveThenWait(t, node, o, timeout, targets, r)
    requires DistinctIds(states[0].pods) && DistinctIds(targets) && forall p :: p in targets ==> p in states[0].pods
    ensures states[|t|] == states[0].(pods := Filter(states[0].pods, NotAmong(targets)))
    ensures |t| == |targets| + (if targets == [] then 0 else 1)
    ensures r == Answer(node, o, targets, Ok({}))
  {
    var n := |targets|;
    if r.Err? && RemovalFails(t, o, targets, r.error) {
      CalmRemovalsNeverFail(w, i, states, t, o, targets, r.error);
    } else {
      CalmRemovals(w, i, states, t, o, targets, n);
      assert targets[..n] == targets;
      var waited :| WaitTrace(t[n..], node, Ids(targets), timeout, waited) && r == Answer(node, o, targets, waited);
      PlayedSplits(w, i, states, t, n);
      CalmWait(w, i + n, states[n..], t[n..], node, timeout, states[0].pods, targets, waited);
    }
  }

  /** Refused with only the cordon done, or: the node cordoned, its targets gone, and every other
      pod where it was, in order. */
  ghost predicate Drained(before: ClusterState, after: ClusterState, node: string, o: DrainOptions,
                          r: Result<DrainActionData, ServiceError>)
    requires node in before.nodes
  {
    var here := Seen(before.pods, node);
    if Blocked(here, o) != [] then
      && after == Cordoned(before, node)
      && r == Err(DrainBlocked(node, Blocked(here, o), RequiredOptions(Blocked(here, o))))
    else
      && after == Cordoned(before, node).(pods := Filter(before.pods, Stays(node, o)))
      && r == Answer(node, o, Targets(here, o), Ok({}))
  }

  /** The same without the words of the program: what is left of a calm cluster once a node is drained. */
  lemma DrainedMeans(before: ClusterState, after: ClusterState, node: string, o: DrainOptions,
                     r: Result<DrainActionData, ServiceError>)
    requires node in before.nodes && Drained(before, after, node, o, r) && Selectable(node)
    ensures after.nodes == before.nodes[node := before.nodes[node].(unschedulable := true)]
    ensures r.Err? <==> exists p :: p in before.pods && p.nodeName == Some(node) && !LeftAlone(p) && !MayBeRemoved(p, o)
    ensures r.Err? ==> after.pods == before.pods && r.error.DrainBlocked?
    ensures r.Ok? ==> r.value.nodeEmptied && r.value.stillTerminating == []
    ensures r.Ok? ==> after.pods == Filter(before.pods, KeptByDrain(node, o))
  {
    PicksTheNodeIff(node);
    forall p
      ensures IsBlocked(o)(p) <==> !LeftAlone(p) && !MayBeRemoved(p, o)
      ensures IsTarget(o)(p) <==> MayBeRemoved(p, o)
    {
      TargetsMayBeRemoved(p, o);
    }
    NoneBlocked(Seen(before.pods, node), o);
    assert forall p :: p in Seen(before.pods, node) <==> p in before.pods && p.nodeName == Some(node);
    if r.Ok? {
      FilterSame(before.pods, Stays(node, o), KeptByDrain(node, o));
    }
  }

  ghost function KeptByDrain(node: string, o: DrainOptions): Pod -> bool {
    (p: Pod) => !(p.nodeName == Some(node) && MayBeRemoved(p, o))
  }

  /** The cordon and the snapshot on a calm cluster. */
  lemma CalmOpening(w: Weather, i: nat, states: seq<ClusterState>, t: seq<Exchange>, node: string, o: DrainOptions,
                    timeout: int, r: Result<DrainActionData, ServiceError>)
    requires Calm(w) && Played(w, i, states, t) && DrainTrace(t, node, o, timeout, r)
    requires node in states[0].nodes
    ensures |t| > 1 && !t[0].reply.Failed? && t[1].reply == PodList(Seen(states[0].pods, node))
    ensures states[1] == Cordoned(states[0], node) && states[2] == states[1]
  {
    CalmStep(w, i, states, t, 0);
    CalmStep(w, i, states, t, 1);
    NodeSelectorIsFilter(states[0].pods, node);
  }

  lemma TargetsAreDistinct(pods: seq<Pod>, node: string, o: DrainOptions)
    requires DistinctIds(pods)
    ensures DistinctIds(Targets(Seen(pods, node), o))
    ensures forall p :: p in Targets(Seen(pods, node), o) <==> p in pods && !Stays(node, o)(p)
  {
    FilterKeepsDistinctIds(pods, PickedFor(node));
    FilterKeepsDistinctIds(Seen(pods, node), IsTarget(o));
  }

  /** Draining a known node of a calm cluster succeeds, unless a pod blocks it: the node ends
      cordoned, its unskipped pods are gone, every other pod stays where it was, in order, and
      nothing else changed. The wait needs at most one listing, so it never sleeps. */
  lemma CalmDrain(w: Weather, i: nat, states: seq<ClusterState>, t: seq<Exchange>, node: string, o: DrainOptions,
                  timeout: int, r: Result<DrainActionData, ServiceError>)
    requires Calm(w) && Played(w, i, states, t) && DrainTrace(t, node, o, timeout, r)
    requires node in states[0].nodes && DistinctIds(states[0].pods)
    ensures Drained(states[0], states[|t|], node, o, r)
    ensures Polls(t, o) <= 1
  {
    CalmOpening(w, i, states, t, node, o, timeout, r);
    if Blocked(Seen(states[0].pods, node), o) == [] {
      PlayedSplits(w, i, states, t, 2);
      CalmRest(w, i + 2, states[2..], t[2..], node, o, timeout, r);
    }
  }

  lemma CalmRest(w: Weather, i: nat, states: seq<ClusterState>, t: seq<Exchange>, node: string, o: DrainOptions,
                 timeout: int, r: Result<DrainActionData, ServiceError>)
    requires Calm(w) && Played(w, i, states, t) && DistinctIds(states[0].pods)
    requires RemoveThenWait(t, node, o, timeout, Targets(Seen(states[0].pods, node), o), r)
    ensures states[|t|] == states[0].(pods := Filter(states[0].pods, Stays(node, o)))
    ensures var targets := Targets(Seen(states[0].pods, node), o);
            |t| == |targets| + (if targets == [] then 0 else 1) && r == Answer(node, o, targets, Ok({}))
  {
    var pods, targets := states[0].pods, Targets(Seen(states[0].pods, node), o);
    TargetsAreDistinct(pods, node, o);
    CalmRemoveThenWait(w, i, states, t, node, o, timeout, targets, r);
    FilterSame(pods, NotAmong(targets), Stays(node, o));
  }

  lemma {:induction false} JoinedCharacters(parts: seq<string>, c: char, x: char)
    requires |parts| > 0 && x in Join(parts, c)
    ensures x == c || exists i :: 0 <= i < |parts| && x in parts[i]
  {
    if |parts| > 1 && x !in parts[0] && x != c {
      JoinedCharacters(parts[1..], c, x);
      var i :| 0 <= i < |parts[1..]| && x in parts[1..][i];
      assert x in parts[i + 1];
    }
  }

  /** A DNS subdomain, which is what a cluster lets a node be called, is selectable: the drain of such a
      node is shown exactly the pods of the node. */
  lemma NodeNamesAreSelectable(node: string)
    requires LabelRules.DottedLabels(node)
    ensures Selectable(node) && forall p :: PickedFor(node)(p) <==> p.nodeName == Some(node)
  {
    var parts := Split(node, '.');
    JoinSplit(node, '.');
    forall x | x in node ensures x == '.' || x == '-' || LabelRules.LowerAlnum(x) {
      JoinedCharacters(parts, '.', x);
    }
    StripPlain(node);
    PicksTheNodeIff(node);
  }

  /** The drain of the in-memory cluster: its exact effect on the store, no sleep, and no other cluster touched. */
  method DrainDryRun(api: CoreV1Api, clock: Clock, node: string, o: DrainOptions, timeoutSeconds: int)
      returns (r: Result<DrainActionData, ServiceError>)
    requires api.Valid() && Calm(api.weather)
    requires node in api.State().nodes && DistinctIds(api.State().pods)
    modifies api, api.store, clock
    ensures api.Continues()
    ensures Drained(old(api.State()), api.State(), node, o, r)
    ensures Selectable(node) ==> forall p: Pod :: PickedFor(node)(p) <==> p.nodeName == Some(node)
    ensures LabelRules.DottedLabels(node) ==> Selectable(node)
    ensures LabelRules.DottedLabels(node) && r.Ok? ==>
              api.State().pods == Filter(old(api.State().pods), KeptByDrain(node, o))
    ensures clock.sleeps == old(clock.sleeps)
  {
    PicksTheNodeIff(node);
    if LabelRules.DottedLabels(node) {
      NodeNamesAreSelectable(node);
    }
    ghost var n, states0 := |api.log|, api.states;
    r := DrainNode(api, clock, node, o, timeoutSeconds);
    assert api.states[n] == states0[n];
    LatestCalmDrain(api.weather, api.states, api.log, n, node, o, timeoutSeconds, r);
    if LabelRules.DottedLabels(node) {
      DrainedMeans(old(api.State()), api.State(), node, o, r);
    }
  }

  /** A calm drain whose exchanges are the end of a longer log. */
  lemma LatestCalmDrain(w: Weather, states: seq<ClusterState>, log: seq<Exchange>, n: nat, node: string,
                        o: DrainOptions, timeout: int, r: Result<DrainActionData, ServiceError>)
    requires Calm(w) && Played(w, 0, states, log) && n <= |log| && DrainTrace(log[n..], node, o, timeout, r)
    requires node in states[n].nodes && DistinctIds(states[n].pods)
    ensures Drained(states[n], states[|log|], node, o, r) && Polls(log[n..], o) <= 1
  {
    PlayedSplits(w, 0, states, log, n);
    CalmDrain(w, n, states[n..], log[n..], node, o, timeout, r);
  }

  /** The pods a drain leaves give a second drain with the same options nothing to do. */
  lemma NothingLeftToDrain(pods: seq<Pod>, node: string, o: DrainOptions)
    requires Blocked(Seen(pods, node), o) == []
    ensures var left := Filter(pods, Stays(node, o));
            Targets(Seen(left, node), o) == [] && Blocked(Seen(left, node), o) == []
  {
    var left := Seen(Filter(pods, Stays(node, o)), node);
    forall p | p in left ensures !IsTarget(o)(p) && !IsBlocked(o)(p) {
      LeftSeen(pods, node, o, p);
    }
    FilterNone(left, IsTarget(o));
    NoneBlocked(left, o);
  }

  lemma LeftSeen(pods: seq<Pod>, node: string, o: DrainOptions, p: Pod)
    requires Blocked(Seen(pods, node), o) == []
    requires p in Seen(Filter(pods, Stays(node, o)), node)
    ensures !IsTarget(o)(p) && !IsBlocked(o)(p)
  {
    assert p in Filter(pods, Stays(node, o)) && PickedFor(node)(p);
    assert p in Seen(pods, node);
    NoneBlocked(Seen(pods, node), o);
  }

  lemma SecondDrain(w: Weather, i: nat, states: seq<ClusterState>, t: seq<Exchange>, node: string, o: DrainOptions,
                    timeout: int, r: Result<DrainActionData, ServiceError>)
    requires Calm(w) && Played(w, i, states, t) && DrainTrace(t, node, o, timeout, r)
    requires node in states[0].nodes && states[0].nodes[node].unschedulable
    requires Targets(Seen(states[0].pods, node), o) == [] && Blocked(Seen(states[0].pods, node), o) == []
    ensures states[|t|] == states[0] && |t| == 2
    ensures r.Ok? && r.value.drainedPods == [] && r.value.nodeEmptied
  {
    CalmStep(w, i, states, t, 0);
    CalmStep(w, i, states, t, 1);
    NodeSelectorIsFilter(states[0].pods, node);
    assert Cordoned(states[0], node) == states[0];
    assert Ids([]) == {} && t[2..][0..] == t[2..];
  }

  /** Drain twice: the second drain removes nothing, answers that the node is empty and changes nothing. */
  lemma DrainIsIdempotent(w: Weather, i: nat, states: seq<ClusterState>, t: seq<Exchange>,
                          r: Result<DrainActionData, ServiceError>, j: nat, states2: seq<ClusterState>,
                          t2: seq<Exchange>, r2: Result<DrainActionData, ServiceError>, node: string, o: DrainOptions,
                          timeout: int)
    requires Calm(w) && Played(w, i, states, t) && DrainTrace(t, node, o, timeout, r) && r.Ok?
    requires Played(w, j, states2, t2) && DrainTrace(t2, node, o, timeout, r2) && states2[0] == states[|t|]
    requires node in states[0].nodes && DistinctIds(states[0].pods)
    ensures states2[|t2|] == states2[0] && |t2| == 2
    ensures r2.Ok? && r2.value.drainedPods == [] && r2.value.nodeEmptied
  {
    CalmDrain(w, i, states, t, node, o, timeout, r);
    NothingLeftToDrain(states[0].pods, node, o);
    SecondDrain(w, j, states2, t2, node, o, timeout, r2);
  }
}
