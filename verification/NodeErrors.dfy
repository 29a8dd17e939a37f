/** Application errors of the node service, and how an SDK failure becomes one. */
module NodeErrors {
  import opened Wrappers
  import opened Kube

  /** Why a pod is protected from a drain, and the option that gives the protection up. */
  datatype Reason = Unmanaged | UsesEmptydir

  datatype DrainOption = Force | DeleteEmptydirData

  datatype BlockedPod = BlockedPod(namespace: string, name: string, reasons: seq<Reason>)

  datatype ServiceError =
    | NodeNotFound(node: string)
    | NodeNotReady(node: string, status: string)
    | KubeApiError(kubeStatus: Option<int>, httpStatus: int, clusterLevel: bool)
    | DrainBlocked(node: string, blocked: seq<BlockedPod>, required: seq<DrainOption>)

  /** A status of 0 means no response, like no status at all; below 400 the answer is a 502. */
  function KubeError(status: Option<int>, clusterLevel: bool): (e: ServiceError)
    ensures e.KubeApiError? && e.clusterLevel == clusterLevel
    ensures e.kubeStatus == None <==> status in {None, Some(0)}
    ensures e.kubeStatus.Some? ==> e.kubeStatus == status
    ensures e.httpStatus == (if status.Some? && status.value >= 400 then status.value else 502) >= 400
  {
    KubeApiError(
      if status == Some(0) then None else status,
      if status.Some? && status.value >= 400 then status.value else 502,
      clusterLevel)
  }

  /** A 404 becomes `notFound` where the caller named something that can be missing. */
  function Translate(f: Fault, notFound: Option<ServiceError>): ServiceError {
    match f
    case Unreachable => KubeError(Some(503), true)
    case ApiError(status) =>
      if status == Some(404) && notFound.Some? then notFound.value else KubeError(status, false)
  }

  /** How each fault of a request about one node is answered: a missing node by name, no connection as a
      503 of the cluster, no response as a 502, an error status as itself, any other status as a 502. */
  lemma FaultsAreAnswered(f: Fault, node: string)
    ensures var e := Translate(f, Some(NodeNotFound(node)));
            && (f == ApiError(Some(404)) ==> e == NodeNotFound(node))
            && (f == Unreachable ==> e == KubeApiError(Some(503), 503, true))
            && (f in {ApiError(None), ApiError(Some(0))} ==> e == KubeApiError(None, 502, false))
            && (forall s :: s >= 400 && s != 404 && f == ApiError(Some(s)) ==> e == KubeApiError(Some(s), s, false))
            && (forall s :: s < 400 && s != 0 && f == ApiError(Some(s)) ==> e == KubeApiError(Some(s), 502, false))
    ensures var e := Translate(f, None);
            if f == ApiError(Some(404)) then e == KubeApiError(Some(404), 404, false)
            else e == Translate(f, Some(NodeNotFound(node)))
  {
  }

  /** True when a failure is about the connection to the cluster and not about one node. */
  predicate IsClusterLevel(e: ServiceError) {
    e.KubeApiError? && (e.clusterLevel || e.kubeStatus in {Some(401), Some(403), None})
  }

  /** Exactly these faults of a request about one node say something about the cluster:
      no connection, no response, or refused credentials. */
  lemma ClusterLevelFaults(f: Fault, node: string)
    ensures IsClusterLevel(Translate(f, Some(NodeNotFound(node))))
        <==> f == Unreachable || f.status in {None, Some(0), Some(401), Some(403)}
  {
  }

  /** Condition i is the first Ready condition and has this status. */
  ghost predicate FirstReady(conditions: seq<Condition>, i: nat, status: string) {
    && i < |conditions| && conditions[i].kind == "Ready" && conditions[i].status == status
    && forall k :: 0 <= k < i ==> conditions[k].kind != "Ready"
  }

  /** The readiness of a node: what its first Ready condition says, Unknown without one, and NotReady
      for anything but True and Unknown. */
  function NodeStatus(n: Node): (status: string)
    ensures status in {"Ready", "NotReady", "Unknown"}
    ensures status == "Ready" <==> exists i: nat :: FirstReady(n.conditions, i, "True")
    ensures status == "Unknown" <==> (exists i: nat :: FirstReady(n.conditions, i, "Unknown"))
                                     || forall c :: c in n.conditions ==> c.kind != "Ready"
  {
    FirstReadyUnique(n.conditions);
    ReadyCondition(n.conditions)
  }

  lemma FirstReadyUnique(conditions: seq<Condition>)
    ensures forall i: nat, j: nat, a, b ::
              FirstReady(conditions, i, a) && FirstReady(conditions, j, b) ==> i == j && a == b
  {
  }

  function ReadyCondition(conditions: seq<Condition>): (status: string)
    ensures status in {"Ready", "NotReady", "Unknown"}
    ensures (forall c :: c in conditions ==> c.kind != "Ready") ==> status == "Unknown"
    ensures (exists c :: c in conditions && c.kind == "Ready") ==>
              exists i: nat, s :: FirstReady(conditions, i, s)
                && status == if s == "True" then "Ready" else if s == "Unknown" then "Unknown" else "NotReady"
  {
    if conditions == [] then "Unknown"
    else if conditions[0].kind == "Ready" then
      assert FirstReady(conditions, 0, conditions[0].status);
      if conditions[0].status == "True" then "Ready"
      else if conditions[0].status == "Unknown" then "Unknown" else "NotReady"
    else
      FirstReadyLater(conditions);
      ReadyCondition(conditions[1..])
  }

  lemma FirstReadyLater(conditions: seq<Condition>)
    requires conditions != [] && conditions[0].kind != "Ready"
    ensures forall i: nat, s :: FirstReady(conditions[1..], i, s) ==> FirstReady(conditions, i + 1, s)
    ensures forall c :: c in conditions && c.kind == "Ready" ==> c in conditions[1..]
  {
    forall i: nat, s | FirstReady(conditions[1..], i, s) ensures FirstReady(conditions, i + 1, s) {
      assert forall k :: 0 < k <= i ==> conditions[k] == conditions[1..][k - 1];
    }
  }
}
