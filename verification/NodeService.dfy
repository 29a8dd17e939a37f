/** Single-node operations. Each says which requests it sent and what it made of the replies. */
module NodeService {
  import opened Wrappers
  import opened Kube
  import opened KubeApi
  import opened NodeErrors

  /** What a failed request about one node is reported as; None when it did not fail. */
  function NodeCallError(node: string, reply: Reply): Option<ServiceError> {
    if reply.Failed? then Some(Translate(reply.fault, Some(NodeNotFound(node)))) else None
  }

  method PatchUnschedulable(api: CoreV1Api, node: string, unschedulable: bool) returns (e: Option<ServiceError>)
    requires api.Valid()
    modifies api, api.store
    ensures |api.log| == |old(api.log)| + 1
    ensures api.Exchanged(PatchNode(node, Unschedulable(unschedulable)), api.log[|old(api.log)|].reply)
    ensures e == NodeCallError(node, api.log[|old(api.log)|].reply)
  {
    var reply := api.PatchNodeNamed(node, Unschedulable(unschedulable));
    e := if reply.Failed? then Some(Translate(reply.fault, Some(NodeNotFound(node)))) else None;
  }

  method Cordon(api: CoreV1Api, node: string) returns (e: Option<ServiceError>)
    requires api.Valid()
    modifies api, api.store
    ensures |api.log| == |old(api.log)| + 1
    ensures api.Exchanged(PatchNode(node, Unschedulable(true)), api.log[|old(api.log)|].reply)
    ensures e == NodeCallError(node, api.log[|old(api.log)|].reply)
  {
    e := PatchUnschedulable(api, node, true);
  }

  /** The exchanges of one uncordon: a read, and a patch only when the read found the node Ready. */
  ghost predicate UncordonTrace(t: seq<Exchange>, node: string, e: Option<ServiceError>) {
    && |t| > 0 && t[0].request == ReadNode(node)
    && match t[0].reply
       case OneNode(n) =>
         if NodeStatus(n) != "Ready" then |t| == 1 && e == Some(NodeNotReady(node, NodeStatus(n)))
         else |t| == 2 && t[1].request == PatchNode(node, Unschedulable(false)) && e == NodeCallError(node, t[1].reply)
       case Failed(_) => |t| == 1 && e == NodeCallError(node, t[0].reply)
       case _ => false
  }

  method Uncordon(api: CoreV1Api, node: string) returns (e: Option<ServiceError>)
    requires api.Valid()
    modifies api, api.store
    ensures api.Continues()
    ensures UncordonTrace(api.Since(old(api.log)), node, e)
  {
    var reply := api.ReadNodeNamed(node);
    if reply.Failed? {
      return Some(Translate(reply.fault, Some(NodeNotFound(node))));
    }
    var status := NodeStatus(reply.node);
    if status != "Ready" {
      return Some(NodeNotReady(node, status));
    }
    e := PatchUnschedulable(api, node, false);
  }

  /** An uncordon sends no more than a read and, only to a node whose first Ready condition said True, a
      patch that makes it schedulable; it went through exactly when that patch did. */
  lemma UncordonAsksFirst(t: seq<Exchange>, node: string, e: Option<ServiceError>)
    requires UncordonTrace(t, node, e)
    ensures 0 < |t| <= 2 && t[0].request == ReadNode(node)
    ensures |t| == 2 <==> t[0].reply.OneNode? && exists k: nat :: FirstReady(t[0].reply.node.conditions, k, "True")
    ensures |t| == 2 ==> t[1].request == PatchNode(node, Unschedulable(false))
    ensures e == None <==> |t| == 2 && !t[1].reply.Failed?
    ensures t[|t| - 1].reply == Failed(ApiError(Some(404))) ==> e == Some(NodeNotFound(node))
    ensures |t| == 1 && !t[0].reply.Failed? ==>
              t[0].reply.OneNode? && e == Some(NodeNotReady(node, NodeStatus(t[0].reply.node)))
  {
  }

  /** What one cordon or uncordon does to a calm cluster. */
  function Toggled(s: ClusterState, node: string, unschedulable: bool): (ClusterState, Option<ServiceError>) {
    if node !in s.nodes then (s, Some(NodeNotFound(node)))
    else if !unschedulable && NodeStatus(s.nodes[node]) != "Ready" then
      (s, Some(NodeNotReady(node, NodeStatus(s.nodes[node]))))
    else (s.(nodes := s.nodes[node := s.nodes[node].(unschedulable := unschedulable)]), None)
  }

  /** In calm weather an uncordon toggles the flag of a Ready node and changes nothing otherwise. */
  lemma CalmUncordon(w: Weather, i: nat, states: seq<ClusterState>, t: seq<Exchange>, node: string,
                     e: Option<ServiceError>)
    requires Calm(w) && Played(w, i, states, t) && UncordonTrace(t, node, e)
    ensures (states[|t|], e) == Toggled(states[0], node, false)
  {
    CalmStep(w, i, states, t, 0);
    if |t| == 2 {
      CalmStep(w, i, states, t, 1);
    }
  }

  lemma CalmCordon(w: Weather, i: nat, states: seq<ClusterState>, t: seq<Exchange>, node: string)
    requires Calm(w) && Played(w, i, states, t) && |t| == 1 && t[0].request == PatchNode(node, Unschedulable(true))
    ensures (states[1], NodeCallError(node, t[0].reply)) == Toggled(states[0], node, true)
  {
    CalmStep(w, i, states, t, 0);
  }
}
