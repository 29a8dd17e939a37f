/** Batch cordon and uncordon, alone and under the access policy. */
module Batch {
  import opened Wrappers
  import opened Seqs
  import opened Kube
  import opened KubeApi
  import opened NodeErrors
  import opened NodeService
  import AccessPolicy

  /** Why a node of a batch failed: the policy refused it, or the call about it did. */
  datatype Failure = PolicyDenied(decision: AccessPolicy.Decision) | CallFailed(error: ServiceError)

  datatype NodeResult = Success(node: string) | Failed_(node: string, why: Failure)

  datatype BatchData = BatchData(total: nat, succeeded: nat, failed: nat, results: seq<NodeResult>)

  type Denials = map<string, AccessPolicy.Decision>

  function Succeeded(results: seq<NodeResult>): nat {
    |Filter(results, (r: NodeResult) => r.Success?)|
  }

  lemma {:induction false} SuccessesAndFailures(results: seq<NodeResult>)
    ensures |results|
         == |Filter(results, (r: NodeResult) => r.Success?)| + |Filter(results, (r: NodeResult) => r.Failed_?)|
  {
    if results != [] {
      SuccessesAndFailures(results[1..]);
    }
  }

  function BatchOf(results: seq<NodeResult>): (b: BatchData)
    ensures b.results == results && b.total == |results| == b.succeeded + b.failed
    ensures b.succeeded == |Filter(results, (r: NodeResult) => r.Success?)|
    ensures b.failed == |Filter(results, (r: NodeResult) => r.Failed_?)|
  {
    SuccessesAndFailures(results);
    BatchData(|results|, Succeeded(results), |results| - Succeeded(results), results)
  }

  /******* One node of a batch *******/

  /** What a node needs: its result at once, or a patch. */
  datatype Plan = Known(result: NodeResult) | Patch

  function PlanFor(node: string, denied: Denials, statuses: map<string, string>, unschedulable: bool): Plan {
    if node in denied then Known(Failed_(node, PolicyDenied(denied[node])))
    else if !unschedulable && node in statuses && statuses[node] != "Ready" then
      Known(Failed_(node, CallFailed(NodeNotReady(node, statuses[node]))))
    else Patch
  }

  function ResultOf(node: string, e: Option<ServiceError>): NodeResult {
    if e.Some? then Failed_(node, CallFailed(e.value)) else Success(node)
  }

  ghost predicate PatchOf(x: Exchange, node: string, unschedulable: bool) {
    x.request == PatchNode(node, Unschedulable(unschedulable))
  }

  predicate Propagates(e: Option<ServiceError>) {
    e.Some? && IsClusterLevel(e.value)
  }

  /** The nodes `names` got `results`, at the price of the exchanges `t`, and no failure was the cluster's. */
  ghost predicate Ran(t: seq<Exchange>, names: seq<string>, denied: Denials, statuses: map<string, string>,
                      unschedulable: bool, results: seq<NodeResult>)
    decreases |names|
  {
    if names == [] then t == [] && results == []
    else
      var node := names[|names| - 1];
      var front := names[..|names| - 1];
      |results| == |names| &&
      match PlanFor(node, denied, statuses, unschedulable)
      case Known(result) =>
        results[|names| - 1] == result && Ran(t, front, denied, statuses, unschedulable, results[..|names| - 1])
      case Patch =>
        && |t| > 0 && PatchOf(t[|t| - 1], node, unschedulable)
        && !Propagates(NodeCallError(node, t[|t| - 1].reply))
        && results[|names| - 1] == ResultOf(node, NodeCallError(node, t[|t| - 1].reply))
        && Ran(t[..|t| - 1], front, denied, statuses, unschedulable, results[..|names| - 1])
  }

  /** The exchanges `more` of one node: none when its result is known, one patch otherwise. */
  ghost predicate NodeTrace(more: seq<Exchange>, node: string, denied: Denials, statuses: map<string, string>,
                            unschedulable: bool, r: Result<NodeResult, ServiceError>)
  {
    match PlanFor(node, denied, statuses, unschedulable)
    case Known(known) => more == [] && r == Ok(known)
    case Patch =>
      && |more| == 1 && PatchOf(more[0], node, unschedulable)
      && var e := NodeCallError(node, more[0].reply);
         r == if Propagates(e) then Err(e.value) else Ok(ResultOf(node, e))
  }

  lemma RanOneMore(t: seq<Exchange>, names: seq<string>, k: nat, denied: Denials, statuses: map<string, string>,
                   unschedulable: bool, results: seq<NodeResult>, more: seq<Exchange>, result: NodeResult)
    requires k < |names| && |results| == k && Ran(t, names[..k], denied, statuses, unschedulable, results)
    requires NodeTrace(more, names[k], denied, statuses, unschedulable, Ok(result))
    ensures Ran(t + more, names[..k + 1], denied, statuses, unschedulable, results + [result])
  {
    assert names[..k + 1][..k] == names[..k];
    assert (results + [result])[..k] == results;
    if more == [] {
      assert t + more == t;
    } else {
      assert (t + more)[..|t|] == t;
    }
  }

  /** Either every node has its result, or the cluster failed on one and nothing was sent after that. */
  ghost predicate LoopTrace(t: seq<Exchange>, names: seq<string>, denied: Denials, statuses: map<string, string>,
                            unschedulable: bool, r: Result<BatchData, ServiceError>)
  {
    match r
    case Ok(b) => Ran(t, names, denied, statuses, unschedulable, b.results) && b == BatchOf(b.results)
    case Err(e) =>
      exists k: nat, results ::
        k < |names| && StoppedAt(t, names, k, denied, statuses, unschedulable, results, e)
  }

  ghost predicate StoppedAt(t: seq<Exchange>, names: seq<string>, k: nat, denied: Denials,
                            statuses: map<string, string>, unschedulable: bool, results: seq<NodeResult>,
                            e: ServiceError)
    requires k < |names|
  {
    && PlanFor(names[k], denied, statuses, unschedulable).Patch?
    && |t| > 0 && Ran(t[..|t| - 1], names[..k], denied, statuses, unschedulable, results)
    && PatchOf(t[|t| - 1], names[k], unschedulable)
    && NodeCallError(names[k], t[|t| - 1].reply) == Some(e) && IsClusterLevel(e)
  }

  function StatusMap(nodes: map<string, Node>): map<string, string> {
    map n | n in nodes :: NodeStatus(nodes[n])
  }

  predicate NeedsListing(names: seq<string>, denied: Denials, unschedulable: bool) {
    !unschedulable && exists i :: 0 <= i < |names| && names[i] !in denied
  }

  /** A batch: one listing if readiness matters to anyone, then the loop. */
  ghost predicate BatchTrace(t: seq<Exchange>, names: seq<string>, denied: Denials, unschedulable: bool,
                             r: Result<BatchData, ServiceError>) {
    if NeedsListing(names, denied, unschedulable) then
      && |t| > 0 && t[0].request == ListNodes
      && match t[0].reply
         case NodeList(nodes) => LoopTrace(t[1..], names, denied, StatusMap(nodes), unschedulable, r)
         case Failed(f) => |t| == 1 && r == Err(Translate(f, None))
         case _ => false
    else LoopTrace(t, names, denied, map[], unschedulable, r)
  }

  lemma StopsHere(t: seq<Exchange>, names: seq<string>, k: nat, denied: Denials, statuses: map<string, string>,
                  unschedulable: bool, results: seq<NodeResult>, more: seq<Exchange>, e: ServiceError)
    requires k < |names| && Ran(t, names[..k], denied, statuses, unschedulable, results)
    requires NodeTrace(more, names[k], denied, statuses, unschedulable, Err(e))
    ensures StoppedAt(t + more, names, k, denied, statuses, unschedulable, results, e)
  {
    assert (t + more)[..|t|] == t;
  }

  /** The body of the loop: the policy first, then the readiness snapshot, then the patch. */
  method BatchNode(api: CoreV1Api, node: string, denied: Denials, statuses: map<string, string>, unschedulable: bool)
      returns (r: Result<NodeResult, ServiceError>)
    requires api.Valid()
    modifies api, api.store
    ensures api.Continues()
    ensures NodeTrace(api.Since(old(api.log)), node, denied, statuses, unschedulable, r)
  {
    if node in denied {
      return Ok(Failed_(node, PolicyDenied(denied[node])));
    }
    if !unschedulable && node in statuses && statuses[node] != "Ready" {
      return Ok(Failed_(node, CallFailed(NodeNotReady(node, statuses[node]))));
    }
    var e := PatchUnschedulable(api, node, unschedulable);
    if e.Some? && IsClusterLevel(e.value) {
      return Err(e.value);
    }
    return Ok(ResultOf(node, e));
  }

  method BatchLoop(api: CoreV1Api, names: seq<string>, denied: Denials, statuses: map<string, string>,
                   unschedulable: bool)
      returns (r: Result<BatchData, ServiceError>)
    requires api.Valid()
    modifies api, api.store
    ensures api.Continues()
    ensures LoopTrace(api.Since(old(api.log)), names, denied, statuses, unschedulable, r)
  {
    var results: seq<NodeResult> := [];
    for k := 0 to |names|
      invariant api.Continues() && |results| == k
      invariant Ran(api.Since(old(api.log)), names[..k], denied, statuses, unschedulable, results)
    {
      ghost var before, log0 := api.Since(old(api.log)), api.log;
      var one := BatchNode(api, names[k], denied, statuses, unschedulable);
      ghost var more := api.Since(log0);
      LogGrows(old(api.log), log0, api.log);
      if one.Err? {
        StopsHere(before, names, k, denied, statuses, unschedulable, results, more, one.error);
        return Err(one.error);
      }
      RanOneMore(before, names, k, denied, statuses, unschedulable, results, more, one.value);
      results := results + [one.value];
    }
    assert names[..|names|] == names;
    r := Ok(BatchOf(results));
  }

  method BatchSetUnschedulable(api: CoreV1Api, nodeNames: seq<string>, unschedulable: bool, denied: Denials)
      returns (r: Result<BatchData, ServiceError>)
    requires api.Valid()
    modifies api, api.store
    ensures api.Continues()
    ensures BatchTrace(api.Since(old(api.log)), Distinct(nodeNames), denied, unschedulable, r)
  {
    var names := Distinct(nodeNames);
    var statuses: map<string, string> := map[];
    ghost var log0 := api.log;
    if NeedsListing(names, denied, unschedulable) {
      var reply := api.ListNode();
      if reply.Failed? {
        return Err(Translate(reply.fault, None));
      }
      statuses := StatusMap(reply.nodes);
    }
    ghost var log1 := api.log;
    r := BatchLoop(api, names, denied, statuses, unschedulable);
    if NeedsListing(names, denied, unschedulable) {
      assert api.Since(log1) == api.Since(log0)[1..];
    }
  }
}
