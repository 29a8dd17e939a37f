/** A batch under the policy, what it can never do, and the fold of single operations it refines. */
module BatchTheorems {
  import opened Wrappers
  import opened Seqs
  import opened Kube
  import opened KubeApi
  import opened NodeErrors
  import opened NodeService
  import opened Batch
  import AP = AccessPolicy

  /******* NodeBatchService *******/

  datatype Policy = Policy(globalRules: seq<AP.Rule>, userRules: seq<AP.Rule>, full: AP.Matcher)

  function PolicyAction(unschedulable: bool): AP.Action {
    if unschedulable then AP.NodeCordon else AP.NodeUncordon
  }

  function Verdict(p: Policy, cluster: string, unschedulable: bool, node: string): AP.Decision {
    AP.Judged(p.globalRules, p.userRules, PolicyAction(unschedulable),
              map[AP.Cluster := Some(cluster), AP.NodeName := Some(node)], p.full)
  }

  function DenialsFor(p: Policy, cluster: string, unschedulable: bool, names: seq<string>): Denials {
    map n | n in names && !Verdict(p, cluster, unschedulable, n).allowed :: Verdict(p, cluster, unschedulable, n)
  }

  lemma DenialsOneMore(p: Policy, cluster: string, unschedulable: bool, nodes: seq<string>, i: nat)
    requires i < |nodes|
    ensures var before := DenialsFor(p, cluster, unschedulable, nodes[..i]);
            var verdict := Verdict(p, cluster, unschedulable, nodes[i]);
            DenialsFor(p, cluster, unschedulable, nodes[..i + 1])
            == (if verdict.allowed then before else before[nodes[i] := verdict])
  {
    assert nodes[..i + 1] == nodes[..i] + [nodes[i]];
  }

  method DeniedNodes(p: Policy, cluster: string, unschedulable: bool, nodes: seq<string>) returns (denied: Denials)
    ensures denied == DenialsFor(p, cluster, unschedulable, nodes)
  {
    denied := map[];
    for i := 0 to |nodes|
      invariant denied == DenialsFor(p, cluster, unschedulable, nodes[..i])
    {
      var decision := AP.Evaluate(p.globalRules, p.userRules, PolicyAction(unschedulable),
                                  map[AP.Cluster := Some(cluster), AP.NodeName := Some(nodes[i])], p.full);
      DenialsOneMore(p, cluster, unschedulable, nodes, i);
      if !decision.allowed {
        denied := denied[nodes[i] := decision];
      }
    }
    assert nodes[..|nodes|] == nodes;
  }

  function DeniedResult(denied: Denials): string -> NodeResult {
    (n: string) => if n in denied then Failed_(n, PolicyDenied(denied[n])) else Success(n)
  }

  /** A batch refused as a whole sends nothing; any other goes through the node service. */
  ghost predicate RunTrace(t: seq<Exchange>, p: Policy, cluster: string, unschedulable: bool, names: seq<string>,
                           r: Result<BatchData, ServiceError>) {
    var denied := DenialsFor(p, cluster, unschedulable, names);
    if names != [] && forall n :: n in names ==> n in denied then
      t == [] && r == Ok(BatchOf(Map(names, DeniedResult(denied))))
    else BatchTrace(t, names, denied, unschedulable, r)
  }

  method RunBatch(api: CoreV1Api, p: Policy, cluster: string, unschedulable: bool, nodeNames: seq<string>)
      returns (r: Result<BatchData, ServiceError>)
    requires api.Valid()
    modifies api, api.store
    ensures api.Continues()
    ensures RunTrace(api.Since(old(api.log)), p, cluster, unschedulable, Distinct(nodeNames), r)
  {
    var names := Distinct(nodeNames);
    var denied := DeniedNodes(p, cluster, unschedulable, names);
    if names != [] && forall n :: n in names ==> n in denied {
      return Ok(BatchOf(Map(names, DeniedResult(denied))));
    }
    DistinctOfDistinct(names);
    r := BatchSetUnschedulable(api, names, unschedulable, denied);
  }

  /******* Under any weather *******/

  function NeedsPatch(denied: Denials, statuses: map<string, string>, unschedulable: bool): string -> bool {
    (n: string) => PlanFor(n, denied, statuses, unschedulable).Patch?
  }

  function NodeOf(r: NodeResult): string {
    r.node
  }

  function PatchRequest(unschedulable: bool): string -> Request {
    (n: string) => PatchNode(n, Unschedulable(unschedulable))
  }

  function RequestOf(x: Exchange): Request {
    x.request
  }

  function Requests(t: seq<Exchange>): seq<Request> {
    Map(t, RequestOf)
  }

  function PatchRequests(names: seq<string>, needs: string -> bool, unschedulable: bool): seq<Request> {
    Map(Filter(names, needs), PatchRequest(unschedulable))
  }

  lemma PatchRequestsLast(names: seq<string>, needs: string -> bool, unschedulable: bool)
    requires names != []
    ensures PatchRequests(names, needs, unschedulable)
         == PatchRequests(names[..|names| - 1], needs, unschedulable)
            + (if needs(names[|names| - 1]) then [PatchRequest(unschedulable)(names[|names| - 1])] else [])
  {
    FilterLast(names, needs);
    var all := Filter(names, needs);
    if needs(names[|names| - 1]) {
      MapLast(all, PatchRequest(unschedulable));
      assert all[..|all| - 1] == Filter(names[..|names| - 1], needs);
    }
  }

  /** A per-node failure never stops the loop: there is one result per name, in order. */
  lemma {:induction false} OneResultPerName(t: seq<Exchange>, names: seq<string>, denied: Denials,
                                            statuses: map<string, string>, unschedulable: bool,
                                            results: seq<NodeResult>)
    requires Ran(t, names, denied, statuses, unschedulable, results)
    ensures Map(results, NodeOf) == names
    decreases |names|
  {
    if names != [] {
      var n := |names| - 1;
      var rest := if PlanFor(names[n], denied, statuses, unschedulable).Patch? then t[..|t| - 1] else t;
      OneResultPerName(rest, names[..n], denied, statuses, unschedulable, results[..n]);
      MapLast(results, NodeOf);
    }
  }

  /** Exactly the names that need a patch are patched, once each, in order. */
  lemma {:induction false} OnePatchPerNeed(t: seq<Exchange>, names: seq<string>, denied: Denials,
                                           statuses: map<string, string>, unschedulable: bool, results: seq<NodeResult>)
    requires Ran(t, names, denied, statuses, unschedulable, results)
    ensures Requests(t) == PatchRequests(names, NeedsPatch(denied, statuses, unschedulable), unschedulable)
    decreases |names|
  {
    if names == [] {
      assert Filter(names, NeedsPatch(denied, statuses, unschedulable)) == [];
    } else {
      var n := |names| - 1;
      PatchRequestsLast(names, NeedsPatch(denied, statuses, unschedulable), unschedulable);
      if PlanFor(names[n], denied, statuses, unschedulable).Patch? {
        OnePatchPerNeed(t[..|t| - 1], names[..n], denied, statuses, unschedulable, results[..n]);
        MapLast(t, RequestOf);
      } else {
        OnePatchPerNeed(t, names[..n], denied, statuses, unschedulable, results[..n]);
      }
    }
  }

  /** A failure of the cluster at position k goes to the caller, and no node after position k was patched. */
  lemma ClusterFailureStopsTheBatch(t: seq<Exchange>, names: seq<string>, k: nat, denied: Denials,
                                    statuses: map<string, string>, unschedulable: bool, results: seq<NodeResult>,
                                    e: ServiceError)
    requires k < |names| && StoppedAt(t, names, k, denied, statuses, unschedulable, results, e)
    ensures Requests(t) == PatchRequests(names[..k + 1], NeedsPatch(denied, statuses, unschedulable), unschedulable)
    ensures IsClusterLevel(e) && names[k] !in denied
  {
    OnePatchPerNeed(t[..|t| - 1], names[..k], denied, statuses, unschedulable, results);
    assert names[..k + 1][..k] == names[..k];
    PatchRequestsLast(names[..k + 1], NeedsPatch(denied, statuses, unschedulable), unschedulable);
    MapLast(t, RequestOf);
  }

  /** A node the policy denies is never patched, whatever else happens. */
  lemma DeniedNodesAreNeverPatched(t: seq<Exchange>, names: seq<string>, denied: Denials, unschedulable: bool,
                                   r: Result<BatchData, ServiceError>, i: nat)
    requires BatchTrace(t, names, denied, unschedulable, r) && i < |t| && t[i].request.PatchNode?
    ensures t[i].request.name in names && t[i].request.name !in denied
    ensures t[i].request.patch == Unschedulable(unschedulable)
  {
    var u, statuses, j := LoopPart(t, names, denied, unschedulable, r, i);
    LoopPatchesAllowedNodes(u, names, denied, statuses, unschedulable, r, j);
  }

  /** A patch of a batch is one of its loop's exchanges. */
  lemma LoopPart(t: seq<Exchange>, names: seq<string>, denied: Denials, unschedulable: bool,
                 r: Result<BatchData, ServiceError>, i: nat)
      returns (u: seq<Exchange>, statuses: map<string, string>, j: nat)
    requires BatchTrace(t, names, denied, unschedulable, r) && i < |t| && t[i].request.PatchNode?
    ensures LoopTrace(u, names, denied, statuses, unschedulable, r) && j < |u| && u[j] == t[i]
    ensures j == |u| - 1 <==> i == |t| - 1
  {
    if NeedsListing(names, denied, unschedulable) {
      u, statuses, j := t[1..], StatusMap(t[0].reply.nodes), i - 1;
    } else {
      u, statuses, j := t, map[], i;
    }
  }

  lemma LoopPatchesAllowedNodes(t: seq<Exchange>, names: seq<string>, denied: Denials, statuses: map<string, string>,
                                unschedulable: bool, r: Result<BatchData, ServiceError>, i: nat)
    requires LoopTrace(t, names, denied, statuses, unschedulable, r) && i < |t|
    ensures t[i].request.PatchNode? && t[i].request.name in names && t[i].request.name !in denied
    ensures t[i].request.patch == Unschedulable(unschedulable)
    ensures !unschedulable && t[i].request.name in statuses ==> statuses[t[i].request.name] == "Ready"
  {
    var upTo := names;
    match r {
      case Ok(b) => OnePatchPerNeed(t, names, denied, statuses, unschedulable, b.results);
      case Err(e) =>
        var k: nat, results :| k < |names| && StoppedAt(t, names, k, denied, statuses, unschedulable, results, e);
        ClusterFailureStopsTheBatch(t, names, k, denied, statuses, unschedulable, results, e);
        upTo := names[..k + 1];
    }
    var patched := Filter(upTo, NeedsPatch(denied, statuses, unschedulable));
    assert Requests(t)[i] == PatchRequest(unschedulable)(patched[i]);
    assert patched[i] in upTo && NeedsPatch(denied, statuses, unschedulable)(patched[i]);
  }

  /** Besides patches a batch sends at most one listing, first, and only for an uncordon; if it fails, nothing
      is patched. */
  lemma OneListingAtMost(t: seq<Exchange>, names: seq<string>, denied: Denials, unschedulable: bool,
                         r: Result<BatchData, ServiceError>, i: nat)
    requires BatchTrace(t, names, denied, unschedulable, r) && i < |t| && !t[i].request.PatchNode?
    ensures i == 0 && t[i].request == ListNodes && !unschedulable && exists n :: n in names && n !in denied
    ensures t[i].reply.Failed? ==> |t| == 1 && r == Err(Translate(t[i].reply.fault, None))
  {
    if NeedsListing(names, denied, unschedulable) {
      if i > 0 {
        assert t[1..][i - 1] == t[i];
        LoopPatchesAllowedNodes(t[1..], names, denied, StatusMap(t[0].reply.nodes), unschedulable, r, i - 1);
      }
    } else {
      LoopPatchesAllowedNodes(t, names, denied, map[], unschedulable, r, i);
    }
  }

  /** A failure that says something about the cluster: no connection, no response, or refused credentials. */
  ghost predicate AboutTheCluster(reply: Reply) {
    && reply.Failed?
    && (reply.fault == Unreachable || reply.fault.status in {None, Some(0), Some(401), Some(403)})
  }

  /** If the patch failed, its node has that error as its result. */
  ghost predicate ReportedAs(names: seq<string>, results: seq<NodeResult>, x: Exchange) {
    x.request.PatchNode? && x.reply.Failed? ==>
      exists k :: 0 <= k < |names| && k < |results| && names[k] == x.request.name
        && results[k] == Failed_(names[k], CallFailed(Translate(x.reply.fault, Some(NodeNotFound(names[k])))))
  }

  /** Such a failure of a patch ends the batch and goes to the caller; after any other the batch goes on, and the
      node is reported with its error. */
  lemma ClusterFailureGoesToTheCaller(t: seq<Exchange>, names: seq<string>, denied: Denials, unschedulable: bool,
                                      r: Result<BatchData, ServiceError>, i: nat)
    requires BatchTrace(t, names, denied, unschedulable, r) && i < |t| && t[i].request.PatchNode?
    ensures AboutTheCluster(t[i].reply) ==>
              i == |t| - 1 && r == Err(Translate(t[i].reply.fault, Some(NodeNotFound(t[i].request.name))))
    ensures r.Ok? ==> ReportedAs(names, r.value.results, t[i])
  {
    var u, statuses, j := LoopPart(t, names, denied, unschedulable, r, i);
    LoopFailure(u, names, denied, statuses, unschedulable, r, j);
  }

  lemma LoopFailure(t: seq<Exchange>, names: seq<string>, denied: Denials, statuses: map<string, string>,
                    unschedulable: bool, r: Result<BatchData, ServiceError>, i: nat)
    requires LoopTrace(t, names, denied, statuses, unschedulable, r) && i < |t| && t[i].request.PatchNode?
    ensures AboutTheCluster(t[i].reply) ==>
              i == |t| - 1 && r == Err(Translate(t[i].reply.fault, Some(NodeNotFound(t[i].request.name))))
    ensures r.Ok? ==> ReportedAs(names, r.value.results, t[i])
  {
    match r {
      case Ok(b) => RanFailure(t, names, denied, statuses, unschedulable, b.results, i);
      case Err(e) =>
        var k: nat, results :| k < |names| && StoppedAt(t, names, k, denied, statuses, unschedulable, results, e);
        if i < |t| - 1 {
          RanFailure(t[..|t| - 1], names[..k], denied, statuses, unschedulable, results, i);
        }
    }
  }

  lemma {:induction false} RanFailure(t: seq<Exchange>, names: seq<string>, denied: Denials,
                                      statuses: map<string, string>, unschedulable: bool, results: seq<NodeResult>,
                                      i: nat)
    requires Ran(t, names, denied, statuses, unschedulable, results) && i < |t| && t[i].request.PatchNode?
    ensures !AboutTheCluster(t[i].reply) && ReportedAs(names, results, t[i])
    decreases |names|
  {
    if names != [] {
      var n := |names| - 1;
      var last := PlanFor(names[n], denied, statuses, unschedulable).Patch?;
      if last && i == |t| - 1 {
        if t[i].reply.Failed? {
          ClusterLevelFaults(t[i].reply.fault, names[n]);
        }
      } else {
        var rest := if last then t[..|t| - 1] else t;
        RanFailure(rest, names[..n], denied, statuses, unschedulable, results[..n], i);
        StillReported(names, results, n, t[i]);
      }
    }
  }

  lemma StillReported(names: seq<string>, results: seq<NodeResult>, n: nat, x: Exchange)
    requires n <= |names| && n <= |results| && ReportedAs(names[..n], results[..n], x)
    ensures ReportedAs(names, results, x)
  {
    if x.request.PatchNode? && x.reply.Failed? {
      var k :| 0 <= k < |names[..n]| && k < |results[..n]| && names[..n][k] == x.request.name
        && results[..n][k] == Failed_(names[..n][k],
             CallFailed(Translate(x.reply.fault, Some(NodeNotFound(names[..n][k])))));
      assert names[k] == names[..n][k] && results[k] == results[..n][k];
    }
  }

  /** A node passes the policy, as a cordon or as an uncordon of this cluster, in both layers. */
  ghost predicate Passes(p: Policy, action: AP.Action, cluster: string, node: string) {
    var params: AP.Params := map[AP.Cluster := Some(cluster), AP.NodeName := Some(node)];
    AP.LayerAllows(p.globalRules, action, params, p.full) && AP.LayerAllows(p.userRules, action, params, p.full)
  }

  /** A cordon is judged as a cordon and an uncordon as an uncordon. */
  lemma DenialsMean(p: Policy, cluster: string, names: seq<string>, n: string)
    ensures n in DenialsFor(p, cluster, true, names) <==> n in names && !Passes(p, AP.NodeCordon, cluster, n)
    ensures n in DenialsFor(p, cluster, false, names) <==> n in names && !Passes(p, AP.NodeUncordon, cluster, n)
    ensures forall u :: n in DenialsFor(p, cluster, u, names) ==> !DenialsFor(p, cluster, u, names)[n].allowed
  {
    var params: AP.Params := map[AP.Cluster := Some(cluster), AP.NodeName := Some(n)];
    AP.LayerDecisionMeans(p.globalRules, AP.Global, AP.NodeCordon, params, p.full);
    AP.LayerDecisionMeans(p.userRules, AP.User, AP.NodeCordon, params, p.full);
    AP.LayerDecisionMeans(p.globalRules, AP.Global, AP.NodeUncordon, params, p.full);
    AP.LayerDecisionMeans(p.userRules, AP.User, AP.NodeUncordon, params, p.full);
  }

  /** Whatever happens in between, a node is marked unschedulable only if both layers allow `node.cordon`
      of it, and marked schedulable only if both allow `node.uncordon`. */
  lemma PatchedNodesPassThePolicy(t: seq<Exchange>, p: Policy, cluster: string, unschedulable: bool, names: seq<string>,
                                  r: Result<BatchData, ServiceError>, i: nat)
    requires RunTrace(t, p, cluster, unschedulable, names, r) && i < |t| && t[i].request.PatchNode?
    ensures t[i].request.patch == Unschedulable(unschedulable) && t[i].request.name in names
    ensures t[i].request.patch == Unschedulable(true) ==> Passes(p, AP.NodeCordon, cluster, t[i].request.name)
    ensures t[i].request.patch == Unschedulable(false) ==> Passes(p, AP.NodeUncordon, cluster, t[i].request.name)
  {
    DeniedNodesAreNeverPatched(t, names, DenialsFor(p, cluster, unschedulable, names), unschedulable, r, i);
    DenialsMean(p, cluster, names, t[i].request.name);
  }

  /** Each name gets the result of its turn, and the result is a denial exactly when the policy refuses it. */
  lemma ResultsTellTheDenials(t: seq<Exchange>, p: Policy, cluster: string, unschedulable: bool, names: seq<string>,
                              r: Result<BatchData, ServiceError>, k: nat)
    requires RunTrace(t, p, cluster, unschedulable, names, r) && r.Ok? && k < |names|
    ensures |r.value.results| == |names| && r.value.results[k].node == names[k]
    ensures unschedulable ==> (IsDenial(r.value.results[k]) <==> !Passes(p, AP.NodeCordon, cluster, names[k]))
    ensures !unschedulable ==> (IsDenial(r.value.results[k]) <==> !Passes(p, AP.NodeUncordon, cluster, names[k]))
  {
    var denied := DenialsFor(p, cluster, unschedulable, names);
    DenialsMean(p, cluster, names, names[k]);
    if !(forall n :: n in names ==> n in denied) {
      var u, statuses := LoopOf(t, names, denied, unschedulable, r);
      OneResultPerName(u, names, denied, statuses, unschedulable, r.value.results);
      DeniedInLoop(u, names, denied, statuses, unschedulable, r.value.results, k);
      assert Map(r.value.results, NodeOf)[k] == r.value.results[k].node;
    }
  }

  predicate IsDenial(r: NodeResult) {
    r.Failed_? && r.why.PolicyDenied?
  }

  /** The part of a finished batch that is the loop, and the readiness it believed in. */
  lemma LoopOf(t: seq<Exchange>, names: seq<string>, denied: Denials, unschedulable: bool,
               r: Result<BatchData, ServiceError>) returns (u: seq<Exchange>, statuses: map<string, string>)
    requires BatchTrace(t, names, denied, unschedulable, r) && r.Ok?
    ensures Ran(u, names, denied, statuses, unschedulable, r.value.results)
  {
    if NeedsListing(names, denied, unschedulable) {
      u, statuses := t[1..], StatusMap(t[0].reply.nodes);
    } else {
      u, statuses := t, map[];
    }
  }

  lemma {:induction false} DeniedInLoop(t: seq<Exchange>, names: seq<string>, denied: Denials,
                                        statuses: map<string, string>, unschedulable: bool, results: seq<NodeResult>,
                                        k: nat)
    requires Ran(t, names, denied, statuses, unschedulable, results) && k < |names|
    ensures |results| == |names| && (IsDenial(results[k]) <==> names[k] in denied)
    decreases |names|
  {
    var n := |names| - 1;
    if k < n {
      var rest := if PlanFor(names[n], denied, statuses, unschedulable).Patch? then t[..|t| - 1] else t;
      DeniedInLoop(rest, names[..n], denied, statuses, unschedulable, results[..n], k);
    }
  }

  /** A batch uncordon patches only nodes that the listing before it showed Ready, or did not show at all. */
  lemma UncordonedNodesWereReady(t: seq<Exchange>, names: seq<string>, denied: Denials,
                                 r: Result<BatchData, ServiceError>, i: nat)
    requires BatchTrace(t, names, denied, false, r) && i < |t| && t[i].request.PatchNode?
    ensures i > 0 && t[0].request == ListNodes && t[0].reply.NodeList?
    ensures var nodes, n := t[0].reply.nodes, t[i].request.name;
            n in nodes ==> exists k: nat :: FirstReady(nodes[n].conditions, k, "True")
  {
    DeniedNodesAreNeverPatched(t, names, denied, false, r, i);
    assert NeedsListing(names, denied, false);
    assert t[1..][i - 1] == t[i];
    LoopPatchesAllowedNodes(t[1..], names, denied, StatusMap(t[0].reply.nodes), false, r, i - 1);
  }

  /******* On a calm cluster *******/

  /** The request a caller would have sent for one node: the policy check, then cordon or uncordon. */
  function Single(s: ClusterState, node: string, denied: Denials, unschedulable: bool): (ClusterState, NodeResult) {
    if node in denied then (s, Failed_(node, PolicyDenied(denied[node])))
    else
      var (s', e) := Toggled(s, node, unschedulable);
      (s', ResultOf(node, e))
  }

  function FoldSingles(s: ClusterState, names: seq<string>, denied: Denials, unschedulable: bool)
      : (ClusterState, seq<NodeResult>) {
    if names == [] then (s, [])
    else
      var (s', results) := FoldSingles(s, names[..|names| - 1], denied, unschedulable);
      var (s'', result) := Single(s', names[|names| - 1], denied, unschedulable);
      (s'', results + [result])
  }

  /** Same nodes, same readiness. */
  ghost predicate SameReadiness(s: ClusterState, s': ClusterState) {
    && s.nodes.Keys == s'.nodes.Keys
    && forall n :: n in s.nodes ==> s.nodes[n].conditions == s'.nodes[n].conditions
  }

  /** The snapshot of readiness stays right: no cordon or uncordon changes what it was taken from. */
  lemma {:induction false} FoldKeepsReadiness(s: ClusterState, names: seq<string>, denied: Denials, unschedulable: bool)
    ensures SameReadiness(s, FoldSingles(s, names, denied, unschedulable).0)
  {
    if names != [] {
      FoldKeepsReadiness(s, names[..|names| - 1], denied, unschedulable);
    }
  }

  /** What the loop believes of the nodes it will patch is what the cluster said at the start. */
  ghost predicate SnapshotOf(s: ClusterState, statuses: map<string, string>, names: seq<string>, denied: Denials,
                             unschedulable: bool) {
    !unschedulable ==>
      forall n :: n in names && n !in denied ==>
        (n in statuses <==> n in s.nodes) && (n in s.nodes ==> statuses[n] == NodeStatus(s.nodes[n]))
  }

  lemma CalmPatch(w: Weather, i: nat, states: seq<ClusterState>, t: seq<Exchange>, k: nat, node: string,
                  unschedulable: bool)
    requires Calm(w) && Played(w, i, states, t) && k < |t| && PatchOf(t[k], node, unschedulable)
    ensures NodeCallError(node, t[k].reply) == (if node in states[k].nodes then None else Some(NodeNotFound(node)))
    ensures var s := states[k];
            states[k + 1] == if node in s.nodes
                             then s.(nodes := s.nodes[node := s.nodes[node].(unschedulable := unschedulable)])
                             else s
  {
    CalmStep(w, i, states, t, k);
  }

  lemma {:induction false} CalmLoopIsFold(w: Weather, i: nat, states: seq<ClusterState>, t: seq<Exchange>,
                                          names: seq<string>, denied: Denials, statuses: map<string, string>,
                                          unschedulable: bool, results: seq<NodeResult>)
    requires Calm(w) && Played(w, i, states, t) && Ran(t, names, denied, statuses, unschedulable, results)
    requires SnapshotOf(states[0], statuses, names, denied, unschedulable)
    ensures (states[|t|], results) == FoldSingles(states[0], names, denied, unschedulable)
    decreases |names|
  {
    if names != [] {
      var n := |names| - 1;
      var front, node := names[..n], names[n];
      FoldKeepsReadiness(states[0], front, denied, unschedulable);
      assert results == results[..n] + [results[n]];
      if PlanFor(node, denied, statuses, unschedulable).Patch? {
        var k := |t| - 1;
        PlayedSplits(w, i, states, t, k);
        CalmLoopIsFold(w, i, states[..k + 1], t[..k], front, denied, statuses, unschedulable, results[..n]);
        CalmPatch(w, i, states, t, k, node, unschedulable);
      } else {
        CalmLoopIsFold(w, i, states, t, front, denied, statuses, unschedulable, results[..n]);
      }
    }
  }

  lemma CalmLoopNeverStops(w: Weather, i: nat, states: seq<ClusterState>, t: seq<Exchange>, names: seq<string>,
                           denied: Denials, statuses: map<string, string>, unschedulable: bool,
                           r: Result<BatchData, ServiceError>)
    requires Calm(w) && Played(w, i, states, t) && LoopTrace(t, names, denied, statuses, unschedulable, r)
    ensures r.Ok?
  {
    if r.Err? {
      var k: nat, results :| k < |names| && StoppedAt(t, names, k, denied, statuses, unschedulable, results, r.error);
      CalmPatch(w, i, states, t, |t| - 1, names[k], unschedulable);
      assert false;
    }
  }

  /** On a calm cluster a batch, whatever names it repeats and whatever the policy denies, ends in the
      state and with the results of one request per distinct name, one after the other. */
  lemma BatchRefinesSingles(w: Weather, i: nat, states: seq<ClusterState>, t: seq<Exchange>, p: Policy, cluster: string,
                            unschedulable: bool, nodeNames: seq<string>, r: Result<BatchData, ServiceError>)
    requires Calm(w) && Played(w, i, states, t)
    requires RunTrace(t, p, cluster, unschedulable, Distinct(nodeNames), r)
    ensures r.Ok?
    ensures var names := Distinct(nodeNames); var denied := DenialsFor(p, cluster, unschedulable, names);
            (states[|t|], r.value.results) == FoldSingles(states[0], names, denied, unschedulable)
            && r.value == BatchOf(r.value.results)
  {
    var names := Distinct(nodeNames);
    var denied := DenialsFor(p, cluster, unschedulable, names);
    if names != [] && forall n :: n in names ==> n in denied {
      AllDeniedFold(states[0], names, denied, unschedulable);
    } else {
      CalmBatch(w, i, states, t, names, denied, unschedulable, r);
    }
  }

  /** The fold sets the flag of the nodes it may and leaves everything else alone. */
  lemma {:induction false} FoldMarks(s: ClusterState, names: seq<string>, denied: Denials, unschedulable: bool,
                                     n: string)
    requires n in s.nodes
    ensures Marks(s, FoldSingles(s, names, denied, unschedulable).0, n in names && n !in denied, unschedulable, n)
    decreases |names|
  {
    if names != [] {
      var front, last := names[..|names| - 1], names[|names| - 1];
      var mid := FoldSingles(s, front, denied, unschedulable).0;
      FoldMarks(s, front, denied, unschedulable, n);
      SingleMarks(mid, last, denied, unschedulable, n);
      assert FoldSingles(s, names, denied, unschedulable).0 == Single(mid, last, denied, unschedulable).0;
      assert n in names <==> n in front || n == last;
    }
  }

  /** From `s` to `after` the node `n` got the flag if it was `chosen` and, for an uncordon, Ready; no pod and
      no other part of it changed. */
  ghost predicate Marks(s: ClusterState, after: ClusterState, chosen: bool, unschedulable: bool, n: string)
    requires n in s.nodes
  {
    && after.pods == s.pods && after.nodes.Keys == s.nodes.Keys
    && after.nodes[n] == if chosen && (unschedulable || NodeStatus(s.nodes[n]) == "Ready")
                         then s.nodes[n].(unschedulable := unschedulable)
                         else s.nodes[n]
  }

  lemma SingleMarks(s: ClusterState, node: string, denied: Denials, unschedulable: bool, n: string)
    requires n in s.nodes
    ensures Marks(s, Single(s, node, denied, unschedulable).0, n == node && n !in denied, unschedulable, n)
  {
  }

  /** On a calm cluster exactly the named nodes that pass the policy, and for an uncordon were Ready, end
      with the flag set as asked; nothing else about the cluster changes. */
  lemma CalmBatchMarks(w: Weather, i: nat, states: seq<ClusterState>, t: seq<Exchange>, p: Policy, cluster: string,
                       unschedulable: bool, nodeNames: seq<string>, r: Result<BatchData, ServiceError>, n: string)
    requires Calm(w) && Played(w, i, states, t) && n in states[0].nodes
    requires RunTrace(t, p, cluster, unschedulable, Distinct(nodeNames), r)
    ensures var before, after := states[0], states[|t|];
            && after.pods == before.pods && after.nodes.Keys == before.nodes.Keys
            && after.nodes[n] == before.nodes[n].(unschedulable := after.nodes[n].unschedulable)
            && (unschedulable ==>
                 (after.nodes[n].unschedulable <==>
                   before.nodes[n].unschedulable || (n in nodeNames && Passes(p, AP.NodeCordon, cluster, n))))
            && (!unschedulable ==>
                 (after.nodes[n].unschedulable <==>
                   before.nodes[n].unschedulable
                   && !(n in nodeNames && Passes(p, AP.NodeUncordon, cluster, n)
                        && exists k: nat :: FirstReady(before.nodes[n].conditions, k, "True"))))
  {
    var names := Distinct(nodeNames);
    BatchRefinesSingles(w, i, states, t, p, cluster, unschedulable, nodeNames, r);
    FoldMarks(states[0], names, DenialsFor(p, cluster, unschedulable, names), unschedulable, n);
    DenialsMean(p, cluster, names, n);
  }

  /** The batch on the in-memory cluster: state and results of the fold, and no other cluster touched. */
  method RunBatchDryRun(api: CoreV1Api, p: Policy, cluster: string, unschedulable: bool, nodeNames: seq<string>)
      returns (r: Result<BatchData, ServiceError>)
    requires api.Valid() && Calm(api.weather)
    modifies api, api.store
    ensures api.Continues()
    ensures r.Ok? && r.value == BatchOf(r.value.results)
    ensures var names := Distinct(nodeNames);
            (api.State(), r.value.results)
            == FoldSingles(old(api.State()), names, DenialsFor(p, cluster, unschedulable, names), unschedulable)
  {
    ghost var n, states0 := |api.log|, api.states;
    r := RunBatch(api, p, cluster, unschedulable, nodeNames);
    assert api.states[n] == states0[n];
    LatestCalmBatch(api.weather, api.states, api.log, n, p, cluster, unschedulable, nodeNames, r);
  }

  /** A calm batch whose exchanges are the end of a longer log. */
  lemma LatestCalmBatch(w: Weather, states: seq<ClusterState>, log: seq<Exchange>, n: nat, p: Policy, cluster: string,
                        unschedulable: bool, nodeNames: seq<string>, r: Result<BatchData, ServiceError>)
    requires Calm(w) && Played(w, 0, states, log) && n <= |log|
    requires RunTrace(log[n..], p, cluster, unschedulable, Distinct(nodeNames), r)
    ensures r.Ok? && r.value == BatchOf(r.value.results)
    ensures var names := Distinct(nodeNames);
            (states[|log|], r.value.results)
            == FoldSingles(states[n], names, DenialsFor(p, cluster, unschedulable, names), unschedulable)
  {
    PlayedSplits(w, 0, states, log, n);
    BatchRefinesSingles(w, n, states[n..], log[n..], p, cluster, unschedulable, nodeNames, r);
  }

  lemma CalmBatch(w: Weather, i: nat, states: seq<ClusterState>, t: seq<Exchange>, names: seq<string>, denied: Denials,
                  unschedulable: bool, r: Result<BatchData, ServiceError>)
    requires Calm(w) && Played(w, i, states, t) && BatchTrace(t, names, denied, unschedulable, r)
    ensures r.Ok? && r.value == BatchOf(r.value.results)
    ensures (states[|t|], r.value.results) == FoldSingles(states[0], names, denied, unschedulable)
  {
    if NeedsListing(names, denied, unschedulable) {
      CalmStep(w, i, states, t, 0);
      PlayedSplits(w, i, states, t, 1);
      TrueSnapshot(states[0], names, denied, unschedulable);
      CalmLoop(w, i + 1, states[1..], t[1..], names, denied, StatusMap(t[0].reply.nodes), unschedulable, r);
    } else {
      CalmLoop(w, i, states, t, names, denied, map[], unschedulable, r);
    }
  }

  lemma TrueSnapshot(s: ClusterState, names: seq<string>, denied: Denials, unschedulable: bool)
    ensures SnapshotOf(s, StatusMap(s.nodes), names, denied, unschedulable)
  {
  }

  lemma CalmLoop(w: Weather, i: nat, states: seq<ClusterState>, t: seq<Exchange>, names: seq<string>, denied: Denials,
                 statuses: map<string, string>, unschedulable: bool, r: Result<BatchData, ServiceError>)
    requires Calm(w) && Played(w, i, states, t) && LoopTrace(t, names, denied, statuses, unschedulable, r)
    requires SnapshotOf(states[0], statuses, names, denied, unschedulable)
    ensures r.Ok? && r.value == BatchOf(r.value.results)
    ensures (states[|t|], r.value.results) == FoldSingles(states[0], names, denied, unschedulable)
  {
    CalmLoopNeverStops(w, i, states, t, names, denied, statuses, unschedulable, r);
    CalmLoopIsFold(w, i, states, t, names, denied, statuses, unschedulable, r.value.results);
  }

  lemma {:induction false} AllDeniedFold(s: ClusterState, names: seq<string>, denied: Denials, unschedulable: bool)
    requires forall n :: n in names ==> n in denied
    ensures FoldSingles(s, names, denied, unschedulable) == (s, Map(names, DeniedResult(denied)))
  {
    if names != [] {
      var n := |names| - 1;
      AllDeniedFold(s, names[..n], denied, unschedulable);
      assert Map(names, DeniedResult(denied))
          == Map(names[..n], DeniedResult(denied)) + [DeniedResult(denied)(names[n])];
    }
  }
}
