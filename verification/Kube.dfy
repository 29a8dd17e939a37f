/**
 A cluster as the node service sees it, the requests it sends, and how the in-memory
 API server answers each of them. `Weather` adds what a real API server can do on top:
 change the cluster between two requests, and fail any of them.
 */
module Kube {
  import opened Wrappers
  import opened Seqs
  import opened Strings
  import opened MergePatch

  datatype Taint = Taint(key: string, value: Option<string>, effect: string)

  datatype Condition = Condition(kind: string, status: string)

  datatype Node = Node(
    unschedulable: bool,
    taints: seq<Taint>,
    labels: StringMap,
    annotations: StringMap,
    conditions: seq<Condition>)

  datatype Volume = Volume(name: string, emptyDir: bool)

  datatype Pod = Pod(
    namespace: string,
    name: string,
    nodeName: Option<string>,
    annotations: StringMap,
    ownerKinds: seq<string>,
    phase: Option<string>,
    volumes: seq<Volume>)
  {
    function Id(): (string, string) { (namespace, name) }
  }

  datatype ClusterState = ClusterState(nodes: map<string, Node>, pods: seq<Pod>)

  datatype NodePatch =
    | Unschedulable(value: bool)
    | Taints(taints: seq<Taint>)
    | Metadata(labels: Patch, annotations: Patch)

  datatype Request =
    | ListNodes
    | ReadNode(name: string)
    | PatchNode(name: string, patch: NodePatch)
    | ListPods(selector: string)
    | Evict(namespace: string, name: string, grace: Option<nat>)
    | Delete(namespace: string, name: string, grace: Option<nat>)

  /** An HTTP error status (None or 0 when there was no response), or no connection at all. */
  datatype Fault = ApiError(status: Option<int>) | Unreachable

  datatype Reply =
    | NodeList(nodes: map<string, Node>)
    | OneNode(node: Node)
    | PodList(pods: seq<Pod>)
    | Accepted
    | Failed(fault: Fault)

  datatype Exchange = Exchange(request: Request, reply: Reply)

  const NotFound: Fault := ApiError(Some(404))

  /******* The in-memory API server *******/

  const NODE_FIELD := "spec.nodeName"

  function NodeSelector(node: string): string { NODE_FIELD + "=" + node }

  /** One clause of a field selector; every clause but `spec.nodeName` is ignored. */
  function SelectClause(pods: seq<Pod>, clause: string): seq<Pod> {
    var (key, _, value) := Partition(clause, "=");
    if Strip(key) == NODE_FIELD then Filter(pods, (p: Pod) => p.nodeName == Some(Strip(value))) else pods
  }

  function SelectClauses(pods: seq<Pod>, clauses: seq<string>): seq<Pod> {
    if clauses == [] then pods else SelectClause(SelectClauses(pods, clauses[..|clauses| - 1]), clauses[|clauses| - 1])
  }

  function Select(pods: seq<Pod>, selector: string): seq<Pod> {
    if selector == "" then pods else SelectClauses(pods, Split(selector, ','))
  }

  /** A name no field selector would take apart: no comma, no white space around it. */
  predicate Selectable(node: string) {
    ',' !in node && Strip(node) == node
  }

  function OnNode(pods: seq<Pod>, node: string): seq<Pod> {
    Filter(pods, (p: Pod) => p.nodeName == Some(node))
  }

  /** What one clause lets through, and what a whole selector does. */
  predicate PassesClause(clause: string, p: Pod) {
    var (key, _, value) := Partition(clause, "=");
    Strip(key) == NODE_FIELD ==> p.nodeName == Some(Strip(value))
  }

  function ClausePicks(clause: string): Pod -> bool {
    (p: Pod) => PassesClause(clause, p)
  }

  function ClausesPick(clauses: seq<string>): Pod -> bool {
    (p: Pod) => forall i :: 0 <= i < |clauses| ==> PassesClause(clauses[i], p)
  }

  /** The pods a drain is shown as those of the node. */
  function PickedFor(node: string): Pod -> bool {
    ClausesPick(Split(NodeSelector(node), ','))
  }

  lemma SelectClauseIsFilter(pods: seq<Pod>, clause: string)
    ensures SelectClause(pods, clause) == Filter(pods, ClausePicks(clause))
  {
    var (key, _, value) := Partition(clause, "=");
    if Strip(key) == NODE_FIELD {
      FilterSame(pods, (p: Pod) => p.nodeName == Some(Strip(value)), ClausePicks(clause));
    } else {
      FilterAll(pods, ClausePicks(clause));
    }
  }

  lemma {:induction false} SelectClausesIsFilter(pods: seq<Pod>, clauses: seq<string>)
    ensures SelectClauses(pods, clauses) == Filter(pods, ClausesPick(clauses))
    decreases |clauses|
  {
    if clauses == [] {
      FilterAll(pods, ClausesPick([]));
    } else {
      var front, last := clauses[..|clauses| - 1], clauses[|clauses| - 1];
      SelectClausesIsFilter(pods, front);
      SelectClauseIsFilter(SelectClauses(pods, front), last);
      assert clauses == front + [last];
      FilterFilter(pods, ClausesPick(front), ClausePicks(last), ClausesPick(clauses));
    }
  }

  /** The selector of a drain is a filter, whatever the name. */
  lemma NodeSelectorIsFilter(pods: seq<Pod>, node: string)
    ensures Select(pods, NodeSelector(node)) == Filter(pods, PickedFor(node))
  {
    SelectClausesIsFilter(pods, Split(NodeSelector(node), ','));
  }

  /** It picks exactly the pods of the node if and only if the selector does not take the name apart;
      when it does, not one of them. */
  lemma PicksTheNodeIff(node: string)
    ensures (forall p :: PickedFor(node)(p) <==> p.nodeName == Some(node)) <==> Selectable(node)
    ensures forall p: Pod :: p.nodeName == Some(node) ==> (PickedFor(node)(p) <==> Selectable(node))
  {
    OwnPodsPicked(node);
    var own := Pod("", "", Some(node), map[], [], None, []);
    assert PickedFor(node)(own) <==> Selectable(node);
    if Selectable(node) {
      SelectorWithoutComma(node);
      NodeClausePasses(node);
      forall p ensures PickedFor(node)(p) <==> p.nodeName == Some(node) {
        OneClausePicks(NodeSelector(node), p);
      }
    }
  }

  lemma OwnPodsPicked(node: string)
    ensures forall p: Pod :: p.nodeName == Some(node) ==> (PickedFor(node)(p) <==> Selectable(node))
  {
    if ',' in node {
      var i := IndexOf(node, ',');
      var name, rest := node[..i], node[i + 1..];
      assert node == name + [','] + rest;
      forall p: Pod | p.nodeName == Some(node) ensures !PickedFor(node)(p) {
        NameWithComma(name, rest, p);
      }
    } else {
      SelectorWithoutComma(node);
      NodeClausePasses(node);
      forall p: Pod | p.nodeName == Some(node) ensures PickedFor(node)(p) <==> Strip(node) == node {
        OneClausePicks(NodeSelector(node), p);
      }
    }
  }

  lemma OneClausePicks(clause: string, p: Pod)
    ensures ClausesPick([clause])(p) <==> PassesClause(clause, p)
  {
    assert [clause][0] == clause;
  }

  /** A name with a comma is taken apart: its own pods are not picked. */
  lemma NameWithComma(name: string, rest: string, p: Pod)
    requires ',' !in name && p.nodeName == Some(name + [','] + rest)
    ensures !PickedFor(name + [','] + rest)(p)
  {
    SelectorWithComma(name, rest);
    NodeClausePasses(name);
    StripKeepsCharacters(name);
    assert ',' in name + [','] + rest;
  }

  lemma CommaInTheName(p: Pod)
    requires p.nodeName == Some("a,b")
    ensures !PickedFor("a,b")(p)
  {
    assert "a,b" == "a" + [','] + "b";
    NameWithComma("a", "b", p);
  }

  lemma SelectorWithComma(name: string, rest: string)
    requires ',' !in name
    ensures Split(NodeSelector(name + [','] + rest), ',')[0] == NodeSelector(name)
  {
    NoCommaInClause(name);
    assert NodeSelector(name + [','] + rest) == NodeSelector(name) + [','] + rest;
    SplitFirst(NodeSelector(name), ',', rest);
  }

  lemma SelectorWithoutComma(name: string)
    requires ',' !in name
    ensures Split(NodeSelector(name), ',') == [NodeSelector(name)]
  {
    NoCommaInClause(name);
    SplitFirst(NodeSelector(name), ',', "");
  }

  lemma NoCommaInClause(name: string)
    requires ',' !in name
    ensures ',' !in NodeSelector(name)
  {
    FieldIsPlain();
  }

  lemma NodeClausePasses(name: string)
    ensures forall p :: PassesClause(NodeSelector(name), p) <==> p.nodeName == Some(Strip(name))
  {
    FieldIsPlain();
    PartsAtFirst(NODE_FIELD, "=", name);
    StripPlain(NODE_FIELD);
  }

  /** So on every cluster it lists the pods of that node, in order, if and only if the name is selectable. */
  lemma SelectorPicksNode(node: string)
    ensures (forall pods :: Select(pods, NodeSelector(node)) == OnNode(pods, node)) <==> Selectable(node)
  {
    PicksTheNodeIff(node);
    if Selectable(node) {
      forall pods ensures Select(pods, NodeSelector(node)) == OnNode(pods, node) {
        NodeSelectorIsFilter(pods, node);
        FilterSame(pods, PickedFor(node), (p: Pod) => p.nodeName == Some(node));
      }
    } else {
      var own := Pod("", "", Some(node), map[], [], None, []);
      NodeSelectorIsFilter([own], node);
      assert own in OnNode([own], node) && own !in Select([own], NodeSelector(node));
    }
  }

  lemma FieldIsPlain()
    ensures forall c :: c in NODE_FIELD ==> c != ',' && c != '=' && !IsSpace(c)
  {
  }

  function IndexOfPod(pods: seq<Pod>, namespace: string, name: string): (i: nat)
    ensures i <= |pods|
    ensures i < |pods| ==> pods[i].Id() == (namespace, name)
    ensures forall k :: 0 <= k < i ==> pods[k].Id() != (namespace, name)
  {
    if pods == [] || pods[0].Id() == (namespace, name) then 0 else 1 + IndexOfPod(pods[1..], namespace, name)
  }

  function Without(pods: seq<Pod>, i: nat): seq<Pod>
    requires i < |pods|
  {
    pods[..i] + pods[i + 1..]
  }

  function PatchedNode(n: Node, patch: NodePatch): Node {
    match patch
    case Unschedulable(v) => n.(unschedulable := v)
    case Taints(ts) => n.(taints := ts)
    case Metadata(l, a) => n.(labels := Apply(n.labels, l), annotations := Apply(n.annotations, a))
  }

  /** The in-memory server: the state after a request and what it answers. */
  function Respond(s: ClusterState, request: Request): (ClusterState, Reply) {
    match request
    case ListNodes => (s, NodeList(s.nodes))
    case ReadNode(n) => (s, if n in s.nodes then OneNode(s.nodes[n]) else Failed(NotFound))
    case PatchNode(n, patch) =>
      if n in s.nodes then
        var node := PatchedNode(s.nodes[n], patch);
        (s.(nodes := s.nodes[n := node]), OneNode(node))
      else (s, Failed(NotFound))
    case ListPods(selector) => (s, PodList(Select(s.pods, selector)))
    case Evict(ns, n, _) => Remove(s, ns, n)
    case Delete(ns, n, _) => Remove(s, ns, n)
  }

  function Remove(s: ClusterState, namespace: string, name: string): (ClusterState, Reply) {
    var i := IndexOfPod(s.pods, namespace, name);
    if i < |s.pods| then (s.(pods := Without(s.pods, i)), Accepted) else (s, Failed(NotFound))
  }

  /** A patch of a known node changes the part it names and nothing else. */
  lemma PatchChangesItsPart(s: ClusterState, name: string, patch: NodePatch)
    requires name in s.nodes
    ensures var (t, reply) := Respond(s, PatchNode(name, patch)); var n, m := s.nodes[name], t.nodes[name];
            && t.pods == s.pods && t.nodes == s.nodes[name := m] && reply == OneNode(m) && m.conditions == n.conditions
            && m.unschedulable == (if patch.Unschedulable? then patch.value else n.unschedulable)
            && m.taints == (if patch.Taints? then patch.taints else n.taints)
            && m.labels == (if patch.Metadata? then Apply(n.labels, patch.labels) else n.labels)
            && m.annotations == (if patch.Metadata? then Apply(n.annotations, patch.annotations) else n.annotations)
  {
  }

  /** Whatever is asked about a node or a pod that is not there is answered with a 404 and changes nothing. */
  lemma MissingIsNotFound(s: ClusterState, request: Request)
    requires match request
             case ReadNode(n) => n !in s.nodes
             case PatchNode(n, _) => n !in s.nodes
             case Evict(ns, n, _) => forall p :: p in s.pods ==> p.namespace != ns || p.name != n
             case Delete(ns, n, _) => forall p :: p in s.pods ==> p.namespace != ns || p.name != n
             case _ => false
    ensures Respond(s, request) == (s, Failed(ApiError(Some(404))))
  {
    if request.Evict? || request.Delete? {
      forall k | 0 <= k < |s.pods| ensures s.pods[k].Id() != (request.namespace, request.name) {
        assert s.pods[k] in s.pods;
      }
    }
  }

  /******* Everything else that can happen between two requests *******/

  /** Before request number i the cluster becomes `interfere(i, _)`; the request then fails if `fault(i)` says so. */
  datatype Weather = Weather(interfere: (nat, ClusterState) -> ClusterState, fault: nat -> Option<Fault>)

  /** Nothing interferes and nothing fails: the dry-run client. */
  ghost predicate Calm(w: Weather) {
    (forall i, s :: w.interfere(i, s) == s) && (forall i :: w.fault(i) == None)
  }

  function Serve(w: Weather, i: nat, s: ClusterState, request: Request): (ClusterState, Reply) {
    var now := w.interfere(i, s);
    match w.fault(i)
    case Some(f) => (now, Failed(f))
    case None => Respond(now, request)
  }

  /** The exchanges `t`, the first of them request number `i`, take the cluster through `states`. */
  ghost predicate Played(w: Weather, i: nat, states: seq<ClusterState>, t: seq<Exchange>) {
    && |states| == |t| + 1
    && forall k :: 0 <= k < |t| ==> (states[k + 1], t[k].reply) == Serve(w, i + k, states[k], t[k].request)
  }

  /** A log can be cut anywhere: its second part starts in the state the first one leaves. */
  lemma PlayedSplits(w: Weather, i: nat, states: seq<ClusterState>, t: seq<Exchange>, k: nat)
    requires Played(w, i, states, t) && k <= |t|
    ensures Played(w, i, states[..k + 1], t[..k])
    ensures Played(w, i + k, states[k..], t[k..])
  {
    forall j | 0 <= j < |t[k..]|
      ensures (states[k..][j + 1], t[k..][j].reply) == Serve(w, i + k + j, states[k..][j], t[k..][j].request)
    {
      assert t[k..][j] == t[k + j];
    }
  }

  /** In calm weather every exchange is the in-memory server's answer to the state before it. */
  lemma CalmStep(w: Weather, i: nat, states: seq<ClusterState>, t: seq<Exchange>, k: nat)
    requires Calm(w) && Played(w, i, states, t) && k < |t|
    ensures (states[k + 1], t[k].reply) == Respond(states[k], t[k].request)
  {
  }
}
