/**
 The API client the services are handed. In calm weather this is the in-memory
 `DryRunCoreV1Api` over the process-wide cluster store; with other weather it stands for
 a client of a real API server. `log` records every request with its reply.
 */
module KubeApi {
  import opened Wrappers
  import opened Seqs
  import opened Strings
  import opened MergePatch
  import opened Kube

  /** Every cluster of the process by name; one not seen before starts as `blank`. */
  class ClusterStore {
    const blank: ClusterState
    var states: map<string, ClusterState>

    constructor (blank: ClusterState)
      ensures this.blank == blank && states == map[]
    {
      this.blank := blank;
      states := map[];
    }

    function State(cluster: string): ClusterState
      reads this
    {
      if cluster in states then states[cluster] else blank
    }

    method Put(cluster: string, s: ClusterState)
      modifies this
      ensures State(cluster) == s
      ensures forall c :: c != cluster ==> State(c) == old(State(c))
    {
      states := states[cluster := s];
    }
  }

  /** What is new since an earlier log, in two parts. */
  lemma LogGrows(a: seq<Exchange>, b: seq<Exchange>, c: seq<Exchange>)
    requires a <= b <= c
    ensures a <= c && c[|a|..] == b[|a|..] + c[|b|..]
  {
  }

  class CoreV1Api {
    const cluster: string
    const store: ClusterStore
    const weather: Weather
    var log: seq<Exchange>
    ghost var states: seq<ClusterState>

    constructor (cluster: string, store: ClusterStore, weather: Weather)
      ensures Valid() && log == []
      ensures this.cluster == cluster && this.store == store && this.weather == weather
    {
      this.cluster := cluster;
      this.store := store;
      this.weather := weather;
      log := [];
      states := [store.State(cluster)];
    }

    function State(): ClusterState
      reads this, store
    {
      store.State(cluster)
    }

    /** The cluster is what the logged exchanges made of it, and every reply was the server's. */
    ghost predicate Valid()
      reads this, store
    {
      Played(weather, 0, states, log) && State() == states[|log|]
    }

    /** The log and the states it went through have only grown. */
    twostate predicate Continues()
      reads this, store
    {
      Valid() && old(log) <= log && old(states) <= states && OthersUntouched()
    }

    /** What has been exchanged since `log` was `earlier`. */
    function Since(earlier: seq<Exchange>): seq<Exchange>
      requires earlier <= log
      reads this
    {
      log[|earlier|..]
    }

    /** One request took place: it is logged, the server answered, no other cluster moved. */
    twostate predicate Exchanged(request: Request, reply: Reply)
      reads this, store
    {
      && Valid()
      && log == old(log) + [Exchange(request, reply)]
      && states == old(states) + [State()]
      && (State(), reply) == Serve(weather, |old(log)|, old(State()), request)
      && OthersUntouched()
    }

    twostate predicate OthersUntouched()
      reads store
    {
      forall c :: c != cluster ==> store.State(c) == old(store.State(c))
    }

    /** The weather has its turn before the server does. */
    method Arrive() returns (trouble: Option<Fault>)
      modifies store
      ensures State() == weather.interfere(|log|, old(State())) && trouble == weather.fault(|log|)
      ensures OthersUntouched()
    {
      store.Put(cluster, weather.interfere(|log|, State()));
      trouble := weather.fault(|log|);
    }

    method Record(request: Request, reply: Reply)
      modifies this
      ensures log == old(log) + [Exchange(request, reply)] && states == old(states) + [State()]
    {
      log := log + [Exchange(request, reply)];
      states := states + [State()];
    }

    method ListNode() returns (reply: Reply)
      requires Valid()
      modifies this, store
      ensures Exchanged(ListNodes, reply)
    {
      var trouble := Arrive();
      reply := if trouble.Some? then Failed(trouble.value) else NodeList(State().nodes);
      Record(ListNodes, reply);
    }

    method ReadNodeNamed(name: string) returns (reply: Reply)
      requires Valid()
      modifies this, store
      ensures Exchanged(ReadNode(name), reply)
    {
      var trouble := Arrive();
      if trouble.Some? {
        reply := Failed(trouble.value);
      } else if name in State().nodes {
        reply := OneNode(State().nodes[name]);
      } else {
        reply := Failed(NotFound);
      }
      Record(ReadNode(name), reply);
    }

    method PatchNodeNamed(name: string, patch: NodePatch) returns (reply: Reply)
      requires Valid()
      modifies this, store
      ensures Exchanged(PatchNode(name, patch), reply)
    {
      var trouble := Arrive();
      if trouble.Some? {
        reply := Failed(trouble.value);
      } else if name !in State().nodes {
        reply := Failed(NotFound);
      } else {
        var node := State().nodes[name];
        match patch {
          case Unschedulable(value) => node := node.(unschedulable := value);
          case Taints(taints) => node := node.(taints := taints);
          case Metadata(labels, annotations) =>
            var l := MergeField(node.labels, labels);
            var a := MergeField(node.annotations, annotations);
            node := node.(labels := l, annotations := a);
        }
        store.Put(cluster, State().(nodes := State().nodes[name := node]));
        reply := OneNode(node);
      }
      Record(PatchNode(name, patch), reply);
    }

    method ListPodForAllNamespaces(selector: string) returns (reply: Reply)
      requires Valid()
      modifies this, store
      ensures Exchanged(ListPods(selector), reply)
    {
      var trouble := Arrive();
      if trouble.Some? {
        reply := Failed(trouble.value);
      } else {
        var items := State().pods;
        if selector != "" {
          var clauses := Split(selector, ',');
          for i := 0 to |clauses|
            invariant items == SelectClauses(State().pods, clauses[..i])
          {
            var (key, _, value) := Partition(clauses[i], "=");
            assert clauses[..i + 1][..i] == clauses[..i];
            if Strip(key) == NODE_FIELD {
              items := Filter(items, (p: Pod) => p.nodeName == Some(Strip(value)));
            }
          }
          assert clauses[..|clauses|] == clauses;
        }
        reply := PodList(items);
      }
      Record(ListPods(selector), reply);
    }

    method CreateNamespacedPodEviction(name: string, namespace: string, grace: Option<nat>) returns (reply: Reply)
      requires Valid()
      modifies this, store
      ensures Exchanged(Evict(namespace, name, grace), reply)
    {
      var trouble := Arrive();
      if trouble.Some? {
        reply := Failed(trouble.value);
      } else {
        reply := RemovePod(namespace, name);
      }
      Record(Evict(namespace, name, grace), reply);
    }

    method DeleteNamespacedPod(name: string, namespace: string, grace: Option<nat>) returns (reply: Reply)
      requires Valid()
      modifies this, store
      ensures Exchanged(Delete(namespace, name, grace), reply)
    {
      var trouble := Arrive();
      if trouble.Some? {
        reply := Failed(trouble.value);
      } else {
        reply := RemovePod(namespace, name);
      }
      Record(Delete(namespace, name, grace), reply);
    }

    /** Takes the first pod of that name out of the list, or answers 404. */
    method RemovePod(namespace: string, name: string) returns (reply: Reply)
      modifies store
      ensures (State(), reply) == Remove(old(State()), namespace, name)
      ensures OthersUntouched()
    {
      var pods := State().pods;
      for index := 0 to |pods|
        invariant store.states == old(store.states)
        invariant forall k :: 0 <= k < index ==> pods[k].Id() != (namespace, name)
      {
        if pods[index].namespace == namespace && pods[index].name == name {
          store.Put(cluster, State().(pods := pods[..index] + pods[index + 1..]));
          return Accepted;
        }
      }
      return Failed(NotFound);
    }
  }
}
