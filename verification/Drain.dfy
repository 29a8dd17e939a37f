/** Draining a node: cordon, list, classify, refuse or remove, wait. */
module Drain {
  import opened Wrappers
  import opened Seqs
  import opened Strings
  import opened Kube
  import opened KubeApi
  import opened NodeErrors

  datatype DrainOptions = DrainOptions(
    deleteEmptydirData: bool,
    force: bool,
    disableEviction: bool,
    gracePeriodSeconds: Option<nat>)

  type PodId = (string, string)

  datatype DrainActionData = DrainActionData(
    node: string,
    drainedPods: seq<PodId>,
    stillTerminating: seq<PodId>,
    nodeEmptied: bool,
    forcedDeletion: bool)

  const MIRROR_POD_ANNOTATION := "kubernetes.io/config.mirror"

  /******* Classification *******/

  /** Mirror, finished and DaemonSet pods are left where they are, whatever the options. */
  predicate Skipped(p: Pod) {
    || MIRROR_POD_ANNOTATION in p.annotations
    || (p.phase.Some? && Lower(p.phase.value) in {"succeeded", "failed"})
    || "DaemonSet" in p.ownerKinds
  }

  predicate UsesEmptydirVolume(p: Pod) {
    exists i :: 0 <= i < |p.volumes| && p.volumes[i].emptyDir
  }

  function Reasons(p: Pod, o: DrainOptions): seq<Reason> {
    (if p.ownerKinds == [] && !o.force then [Unmanaged] else [])
    + (if UsesEmptydirVolume(p) && !o.deleteEmptydirData then [UsesEmptydir] else [])
  }

  function IsTarget(o: DrainOptions): Pod -> bool {
    (p: Pod) => !Skipped(p) && Reasons(p, o) == []
  }

  function IsBlocked(o: DrainOptions): Pod -> bool {
    (p: Pod) => !Skipped(p) && Reasons(p, o) != []
  }

  function Describe(o: DrainOptions): Pod -> BlockedPod {
    (p: Pod) => BlockedPod(p.namespace, p.name, Reasons(p, o))
  }

  function Targets(pods: seq<Pod>, o: DrainOptions): seq<Pod> {
    Filter(pods, IsTarget(o))
  }

  function Blocked(pods: seq<Pod>, o: DrainOptions): seq<BlockedPod> {
    Map(Filter(pods, IsBlocked(o)), Describe(o))
  }

  /** Every option the blocked pods need, in the order the refusal lists them. */
  function RequiredOptions(blocked: seq<BlockedPod>): seq<DrainOption> {
    (if exists b :: b in blocked && Unmanaged in b.reasons then [Force] else [])
    + (if exists b :: b in blocked && UsesEmptydir in b.reasons then [DeleteEmptydirData] else [])
  }

  function Granting(o: DrainOptions, granted: set<DrainOption>): DrainOptions {
    o.(force := o.force || Force in granted,
       deleteEmptydirData := o.deleteEmptydirData || DeleteEmptydirData in granted)
  }

  lemma ClassifyOneMore(pods: seq<Pod>, i: nat, o: DrainOptions)
    requires i < |pods|
    ensures Targets(pods[..i + 1], o)
         == if Skipped(pods[i]) || Reasons(pods[i], o) != [] then Targets(pods[..i], o)
            else Targets(pods[..i], o) + [pods[i]]
    ensures Blocked(pods[..i + 1], o)
         == if Skipped(pods[i]) || Reasons(pods[i], o) == [] then Blocked(pods[..i], o)
            else Blocked(pods[..i], o) + [BlockedPod(pods[i].namespace, pods[i].name, Reasons(pods[i], o))]
  {
    TargetsOneMore(pods, i, o);
    BlockedOneMore(pods, i, o);
  }

  lemma TargetsOneMore(pods: seq<Pod>, i: nat, o: DrainOptions)
    requires i < |pods|
    ensures Targets(pods[..i + 1], o) == Targets(pods[..i], o) + (if IsTarget(o)(pods[i]) then [pods[i]] else [])
  {
    assert pods[..i + 1] == pods[..i] + [pods[i]];
    FilterAppends(pods[..i], [pods[i]], IsTarget(o));
  }

  lemma BlockedOneMore(pods: seq<Pod>, i: nat, o: DrainOptions)
    requires i < |pods|
    ensures Blocked(pods[..i + 1], o)
         == Blocked(pods[..i], o) + (if IsBlocked(o)(pods[i]) then [Describe(o)(pods[i])] else [])
  {
    assert pods[..i + 1] == pods[..i] + [pods[i]];
    FilterAppends(pods[..i], [pods[i]], IsBlocked(o));
  }

  method Protections(pod: Pod, o: DrainOptions) returns (reasons: seq<Reason>)
    ensures reasons == Reasons(pod, o)
  {
    reasons := [];
    if pod.ownerKinds == [] && !o.force {
      reasons := reasons + [Unmanaged];
    }
    if UsesEmptydirVolume(pod) && !o.deleteEmptydirData {
      reasons := reasons + [UsesEmptydir];
    }
  }

  /** The classification loop, in the order of its tests. */
  method Classify(pods: seq<Pod>, o: DrainOptions) returns (podsToEvict: seq<Pod>, blocked: seq<BlockedPod>)
    ensures podsToEvict == Targets(pods, o)
    ensures blocked == Blocked(pods, o)
  {
    podsToEvict, blocked := [], [];
    for i := 0 to |pods|
      invariant podsToEvict == Targets(pods[..i], o)
      invariant blocked == Blocked(pods[..i], o)
    {
      var pod := pods[i];
      ClassifyOneMore(pods, i, o);
      if MIRROR_POD_ANNOTATION in pod.annotations {
        continue;
      }
      var phase := if pod.phase.Some? then Lower(pod.phase.value) else "";
      if phase == "succeeded" || phase == "failed" {
        continue;
      }
      if "DaemonSet" in pod.ownerKinds {
        continue;
      }
      var reasons := Protections(pod, o);
      if reasons != [] {
        blocked := blocked + [BlockedPod(pod.namespace, pod.name, reasons)];
        continue;
      }
      podsToEvict := podsToEvict + [pod];
    }
    assert pods[..|pods|] == pods;
  }

  /** Skipped, blocked and targeted pods are the whole snapshot, each pod in one of the three. */
  lemma ClassificationPartitions(pods: seq<Pod>, o: DrainOptions)
    ensures multiset(pods)
         == multiset(Filter(pods, Skipped)) + multiset(Filter(pods, IsBlocked(o))) + multiset(Targets(pods, o))
    ensures forall p :: p in pods ==>
              (Skipped(p) <==> !IsBlocked(o)(p) && !IsTarget(o)(p)) && !(IsBlocked(o)(p) && IsTarget(o)(p))
  {
    ThreeWay(pods, Skipped, IsBlocked(o), IsTarget(o));
  }

  /** A pod is reported with a reason exactly when it has that protection and the option was not given. */
  lemma ReasonsAreTheProtections(p: Pod, o: DrainOptions)
    ensures Unmanaged in Reasons(p, o) <==> p.ownerKinds == [] && !o.force
    ensures UsesEmptydir in Reasons(p, o) <==> UsesEmptydirVolume(p) && !o.deleteEmptydirData
  {
  }

  lemma BlockedMembers(pods: seq<Pod>, o: DrainOptions, b: BlockedPod)
    ensures b in Blocked(pods, o) <==> exists p :: p in pods && IsBlocked(o)(p) && b == Describe(o)(p)
  {
    MapMembers(Filter(pods, IsBlocked(o)), Describe(o), b);
  }

  lemma NoneBlocked(pods: seq<Pod>, o: DrainOptions)
    ensures Blocked(pods, o) == [] <==> forall p :: p in pods ==> !IsBlocked(o)(p)
  {
    forall p | p in pods && IsBlocked(o)(p) ensures Describe(o)(p) in Blocked(pods, o) {
      BlockedMembers(pods, o, Describe(o)(p));
    }
    if Blocked(pods, o) != [] {
      BlockedMembers(pods, o, Blocked(pods, o)[0]);
    }
  }

  lemma RequiredMeans(pods: seq<Pod>, o: DrainOptions)
    ensures Force in RequiredOptions(Blocked(pods, o))
        <==> exists p :: p in pods && !Skipped(p) && p.ownerKinds == [] && !o.force
    ensures DeleteEmptydirData in RequiredOptions(Blocked(pods, o))
        <==> exists p :: p in pods && !Skipped(p) && UsesEmptydirVolume(p) && !o.deleteEmptydirData
  {
    var blocked := Blocked(pods, o);
    forall p | p in pods && IsBlocked(o)(p) ensures Describe(o)(p) in blocked {
      BlockedMembers(pods, o, Describe(o)(p));
    }
    forall b | b in blocked ensures exists p :: p in pods && IsBlocked(o)(p) && b == Describe(o)(p) {
      BlockedMembers(pods, o, b);
    }
    forall p ensures (Unmanaged in Reasons(p, o) <==> p.ownerKinds == [] && !o.force)
                  && (UsesEmptydir in Reasons(p, o) <==> UsesEmptydirVolume(p) && !o.deleteEmptydirData) {
      ReasonsAreTheProtections(p, o);
    }
  }

  /** The required options are the least that will do: granting a set of options unblocks the
      same snapshot exactly when it includes every required one. */
  lemma RequiredOptionsAreLeast(pods: seq<Pod>, o: DrainOptions, granted: set<DrainOption>)
    ensures Blocked(pods, Granting(o, granted)) == []
        <==> (forall x :: x in RequiredOptions(Blocked(pods, o)) ==> x in granted)
  {
    var after := Granting(o, granted);
    RequiredMeans(pods, o);
    NoneBlocked(pods, after);
  }
}
