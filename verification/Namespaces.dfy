/** Creating, relabelling and re-annotating namespaces, with the provenance stamps of the service. */
module Namespaces {
  import opened Wrappers
  import opened Strings
  import opened MergePatch
  import opened LabelRules
  import opened Kube
  import NodeErrors

  datatype Phase = Active | Terminating

  datatype Namespace = Namespace(labels: StringMap, annotations: StringMap, phase: Phase)

  datatype Caller = Caller(account: string, requestId: string)

  datatype NsError =
    | Invalid
    | ProvenanceKeys(labels: set<string>, annotations: set<string>)
    | ReservedName
    | AlreadyExists(phase: Option<Phase>)
    | NamespaceNotFound
    | Api(error: NodeErrors.ServiceError)

  /** The namespaces of a cluster and how many requests the API server has had. */
  datatype World = World(namespaces: map<string, Namespace>, calls: nat)

  /** How a request goes wrong: what the caller is told, and whether the server served it all the same. */
  datatype Break = Break(fault: Fault, served: bool)

  type Faults = nat -> Option<Break>

  /** Whether the next request gets to be served. */
  predicate Served(w: World, fault: Faults) {
    fault(w.calls).Some? ==> fault(w.calls).value.served
  }

  /** What the caller is told of the server's answer. */
  function Told(w: World, fault: Faults, r: Result<Namespace, Fault>): Result<Namespace, Fault> {
    if fault(w.calls).Some? then Err(fault(w.calls).value.fault) else r
  }

  const NAME_LABEL := "kubernetes.io/metadata.name"

  /******* The API server *******/

  class NamespaceApi {
    const fault: Faults
    var namespaces: map<string, Namespace>
    var calls: nat

    constructor (fault: Faults, namespaces: map<string, Namespace>)
      ensures this.fault == fault && Now() == World(namespaces, 0)
    {
      this.fault := fault;
      this.namespaces := namespaces;
      calls := 0;
    }

    function Now(): World
      reads this
    {
      World(namespaces, calls)
    }

    /** A taken name, Terminating included, is a conflict; a new namespace is Active at once. */
    method Create(name: string, labels: StringMap, annotations: StringMap) returns (r: Result<Namespace, Fault>)
      modifies this
      ensures (Now(), r) == Created(old(Now()), fault, name, labels, annotations)
    {
      var broken := fault(calls);
      calls := calls + 1;
      if broken.Some? && !broken.value.served {
        return Err(broken.value.fault);
      }
      if name in namespaces {
        r := Err(ApiError(Some(409)));
      } else {
        namespaces := namespaces[name := Namespace(labels[NAME_LABEL := name], annotations, Active)];
        r := Ok(namespaces[name]);
      }
      if broken.Some? {
        r := Err(broken.value.fault);
      }
    }

    method Read(name: string) returns (r: Result<Namespace, Fault>)
      modifies this
      ensures (Now(), r) == ReadBack(old(Now()), fault, name)
    {
      var broken := fault(calls);
      calls := calls + 1;
      if broken.Some? {
        return Err(broken.value.fault);
      }
      r := if name in namespaces then Ok(namespaces[name]) else Err(ApiError(Some(404)));
    }

    method Patch(name: string, labels: Patch, annotations: Patch) returns (r: Result<Namespace, Fault>)
      modifies this
      ensures (Now(), r) == Patched(old(Now()), fault, name, labels, annotations)
    {
      var broken := fault(calls);
      calls := calls + 1;
      if broken.Some? && !broken.value.served {
        return Err(broken.value.fault);
      }
      if name !in namespaces {
        r := Err(ApiError(Some(404)));
      } else {
        var ns := namespaces[name];
        var l := Merge(ns.labels, labels);
        var a := Merge(ns.annotations, annotations);
        namespaces := namespaces[name := ns.(labels := l, annotations := a)];
        r := Ok(namespaces[name]);
      }
      if broken.Some? {
        r := Err(broken.value.fault);
      }
    }
  }

  function Created(w: World, fault: Faults, name: string, labels: StringMap, annotations: StringMap)
      : (World, Result<Namespace, Fault>) {
    var v := w.(calls := w.calls + 1);
    if !Served(w, fault) || name in w.namespaces then (v, Told(w, fault, Err(ApiError(Some(409)))))
    else
      var ns := Namespace(labels[NAME_LABEL := name], annotations, Active);
      (v.(namespaces := w.namespaces[name := ns]), Told(w, fault, Ok(ns)))
  }

  function ReadBack(w: World, fault: Faults, name: string): (World, Result<Namespace, Fault>) {
    (w.(calls := w.calls + 1),
     Told(w, fault, if name in w.namespaces then Ok(w.namespaces[name]) else Err(ApiError(Some(404)))))
  }

  function Patched(w: World, fault: Faults, name: string, labels: Patch, annotations: Patch)
      : (World, Result<Namespace, Fault>) {
    var v := w.(calls := w.calls + 1);
    if !Served(w, fault) || name !in w.namespaces then (v, Told(w, fault, Err(ApiError(Some(404)))))
    else
      var before := w.namespaces[name];
      var ns := before.(labels := Apply(before.labels, labels), annotations := Apply(before.annotations, annotations));
      (v.(namespaces := w.namespaces[name := ns]), Told(w, fault, Ok(ns)))
  }

  /** A server that nothing goes wrong with: a taken name is a conflict, a missing one is not found, and neither
      changes anything. */
  lemma ConflictOrNotFound(w: World, fault: Faults, name: string, labels: StringMap, annotations: StringMap,
                           labelPatch: Patch, annotationPatch: Patch)
    requires fault(w.calls) == None
    ensures name in w.namespaces ==>
              && Created(w, fault, name, labels, annotations) == (w.(calls := w.calls + 1), Err(ApiError(Some(409))))
              && ReadBack(w, fault, name) == (w.(calls := w.calls + 1), Ok(w.namespaces[name]))
    ensures name !in w.namespaces ==>
              && ReadBack(w, fault, name) == (w.(calls := w.calls + 1), Err(ApiError(Some(404))))
              && Patched(w, fault, name, labelPatch, annotationPatch)
                 == (w.(calls := w.calls + 1), Err(ApiError(Some(404))))
  {
  }

  /******* Stamps *******/

  function Stamp(prefix: string, what: string): string { prefix + "/" + what }

  function LastRequestId(prefix: string): string { Stamp(prefix, "last-request-id") }

  /** `<prefix>/<verb>-by`, `<prefix>/<verb>-at` and the request id, which is deleted when there is none. */
  function Provenance(prefix: string, verb: string, caller: Caller, at: string): Patch {
    map[Stamp(prefix, verb + "-by") := Some(caller.account),
        Stamp(prefix, verb + "-at") := Some(at),
        LastRequestId(prefix) := if caller.requestId == "" then None else Some(caller.requestId)]
  }

  function Present(p: Patch): StringMap {
    map k | k in p && p[k].Some? :: p[k].value
  }

  /** A prefix the settings accept: a DNS subdomain that is not reserved for Kubernetes. */
  predicate UsablePrefix(prefix: string) {
    IsDnsSubdomain(prefix) && !IsReservedDomain(prefix)
  }

  function Refused(prefix: string, keys: set<string>): set<string> {
    set k | k in keys && IsUnderDomain(k, prefix)
  }

  /******* What the request models let through *******/

  predicate IsReservedNamespaceName(name: string) {
    name == "default" || StartsWith(name, "kube-")
  }

  /** The request model's own pattern engine reads `$` as the very end. */
  predicate NameAllowed(name: string) {
    |name| <= 63 && DnsLabel(name) && !IsReservedNamespaceName(name)
  }

  function AsSet(s: seq<string>): set<string> { set x | x in s }

  predicate KeysAllowed(keys: set<string>) {
    forall k :: k in keys ==> KeyAllowed(k)
  }

  predicate LabelChangeAllowed(setLabels: StringMap, removeLabels: seq<string>) {
    && LabelsAllowed(setLabels) && KeysAllowed(AsSet(removeLabels))
    && (setLabels != map[] || removeLabels != [])
    && setLabels.Keys !! AsSet(removeLabels)
  }

  predicate AnnotationChangeAllowed(setAnnotations: StringMap, removeAnnotations: seq<string>) {
    && KeysAllowed(setAnnotations.Keys) && KeysAllowed(AsSet(removeAnnotations))
    && (setAnnotations != map[] || removeAnnotations != [])
    && setAnnotations.Keys !! AsSet(removeAnnotations)
  }

  /******* The service *******/

  function PatchError(f: Fault): NsError {
    if f == ApiError(Some(404)) then NamespaceNotFound else Api(NodeErrors.Translate(f, None))
  }

  function CreateSpec(w: World, fault: Faults, prefix: string, name: string, labels: StringMap, annotations: StringMap,
                      caller: Caller, at: string)
      : (World, Result<Namespace, NsError>)
  {
    var (rl, ra) := (Refused(prefix, labels.Keys), Refused(prefix, annotations.Keys));
    if rl != {} || ra != {} then (w, Err(ProvenanceKeys(rl, ra)))
    else
      var (v, r) := Created(w, fault, name, labels, annotations + Present(Provenance(prefix, "created", caller, at)));
      if r.Ok? then (v, Ok(r.value))
      else if r.error != ApiError(Some(409)) then (v, Err(Api(NodeErrors.Translate(r.error, None))))
      else
        var (u, back) := ReadBack(v, fault, name);
        (u, Err(if back.Ok? then AlreadyExists(Some(back.value.phase))
                else if back.error == ApiError(Some(404)) then AlreadyExists(None)
                else Api(NodeErrors.Translate(back.error, None))))
  }

  function RelabelSpec(w: World, fault: Faults, prefix: string, name: string, setLabels: StringMap,
                       removeLabels: seq<string>, caller: Caller, at: string)
      : (World, Result<Namespace, NsError>)
  {
    var refused := Refused(prefix, setLabels.Keys + AsSet(removeLabels));
    if IsReservedNamespaceName(name) then (w, Err(ReservedName))
    else if refused != {} then (w, Err(ProvenanceKeys(refused, {})))
    else
      var (v, r) := Patched(w, fault, name, KeyMergePatch(setLabels, removeLabels),
                            Provenance(prefix, "last-modified", caller, at));
      (v, if r.Ok? then Ok(r.value) else Err(PatchError(r.error)))
  }

  function AnnotateSpec(w: World, fault: Faults, prefix: string, name: string, setAnnotations: StringMap,
                        removeAnnotations: seq<string>, caller: Caller, at: string)
      : (World, Result<Namespace, NsError>)
  {
    var refused := Refused(prefix, setAnnotations.Keys + AsSet(removeAnnotations));
    if IsReservedNamespaceName(name) then (w, Err(ReservedName))
    else if refused != {} then (w, Err(ProvenanceKeys({}, refused)))
    else
      var (v, r) := Patched(w, fault, name, map[],
                            KeyMergePatch(setAnnotations, removeAnnotations)
                            + Provenance(prefix, "last-modified", caller, at));
      (v, if r.Ok? then Ok(r.value) else Err(PatchError(r.error)))
  }

  class NamespaceService {
    const prefix: string

    constructor (prefix: string)
      ensures this.prefix == prefix
    {
      this.prefix := prefix;
    }

    method CreateNamespace(api: NamespaceApi, name: string, labels: StringMap, annotations: StringMap, caller: Caller,
                           at: string)
        returns (r: Result<Namespace, NsError>)
      modifies api
      ensures (api.Now(), r) == CreateSpec(old(api.Now()), api.fault, prefix, name, labels, annotations, caller, at)
    {
      var refusedLabels, refusedAnnotations := Refused(prefix, labels.Keys), Refused(prefix, annotations.Keys);
      if refusedLabels != {} || refusedAnnotations != {} {
        return Err(ProvenanceKeys(refusedLabels, refusedAnnotations));
      }
      var made := api.Create(name, labels, annotations + Present(Provenance(prefix, "created", caller, at)));
      if made.Ok? {
        return Ok(made.value);
      }
      if made.error != ApiError(Some(409)) {
        return Err(Api(NodeErrors.Translate(made.error, None)));
      }
      var found := api.Read(name);
      if found.Ok? {
        return Err(AlreadyExists(Some(found.value.phase)));
      }
      if found.error != ApiError(Some(404)) {
        return Err(Api(NodeErrors.Translate(found.error, None)));
      }
      return Err(AlreadyExists(None));
    }

    method UpdateLabels(api: NamespaceApi, name: string, setLabels: StringMap, removeLabels: seq<string>,
                        caller: Caller, at: string)
        returns (r: Result<Namespace, NsError>)
      modifies api
      ensures (api.Now(), r)
           == RelabelSpec(old(api.Now()), api.fault, prefix, name, setLabels, removeLabels, caller, at)
    {
      if IsReservedNamespaceName(name) {
        return Err(ReservedName);
      }
      var refused := Refused(prefix, setLabels.Keys + AsSet(removeLabels));
      if refused != {} {
        return Err(ProvenanceKeys(refused, {}));
      }
      var patched := api.Patch(name, KeyMergePatch(setLabels, removeLabels),
                               Provenance(prefix, "last-modified", caller, at));
      r := if patched.Ok? then Ok(patched.value) else Err(PatchError(patched.error));
    }

    method UpdateAnnotations(api: NamespaceApi, name: string, setAnnotations: StringMap, removeAnnotations: seq<string>,
                             caller: Caller, at: string)
        returns (r: Result<Namespace, NsError>)
      modifies api
      ensures (api.Now(), r)
           == AnnotateSpec(old(api.Now()), api.fault, prefix, name, setAnnotations, removeAnnotations, caller, at)
    {
      if IsReservedNamespaceName(name) {
        return Err(ReservedName);
      }
      var refused := Refused(prefix, setAnnotations.Keys + AsSet(removeAnnotations));
      if refused != {} {
        return Err(ProvenanceKeys({}, refused));
      }
      var patched := api.Patch(name, map[], KeyMergePatch(setAnnotations, removeAnnotations)
                                            + Provenance(prefix, "last-modified", caller, at));
      r := if patched.Ok? then Ok(patched.value) else Err(PatchError(patched.error));
    }
  }
}
