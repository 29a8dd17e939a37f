/** What the provenance stamps say after any run of requests, failures and foreign edits. */
module Provenance {
  import opened Wrappers
  import opened Strings
  import opened MergePatch
  import opened LabelRules
  import opened Kube
  import opened Namespaces
  import NodeErrors

  /******* The prefix belongs to the service *******/

  lemma StampSplits(prefix: string, what: string)
    requires '/' !in what
    ensures RPartition(Stamp(prefix, what), '/') == (prefix, true, what)
  {
    assert Stamp(prefix, what) == prefix + ['/'] + what;
    RPartitionLast(prefix, '/', what);
  }

  lemma UsablePrefixIsNotEmpty(prefix: string)
    requires UsablePrefix(prefix)
    ensures prefix != ""
  {
    assert !DottedLabels("") by {
      assert Split("", '.')[0] == "";
    }
  }

  /** A caller can neither write nor remove a stamp: its key is always refused. Nor is a stamp key
      reserved for Kubernetes, so the service itself may write it. */
  lemma StampKeysAreRefused(prefix: string, what: string, keys: set<string>)
    requires UsablePrefix(prefix) && '/' !in what
    ensures Stamp(prefix, what) in keys ==> Stamp(prefix, what) in Refused(prefix, keys)
    ensures !IsReservedLabelKey(Stamp(prefix, what))
  {
    StampSplits(prefix, what);
    UsablePrefixIsNotEmpty(prefix);
  }

  lemma StampsDiffer(prefix: string, a: string, b: string)
    ensures Stamp(prefix, a) == Stamp(prefix, b) <==> a == b
  {
    var x, y := Stamp(prefix, a), Stamp(prefix, b);
    assert x[|prefix| + 1..] == a && y[|prefix| + 1..] == b;
  }

  predicate IsStampVerb(verb: string) {
    verb == "created" || verb == "last-modified"
  }

  lemma ProvenanceKeysAreRefused(prefix: string, verb: string, caller: Caller, at: string, keys: set<string>)
    requires UsablePrefix(prefix) && IsStampVerb(verb) && Refused(prefix, keys) == {}
    ensures Provenance(prefix, verb, caller, at).Keys !! keys
  {
    assert forall c :: c in verb + "-by" ==> c != '/';
    assert forall c :: c in verb + "-at" ==> c != '/';
    StampKeysAreRefused(prefix, verb + "-by", keys);
    StampKeysAreRefused(prefix, verb + "-at", keys);
    StampKeysAreRefused(prefix, "last-request-id", keys);
  }

  /** Once the refusal has passed, caller keys and stamps never overwrite each other: either order of
      merging them is the same patch. */
  lemma StampsNeverClash(prefix: string, verb: string, caller: Caller, at: string, p: Patch)
    requires UsablePrefix(prefix) && IsStampVerb(verb) && Refused(prefix, p.Keys) == {}
    ensures p + Provenance(prefix, verb, caller, at) == Provenance(prefix, verb, caller, at) + p
  {
    ProvenanceKeysAreRefused(prefix, verb, caller, at, p.Keys);
  }

  /******* Runs *******/

  /** A request to the service, or something others do to the cluster: patch a namespace, delete it
      or put one there. Others keep off the prefix and the name label. */
  datatype Op =
    | Create(name: string, labels: StringMap, annotations: StringMap, caller: Caller, at: string)
    | Relabel(name: string, setLabels: StringMap, removeLabels: seq<string>, caller: Caller, at: string)
    | Annotate(name: string, setAnnotations: StringMap, removeAnnotations: seq<string>, caller: Caller, at: string)
    | ForeignPatch(name: string, foreignLabels: Patch, foreignAnnotations: Patch)
    | ForeignDelete(name: string)
    | ForeignCreate(name: string, namespace: Namespace)

  predicate Civil(prefix: string, op: Op) {
    match op
    case ForeignPatch(_, l, a) => NAME_LABEL !in l && Refused(prefix, a.Keys) == {}
    case ForeignCreate(n, ns) => NameLabelled(n, ns)
    case _ => true
  }

  /** A request that its model refuses never reaches the service. */
  function Step(w: World, fault: Faults, prefix: string, op: Op): (World, Result<Namespace, NsError>) {
    match op
    case Create(n, l, a, c, at) =>
      if NameAllowed(n) && LabelsAllowed(l) && KeysAllowed(a.Keys) then CreateSpec(w, fault, prefix, n, l, a, c, at)
      else (w, Err(Invalid))
    case Relabel(n, s, r, c, at) =>
      if LabelChangeAllowed(s, r) then RelabelSpec(w, fault, prefix, n, s, r, c, at) else (w, Err(Invalid))
    case Annotate(n, s, r, c, at) =>
      if AnnotationChangeAllowed(s, r) then AnnotateSpec(w, fault, prefix, n, s, r, c, at) else (w, Err(Invalid))
    case ForeignPatch(n, l, a) =>
      if n in w.namespaces then
        var ns := w.namespaces[n];
        var now := ns.(labels := Apply(ns.labels, l), annotations := Apply(ns.annotations, a));
        (w.(namespaces := w.namespaces[n := now]), Err(Invalid))
      else (w, Err(Invalid))
    case ForeignDelete(n) => (w.(namespaces := w.namespaces - {n}), Err(Invalid))
    case ForeignCreate(n, ns) =>
      (if n in w.namespaces then w else w.(namespaces := w.namespaces[n := ns]), Err(Invalid))
  }

  /** Whether a request of the service changes the cluster: it is let through, reaches a server that
      serves it, and finds the name free or taken as it needs. Its answer may be lost all the same. */
  predicate TakesEffect(w: World, fault: Faults, prefix: string, op: Op) {
    match op
    case Create(n, l, a, _, _) =>
      && NameAllowed(n) && LabelsAllowed(l) && KeysAllowed(a.Keys)
      && Refused(prefix, l.Keys) == {} && Refused(prefix, a.Keys) == {}
      && Served(w, fault) && n !in w.namespaces
    case Relabel(n, s, r, _, _) =>
      && LabelChangeAllowed(s, r) && !IsReservedNamespaceName(n) && Refused(prefix, s.Keys + AsSet(r)) == {}
      && Served(w, fault) && n in w.namespaces
    case Annotate(n, s, r, _, _) =>
      && AnnotationChangeAllowed(s, r) && !IsReservedNamespaceName(n) && Refused(prefix, s.Keys + AsSet(r)) == {}
      && Served(w, fault) && n in w.namespaces
    case _ => false
  }

  /** What the service has done to a namespace: who created it and when, who changed it last and when,
      and the request id of its latest write (None inside Some: that write had no id). */
  datatype Entry = Entry(
    created: Option<(string, string)>,
    modified: Option<(string, string)>,
    lastWrite: Option<Option<string>>)

  type Ledger = map<string, Entry>

  function IdOf(c: Caller): Option<string> {
    if c.requestId == "" then None else Some(c.requestId)
  }

  /** The ledger after a request; `took` says whether it took effect. */
  function Noted(l: Ledger, op: Op, took: bool): Ledger {
    match op
    case Create(n, _, _, c, at) => if took then l[n := Entry(Some((c.account, at)), None, Some(IdOf(c)))] else l
    case Relabel(n, _, _, c, at) => if took then l[n := Written(EntryOf(l, n), c, at)] else l
    case Annotate(n, _, _, c, at) => if took then l[n := Written(EntryOf(l, n), c, at)] else l
    case ForeignDelete(n) => l - {n}
    case _ => l
  }

  function EntryOf(l: Ledger, n: string): Entry {
    if n in l then l[n] else Entry(None, None, None)
  }

  function Written(e: Entry, c: Caller, at: string): Entry {
    e.(modified := Some((c.account, at)), lastWrite := Some(IdOf(c)))
  }

  /** The stamp says `value`, or is not there when there is none to say. */
  predicate Says(prefix: string, what: string, annotations: StringMap, value: Option<string>) {
    match value
    case Some(v) => Stamp(prefix, what) in annotations && annotations[Stamp(prefix, what)] == v
    case None => Stamp(prefix, what) !in annotations
  }

  ghost predicate EntryHolds(prefix: string, e: Entry, ns: Namespace) {
    && (e.created.Some? ==>
          && Says(prefix, "created-by", ns.annotations, Some(e.created.value.0))
          && Says(prefix, "created-at", ns.annotations, Some(e.created.value.1)))
    && (e.modified.Some? ==>
          && Says(prefix, "last-modified-by", ns.annotations, Some(e.modified.value.0))
          && Says(prefix, "last-modified-at", ns.annotations, Some(e.modified.value.1)))
    && (e.created.Some? && e.modified == None ==>
          && Says(prefix, "last-modified-by", ns.annotations, None)
          && Says(prefix, "last-modified-at", ns.annotations, None))
    && (e.lastWrite.Some? ==> Says(prefix, "last-request-id", ns.annotations, e.lastWrite.value))
  }

  predicate NameLabelled(name: string, ns: Namespace) {
    NAME_LABEL in ns.labels && ns.labels[NAME_LABEL] == name
  }

  ghost predicate Agrees(prefix: string, l: Ledger, w: World) {
    && (forall n :: n in l ==> n in w.namespaces && EntryHolds(prefix, l[n], w.namespaces[n]))
    && (forall n :: n in w.namespaces ==> NameLabelled(n, w.namespaces[n]))
  }

  lemma NameLabelIsReserved()
    ensures IsReservedLabelKey(NAME_LABEL)
  {
    var head, tail := "kubernetes.io", "metadata.name";
    assert NAME_LABEL == head + ['/'] + tail;
    assert forall c :: c in tail ==> c != '/';
    RPartitionLast(head, '/', tail);
    assert IsDomainOrSubdomain(head, RESERVED_DOMAINS[0]);
  }

  lemma StampsAreFive(prefix: string)
    ensures var cb, ca, id := Stamp(prefix, "created-by"), Stamp(prefix, "created-at"), LastRequestId(prefix);
            var mb, ma := Stamp(prefix, "last-modified-by"), Stamp(prefix, "last-modified-at");
            && cb != ca && cb != mb && cb != ma && cb != id && ca != mb && ca != ma && ca != id
            && mb != ma && mb != id && ma != id
  {
    var cb, ca, mb, ma, id := "created-by", "created-at", "last-modified-by", "last-modified-at", "last-request-id";
    assert cb[8] != ca[8] && mb[14] != ma[14] && mb[5] != id[5] && ma[5] != id[5];
    assert cb[0] == ca[0] != id[0] == mb[0] == ma[0];
    StampsDiffer(prefix, cb, ca);
    StampsDiffer(prefix, cb, mb);
    StampsDiffer(prefix, cb, ma);
    StampsDiffer(prefix, cb, id);
    StampsDiffer(prefix, ca, mb);
    StampsDiffer(prefix, ca, ma);
    StampsDiffer(prefix, ca, id);
    StampsDiffer(prefix, mb, ma);
    StampsDiffer(prefix, mb, id);
    StampsDiffer(prefix, ma, id);
  }

  lemma ModifiedStamps(prefix: string, c: Caller, at: string)
    ensures var p := Provenance(prefix, "last-modified", c, at);
            && Stamp(prefix, "created-by") !in p && Stamp(prefix, "created-at") !in p
            && Stamp(prefix, "last-modified-by") in p && p[Stamp(prefix, "last-modified-by")] == Some(c.account)
            && Stamp(prefix, "last-modified-at") in p && p[Stamp(prefix, "last-modified-at")] == Some(at)
            && LastRequestId(prefix) in p && p[LastRequestId(prefix)] == IdOf(c)
  {
    StampsAreFive(prefix);
    assert "last-modified" + "-by" == "last-modified-by" && "last-modified" + "-at" == "last-modified-at";
  }

  lemma CreatedStamps(prefix: string, c: Caller, at: string)
    ensures var p := Provenance(prefix, "created", c, at);
            && Stamp(prefix, "last-modified-by") !in p && Stamp(prefix, "last-modified-at") !in p
            && Stamp(prefix, "created-by") in p && p[Stamp(prefix, "created-by")] == Some(c.account)
            && Stamp(prefix, "created-at") in p && p[Stamp(prefix, "created-at")] == Some(at)
            && LastRequestId(prefix) in p && p[LastRequestId(prefix)] == IdOf(c)
  {
    StampsAreFive(prefix);
    assert "created" + "-by" == "created-by" && "created" + "-at" == "created-at";
  }

  /** No caller's patch names any of the five stamps. */
  lemma NoStampAmong(prefix: string, keys: set<string>)
    requires UsablePrefix(prefix) && Refused(prefix, keys) == {}
    ensures Stamp(prefix, "created-by") !in keys && Stamp(prefix, "created-at") !in keys
    ensures LastRequestId(prefix) !in keys
    ensures Stamp(prefix, "last-modified-by") !in keys && Stamp(prefix, "last-modified-at") !in keys
  {
    StampKeysAreRefused(prefix, "created-by", keys);
    StampKeysAreRefused(prefix, "created-at", keys);
    StampKeysAreRefused(prefix, "last-modified-by", keys);
    StampKeysAreRefused(prefix, "last-modified-at", keys);
    StampKeysAreRefused(prefix, "last-request-id", keys);
  }

  /** What a patch does to what a stamp says. */
  lemma PatchedStamp(prefix: string, what: string, m: StringMap, p: Patch, value: Option<string>)
    requires if Stamp(prefix, what) in p then value == p[Stamp(prefix, what)] else Says(prefix, what, m, value)
    ensures Says(prefix, what, Apply(m, p), value)
  {
    ApplyAt(m, p, Stamp(prefix, what));
  }

  /** A patch without stamp keys leaves an entry as true as it was. */
  lemma UnstampedPatchKeepsEntry(prefix: string, e: Entry, ns: Namespace, labels: Patch, p: Patch)
    requires UsablePrefix(prefix) && EntryHolds(prefix, e, ns) && Refused(prefix, p.Keys) == {}
    ensures EntryHolds(prefix, e, ns.(labels := Apply(ns.labels, labels), annotations := Apply(ns.annotations, p)))
  {
    NoStampAmong(prefix, p.Keys);
  }

  /** A later write replaces the request id and who changed the namespace and when, and leaves the
      creation stamps alone. */
  lemma StampedPatchUpdatesEntry(prefix: string, e: Entry, ns: Namespace, labels: Patch, p: Patch, c: Caller,
                                 at: string)
    requires UsablePrefix(prefix) && EntryHolds(prefix, e, ns) && Refused(prefix, p.Keys) == {}
    ensures var q := p + Provenance(prefix, "last-modified", c, at);
            EntryHolds(prefix, Written(e, c, at),
                       ns.(labels := Apply(ns.labels, labels), annotations := Apply(ns.annotations, q)))
  {
    var q := p + Provenance(prefix, "last-modified", c, at);
    ModifiedStamps(prefix, c, at);
    NoStampAmong(prefix, p.Keys);
    if e.created.Some? {
      PatchedStamp(prefix, "created-by", ns.annotations, q, Some(e.created.value.0));
      PatchedStamp(prefix, "created-at", ns.annotations, q, Some(e.created.value.1));
    }
    PatchedStamp(prefix, "last-modified-by", ns.annotations, q, Some(c.account));
    PatchedStamp(prefix, "last-modified-at", ns.annotations, q, Some(at));
    PatchedStamp(prefix, "last-request-id", ns.annotations, q, IdOf(c));
  }

  lemma StampsUpdateEntry(prefix: string, e: Entry, ns: Namespace, labels: Patch, c: Caller, at: string)
    requires UsablePrefix(prefix) && EntryHolds(prefix, e, ns)
    ensures var q := Provenance(prefix, "last-modified", c, at);
            EntryHolds(prefix, Written(e, c, at),
                       ns.(labels := Apply(ns.labels, labels), annotations := Apply(ns.annotations, q)))
  {
    var none: Patch := map[];
    StampedPatchUpdatesEntry(prefix, e, ns, labels, none, c, at);
    assert none + Provenance(prefix, "last-modified", c, at) == Provenance(prefix, "last-modified", c, at);
  }

  lemma CreatedEntryHolds(prefix: string, labels: StringMap, annotations: StringMap, c: Caller, at: string)
    requires UsablePrefix(prefix)
    requires Refused(prefix, annotations.Keys) == {}
    ensures EntryHolds(prefix, Entry(Some((c.account, at)), None, Some(IdOf(c))),
                       Namespace(labels, annotations + Present(Provenance(prefix, "created", c, at)), Active))
  {
    CreatedStamps(prefix, c, at);
    NoStampAmong(prefix, annotations.Keys);
  }

  /** Nothing a request can name is the name label. */
  lemma NoRequestNamesTheNameLabel(op: Op, prefix: string, w: World, fault: Faults)
    requires TakesEffect(w, fault, prefix, op)
    ensures op.Create? ==> NAME_LABEL !in op.labels
    ensures op.Relabel? ==> NAME_LABEL !in op.setLabels && NAME_LABEL !in op.removeLabels
  {
    NameLabelIsReserved();
  }

  predicate IsForeign(op: Op) {
    op.ForeignPatch? || op.ForeignDelete? || op.ForeignCreate?
  }

  /** A request succeeds exactly when it takes effect and its answer is not lost. */
  lemma SuccessIff(w: World, fault: Faults, prefix: string, op: Op)
    requires !IsForeign(op)
    ensures Step(w, fault, prefix, op).1.Ok? <==> TakesEffect(w, fault, prefix, op) && fault(w.calls) == None
    ensures Step(w, fault, prefix, op).1.Ok? ==>
              && op.name in Step(w, fault, prefix, op).0.namespaces
              && Step(w, fault, prefix, op).1.value == Step(w, fault, prefix, op).0.namespaces[op.name]
  {
  }

  /** A request that does not take effect changes no namespace. */
  lemma NoEffectNoChange(w: World, fault: Faults, prefix: string, op: Op)
    requires !IsForeign(op) && !TakesEffect(w, fault, prefix, op)
    ensures Step(w, fault, prefix, op).0.namespaces == w.namespaces
  {
  }

  /** A request that fails, refused or broken off, changes no namespace, unless the server served it
      and only the answer was lost. */
  lemma FailedRequestChangesNothing(w: World, fault: Faults, prefix: string, op: Op)
    requires !IsForeign(op) && Step(w, fault, prefix, op).1.Err?
    requires fault(w.calls).Some? ==> !fault(w.calls).value.served
    ensures Step(w, fault, prefix, op).0.namespaces == w.namespaces
  {
    SuccessIff(w, fault, prefix, op);
    NoEffectNoChange(w, fault, prefix, op);
  }

  lemma CreateResult(w: World, fault: Faults, prefix: string, op: Op)
    requires op.Create? && TakesEffect(w, fault, prefix, op)
    ensures var v, stamps := Step(w, fault, prefix, op).0, Present(Provenance(prefix, "created", op.caller, op.at));
            var made := Namespace(op.labels[NAME_LABEL := op.name], op.annotations + stamps, Active);
            v.namespaces == w.namespaces[op.name := made]
  {
  }

  lemma CreateAgrees(w: World, fault: Faults, prefix: string, op: Op, l: Ledger)
    requires UsablePrefix(prefix) && op.Create? && Agrees(prefix, l, w)
    ensures Agrees(prefix, Noted(l, op, TakesEffect(w, fault, prefix, op)), Step(w, fault, prefix, op).0)
  {
    if TakesEffect(w, fault, prefix, op) {
      CreateResult(w, fault, prefix, op);
      CreatedEntryHolds(prefix, op.labels[NAME_LABEL := op.name], op.annotations, op.caller, op.at);
    } else {
      NoEffectNoChange(w, fault, prefix, op);
    }
  }

  /** Rewriting one namespace truthfully keeps the ledger right. */
  lemma RewriteAgrees(prefix: string, l: Ledger, w: World, n: string, e: Entry, ns: Namespace, calls: nat)
    requires Agrees(prefix, l, w) && EntryHolds(prefix, e, ns) && NameLabelled(n, ns)
    ensures Agrees(prefix, l[n := e], World(w.namespaces[n := ns], calls))
  {
  }

  function Relabelled(ns: Namespace, prefix: string, op: Op): Namespace
    requires op.Relabel?
  {
    ns.(labels := Apply(ns.labels, KeyMergePatch(op.setLabels, op.removeLabels)),
        annotations := Apply(ns.annotations, Provenance(prefix, "last-modified", op.caller, op.at)))
  }

  function Reannotated(ns: Namespace, prefix: string, op: Op): Namespace
    requires op.Annotate?
  {
    ns.(annotations := Apply(ns.annotations, KeyMergePatch(op.setAnnotations, op.removeAnnotations)
                                             + Provenance(prefix, "last-modified", op.caller, op.at)))
  }

  /** What a relabel that takes effect makes of its namespace, and of nothing else. */
  lemma RelabelResult(w: World, fault: Faults, prefix: string, op: Op)
    requires op.Relabel? && TakesEffect(w, fault, prefix, op)
    ensures var v := Step(w, fault, prefix, op).0;
            v == World(w.namespaces[op.name := Relabelled(w.namespaces[op.name], prefix, op)], w.calls + 1)
  {
  }

  lemma AnnotateResult(w: World, fault: Faults, prefix: string, op: Op)
    requires op.Annotate? && TakesEffect(w, fault, prefix, op)
    ensures op.setAnnotations.Keys !! AsSet(op.removeAnnotations)
    ensures var v := Step(w, fault, prefix, op).0;
            v == World(w.namespaces[op.name := Reannotated(w.namespaces[op.name], prefix, op)], w.calls + 1)
  {
    var was, none: Patch := w.namespaces[op.name], map[];
    assert Apply(was.labels, none) == was.labels;
  }

  lemma RelabelAgrees(w: World, fault: Faults, prefix: string, op: Op, l: Ledger)
    requires UsablePrefix(prefix) && op.Relabel? && Agrees(prefix, l, w)
    ensures Agrees(prefix, Noted(l, op, TakesEffect(w, fault, prefix, op)), Step(w, fault, prefix, op).0)
  {
    if TakesEffect(w, fault, prefix, op) {
      RelabelResult(w, fault, prefix, op);
      NoRequestNamesTheNameLabel(op, prefix, w, fault);
      var was, labels := w.namespaces[op.name], KeyMergePatch(op.setLabels, op.removeLabels);
      StampsUpdateEntry(prefix, EntryOf(l, op.name), was, labels, op.caller, op.at);
      ApplyAt(was.labels, labels, NAME_LABEL);
      RewriteAgrees(prefix, l, w, op.name, Written(EntryOf(l, op.name), op.caller, op.at),
                    Relabelled(was, prefix, op), w.calls + 1);
    } else {
      NoEffectNoChange(w, fault, prefix, op);
    }
  }

  lemma ReannotatedHolds(prefix: string, e: Entry, ns: Namespace, op: Op)
    requires UsablePrefix(prefix) && op.Annotate? && EntryHolds(prefix, e, ns)
    requires Refused(prefix, op.setAnnotations.Keys + AsSet(op.removeAnnotations)) == {}
    ensures EntryHolds(prefix, Written(e, op.caller, op.at), Reannotated(ns, prefix, op))
  {
    var p, none: Patch := KeyMergePatch(op.setAnnotations, op.removeAnnotations), map[];
    assert p.Keys == op.setAnnotations.Keys + AsSet(op.removeAnnotations);
    StampedPatchUpdatesEntry(prefix, e, ns, none, p, op.caller, op.at);
  }

  lemma AnnotateAgrees(w: World, fault: Faults, prefix: string, op: Op, l: Ledger)
    requires UsablePrefix(prefix) && op.Annotate? && Agrees(prefix, l, w)
    ensures Agrees(prefix, Noted(l, op, TakesEffect(w, fault, prefix, op)), Step(w, fault, prefix, op).0)
  {
    if TakesEffect(w, fault, prefix, op) {
      AnnotateResult(w, fault, prefix, op);
      var was := w.namespaces[op.name];
      ReannotatedHolds(prefix, EntryOf(l, op.name), was, op);
      RewriteAgrees(prefix, l, w, op.name, Written(EntryOf(l, op.name), op.caller, op.at),
                    Reannotated(was, prefix, op), w.calls + 1);
    } else {
      NoEffectNoChange(w, fault, prefix, op);
    }
  }

  lemma ForeignAgrees(w: World, fault: Faults, prefix: string, op: Op, l: Ledger)
    requires UsablePrefix(prefix) && Civil(prefix, op) && Agrees(prefix, l, w) && IsForeign(op)
    ensures Agrees(prefix, Noted(l, op, false), Step(w, fault, prefix, op).0)
  {
    if op.ForeignPatch? && op.name in l {
      UnstampedPatchKeepsEntry(prefix, l[op.name], w.namespaces[op.name], op.foreignLabels, op.foreignAnnotations);
    }
  }

  lemma StepAgrees(w: World, fault: Faults, prefix: string, op: Op, l: Ledger)
    requires UsablePrefix(prefix) && Civil(prefix, op) && Agrees(prefix, l, w)
    ensures Agrees(prefix, Noted(l, op, TakesEffect(w, fault, prefix, op)), Step(w, fault, prefix, op).0)
  {
    match op
    case Create(_, _, _, _, _) => CreateAgrees(w, fault, prefix, op, l);
    case Relabel(_, _, _, _, _) => RelabelAgrees(w, fault, prefix, op, l);
    case Annotate(_, _, _, _, _) => AnnotateAgrees(w, fault, prefix, op, l);
    case _ => ForeignAgrees(w, fault, prefix, op, l);
  }

  function Run(w: World, fault: Faults, prefix: string, ops: seq<Op>, l: Ledger): (World, Ledger)
    decreases |ops|
  {
    if ops == [] then (w, l)
    else
      Run(Step(w, fault, prefix, ops[0]).0, fault, prefix, ops[1..],
          Noted(l, ops[0], TakesEffect(w, fault, prefix, ops[0])))
  }

  /** What others do to the cluster does happen: any patch of what is there, any deletion, any new namespace. */
  lemma OthersAct(w: World, fault: Faults, prefix: string, n: string, l: Patch, a: Patch, ns: Namespace)
    ensures Step(w, fault, prefix, ForeignDelete(n)).0 == w.(namespaces := w.namespaces - {n})
    ensures n !in w.namespaces ==>
              Step(w, fault, prefix, ForeignCreate(n, ns)).0 == w.(namespaces := w.namespaces[n := ns])
    ensures n in w.namespaces ==>
              var was := w.namespaces[n];
              var now := Namespace(Apply(was.labels, l), Apply(was.annotations, a), was.phase);
              Step(w, fault, prefix, ForeignPatch(n, l, a)).0 == w.(namespaces := w.namespaces[n := now])
  {
  }

  /** What the ledger records of a request that took effect: who, when, and the request id if there was one. */
  lemma LedgerRecords(l: Ledger, op: Op)
    requires op.Create? || op.Relabel? || op.Annotate?
    ensures Noted(l, op, false) == l
    ensures var m := Noted(l, op, true); var who, id := Some((op.caller.account, op.at)), op.caller.requestId;
            && op.name in m && m == l[op.name := m[op.name]]
            && m[op.name].lastWrite == Some(if id == "" then None else Some(id))
            && m[op.name].created == (if op.Create? then who else if op.name in l then l[op.name].created else None)
            && m[op.name].modified == (if op.Create? then None else who)
  {
  }

  /** A run takes one step after the other. */
  lemma RunStepByStep(w: World, fault: Faults, prefix: string, op: Op, rest: seq<Op>, l: Ledger)
    ensures Run(w, fault, prefix, [], l) == (w, l)
    ensures Run(w, fault, prefix, [op] + rest, l)
         == Run(Step(w, fault, prefix, op).0, fault, prefix, rest, Noted(l, op, TakesEffect(w, fault, prefix, op)))
  {
    assert ([op] + rest)[1..] == rest;
  }

  /** After any run, with any request failing and any answer lost, every namespace the service created
      still says who created it and when; every namespace it wrote says who changed it last and when,
      and carries the request id of the latest write that took effect, or none if that one had none;
      and every namespace is labelled with its name. */
  lemma {:induction false} ProvenanceOverEveryRun(w: World, fault: Faults, prefix: string, ops: seq<Op>, l: Ledger)
    requires UsablePrefix(prefix) && Agrees(prefix, l, w) && forall i :: 0 <= i < |ops| ==> Civil(prefix, ops[i])
    ensures var (v, m) := Run(w, fault, prefix, ops, l); Agrees(prefix, m, v)
    decreases |ops|
  {
    if ops != [] {
      StepAgrees(w, fault, prefix, ops[0], l);
      ProvenanceOverEveryRun(Step(w, fault, prefix, ops[0]).0, fault, prefix, ops[1..],
                             Noted(l, ops[0], TakesEffect(w, fault, prefix, ops[0])));
    }
  }

  /** Who created a namespace and when is settled at its creation: while nobody deletes it, no run changes it. */
  lemma {:induction false} CreationIsNeverRewritten(w: World, fault: Faults, prefix: string, ops: seq<Op>, l: Ledger,
                                                    n: string)
    requires UsablePrefix(prefix) && Agrees(prefix, l, w) && forall i :: 0 <= i < |ops| ==> Civil(prefix, ops[i])
    requires n in l && l[n].created.Some? && forall i :: 0 <= i < |ops| ==> ops[i] != ForeignDelete(n)
    ensures var (v, m) := Run(w, fault, prefix, ops, l);
            && n in m && m[n].created == l[n].created && n in v.namespaces && EntryHolds(prefix, m[n], v.namespaces[n])
    decreases |ops|
  {
    if ops != [] {
      StepAgrees(w, fault, prefix, ops[0], l);
      var m := Noted(l, ops[0], TakesEffect(w, fault, prefix, ops[0]));
      assert n in m && m[n].created == l[n].created;
      CreationIsNeverRewritten(Step(w, fault, prefix, ops[0]).0, fault, prefix, ops[1..], m, n);
    }
  }

  /** A relabel that takes effect changes the labels it names and the three stamps; every other label,
      annotation and namespace is as before. */
  lemma RelabelTouchesOnlyWhatItNames(w: World, fault: Faults, prefix: string, op: Op, k: string)
    requires op.Relabel? && TakesEffect(w, fault, prefix, op)
    ensures var was, now := w.namespaces[op.name], Relabelled(w.namespaces[op.name], prefix, op);
            && Step(w, fault, prefix, op).0.namespaces == w.namespaces[op.name := now] && now.phase == was.phase
            && (k !in op.setLabels && k !in op.removeLabels ==>
                  (k in now.labels <==> k in was.labels) && (k in was.labels ==> now.labels[k] == was.labels[k]))
            && (k in op.setLabels ==> k in now.labels && now.labels[k] == op.setLabels[k])
            && (k in op.removeLabels ==> k !in now.labels)
            && (k !in Provenance(prefix, "last-modified", op.caller, op.at) ==>
                  && (k in now.annotations <==> k in was.annotations)
                  && (k in was.annotations ==> now.annotations[k] == was.annotations[k]))
  {
    RelabelResult(w, fault, prefix, op);
    KeyMergePatchOutcome(w.namespaces[op.name].labels, op.setLabels, op.removeLabels, k);
    assert k in op.removeLabels <==> k in AsSet(op.removeLabels);
  }

  lemma AnnotateTouchesOnlyWhatItNames(w: World, fault: Faults, prefix: string, op: Op, k: string)
    requires op.Annotate? && UsablePrefix(prefix) && TakesEffect(w, fault, prefix, op)
    ensures var was, now := w.namespaces[op.name], Reannotated(w.namespaces[op.name], prefix, op);
            && Step(w, fault, prefix, op).0.namespaces == w.namespaces[op.name := now]
            && now.phase == was.phase && now.labels == was.labels
            && (k in op.setAnnotations ==> k in now.annotations && now.annotations[k] == op.setAnnotations[k])
            && (k in op.removeAnnotations ==> k !in now.annotations)
            && (k !in op.setAnnotations && k !in op.removeAnnotations
                && k !in Provenance(prefix, "last-modified", op.caller, op.at) ==>
                  && (k in now.annotations <==> k in was.annotations)
                  && (k in was.annotations ==> now.annotations[k] == was.annotations[k]))
  {
    AnnotateResult(w, fault, prefix, op);
    ProvenanceKeysAreRefused(prefix, "last-modified", op.caller, op.at,
                             op.setAnnotations.Keys + AsSet(op.removeAnnotations));
    StampedPatchAt(w.namespaces[op.name].annotations, op.setAnnotations, op.removeAnnotations,
                   Provenance(prefix, "last-modified", op.caller, op.at), k);
    assert k in op.removeAnnotations <==> k in AsSet(op.removeAnnotations);
  }

  /** A patch with stamps of other keys does to each key what it does without them. */
  lemma StampedPatchAt(m: StringMap, setValues: StringMap, removeKeys: seq<string>, stamps: Patch, k: string)
    requires stamps.Keys !! setValues.Keys + AsSet(removeKeys)
    ensures var r := Apply(m, KeyMergePatch(setValues, removeKeys) + stamps);
            && (k in removeKeys ==> k !in r)
            && (k !in removeKeys && k in setValues ==> k in r && r[k] == setValues[k])
            && (k !in removeKeys && k !in setValues && k !in stamps ==>
                  (k in r <==> k in m) && (k in m ==> r[k] == m[k]))
  {
    assert k in removeKeys <==> k in AsSet(removeKeys);
    ApplyAt(m, KeyMergePatch(setValues, removeKeys) + stamps, k);
  }

  /******* Requests, spelled out *******/

  /** The namespaces of Kubernetes itself are refused, and nothing about the cluster changes. */
  lemma ReservedNamesAreRefused(w: World, fault: Faults, prefix: string, op: Op)
    requires op.Create? || op.Relabel? || op.Annotate?
    requires op.name == "default" || "kube-" <= op.name
    ensures Step(w, fault, prefix, op).0 == w && Step(w, fault, prefix, op).1.Err?
    ensures op.Create? ==> Step(w, fault, prefix, op).1 == Err(Invalid)
    ensures op.Relabel? && LabelChangeAllowed(op.setLabels, op.removeLabels) ==>
              Step(w, fault, prefix, op).1 == Err(ReservedName)
    ensures op.Annotate? && AnnotationChangeAllowed(op.setAnnotations, op.removeAnnotations) ==>
              Step(w, fault, prefix, op).1 == Err(ReservedName)
  {
    assert "kube-" <= op.name ==> op.name[..5] == "kube-";
  }

  /** No other name is reserved. */
  lemma OnlyThoseNamesAreReserved(name: string)
    ensures IsReservedNamespaceName(name) <==> name == "default" || "kube-" <= name
  {
    assert "kube-" <= name <==> 5 <= |name| && name[..5] == "kube-";
  }

  /** What a key of a request must be: well formed, not reserved for Kubernetes, not under the prefix. */
  ghost predicate FreeKey(prefix: string, key: string) {
    && (RPartition(key, '/').1 ==>
          IsDnsSubdomain(RPartition(key, '/').0) && !IsReservedDomain(RPartition(key, '/').0))
    && LabelName(RPartition(key, '/').2)
    && !IsUnderDomain(key, prefix)
  }

  /** A request to create takes effect exactly when it is served, the name is a free DNS label of at most 63
      characters that is not reserved, every key is free to use and every label value well formed. */
  lemma CreateTakesEffectIff(w: World, fault: Faults, prefix: string, op: Op)
    requires op.Create?
    ensures TakesEffect(w, fault, prefix, op) <==>
              && (fault(w.calls) == None || fault(w.calls).value.served) && op.name !in w.namespaces
              && |op.name| <= 63 && DnsLabel(op.name) && op.name != "default" && !("kube-" <= op.name)
              && (forall k :: k in op.labels ==>
                   FreeKey(prefix, k) && (op.labels[k] == "" || LabelName(op.labels[k])))
              && forall k :: k in op.annotations ==> FreeKey(prefix, k)
  {
    OnlyThoseNamesAreReserved(op.name);
    KeysFreeIff(prefix, op.labels.Keys);
    KeysFreeIff(prefix, op.annotations.Keys);
  }

  /** A relabel takes effect exactly when it is served, the namespace is there and not reserved, there is something
      to change, no key is both set and removed, every key is free to use and every value well formed. */
  lemma RelabelTakesEffectIff(w: World, fault: Faults, prefix: string, op: Op)
    requires op.Relabel?
    ensures TakesEffect(w, fault, prefix, op) <==>
              && (fault(w.calls) == None || fault(w.calls).value.served) && op.name in w.namespaces
              && op.name != "default" && !("kube-" <= op.name)
              && (op.setLabels != map[] || op.removeLabels != [])
              && (forall k :: k in op.setLabels ==>
                   FreeKey(prefix, k) && (op.setLabels[k] == "" || LabelName(op.setLabels[k])) && k !in op.removeLabels)
              && forall k :: k in op.removeLabels ==> FreeKey(prefix, k)
  {
    OnlyThoseNamesAreReserved(op.name);
    KeysFreeIff(prefix, op.setLabels.Keys);
    KeysFreeIff(prefix, AsSet(op.removeLabels));
    RefusedOfTwo(prefix, op.setLabels.Keys, AsSet(op.removeLabels));
  }

  lemma AnnotateTakesEffectIff(w: World, fault: Faults, prefix: string, op: Op)
    requires op.Annotate?
    ensures TakesEffect(w, fault, prefix, op) <==>
              && (fault(w.calls) == None || fault(w.calls).value.served) && op.name in w.namespaces
              && op.name != "default" && !("kube-" <= op.name)
              && (op.setAnnotations != map[] || op.removeAnnotations != [])
              && (forall k :: k in op.setAnnotations ==> FreeKey(prefix, k) && k !in op.removeAnnotations)
              && forall k :: k in op.removeAnnotations ==> FreeKey(prefix, k)
  {
    OnlyThoseNamesAreReserved(op.name);
    KeysFreeIff(prefix, op.setAnnotations.Keys);
    KeysFreeIff(prefix, AsSet(op.removeAnnotations));
    RefusedOfTwo(prefix, op.setAnnotations.Keys, AsSet(op.removeAnnotations));
  }

  lemma KeysFreeIff(prefix: string, keys: set<string>)
    ensures (forall k :: k in keys ==> FreeKey(prefix, k)) <==> KeysAllowed(keys) && Refused(prefix, keys) == {}
  {
    forall k ensures FreeKey(prefix, k) <==> KeyAllowed(k) && !IsUnderDomain(k, prefix) {
    }
    forall k | k in keys ensures k in Refused(prefix, keys) <==> IsUnderDomain(k, prefix) {
    }
  }

  lemma RefusedOfTwo(prefix: string, a: set<string>, b: set<string>)
    ensures Refused(prefix, a + b) == Refused(prefix, a) + Refused(prefix, b)
  {
  }

  /** The stamps a creation leaves, by name: creator, time and request id, and none of a later change. */
  lemma CreationStamps(w: World, fault: Faults, prefix: string, op: Op, k: string)
    requires op.Create? && UsablePrefix(prefix) && TakesEffect(w, fault, prefix, op)
    ensures op.name in Step(w, fault, prefix, op).0.namespaces
    ensures var ns := Step(w, fault, prefix, op).0.namespaces[op.name]; var a := ns.annotations;
            && prefix + "/created-by" in a && a[prefix + "/created-by"] == op.caller.account
            && prefix + "/created-at" in a && a[prefix + "/created-at"] == op.at
            && (prefix + "/last-request-id" in a <==> op.caller.requestId != "")
            && (op.caller.requestId != "" ==> a[prefix + "/last-request-id"] == op.caller.requestId)
            && prefix + "/last-modified-by" !in a && prefix + "/last-modified-at" !in a
            && (k in op.annotations ==> k in a && a[k] == op.annotations[k])
            && ns.labels == op.labels["kubernetes.io/metadata.name" := op.name] && ns.phase == Active
  {
    CreateResult(w, fault, prefix, op);
    CreatedStamps(prefix, op.caller, op.at);
    NoStampAmong(prefix, op.annotations.Keys);
    ProvenanceKeysAreRefused(prefix, "created", op.caller, op.at, op.annotations.Keys);
    StampNames(prefix);
  }

  /** And those of a later change: who, when and its request id; the creation stamps are as before. */
  lemma ChangeStamps(w: World, fault: Faults, prefix: string, op: Op)
    requires (op.Relabel? || op.Annotate?) && UsablePrefix(prefix) && TakesEffect(w, fault, prefix, op)
    ensures op.name in Step(w, fault, prefix, op).0.namespaces
    ensures var was := w.namespaces[op.name].annotations;
            var a := Step(w, fault, prefix, op).0.namespaces[op.name].annotations;
            && prefix + "/last-modified-by" in a && a[prefix + "/last-modified-by"] == op.caller.account
            && prefix + "/last-modified-at" in a && a[prefix + "/last-modified-at"] == op.at
            && (prefix + "/last-request-id" in a <==> op.caller.requestId != "")
            && (op.caller.requestId != "" ==> a[prefix + "/last-request-id"] == op.caller.requestId)
            && forall s :: s in {prefix + "/created-by", prefix + "/created-at"} ==>
                 (s in a <==> s in was) && (s in a ==> a[s] == was[s])
  {
    ModifiedStamps(prefix, op.caller, op.at);
    StampNames(prefix);
    if op.Relabel? {
      RelabelResult(w, fault, prefix, op);
    } else {
      AnnotateResult(w, fault, prefix, op);
      NoStampAmong(prefix, op.setAnnotations.Keys + AsSet(op.removeAnnotations));
      assert KeyMergePatch(op.setAnnotations, op.removeAnnotations).Keys
          == op.setAnnotations.Keys + AsSet(op.removeAnnotations);
    }
  }

  lemma StampNames(prefix: string)
    ensures Stamp(prefix, "created-by") == prefix + "/created-by"
    ensures Stamp(prefix, "created-at") == prefix + "/created-at"
    ensures Stamp(prefix, "last-modified-by") == prefix + "/last-modified-by"
    ensures Stamp(prefix, "last-modified-at") == prefix + "/last-modified-at"
    ensures LastRequestId(prefix) == prefix + "/last-request-id"
  {
  }

  /** A taken name is reported with the phase of the namespace that has it, or without one if it is gone when
      looked for; nothing changes. */
  lemma ConflictTellsThePhase(w: World, fault: Faults, prefix: string, op: Op)
    requires op.Create? && op.name in w.namespaces && fault(w.calls) == None
    requires TakesEffect(w.(namespaces := w.namespaces - {op.name}), fault, prefix, op)
    ensures Step(w, fault, prefix, op).0.namespaces == w.namespaces
    ensures fault(w.calls + 1) == None ==>
              Step(w, fault, prefix, op).1 == Err(AlreadyExists(Some(w.namespaces[op.name].phase)))
    ensures forall b :: fault(w.calls + 1) == Some(b) ==>
              Step(w, fault, prefix, op).1
              == Err(if b.fault == ApiError(Some(404)) then AlreadyExists(None)
                     else Api(NodeErrors.Translate(b.fault, None)))
  {
  }

  /** A change of a namespace that is not there is answered as that. */
  lemma MissingNamespaceIsReported(w: World, fault: Faults, prefix: string, op: Op, ns: Namespace)
    requires (op.Relabel? || op.Annotate?) && op.name !in w.namespaces && fault(w.calls) == None
    requires TakesEffect(w.(namespaces := w.namespaces[op.name := ns]), fault, prefix, op)
    ensures Step(w, fault, prefix, op) == (w.(calls := w.calls + 1), Err(NamespaceNotFound))
  {
  }

  /** A request that is sent and goes wrong is answered with what went wrong; only a conflict is looked into. */
  lemma BrokenRequestIsReported(w: World, fault: Faults, prefix: string, op: Op, f: Fault)
    requires !IsForeign(op) && fault(w.calls).Some? && fault(w.calls).value.fault == f && f != ApiError(Some(409))
    requires Step(w, fault, prefix, op).0.calls > w.calls
    ensures Step(w, fault, prefix, op).0.calls == w.calls + 1
    ensures op.Create? ==> Step(w, fault, prefix, op).1 == Err(Api(NodeErrors.Translate(f, None)))
    ensures op.Relabel? || op.Annotate? ==>
              Step(w, fault, prefix, op).1
              == Err(if f == ApiError(Some(404)) then NamespaceNotFound else Api(NodeErrors.Translate(f, None)))
  {
  }

  /** A request with keys under the prefix is refused before anything is sent, and told exactly those keys. */
  lemma RefusalNamesTheKeys(w: World, fault: Faults, prefix: string, op: Op, k: string)
    requires !IsForeign(op) && Step(w, fault, prefix, op).1.Err? && Step(w, fault, prefix, op).1.error.ProvenanceKeys?
    ensures Step(w, fault, prefix, op).0 == w
    ensures var e := Step(w, fault, prefix, op).1.error;
            && (op.Create? ==>
                 && (k in e.labels <==> k in op.labels && IsUnderDomain(k, prefix))
                 && (k in e.annotations <==> k in op.annotations && IsUnderDomain(k, prefix)))
            && (op.Relabel? ==>
                 && (k in e.labels <==> (k in op.setLabels || k in op.removeLabels) && IsUnderDomain(k, prefix))
                 && e.annotations == {})
            && (op.Annotate? ==>
                 && (k in e.annotations
                     <==> (k in op.setAnnotations || k in op.removeAnnotations) && IsUnderDomain(k, prefix))
                 && e.labels == {})
  {
  }
}
