/** Taints are a list the service edits as an insertion-ordered map from (key, effect). */
module Taints {
  import opened Wrappers
  import opened Seqs
  import opened Kube
  import opened KubeApi
  import opened NodeErrors
  import opened NodeService

  type TaintId = (string, string)

  function IdOf(t: Taint): TaintId { (t.key, t.effect) }

  function IdsOf(ts: seq<Taint>): seq<TaintId> { Map(ts, IdOf) }

  function IndexOf(ts: seq<Taint>, id: TaintId): (i: nat)
    ensures i <= |ts|
    ensures i < |ts| ==> IdOf(ts[i]) == id
    ensures forall k :: 0 <= k < i ==> IdOf(ts[k]) != id
  {
    if ts == [] || IdOf(ts[0]) == id then 0 else 1 + IndexOf(ts[1..], id)
  }

  /** Assignment to a dict entry: in place if the key is there, at the end if it is not. */
  function Put(ts: seq<Taint>, t: Taint): seq<Taint> {
    var i := IndexOf(ts, IdOf(t));
    if i < |ts| then ts[i := t] else ts + [t]
  }

  function Without(ids: seq<TaintId>): Taint -> bool {
    (t: Taint) => IdOf(t) !in ids
  }

  function Pop(ts: seq<Taint>, id: TaintId): seq<Taint> {
    Filter(ts, Without([id]))
  }

  function PutAll(ts: seq<Taint>, xs: seq<Taint>): seq<Taint>
    decreases |xs|
  {
    if xs == [] then ts else Put(PutAll(ts, xs[..|xs| - 1]), xs[|xs| - 1])
  }

  function PopAll(ts: seq<Taint>, ids: seq<TaintId>): seq<Taint>
    decreases |ids|
  {
    if ids == [] then ts else Pop(PopAll(ts, ids[..|ids| - 1]), ids[|ids| - 1])
  }

  /** The recomputed list: the existing taints by id, less the removed ids, with the sets put in. */
  function Updated(existing: seq<Taint>, setTaints: seq<Taint>, removed: seq<TaintId>): seq<Taint> {
    PutAll(PopAll(PutAll([], existing), removed), setTaints)
  }

  /******* The operation *******/

  method UpdatedTaints(existing: seq<Taint>, setTaints: seq<Taint>, removed: seq<TaintId>) returns (byId: seq<Taint>)
    ensures byId == Updated(existing, setTaints, removed)
  {
    byId := [];
    for i := 0 to |existing|
      invariant byId == PutAll([], existing[..i])
    {
      assert existing[..i + 1][..i] == existing[..i];
      byId := Put(byId, existing[i]);
    }
    assert existing[..|existing|] == existing;
    ghost var all := byId;
    for i := 0 to |removed|
      invariant byId == PopAll(all, removed[..i])
    {
      assert removed[..i + 1][..i] == removed[..i];
      byId := Pop(byId, removed[i]);
    }
    assert removed[..|removed|] == removed;
    ghost var kept := byId;
    for i := 0 to |setTaints|
      invariant byId == PutAll(kept, setTaints[..i])
    {
      assert setTaints[..i + 1][..i] == setTaints[..i];
      byId := Put(byId, setTaints[i]);
    }
    assert setTaints[..|setTaints|] == setTaints;
  }

  /** Read, and if anything is asked for, patch the whole list and read again. */
  ghost predicate TaintTrace(t: seq<Exchange>, node: string, setTaints: seq<Taint>, removed: seq<TaintId>,
                             r: Result<seq<Taint>, ServiceError>) {
    && |t| > 0 && t[0].request == ReadNode(node)
    && match t[0].reply
       case Failed(f) => |t| == 1 && r == Err(Translate(f, Some(NodeNotFound(node))))
       case OneNode(n) =>
         if setTaints == [] && removed == [] then |t| == 1 && r == Ok(n.taints)
         else PatchThenRead(t[1..], node, Updated(n.taints, setTaints, removed), r)
       case _ => false
  }

  ghost predicate PatchThenRead(t: seq<Exchange>, node: string, newTaints: seq<Taint>,
                                r: Result<seq<Taint>, ServiceError>) {
    && |t| > 0 && t[0].request == PatchNode(node, Kube.Taints(newTaints))
    && if t[0].reply.Failed? then |t| == 1 && r == Err(Translate(t[0].reply.fault, Some(NodeNotFound(node))))
       else
         && |t| == 2 && t[1].request == ReadNode(node)
         && match t[1].reply
            case Failed(f) => r == Err(Translate(f, Some(NodeNotFound(node))))
            case OneNode(n) => r == Ok(n.taints)
            case _ => false
  }

  method TaintNode(api: CoreV1Api, node: string, setTaints: seq<Taint>, removed: seq<TaintId>)
      returns (r: Result<seq<Taint>, ServiceError>)
    requires api.Valid()
    modifies api, api.store
    ensures api.Continues()
    ensures TaintTrace(api.Since(old(api.log)), node, setTaints, removed, r)
  {
    var current := api.ReadNodeNamed(node);
    if current.Failed? {
      return Err(Translate(current.fault, Some(NodeNotFound(node))));
    }
    if setTaints == [] && removed == [] {
      return Ok(current.node.taints);
    }
    var newTaints := UpdatedTaints(current.node.taints, setTaints, removed);
    ghost var log1 := api.log;
    r := ReplaceTaints(api, node, newTaints);
    assert api.Since(old(api.log))[1..] == api.Since(log1);
  }

  method ReplaceTaints(api: CoreV1Api, node: string, newTaints: seq<Taint>)
      returns (r: Result<seq<Taint>, ServiceError>)
    requires api.Valid()
    modifies api, api.store
    ensures api.Continues()
    ensures PatchThenRead(api.Since(old(api.log)), node, newTaints, r)
  {
    var patched := api.PatchNodeNamed(node, Kube.Taints(newTaints));
    if patched.Failed? {
      return Err(Translate(patched.fault, Some(NodeNotFound(node))));
    }
    var current := api.ReadNodeNamed(node);
    if current.Failed? {
      return Err(Translate(current.fault, Some(NodeNotFound(node))));
    }
    return Ok(current.node.taints);
  }

  /** The requests of a taint update, by position, and where its answer comes from: the first failure, or the
      taints last read. */
  lemma TaintRequests(t: seq<Exchange>, node: string, setTaints: seq<Taint>, removed: seq<TaintId>,
                      r: Result<seq<Taint>, ServiceError>, i: nat)
    requires TaintTrace(t, node, setTaints, removed, r) && i < |t|
    ensures t[0].request == ReadNode(node) && |t| <= 3
    ensures i == 1 ==>
              (setTaints != [] || removed != []) && t[0].reply.OneNode?
              && t[1].request == PatchNode(node, Kube.Taints(Updated(t[0].reply.node.taints, setTaints, removed)))
    ensures i == 2 ==> t[2].request == ReadNode(node)
    ensures t[i].reply.Failed? ==> i == |t| - 1 && r == Err(Translate(t[i].reply.fault, Some(NodeNotFound(node))))
    ensures r.Ok? ==> |t| == (if setTaints == [] && removed == [] then 1 else 3)
    ensures r.Ok? ==> t[|t| - 1].reply.OneNode? && r.value == t[|t| - 1].reply.node.taints
  {
  }

  /** On a calm cluster the answer is the new list, and the node has it. */
  lemma CalmTaint(w: Weather, i: nat, states: seq<ClusterState>, t: seq<Exchange>, node: string, setTaints: seq<Taint>,
                  removed: seq<TaintId>, r: Result<seq<Taint>, ServiceError>)
    requires Calm(w) && Played(w, i, states, t) && TaintTrace(t, node, setTaints, removed, r) && node in states[0].nodes
    ensures var before := states[0].nodes[node].taints;
            var after := if setTaints == [] && removed == [] then before else Updated(before, setTaints, removed);
            && r == Ok(after)
            && states[|t|] == states[0].(nodes := states[0].nodes[node := states[0].nodes[node].(taints := after)])
  {
    CalmStep(w, i, states, t, 0);
    if setTaints != [] || removed != [] {
      CalmStep(w, i, states, t, 1);
      CalmStep(w, i, states, t, 2);
    }
  }

  /******* What the new list is *******/

  ghost predicate UniqueIds(ts: seq<Taint>) {
    NoDuplicates(IdsOf(ts))
  }

  function Lookup(ts: seq<Taint>, id: TaintId): Option<Taint> {
    var i := IndexOf(ts, id);
    if i < |ts| then Some(ts[i]) else None
  }

  /** The last taint with that id in a list. */
  function LastWith(ts: seq<Taint>, id: TaintId): Option<Taint>
    decreases |ts|
  {
    if ts == [] then None
    else if IdOf(ts[|ts| - 1]) == id then Some(ts[|ts| - 1])
    else LastWith(ts[..|ts| - 1], id)
  }

  function NotIn(ids: seq<TaintId>): TaintId -> bool { (id: TaintId) => id !in ids }

  function In(ids: seq<TaintId>): TaintId -> bool { (id: TaintId) => id in ids }

  lemma LookupMeans(ts: seq<Taint>, id: TaintId)
    ensures Lookup(ts, id) == None <==> id !in IdsOf(ts)
    ensures Lookup(ts, id).Some? ==> IdOf(Lookup(ts, id).value) == id
  {
    var i := IndexOf(ts, id);
    if i < |ts| {
      assert IdsOf(ts)[i] == id;
    }
  }

  lemma LookupAt(ts: seq<Taint>, i: nat)
    requires UniqueIds(ts) && i < |ts|
    ensures Lookup(ts, IdOf(ts[i])) == Some(ts[i]) && IndexOf(ts, IdOf(ts[i])) == i
  {
    var j := IndexOf(ts, IdOf(ts[i]));
    assert IdsOf(ts)[i] == IdOf(ts[i]);
    assert j < |ts| ==> IdsOf(ts)[j] == IdOf(ts[j]);
  }

  lemma PutIds(ts: seq<Taint>, t: Taint)
    requires UniqueIds(ts)
    ensures UniqueIds(Put(ts, t))
    ensures IdsOf(Put(ts, t)) == IdsOf(ts) + (if IdOf(t) in IdsOf(ts) then [] else [IdOf(t)])
  {
    LookupMeans(ts, IdOf(t));
    if IndexOf(ts, IdOf(t)) < |ts| {
      assert IdsOf(Put(ts, t)) == IdsOf(ts);
    } else {
      assert IdsOf(Put(ts, t)) == IdsOf(ts) + [IdOf(t)];
    }
  }

  lemma PutLookup(ts: seq<Taint>, t: Taint, id: TaintId)
    requires UniqueIds(ts)
    ensures Lookup(Put(ts, t), id) == if id == IdOf(t) then Some(t) else Lookup(ts, id)
  {
    var i, r := IndexOf(ts, IdOf(t)), Put(ts, t);
    PutIds(ts, t);
    if i == |ts| {
      LookupAppends(ts, t, id);
      LookupMeans(ts, IdOf(t));
    } else if id == IdOf(t) {
      LookupAt(r, i);
    } else if Lookup(ts, id).Some? {
      LookupAt(r, IndexOf(ts, id));
    } else {
      LookupMeans(ts, id);
      LookupMeans(r, id);
    }
  }

  /** The ids of a list once those of `xs` have been put into it. */
  function Joined(base: seq<TaintId>, xs: seq<TaintId>): seq<TaintId> {
    base + Filter(Distinct(xs), NotIn(base))
  }

  lemma JoinedLast(base: seq<TaintId>, xs: seq<TaintId>)
    requires xs != []
    ensures var front := Joined(base, xs[..|xs| - 1]); var id := xs[|xs| - 1];
            Joined(base, xs) == front + (if id in front then [] else [id])
  {
    var front, id := xs[..|xs| - 1], xs[|xs| - 1];
    DistinctLast(xs);
    if id !in front {
      FilterLast(Distinct(xs), NotIn(base));
      assert Distinct(xs)[..|Distinct(xs)| - 1] == Distinct(front);
    } else {
      assert Distinct(xs) == Distinct(front);
      assert id in base || id in Filter(Distinct(front), NotIn(base));
    }
  }

  lemma {:induction false} PutAllIds(ts: seq<Taint>, xs: seq<Taint>)
    requires UniqueIds(ts)
    ensures UniqueIds(PutAll(ts, xs))
    ensures IdsOf(PutAll(ts, xs)) == Joined(IdsOf(ts), IdsOf(xs))
    decreases |xs|
  {
    if xs == [] {
      assert IdsOf(ts) + [] == IdsOf(ts);
    } else {
      var front := xs[..|xs| - 1];
      PutAllIds(ts, front);
      PutIds(PutAll(ts, front), xs[|xs| - 1]);
      JoinedLast(IdsOf(ts), IdsOf(xs));
      assert IdsOf(xs)[..|xs| - 1] == IdsOf(front);
    }
  }

  lemma {:induction false} PutAllLookup(ts: seq<Taint>, xs: seq<Taint>, id: TaintId)
    requires UniqueIds(ts)
    ensures Lookup(PutAll(ts, xs), id) == if LastWith(xs, id).Some? then LastWith(xs, id) else Lookup(ts, id)
    decreases |xs|
  {
    if xs != [] {
      var front := xs[..|xs| - 1];
      PutAllLookup(ts, front, id);
      PutAllIds(ts, front);
      PutLookup(PutAll(ts, front), xs[|xs| - 1], id);
    }
  }

  lemma {:induction false} FilterIds(ts: seq<Taint>, ids: seq<TaintId>)
    ensures IdsOf(Filter(ts, Without(ids))) == Filter(IdsOf(ts), NotIn(ids))
    decreases |ts|
  {
    if ts != [] {
      var front, x := ts[..|ts| - 1], ts[|ts| - 1];
      assert IdsOf(front) == IdsOf(ts)[..|ts| - 1];
      FilterIds(front, ids);
      FilterLast(ts, Without(ids));
      FilterLast(IdsOf(ts), NotIn(ids));
      var kept := Filter(front, Without(ids));
      assert IdsOf(kept + [x]) == IdsOf(kept) + [IdOf(x)];
    }
  }

  lemma {:induction false} FilterLookup(ts: seq<Taint>, ids: seq<TaintId>, id: TaintId)
    ensures Lookup(Filter(ts, Without(ids)), id) == if id in ids then None else Lookup(ts, id)
    decreases |ts|
  {
    if ts != [] {
      var front, x := ts[..|ts| - 1], ts[|ts| - 1];
      FilterLookup(front, ids, id);
      FilterLast(ts, Without(ids));
      LookupAppends(front, x, id);
      LookupAppends(Filter(front, Without(ids)), x, id);
      assert Filter(front, Without(ids)) + [] == Filter(front, Without(ids));
      assert front + [x] == ts;
    }
  }

  lemma LookupAppends(ts: seq<Taint>, x: Taint, id: TaintId)
    ensures Lookup(ts + [x], id)
         == if Lookup(ts, id).Some? then Lookup(ts, id) else if IdOf(x) == id then Some(x) else None
  {
    var i, j := IndexOf(ts, id), IndexOf(ts + [x], id);
    assert (ts + [x])[|ts|] == x && forall k :: 0 <= k < |ts| ==> (ts + [x])[k] == ts[k];
  }

  lemma {:induction false} PopAllIsFilter(ts: seq<Taint>, ids: seq<TaintId>)
    ensures PopAll(ts, ids) == Filter(ts, Without(ids))
    decreases |ids|
  {
    if ids == [] {
      FilterAll(ts, Without(ids));
    } else {
      var front, last := ids[..|ids| - 1], ids[|ids| - 1];
      PopAllIsFilter(ts, front);
      assert ids == front + [last];
      FilterFilter(ts, Without(front), Without([last]), Without(ids));
    }
  }

  /** The ids that stay, where they were first seen. */
  function Surviving(existing: seq<Taint>, removed: seq<TaintId>): seq<TaintId> {
    Filter(Distinct(IdsOf(existing)), NotIn(removed))
  }

  /** The ids that are new or come back, in the order the request sets them. */
  function Arriving(existing: seq<Taint>, setTaints: seq<Taint>, removed: seq<TaintId>): seq<TaintId> {
    Filter(Distinct(IdsOf(setTaints)), NotIn(Surviving(existing, removed)))
  }

  /** The patched list has unique ids: the survivors in place, then the arrivals in set order. An id
      has the value last set, if it was set; it is absent if it was only removed; and otherwise it
      keeps its last existing value. */
  lemma UpdatedMeans(existing: seq<Taint>, setTaints: seq<Taint>, removed: seq<TaintId>, id: TaintId)
    ensures var r := Updated(existing, setTaints, removed);
            && UniqueIds(r)
            && IdsOf(r) == Surviving(existing, removed) + Arriving(existing, setTaints, removed)
            && Lookup(r, id) == (if LastWith(setTaints, id).Some? then LastWith(setTaints, id)
                                 else if id in removed then None
                                 else LastWith(existing, id))
  {
    var all := PutAll([], existing);
    PutAllIds([], existing);
    PutAllLookup([], existing, id);
    FilterAll(Distinct(IdsOf(existing)), NotIn([]));
    assert IdsOf(all) == Distinct(IdsOf(existing));
    PopAllIsFilter(all, removed);
    FilterIds(all, removed);
    FilterNoDuplicates(IdsOf(all), NotIn(removed));
    FilterLookup(all, removed, id);
    PutAllIds(PopAll(all, removed), setTaints);
    PutAllLookup(PopAll(all, removed), setTaints, id);
  }

  /******* The same in keys and effects *******/

  ghost predicate SameKeyAndEffect(t: Taint, key: string, effect: string) {
    t.key == key && t.effect == effect
  }

  /** Entry i is the last of the list with its key and effect. */
  ghost predicate LastOfItsKind(ts: seq<Taint>, i: nat) {
    i < |ts| && forall j :: i < j < |ts| ==> !SameKeyAndEffect(ts[j], ts[i].key, ts[i].effect)
  }

  lemma {:induction false} LastWithIs(ts: seq<Taint>, i: nat)
    requires LastOfItsKind(ts, i)
    ensures LastWith(ts, (ts[i].key, ts[i].effect)) == Some(ts[i])
    decreases |ts|
  {
    if i < |ts| - 1 {
      var front := ts[..|ts| - 1];
      assert front[i] == ts[i] && forall j :: 0 <= j < |front| ==> front[j] == ts[j];
      assert !SameKeyAndEffect(ts[|ts| - 1], ts[i].key, ts[i].effect);
      LastWithIs(front, i);
    }
  }

  lemma {:induction false} NoLastWith(ts: seq<Taint>, key: string, effect: string)
    requires forall t :: t in ts ==> !SameKeyAndEffect(t, key, effect)
    ensures LastWith(ts, (key, effect)) == None
    decreases |ts|
  {
    if ts != [] {
      assert ts[|ts| - 1] in ts;
      NoLastWith(ts[..|ts| - 1], key, effect);
    }
  }

  /** No two entries of the patched list have the same key and effect. */
  lemma OneTaintPerKeyAndEffect(existing: seq<Taint>, setTaints: seq<Taint>, removed: seq<TaintId>, i: nat, j: nat)
    requires i < j < |Updated(existing, setTaints, removed)|
    ensures var r := Updated(existing, setTaints, removed); r[i].key != r[j].key || r[i].effect != r[j].effect
  {
    var r := Updated(existing, setTaints, removed);
    UpdatedIds(existing, setTaints, removed);
    assert IdsOf(r)[i] == IdOf(r[i]) && IdsOf(r)[j] == IdOf(r[j]);
  }

  lemma InPatchedIff(existing: seq<Taint>, setTaints: seq<Taint>, removed: seq<TaintId>, t: Taint)
    ensures var r := Updated(existing, setTaints, removed); var id := (t.key, t.effect);
            t in r <==> Some(t) == if LastWith(setTaints, id).Some? then LastWith(setTaints, id)
                                   else if id in removed then None
                                   else LastWith(existing, id)
  {
    var r, id := Updated(existing, setTaints, removed), (t.key, t.effect);
    UpdatedMeans(existing, setTaints, removed, id);
    if t in r {
      var i :| 0 <= i < |r| && r[i] == t;
      LookupAt(r, i);
    }
  }

  /** A taint that is set ends up in the list, with the value last set for its key and effect. */
  lemma SetTaintIsThere(existing: seq<Taint>, setTaints: seq<Taint>, removed: seq<TaintId>, i: nat)
    requires LastOfItsKind(setTaints, i)
    ensures setTaints[i] in Updated(existing, setTaints, removed)
  {
    LastWithIs(setTaints, i);
    InPatchedIff(existing, setTaints, removed, setTaints[i]);
  }

  /** A key and effect that is removed and not set is gone. */
  lemma RemovedTaintIsGone(existing: seq<Taint>, setTaints: seq<Taint>, removed: seq<TaintId>, key: string,
                           effect: string)
    requires (key, effect) in removed && forall t :: t in setTaints ==> !SameKeyAndEffect(t, key, effect)
    ensures forall t :: t in Updated(existing, setTaints, removed) ==> !SameKeyAndEffect(t, key, effect)
  {
    NoLastWith(setTaints, key, effect);
    forall t | t in Updated(existing, setTaints, removed) && SameKeyAndEffect(t, key, effect) ensures false {
      InPatchedIff(existing, setTaints, removed, t);
    }
  }

  /** A taint nobody named stays, with the last value it had. */
  lemma UnnamedTaintStays(existing: seq<Taint>, setTaints: seq<Taint>, removed: seq<TaintId>, i: nat)
    requires LastOfItsKind(existing, i) && (existing[i].key, existing[i].effect) !in removed
    requires forall t :: t in setTaints ==> !SameKeyAndEffect(t, existing[i].key, existing[i].effect)
    ensures existing[i] in Updated(existing, setTaints, removed)
  {
    NoLastWith(setTaints, existing[i].key, existing[i].effect);
    LastWithIs(existing, i);
    InPatchedIff(existing, setTaints, removed, existing[i]);
  }

  /** And nothing else is in the list. */
  lemma NoTaintFromNowhere(existing: seq<Taint>, setTaints: seq<Taint>, removed: seq<TaintId>, t: Taint)
    requires t in Updated(existing, setTaints, removed)
    ensures t in setTaints || (t in existing && (t.key, t.effect) !in removed)
  {
    InPatchedIff(existing, setTaints, removed, t);
    LastWithIsIn(setTaints, (t.key, t.effect));
    LastWithIsIn(existing, (t.key, t.effect));
  }

  lemma {:induction false} LastWithIsIn(ts: seq<Taint>, id: TaintId)
    ensures LastWith(ts, id).Some? ==> LastWith(ts, id).value in ts
    decreases |ts|
  {
    if ts != [] {
      LastWithIsIn(ts[..|ts| - 1], id);
    }
  }

  /** A list with unique ids is its ids in order and the taint of each. */
  lemma SameIdsSameTaints(a: seq<Taint>, b: seq<Taint>)
    requires UniqueIds(a) && UniqueIds(b) && IdsOf(a) == IdsOf(b)
    requires forall id :: Lookup(a, id) == Lookup(b, id)
    ensures a == b
  {
    assert |a| == |IdsOf(a)| == |IdsOf(b)| == |b|;
    forall i | 0 <= i < |a| ensures a[i] == b[i] {
      assert IdsOf(a)[i] == IdOf(a[i]) && IdsOf(b)[i] == IdOf(b[i]);
      LookupAt(a, i);
      LookupAt(b, i);
    }
  }

  lemma {:induction false} LastWithUnique(ts: seq<Taint>, id: TaintId)
    requires UniqueIds(ts)
    ensures LastWith(ts, id) == Lookup(ts, id)
    decreases |ts|
  {
    if ts != [] {
      var front, x := ts[..|ts| - 1], ts[|ts| - 1];
      assert IdsOf(front) == IdsOf(ts)[..|ts| - 1];
      LastWithUnique(front, id);
      assert front + [x] == ts;
      LookupAppends(front, x, id);
      LookupMeans(front, id);
    }
  }

  lemma UpdatedIds(existing: seq<Taint>, setTaints: seq<Taint>, removed: seq<TaintId>)
    ensures IdsOf(Updated(existing, setTaints, removed))
         == Surviving(existing, removed) + Arriving(existing, setTaints, removed)
    ensures UniqueIds(Updated(existing, setTaints, removed))
  {
    UpdatedMeans(existing, setTaints, removed, ("", ""));
  }

  /** Repeating a request moves the ids it both removes and sets behind the other arrivals. */
  lemma RepeatedIds(existing: seq<Taint>, setTaints: seq<Taint>, removed: seq<TaintId>)
    ensures var n := Arriving(existing, setTaints, removed);
            IdsOf(Updated(Updated(existing, setTaints, removed), setTaints, removed))
              == Surviving(existing, removed) + (Filter(n, NotIn(removed)) + Filter(n, In(removed)))
  {
    var e1 := Updated(existing, setTaints, removed);
    UpdatedIds(e1, setTaints, removed);
    SurvivorsOfRepeat(existing, setTaints, removed);
    var s, n := Surviving(existing, removed), Arriving(existing, setTaints, removed);
    ArrivalsOfRepeat(Distinct(IdsOf(setTaints)), s, removed);
    assert Arriving(e1, setTaints, removed) == Filter(n, In(removed));
    Reassociate(s, Filter(n, NotIn(removed)), Filter(n, In(removed)));
  }

  lemma Reassociate(a: seq<TaintId>, b: seq<TaintId>, c: seq<TaintId>)
    ensures (a + b) + c == a + (b + c)
  {
  }

  lemma ArrivalsOfRepeat(d: seq<TaintId>, s: seq<TaintId>, removed: seq<TaintId>)
    ensures var n := Filter(d, NotIn(s));
            Filter(d, NotIn(s + Filter(n, NotIn(removed)))) == Filter(n, In(removed))
  {
    var n := Filter(d, NotIn(s));
    var s1 := s + Filter(n, NotIn(removed));
    forall x | x in d ensures NotIn(s1)(x) <==> NotIn(s)(x) && In(removed)(x) {
      assert x in n <==> NotIn(s)(x);
      assert x in Filter(n, NotIn(removed)) <==> x in n && x !in removed;
    }
    FilterFilter(d, NotIn(s), In(removed), NotIn(s1));
  }

  lemma SurvivorsOfRepeat(existing: seq<Taint>, setTaints: seq<Taint>, removed: seq<TaintId>)
    ensures Surviving(Updated(existing, setTaints, removed), removed)
         == Surviving(existing, removed) + Filter(Arriving(existing, setTaints, removed), NotIn(removed))
  {
    var e1 := Updated(existing, setTaints, removed);
    var s, n := Surviving(existing, removed), Arriving(existing, setTaints, removed);
    UpdatedMeans(existing, setTaints, removed, ("", ""));
    DistinctOfDistinct(IdsOf(e1));
    FilterAppends(s, n, NotIn(removed));
    FilterAll(s, NotIn(removed));
  }

  /** Repeating a request leaves the list as it is exactly when no arriving id that is also removed
      comes before an arriving id that is not. */
  lemma RepeatIsFixpointIff(existing: seq<Taint>, setTaints: seq<Taint>, removed: seq<TaintId>)
    ensures var e1 := Updated(existing, setTaints, removed);
            Updated(e1, setTaints, removed) == e1 <==> Settles(Arriving(existing, setTaints, removed), In(removed))
  {
    var e1 := Updated(existing, setTaints, removed);
    var e2 := Updated(e1, setTaints, removed);
    var s, n := Surviving(existing, removed), Arriving(existing, setTaints, removed);
    UpdatedMeans(existing, setTaints, removed, ("", ""));
    UpdatedMeans(e1, setTaints, removed, ("", ""));
    RepeatedIds(existing, setTaints, removed);
    var moved := Filter(n, NotIn(removed)) + Filter(n, In(removed));
    FilterSplitInOrder(n, NotIn(removed), In(removed));
    assert (s + moved)[|s|..] == moved && (s + n)[|s|..] == n;
    forall id ensures Lookup(e1, id) == Lookup(e2, id) {
      UpdatedMeans(existing, setTaints, removed, id);
      UpdatedMeans(e1, setTaints, removed, id);
      LastWithUnique(e1, id);
    }
    if moved == n {
      SameIdsSameTaints(e1, e2);
    }
  }

  /** In particular when the request sets and removes different ids. */
  lemma DisjointRequestIsIdempotent(existing: seq<Taint>, setTaints: seq<Taint>, removed: seq<TaintId>)
    requires forall id :: id in IdsOf(setTaints) ==> id !in removed
    ensures var e1 := Updated(existing, setTaints, removed); Updated(e1, setTaints, removed) == e1
  {
    RepeatIsFixpointIff(existing, setTaints, removed);
    var n := Arriving(existing, setTaints, removed);
    forall i | 0 <= i < |n| ensures n[i] !in removed {
      assert n[i] in n && n[i] in Distinct(IdsOf(setTaints));
    }
  }

  /** And not always: removing and setting one id in front of a new one turns their order around. */
  lemma SharedIdReorders()
    ensures var a, b := Taint("a", None, "NoSchedule"), Taint("b", None, "NoSchedule");
            var e1 := Updated([], [a, b], [IdOf(a)]);
            Updated(e1, [a, b], [IdOf(a)]) != e1
  {
    var a, b := Taint("a", None, "NoSchedule"), Taint("b", None, "NoSchedule");
    var removed := [IdOf(a)];
    assert [a, b][..1] == [a] && [a][..0] == [];
    var ids := IdsOf([a, b]);
    assert ids == [IdOf(a), IdOf(b)] && ids[..1] == [IdOf(a)] && [IdOf(a)][..0] == [];
    assert Distinct([IdOf(a)]) == [IdOf(a)];
    assert IdOf(a) != IdOf(b);
    assert Distinct(ids) == ids;
    assert Surviving([], removed) == [];
    FilterAll(ids, NotIn([]));
    assert Arriving([], [a, b], removed) == ids;
    RepeatIsFixpointIff([], [a, b], removed);
    assert ids[0] in removed && ids[1] !in removed;
  }
}
