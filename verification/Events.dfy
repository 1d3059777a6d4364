/**
 What the event handlers of the API reconciler enqueue, as functions of the
 caches they read when they run.
 */
module Events {
  import opened Wrappers
  import opened Apis

  /** A notification: the slice itself, or the key of the export or schema that changed. */
  datatype Event = SliceEvent(slice: EndpointSlice) | ExportEvent(key: ObjectKey) | SchemaEvent(key: ObjectKey)

  function SlicesIn(c: Caches, cluster: ClusterName): set<ObjectKey> {
    set k | k in c.slices && k.cluster == cluster
  }

  predicate ClaimsIdentity(e: APIExport, hash: string) {
    exists i :: 0 <= i < |e.claims| && e.claims[i].identityHash == hash
  }

  /** Slices served from an export that claims `hash`. */
  function Claimants(c: Caches, hash: string): set<ObjectKey> {
    set k | k in c.slices && ServesClaimant(c, k, hash)
  }

  predicate ServesClaimant(c: Caches, k: ObjectKey, hash: string)
    requires k in c.slices
  {
    exists ek :: ek in c.exports && ClaimsIdentity(c.exports[ek], hash)
                 && c.exports[ek].cluster == k.cluster && c.exports[ek].name == c.slices[k].exportName
  }

  /** enqueueFilteredAPIExportEndpointSlice: the slice, and whoever claims its export's identity. */
  function SliceTargets(c: Caches, slice: EndpointSlice): set<ObjectKey> {
    {slice.Key()}
    + match c.Export(slice.ReferencedKey())
      case Found(e) => if e.identityHash != "" && !c.indexBroken then Claimants(c, e.identityHash) else {}
      case _ => {}
  }

  /** enqueueAPIExport: the slices of the export's cluster that name it. */
  function ExportTargets(c: Caches, key: ObjectKey): set<ObjectKey> {
    set k, t | k in SlicesIn(c, key.cluster) && c.slices[k].exportName == key.name
               && t in SliceTargets(c, c.slices[k]) :: t
  }

  /**
   enqueueAPIResourceSchema over the slices of the schema's cluster in list
   order. The first slice whose export cannot be looked up ends the loop.
   */
  function SchemaTargets(c: Caches, key: ObjectKey, list: seq<EndpointSlice>): set<ObjectKey> {
    if list == [] then {}
    else
      match c.Export(list[0].ReferencedKey())
      case Found(e) =>
        (if key.name in e.resources then SliceTargets(c, list[0]) else {}) + SchemaTargets(c, key, list[1..])
      case _ => {}
  }

  /** One order in which a lister may return the slices of a cluster. */
  ghost predicate Lists(c: Caches, cluster: ClusterName, list: seq<EndpointSlice>) {
    && NoDuplicates(list)
    && (forall s :: s in list ==> s.Key() in SlicesIn(c, cluster) && c.slices[s.Key()] == s)
    && (forall k :: k in SlicesIn(c, cluster) ==> c.slices[k] in list)
  }

  /** What the handler of the event enqueues; a schema event goes through the slices in list order. */
  function EventTargets(c: Caches, ev: Event, list: seq<EndpointSlice>): set<ObjectKey> {
    match ev
    case SliceEvent(slice) => SliceTargets(c, slice)
    case ExportEvent(key) => ExportTargets(c, key)
    case SchemaEvent(key) => SchemaTargets(c, key, list)
  }

  ghost predicate Enqueues(c: Caches, ev: Event, list: seq<EndpointSlice>, targets: set<ObjectKey>) {
    && targets == EventTargets(c, ev, list)
    && (ev.SchemaEvent? ==> Lists(c, ev.key.cluster, list))
  }

  // ----- Which keys an event concerns -----

  /** Reconciling `k` would read the object the event is about. */
  predicate Concerns(c: Caches, ev: Event, k: ObjectKey) {
    match ev
    case SliceEvent(slice) => k == slice.Key()
    case ExportEvent(key) => k in c.slices && c.slices[k].ExportKey() == key
    case SchemaEvent(key) =>
      && k in c.slices
      && c.slices[k].cluster == key.cluster
      && c.Export(c.slices[k].ExportKey()).Found?
      && key.name in c.Export(c.slices[k].ExportKey()).value.resources
  }

  /** Every slice of the cluster refers to an export the lister finds. */
  predicate AllReferencesFound(c: Caches, cluster: ClusterName) {
    forall k :: k in SlicesIn(c, cluster) ==> c.Export(c.slices[k].ReferencedKey()).Found?
  }

  /** The slice's export is found and has the schema among its resources. */
  predicate Uses(c: Caches, s: EndpointSlice, schema: string) {
    c.Export(s.ReferencedKey()).Found? && schema in c.Export(s.ReferencedKey()).value.resources
  }

  /** Some slice of the schema's cluster uses it, and queueing that slice queues `k`. */
  predicate Reached(c: Caches, key: ObjectKey, k: ObjectKey) {
    exists m :: m in SlicesIn(c, key.cluster) && Uses(c, c.slices[m], key.name) && k in SliceTargets(c, c.slices[m])
  }

  /** The handler queues `k` in whatever order the slices are listed. */
  ghost predicate AlwaysReached(c: Caches, key: ObjectKey, k: ObjectKey) {
    forall list :: Lists(c, key.cluster, list) ==> k in SchemaTargets(c, key, list)
  }

  lemma {:induction false} SchemaLoopReaches(c: Caches, key: ObjectKey, list: seq<EndpointSlice>, s: EndpointSlice)
    requires forall x :: x in list ==> c.Export(x.ReferencedKey()).Found?
    requires s in list && Uses(c, s, key.name)
    ensures SliceTargets(c, s) <= SchemaTargets(c, key, list)
  {
    if s != list[0] {
      SchemaLoopReaches(c, key, list[1..], s);
    }
  }

  lemma {:induction false} SchemaLoopReachesOnly(c: Caches, key: ObjectKey, list: seq<EndpointSlice>, k: ObjectKey)
    returns (s: EndpointSlice)
    requires k in SchemaTargets(c, key, list)
    ensures s in list && Uses(c, s, key.name) && k in SliceTargets(c, s)
  {
    s := list[0];
    if !(Uses(c, s, key.name) && k in SliceTargets(c, s)) {
      s := SchemaLoopReachesOnly(c, key, list[1..], k);
    }
  }

  lemma MoveToFront(c: Caches, cluster: ClusterName, list: seq<EndpointSlice>, s: EndpointSlice)
    returns (other: seq<EndpointSlice>)
    requires Lists(c, cluster, list) && s in list
    ensures Lists(c, cluster, other) && other[0] == s
  {
    var i :| 0 <= i < |list| && list[i] == s;
    other := [s] + list[..i] + list[i + 1..];
    forall x ensures x in other <==> x in list {
      if x in list {
        var j :| 0 <= j < |list| && list[j] == x;
        assert j < i ==> other[j + 1] == x;
        assert i < j ==> other[j] == x;
      }
    }
  }

  /** The slices of a cluster can be listed. */
  lemma {:induction false} SomeList(c: Caches, keys: set<ObjectKey>) returns (list: seq<EndpointSlice>)
    requires WellKeyed(c) && forall k :: k in keys ==> k in c.slices
    ensures NoDuplicates(list)
    ensures forall s :: s in list <==> s.Key() in keys && c.slices[s.Key()] == s
    decreases keys
  {
    if keys == {} {
      list := [];
    } else {
      var k :| k in keys;
      list := SomeList(c, keys - {k});
      assert c.slices[k].Key() == k;
      list := list + [c.slices[k]];
    }
  }

  lemma SchemaEventReaches(c: Caches, key: ObjectKey, list: seq<EndpointSlice>, k: ObjectKey)
    requires AllReferencesFound(c, key.cluster) && Lists(c, key.cluster, list)
    requires Reached(c, key, k)
    ensures k in SchemaTargets(c, key, list)
  {
    var m :| m in SlicesIn(c, key.cluster) && Uses(c, c.slices[m], key.name) && k in SliceTargets(c, c.slices[m]);
    SchemaLoopReaches(c, key, list, c.slices[m]);
  }

  /** A slice that refers to its own cluster is reached by the events of the schemas it is served with. */
  lemma LocalConcernIsReached(c: Caches, key: ObjectKey, k: ObjectKey)
    requires WellKeyed(c) && Concerns(c, SchemaEvent(key), k) && c.slices[k].exportPath == c.slices[k].cluster
    ensures Reached(c, key, k)
  {
    assert k in SlicesIn(c, key.cluster) && Uses(c, c.slices[k], key.name);
    assert k in SliceTargets(c, c.slices[k]);
  }

  /** One slice without its export can come first in the list and end the loop at once. */
  lemma SchemaEventCanReachNothing(c: Caches, key: ObjectKey) returns (list: seq<EndpointSlice>)
    requires WellKeyed(c) && !AllReferencesFound(c, key.cluster)
    ensures Lists(c, key.cluster, list) && SchemaTargets(c, key, list) == {}
  {
    var m :| m in SlicesIn(c, key.cluster) && !c.Export(c.slices[m].ReferencedKey()).Found?;
    list := SomeList(c, SlicesIn(c, key.cluster));
    list := MoveToFront(c, key.cluster, list, c.slices[m]);
  }

  /**
   A schema event reaches a key, whatever the list order, exactly when every
   slice of the cluster has its export and one that uses the schema leads there.
   */
  lemma SchemaEventReachesIff(c: Caches, key: ObjectKey, k: ObjectKey)
    requires WellKeyed(c)
    ensures AlwaysReached(c, key, k) <==> AllReferencesFound(c, key.cluster) && Reached(c, key, k)
  {
    if AllReferencesFound(c, key.cluster) && Reached(c, key, k) {
      forall list | Lists(c, key.cluster, list) ensures k in SchemaTargets(c, key, list) {
        SchemaEventReaches(c, key, list, k);
      }
    }
    if AlwaysReached(c, key, k) {
      var list;
      if AllReferencesFound(c, key.cluster) {
        list := SomeList(c, SlicesIn(c, key.cluster));
      } else {
        list := SchemaEventCanReachNothing(c, key);
      }
      assert Lists(c, key.cluster, list);
      var s := SchemaLoopReachesOnly(c, key, list, k);
      assert s.Key() in SlicesIn(c, key.cluster) && c.slices[s.Key()] == s;
    }
  }

  /** It always reaches every slice it concerns exactly when that holds of each of them. */
  lemma SchemaEventReachesAllIff(c: Caches, key: ObjectKey)
    requires WellKeyed(c)
    ensures (forall k :: Concerns(c, SchemaEvent(key), k) ==> AlwaysReached(c, key, k))
            <==> forall k :: Concerns(c, SchemaEvent(key), k) ==>
                               AllReferencesFound(c, key.cluster) && Reached(c, key, k)
  {
    forall k
      ensures AlwaysReached(c, key, k) <==> AllReferencesFound(c, key.cluster) && Reached(c, key, k)
    {
      SchemaEventReachesIff(c, key, k);
    }
  }

  /** The other two handlers reach everything they concern. */
  lemma SliceAndExportEventsReachAll(c: Caches, ev: Event, list: seq<EndpointSlice>, targets: set<ObjectKey>,
                                     k: ObjectKey)
    requires WellKeyed(c) && !ev.SchemaEvent?
    requires Enqueues(c, ev, list, targets) && Concerns(c, ev, k)
    ensures k in targets
  {
    if ev.ExportEvent? {
      assert k in SlicesIn(c, ev.key.cluster) && k in SliceTargets(c, c.slices[k]);
    }
  }

  // ----- What is enqueued besides -----

  /** `x` has a claim with that identity, and the slice `k` is served from `x`. */
  predicate ServedFromClaimant(c: Caches, k: ObjectKey, x: APIExport, hash: string) {
    && k in c.slices && c.slices[k].exportName == x.name && k.cluster == x.cluster
    && exists i :: 0 <= i < |x.claims| && x.claims[i].identityHash == hash
  }

  /**
   The slice handler queues the slice, and with it, if the export the slice
   refers to is found and has an identity and the index answers, exactly the
   slices served from exports that claim this identity, wherever they are.
   */
  lemma SliceTargetsMeaning(c: Caches, slice: EndpointSlice, k: ObjectKey)
    ensures var found := c.Export(ObjectKey(slice.exportPath, slice.exportName));
            k in SliceTargets(c, slice)
            <==> || k == ObjectKey(slice.cluster, slice.name)
                 || (&& found.Found? && found.value.identityHash != "" && !c.indexBroken
                     && exists x :: x in c.exports
                                    && ServedFromClaimant(c, k, c.exports[x], found.value.identityHash))
  {
    var found := c.Export(ObjectKey(slice.exportPath, slice.exportName));
    if found.Found? {
      var hash := found.value.identityHash;
      if x :| x in c.exports && ServedFromClaimant(c, k, c.exports[x], hash) {
        assert ServesClaimant(c, k, hash);
      }
      if k in c.slices && ServesClaimant(c, k, hash) {
        var x :| x in c.exports && ClaimsIdentity(c.exports[x], hash)
                 && c.exports[x].cluster == k.cluster && c.exports[x].name == c.slices[k].exportName;
        assert ServedFromClaimant(c, k, c.exports[x], hash);
      }
    }
  }

  /** The export handler does that for every slice of the export's cluster that names it, and for no other. */
  lemma ExportTargetsMeaning(c: Caches, key: ObjectKey, k: ObjectKey)
    ensures k in ExportTargets(c, key)
            <==> exists m :: m in c.slices && m.cluster == key.cluster && c.slices[m].exportName == key.name
                             && k in SliceTargets(c, c.slices[m])
  {
    if m :| m in c.slices && m.cluster == key.cluster && c.slices[m].exportName == key.name
            && k in SliceTargets(c, c.slices[m])
    {
      assert m in SlicesIn(c, key.cluster);
    }
  }
}
