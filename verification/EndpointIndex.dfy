/**
 The endpoint-slice controller's way from an APIExport event to the slices that
 reference the export: an index with up to two keys for each slice.
 */
module EndpointIndex {
  import opened Wrappers
  import opened Apis
  import opened WorkQueues
  import opened Queueing

  // ----- Paths and index keys -----

  /** A logical cluster path extended by a name. */
  function Join(path: string, name: string): string {
    if path == "" then name else path + ":" + name
  }

  function IndexValues(s: EndpointSlice): seq<string> {
    (if s.exportPath != "" then [Join(s.exportPath, s.exportName)] else [])
    + (if s.cluster != "" then [Join(s.cluster, s.exportName)] else [])
  }

  /** IndexFilteredAPIExportEndpointSliceByAPIExport. */
  method IndexByAPIExport(s: EndpointSlice) returns (result: seq<string>)
    ensures result == IndexValues(s)
  {
    result := [];
    var pathRemote := s.exportPath;
    if pathRemote != "" {
      result := result + [Join(pathRemote, s.exportName)];
    }
    var pathLocal := s.cluster;
    if pathLocal != "" {
      result := result + [Join(pathLocal, s.exportName)];
    }
  }

  /** The keys the index answers for one value. */
  function Indexed(slices: map<ObjectKey, EndpointSlice>, value: string): set<ObjectKey> {
    set k | k in slices && value in IndexValues(slices[k])
  }

  /** The keys queued for an event of the export. */
  function Targets(slices: map<ObjectKey, EndpointSlice>, e: APIExport): set<ObjectKey> {
    (if e.path != "" then Indexed(slices, Join(e.path, e.name)) else {})
    + Indexed(slices, Join(e.cluster, e.name))
  }

  class EndpointSliceController {
    var slices: map<ObjectKey, EndpointSlice>
    const queue: WorkQueue

    constructor (slices: map<ObjectKey, EndpointSlice>)
      ensures this.slices == slices && fresh(queue) && queue.View() == EMPTY
    {
      this.slices := slices;
      queue := new WorkQueue();
    }

    method IndexKeys(value: string) returns (keys: set<ObjectKey>)
      ensures keys == Indexed(slices, value)
    {
      keys := {};
      var left := slices.Keys;
      while left != {}
        invariant left <= slices.Keys
        invariant keys == set k | k in slices && k !in left && value in IndexValues(slices[k])
        decreases left
      {
        var k :| k in left;
        var values := IndexByAPIExport(slices[k]);
        if value in values {
          keys := keys + {k};
        }
        left := left - {k};
      }
    }

    /**
     enqueueFilteredAPIExportEndpointSlicesForAPIExport. `gone` are slices that
     leave the cache between the index lookup and the lookup by key.
     */
    method EnqueueForAPIExport(e: APIExport, gone: set<ObjectKey>) returns (ghost added: seq<ObjectKey>)
      requires forall k :: k in slices ==> slices[k].Key() == k
      modifies queue
      ensures queue.View() == AddAll(old(queue.View()), added)
      ensures Enumerates(added, Targets(slices, e) - gone)
    {
      var keys := {};
      var path := e.path;
      if path != "" {
        var pathKeys := IndexKeys(Join(path, e.name));
        keys := keys + pathKeys;
      }
      var clusterKeys := IndexKeys(Join(e.cluster, e.name));
      keys := keys + clusterKeys;
      added := [];
      ghost var all := keys;
      while keys != {}
        invariant keys <= all
        invariant queue.View() == AddAll(old(queue.View()), added)
        invariant Enumerates(added, all - keys - gone)
        decreases keys
      {
        var key :| key in keys;
        assert key in slices;
        ghost var before := all - keys - gone;
        keys := keys - {key};
        assert all - keys - gone == if key in gone then before else before + {key};
        if key in slices && key !in gone {
          assert (added + [key])[..|added|] == added;
          EnumeratesOneMore(added, before, key);
          queue.Add(slices[key].Key());
          added := added + [key];
        }
      }
    }
  }

  // ----- What a full scan would queue -----

  /** The paths an export is known under: its cluster and, if annotated, its workspace path. */
  function PathsOf(e: APIExport): set<string> {
    {e.cluster} + if e.path != "" then {e.path} else {}
  }

  /** The path the reconciler looks the slice's export up under. */
  function LookupPath(s: EndpointSlice): string {
    if s.exportPath == "" then s.cluster else s.exportPath
  }

  predicate LooksUp(s: EndpointSlice, e: APIExport) {
    s.exportName == e.name && LookupPath(s) in PathsOf(e)
  }

  /** The slice names the export, and its remote or its own path is one of the export's. */
  predicate References(s: EndpointSlice, e: APIExport) {
    && s.exportName == e.name
    && ((s.exportPath != "" && s.exportPath in PathsOf(e)) || (s.cluster != "" && s.cluster in PathsOf(e)))
  }

  lemma JoinIsInjective(p: string, n: string, q: string, m: string)
    requires ':' !in n && ':' !in m && p != ""
    ensures Join(p, n) == Join(q, m) <==> p == q && n == m
  {
    if Join(p, n) == Join(q, m) {
      var s := Join(p, n);
      assert s[|p|] == ':' && s[..|p|] == p && s[|p| + 1..] == n;
      assert ':' in s;
      assert q != "";
      assert s[|q|] == ':' && s[..|q|] == q && s[|q| + 1..] == m;
      assert forall i :: |p| < i < |s| ==> s[i] in n;
      assert forall i :: |q| < i < |s| ==> s[i] in m;
      assert |p| == |q|;
    }
  }

  lemma IndexedIff(s: EndpointSlice, path: string, name: string)
    requires ':' !in s.exportName && ':' !in name
    ensures Join(path, name) in IndexValues(s) <==>
              && s.exportName == name
              && ((s.exportPath != "" && s.exportPath == path) || (s.cluster != "" && s.cluster == path))
  {
    if s.exportPath != "" { JoinIsInjective(s.exportPath, s.exportName, path, name); }
    if s.cluster != "" { JoinIsInjective(s.cluster, s.exportName, path, name); }
    var values := IndexValues(s);
    if s.exportPath != "" {
      assert values[0] == Join(s.exportPath, s.exportName);
    }
    if s.cluster != "" {
      assert values[|values| - 1] == Join(s.cluster, s.exportName);
    }
  }

  ghost predicate PlainNames(slices: map<ObjectKey, EndpointSlice>, e: APIExport) {
    ':' !in e.name && forall k :: k in slices ==> ':' !in slices[k].exportName
  }

  /** For colon-free names the two index lookups queue exactly what a scan of every slice would. */
  lemma IndexLookupIsFullScan(slices: map<ObjectKey, EndpointSlice>, e: APIExport)
    requires PlainNames(slices, e)
    ensures Targets(slices, e) == set k | k in slices && References(slices[k], e)
  {
    forall k | k in slices
      ensures k in Targets(slices, e) <==> References(slices[k], e)
    {
      IndexedIff(slices[k], e.path, e.name);
      IndexedIff(slices[k], e.cluster, e.name);
    }
  }

  /** No slice whose reconcile would find the export is missed. */
  lemma LookupsAreQueued(slices: map<ObjectKey, EndpointSlice>, e: APIExport, k: ObjectKey)
    requires PlainNames(slices, e) && k in slices && slices[k].cluster != ""
    requires LooksUp(slices[k], e)
    ensures k in Targets(slices, e)
  {
    IndexLookupIsFullScan(slices, e);
  }

  /**
   The other direction fails in exactly one family: a slice that looks elsewhere,
   by a remote path that is not the export's, but lives where the export is found.
   */
  lemma QueuedInVainIff(slices: map<ObjectKey, EndpointSlice>, e: APIExport, k: ObjectKey)
    requires PlainNames(slices, e) && k in slices
    ensures k in Targets(slices, e) && !LooksUp(slices[k], e) <==>
            && slices[k].exportName == e.name
            && slices[k].exportPath != "" && slices[k].exportPath !in PathsOf(e)
            && slices[k].cluster != "" && slices[k].cluster in PathsOf(e)
  {
    IndexLookupIsFullScan(slices, e);
  }

  /** With a colon in a name the index can confuse two references. */
  lemma ColonsCollide(slice: EndpointSlice, e: APIExport, k: ObjectKey)
    requires slice.exportPath == "a" && slice.exportName == "b:c" && slice.cluster == "x"
    requires e.path == "a:b" && e.name == "c" && e.cluster == "y"
    ensures k in Targets(map[k := slice], e) && !References(slice, e)
  {
    assert IndexValues(slice)[0] == "a:b:c" == Join(e.path, e.name);
  }
}
